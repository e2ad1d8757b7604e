/**
 * The invitation page's link state: how the query of the page URL becomes the
 * state record, how localized config text is looked up in that state's
 * language, and how the share link's query is written back from the state.
 */
module App {
  import opened Wrappers
  import opened UrlQuery

  /** Event slug used when the URL names none. */
  const DEFAULT_EVENT := "uvx-mar-2026"

  /** The query names the share link rewrites; every other name is left alone. */
  const SHARE_NAMES: set<string> := {"event", "lang", "name", "ref"}

  /** The page state: every field a string, never undefined. */
  datatype State = State(event: string, lang: string, name: string, ref: string, tier: string)

  /** `qs.get(name) || default`: a missing value or an empty one takes the default. */
  function ValueOr(q: seq<Param>, name: string, default: string): string
  {
    var v := Get(q, name);
    if v.Some? && v.value != "" then v.value else default
  }

  function LowerChar(c: char): char
  {
    if 'A' <= c <= 'Z' then (c as int - 'A' as int + 'a' as int) as char else c
  }

  /** `toLowerCase`, on the ASCII letters. */
  function Lower(s: string): string
  {
    seq(|s|, i requires 0 <= i < |s| => LowerChar(s[i]))
  }

  /** The spellings of the Japanese marker, in any letter case. */
  predicate IsJpMarker(v: string)
  {
    |v| == 2 && (v[0] == 'j' || v[0] == 'J') && (v[1] == 'p' || v[1] == 'P')
  }

  /** A state the resolver can produce: an event slug is set and the language is one of the two. */
  predicate Resolvable(s: State)
  {
    s.event != "" && (s.lang == "en" || s.lang == "jp")
  }

  /** The `state` initialiser: the query of the page URL read into the state record. */
  function Resolve(q: seq<Param>): (s: State)
    ensures Resolvable(s)
    ensures s.event == (if Get(q, "event").Some? && Get(q, "event").value != ""
                        then Get(q, "event").value else DEFAULT_EVENT)
    ensures Get(q, "lang").None? ==> s.lang == "en"
    ensures s.name == Get(q, "name").GetOr("")
    ensures s.ref == Get(q, "ref").GetOr("")
    ensures s.tier == Get(q, "tier").GetOr("")
  {
    State(
      ValueOr(q, "event", DEFAULT_EVENT),
      LangCode(ValueOr(q, "lang", "en")),
      ValueOr(q, "name", ""),
      ValueOr(q, "ref", ""),
      ValueOr(q, "tier", ""))
  }

  /** The language is Japanese exactly when the query's `lang` value is `jp` in some letter case. */
  lemma LangIsJpIff(q: seq<Param>)
    ensures Resolve(q).lang == "jp" <==> Get(q, "lang").Some? && IsJpMarker(Get(q, "lang").value)
  {
    LangCodeIsJpIff(ValueOr(q, "lang", "en"));
  }

  /** `raw.toLowerCase() === "jp" ? "jp" : "en"`. */
  function LangCode(raw: string): (lang: string)
    ensures lang == "en" || lang == "jp"
  {
    if Lower(raw) == "jp" then "jp" else "en"
  }

  lemma LangCodeIsJpIff(raw: string)
    ensures LangCode(raw) == "jp" <==> IsJpMarker(raw)
  {
  }

  /** A localizable config field: null or undefined, a plain string, or a map from locale to text. */
  datatype Text = Nullish | Plain(text: string) | Keyed(entries: map<string, Option<string>>)

  /** `entries[key] ?? …` takes this entry: it exists and is neither null nor undefined. */
  predicate Present(entries: map<string, Option<string>>, key: string)
  {
    key in entries && entries[key].Some?
  }

  /**
   * `t(obj)`, reading the current locale from `lang`: the locale's entry,
   * else the English entry, else the empty string.
   */
  function Localize(field: Text, lang: string): (r: string)
    ensures field.Nullish? ==> r == ""
    ensures field.Plain? ==> r == field.text
    ensures field.Keyed? && Present(field.entries, lang) ==> r == field.entries[lang].value
    ensures field.Keyed? && !Present(field.entries, lang) && Present(field.entries, "en") ==>
              r == field.entries["en"].value
    ensures field.Keyed? && !Present(field.entries, lang) && !Present(field.entries, "en") ==> r == ""
  {
    match field
    case Nullish => ""
    case Plain(text) => text
    case Keyed(entries) =>
      if Present(entries, lang) then entries[lang].value
      else if Present(entries, "en") then entries["en"].value
      else ""
  }

  /** Whatever the locale, the text comes from the locale's own entry, the English one, or is empty. */
  lemma LocalizeDrawsFromEntries(field: Text, lang: string)
    requires field.Keyed?
    ensures var r := Localize(field, lang);
            r == "" || (lang in field.entries && field.entries[lang] == Some(r))
                    || ("en" in field.entries && field.entries["en"] == Some(r))
  {
  }

  /** A missing or null locale entry reads exactly as the English text does. */
  lemma LocalizeFallsBackToEnglish(field: Text, lang: string)
    requires field.Keyed? && !Present(field.entries, lang)
    ensures Localize(field, lang) == Localize(field, "en")
  {
  }

  /** The query `buildShareLink` leaves on its copy of the page URL after its updates. */
  function ShareQuery(current: seq<Param>, s: State): seq<Param>
  {
    var withEvent := Updated(current, "event", s.event);
    var withLang := Updated(withEvent, "lang", s.lang);
    var withName := if s.name != "" then Updated(withLang, "name", s.name) else Removed(withLang, "name");
    if s.ref != "" then Updated(withName, "ref", s.ref) else Removed(withName, "ref")
  }

  /** `buildShareLink` up to app.js:40: copy the page URL, then set or delete each field. */
  method BuildShareLink(current: seq<Param>, s: State) returns (link: seq<Param>)
    ensures link == ShareQuery(current, s)
    ensures Get(link, "event") == Some(s.event) && Get(link, "lang") == Some(s.lang)
  {
    var u := new SearchParams(current);
    u.Set("event", s.event);
    u.Set("lang", s.lang);
    if s.name != "" { u.Set("name", s.name); } else { u.Delete("name"); }
    if s.ref != "" { u.Set("ref", s.ref); } else { u.Delete("ref"); }
    link := u.list;
    ShareQueryFields(current, s);
  }

  /**
   * The link holds exactly one `event` and one `lang` pair with the state's
   * values; `name` and `ref` appear once with the state's value when it is
   * non-empty and not at all otherwise.
   */
  lemma ShareQueryFields(current: seq<Param>, s: State)
    ensures var q := ShareQuery(current, s);
            Count(q, "event") == 1 && Get(q, "event") == Some(s.event) &&
            Count(q, "lang") == 1 && Get(q, "lang") == Some(s.lang) &&
            (s.name != "" ==> Count(q, "name") == 1 && Get(q, "name") == Some(s.name)) &&
            (s.name == "" ==> Count(q, "name") == 0) &&
            (s.ref != "" ==> Count(q, "ref") == 1 && Get(q, "ref") == Some(s.ref)) &&
            (s.ref == "" ==> Count(q, "ref") == 0)
  {
    var withEvent := Updated(current, "event", s.event);
    var withLang := Updated(withEvent, "lang", s.lang);
    UpdatedKeepsOthers(withEvent, "lang", s.lang, "event");
    var withName := if s.name != "" then Updated(withLang, "name", s.name) else Removed(withLang, "name");
    KeepsOthers(withLang, "name", s.name, "event");
    KeepsOthers(withLang, "name", s.name, "lang");
    KeepsOthers(withName, "ref", s.ref, "event");
    KeepsOthers(withName, "ref", s.ref, "lang");
    KeepsOthers(withName, "ref", s.ref, "name");
  }

  /** The `if value then set else delete` step leaves the other names' pairs counted and read as before. */
  lemma KeepsOthers(q: seq<Param>, name: string, value: string, other: string)
    requires other != name
    ensures var r := if value != "" then Updated(q, name, value) else Removed(q, name);
            Get(r, other) == Get(q, other) && Count(r, other) == Count(q, other)
  {
    if value != "" {
      UpdatedKeepsOthers(q, name, value, other);
    } else {
      RemovedKeepsOthers(q, name, other);
    }
  }

  /** Every pair of the page URL outside `event`, `lang`, `name` and `ref` stays, in its order. */
  lemma ShareQueryFrame(current: seq<Param>, s: State)
    ensures Without(ShareQuery(current, s), SHARE_NAMES) == Without(current, SHARE_NAMES)
  {
    var withEvent := Updated(current, "event", s.event);
    var withLang := Updated(withEvent, "lang", s.lang);
    var withName := if s.name != "" then Updated(withLang, "name", s.name) else Removed(withLang, "name");
    UpdatedFrame(current, "event", s.event, SHARE_NAMES);
    UpdatedFrame(withEvent, "lang", s.lang, SHARE_NAMES);
    StepFrame(withLang, "name", s.name);
    StepFrame(withName, "ref", s.ref);
  }

  /** Every other query name reads the same from the share link as from the page URL. */
  lemma ShareQueryKeeps(current: seq<Param>, s: State, name: string)
    requires name !in SHARE_NAMES
    ensures Get(ShareQuery(current, s), name) == Get(current, name)
  {
    ShareQueryFrame(current, s);
    GetWithout(ShareQuery(current, s), SHARE_NAMES, name);
    GetWithout(current, SHARE_NAMES, name);
  }

  /** The `if value then set else delete` step keeps every pair outside the share names. */
  lemma StepFrame(q: seq<Param>, name: string, value: string)
    requires name in SHARE_NAMES
    ensures var r := if value != "" then Updated(q, name, value) else Removed(q, name);
            Without(r, SHARE_NAMES) == Without(q, SHARE_NAMES)
  {
    if value != "" {
      UpdatedFrame(q, name, value, SHARE_NAMES);
    } else {
      RemovedFrame(q, name, SHARE_NAMES);
    }
  }

  /** The share link carries the page URL's `tier` as it was: app.js:34-40 never writes it. */
  lemma ShareQueryKeepsTier(current: seq<Param>, s: State)
    ensures Get(ShareQuery(current, s), "tier") == Get(current, "tier")
  {
    ShareQueryKeeps(current, s, "tier");
  }

  /**
   * Round trip: reading the state back from the share link gives the state's
   * event, language, name and referral code, and the tier of the page URL
   * the link was copied from.
   */
  lemma ShareLinkRoundTrip(current: seq<Param>, s: State)
    requires Resolvable(s)
    ensures var back := Resolve(ShareQuery(current, s));
            back.event == s.event && back.lang == s.lang && back.name == s.name && back.ref == s.ref &&
            back.tier == Resolve(current).tier
  {
    var q := ShareQuery(current, s);
    ShareQueryFields(current, s);
    ShareQueryKeepsTier(current, s);
    var back := Resolve(q);
    assert back.event == s.event;
    assert back.name == s.name;
    assert back.ref == s.ref;
    assert ValueOr(q, "lang", "en") == s.lang;
    LangCodeIsJpIff(s.lang);
    assert back.lang == s.lang;
  }

  /** Re-deriving the state from the link built from the page's own state gives that state again. */
  lemma ResolveIsIdempotent(q: seq<Param>)
    ensures Resolve(ShareQuery(q, Resolve(q))) == Resolve(q)
  {
    ShareLinkRoundTrip(q, Resolve(q));
  }

  /** Building the share link again from a link already built with the same state changes nothing. */
  lemma ShareQueryIdempotent(current: seq<Param>, s: State)
    ensures ShareQuery(ShareQuery(current, s), s) == ShareQuery(current, s)
  {
    var q := ShareQuery(current, s);
    ShareQueryFields(current, s);
    UpdatedSame(q, "event", s.event);
    UpdatedSame(q, "lang", s.lang);
    if s.name != "" { UpdatedSame(q, "name", s.name); } else { RemovedAbsent(q, "name"); }
    if s.ref != "" { UpdatedSame(q, "ref", s.ref); } else { RemovedAbsent(q, "ref"); }
  }

  /**
   * A non-empty `event`, `name` or `ref` of the page URL reads the same from
   * the share link built from the page's own state.
   */
  lemma ShareLinkKeepsQuery(q: seq<Param>, name: string)
    requires name == "event" || name == "name" || name == "ref"
    requires Get(q, name).Some? && Get(q, name).value != ""
    ensures Get(ShareQuery(q, Resolve(q)), name) == Get(q, name)
  {
    ShareQueryFields(q, Resolve(q));
  }
}
