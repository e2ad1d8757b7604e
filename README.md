# Invitation page link state, in Dafny

A model of the link-state logic of the event-invitation page script `app.js`:

- the **state resolver**, which reads the page URL's query into the state record
  `event, lang, name, ref, tier`, each with its default, and normalises `lang`
  to `en` or `jp`;
- the **localized text lookup** `t`, which reads a config field that is null, a
  plain string, or a map from locale to text, with the fallback chain
  current locale → English → empty string (using `??`, so only null and
  undefined entries are skipped);
- **`buildShareLink`**, which copies the page URL and rewrites its query with
  `searchParams.set` / `searchParams.delete` from the state.

The query is an ordered list of name/value pairs with the semantics of
URLSearchParams in section 6.2 of the WHATWG URL Standard: `get` gives the first
value, `set` overwrites the first pair and drops later ones (or appends), and
`delete` drops every pair with the name (module `UrlQuery`, file `url_query.dfy`).
The URL's `searchParams` object is the class `UrlQuery.SearchParams`, mutated
in place by `Set` and `Delete`. `BuildShareLink` is a method that allocates that
object from the page's query and updates it step by step, proved equal to the
specification function `App.ShareQuery`; the lemmas about `ShareQuery` state the
share link's promises: fields written, frame, round trip and idempotence.

The state record is the datatype `App.State`. `t` reads the global `state.lang`;
here the locale is passed to `App.Localize` as a parameter.

Up to app.js:40 the script reads the referral code from the query only,
writes no `to`/`from`/`music` parameters, and always writes `event` and
`lang` to the share link.

## Model

| member | source | states |
|---|---|---|
| `UrlQuery.Get` | app.js:6-10 | `qs.get(name)`: None (null) exactly when no pair has the name; otherwise the value of a pair carrying that name |
| `UrlQuery.GetIsFirst` | app.js:6-10 | `qs.get(name)` answers the value of the first pair under the name (the one after pairs with other names only), whatever later pairs under it hold |
| `UrlQuery.UpdatedInPlace` | app.js:36-37 | `set` overwrites the first pair under the name where it stands, keeps every pair before it, and drops the later pairs under the name |
| `UrlQuery.Updated` | app.js:36-37 | after `set(name, value)` exactly one pair has the name and `get` returns `value`; the length drops by the removed duplicates |
| `UrlQuery.Removed` | app.js:39 | after `delete(name)` no pair has the name, every other pair stays, and the length drops by the number removed |
| `UrlQuery.UpdatedAppends` | app.js:36 | `set` on a name with no pair appends the new pair at the end of the query |
| `UrlQuery.UpdatedKeepsOthers` | app.js:36-37 | `set` on one name leaves `get` and the pair count of every other name unchanged |
| `UrlQuery.RemovedKeepsOthers` | app.js:39 | `delete` on one name leaves `get` and the pair count of every other name unchanged |
| `UrlQuery.UpdatedFrame` | app.js:36-37 | `set` under a name in a set of names keeps the pairs outside that set, in their order |
| `UrlQuery.RemovedFrame` | app.js:39 | `delete` of a name in a set of names keeps the pairs outside that set, in their order |
| `UrlQuery.GetWithout` | app.js:6-10 | `get` of a name outside a set of names reads the same value once the pairs in the set are dropped |
| `UrlQuery.UpdatedSame` | app.js:36-37 | `set` of the value a name already holds as its only pair leaves the query as it was |
| `UrlQuery.RemovedAbsent` | app.js:39 | `delete` of a name with no pair leaves the query as it was |
| `UrlQuery.SearchParams.constructor` | app.js:35 | `new URL(href)` starts from the pairs of the URL being copied |
| `UrlQuery.SearchParams.Set` | app.js:36-37 | in-place `set`: the new list is `Updated` of the old one, with exactly one pair under the name holding the value |
| `UrlQuery.SearchParams.Delete` | app.js:39 | in-place `delete`: the new list is `Removed` of the old one, with no pair under the name |
| `App.Resolve` | app.js:5-11 | the state initialiser: `event` is the query's non-empty value or `uvx-mar-2026` (so never empty); `lang` is `en` or `jp`, and `en` when the query has no `lang`; `name`, `ref`, `tier` are the query's value or `""` |
| `App.LangCode` | app.js:7 | the lowercase comparison with `jp` always yields `en` or `jp` |
| `App.LangCodeIsJpIff` | app.js:7 | the code is `jp` exactly when the raw value is `jp` in some letter case |
| `App.LangIsJpIff` | app.js:7 | the resolved `lang` is `jp` exactly when the query's `lang` value is `jp` in some letter case; any other, empty or missing value gives `en` |
| `App.Localize` | app.js:15-19 | `t`: null gives `""`; a plain string is returned unchanged for any locale; a locale map gives the non-nullish entry of the locale (an empty string included), else the non-nullish `en` entry, else `""` |
| `App.LocalizeDrawsFromEntries` | app.js:18 | the looked-up text is empty or the value stored under the current locale or under `en` |
| `App.LocalizeFallsBackToEnglish` | app.js:18 | with the locale's entry missing or null, the text is what the English locale would show |
| `App.BuildShareLink` | app.js:34-40 | the method that copies the page URL and sets or deletes each field yields `ShareQuery` of the page query and state, with `event` and `lang` holding the state's values |
| `App.ShareQueryFields` | app.js:36-40 | the link has exactly one `event` and one `lang` pair with the state's values; `name` and `ref` appear once with the state's value when it is non-empty and are absent otherwise |
| `App.KeepsOthers` | app.js:39-40 | the conditional set-or-delete of one field leaves every other name's value and pair count unchanged |
| `App.ShareQueryFrame` | app.js:35-40 | every pair of the page URL outside `event`, `lang`, `name`, `ref` is still in the link, in its order, and nothing else is |
| `App.StepFrame` | app.js:39-40 | the conditional set-or-delete of one field keeps every pair outside the four share names |
| `App.ShareQueryKeeps` | app.js:35-40 | every query name other than the four share names reads the same from the link as from the page URL |
| `App.ShareQueryKeepsTier` | app.js:34-40 | the link's `tier` reads the same as the page URL's: the share link never writes it |
| `App.ShareLinkRoundTrip` | app.js:34-40 | resolving the state from the link built from a resolvable state gives back its `event`, `lang`, `name` and `ref`, and the `tier` of the page URL |
| `App.ResolveIsIdempotent` | app.js:5-11 | re-deriving the state from the link built from the page's own state gives the same state, all five fields |
| `App.ShareQueryIdempotent` | app.js:34-40 | building the link again from an already built link with the same state changes nothing |
| `App.ShareLinkKeepsQuery` | app.js:6-9 | a non-empty `event`, `name` or `ref` of the page URL reads the same from the link built from the page's own state |

## Left out

- `yen` (app.js:21-23): a wrapper over `Intl.NumberFormat` on a JavaScript number, which may be a float or NaN; foreign library and floating point.
- `$` and `setLangUI` (app.js:13, 25-32): DOM lookups, class toggling and placeholder text, which are presentation only.
- `window.location`, `new URL(...)`'s parsing of the URL text, percent-encoding and the path and fragment of the URL: the query is an abstract list of decoded pairs, and the link is represented by its query.
- Everything after the source text stops partway through app.js:40: the `ref` delete branch is taken to be `searchParams.delete("ref")`, the returned value of `buildShareLink` is represented by the updated query, and any handling of `tier` in the link, clipboard, config fetch, rendering, music and local-storage tracking are not part of this model.
- `App.Lower`: `toLowerCase` is modelled on the ASCII letters only; no other code point lowercases to `j` or `p`, so the comparison with `jp` is unaffected.
- `App.Localize`: entries of a locale map that are numbers, booleans or objects are not modelled (entries are text or null); a number or boolean passed as the field behaves like a map with no entries, which this model does not list as its own case.
- The state is a value passed explicitly, not a global object: app.js up to line 40 never reassigns its fields.
