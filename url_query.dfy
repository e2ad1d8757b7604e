/**
 * A URL's query as the WHATWG URL Standard's URLSearchParams object keeps it
 * (section 6.2): an ordered list of name/value pairs. `get` answers the first
 * value under a name, `set` overwrites the first pair under a name and drops
 * the rest (or appends when there is none), `delete` drops every pair under
 * a name. Parsing and percent-encoding of the query text are not modelled.
 */
module UrlQuery {
  import opened Wrappers

  /** One name/value pair of a query, in the order the query lists them. */
  datatype Param = Param(name: string, value: string)

  /** How many pairs of `q` carry `name`. */
  function Count(q: seq<Param>, name: string): nat
  {
    if q == [] then 0
    else (if q[0].name == name then 1 else 0) + Count(q[1..], name)
  }

  /** `searchParams.get(name)`: the value of the first pair named `name`, None for null. */
  function Get(q: seq<Param>, name: string): (r: Option<string>)
    ensures r.None? <==> Count(q, name) == 0
    ensures r.Some? ==> Param(name, r.value) in q
  {
    if q == [] then None
    else if q[0].name == name then Some(q[0].value)
    else Get(q[1..], name)
  }

  /**
   * `get` answers the value of the FIRST pair under `name`: the one after a
   * stretch of pairs with other names, whatever pairs under `name` follow it.
   */
  lemma {:induction false} GetIsFirst(before: seq<Param>, value: string, after: seq<Param>, name: string)
    requires Count(before, name) == 0
    ensures Get(before + [Param(name, value)] + after, name) == Some(value)
  {
    var q := before + [Param(name, value)] + after;
    if before != [] {
      assert q[0] == before[0] && q[1..] == before[1..] + [Param(name, value)] + after;
      GetIsFirst(before[1..], value, after, name);
    }
  }

  /** `searchParams.delete(name)`: the query without any pair named `name`. */
  function Removed(q: seq<Param>, name: string): (r: seq<Param>)
    ensures Count(r, name) == 0
    ensures |r| == |q| - Count(q, name)
    ensures forall p :: p in r <==> p in q && p.name != name
  {
    if q == [] then []
    else if q[0].name == name then Removed(q[1..], name)
    else
      var rest := Removed(q[1..], name);
      assert ([q[0]] + rest)[1..] == rest;
      [q[0]] + rest
  }

  /**
   * `searchParams.set(name, value)`: the first pair named `name` takes `value`
   * where it stands and the other pairs named `name` go; with no such pair,
   * the new pair is appended.
   */
  function Updated(q: seq<Param>, name: string, value: string): (r: seq<Param>)
    ensures Count(r, name) == 1
    ensures Get(r, name) == Some(value)
    ensures |r| == |q| - Count(q, name) + 1
  {
    if q == [] then [Param(name, value)]
    else if q[0].name == name then
      var rest := Removed(q[1..], name);
      assert ([Param(name, value)] + rest)[1..] == rest;
      [Param(name, value)] + rest
    else
      var rest := Updated(q[1..], name, value);
      assert ([q[0]] + rest)[1..] == rest;
      [q[0]] + rest
  }

  /** The pairs of `q` whose names are outside `names`, in their order. */
  function Without(q: seq<Param>, names: set<string>): (r: seq<Param>)
  {
    if q == [] then []
    else if q[0].name in names then Without(q[1..], names)
    else [q[0]] + Without(q[1..], names)
  }

  /** With no pair under `name`, `set` appends one at the end. */
  lemma {:induction false} UpdatedAppends(q: seq<Param>, name: string, value: string)
    requires Count(q, name) == 0
    ensures Updated(q, name, value) == q + [Param(name, value)]
  {
    if q != [] {
      assert q[0].name != name;
      UpdatedAppends(q[1..], name, value);
      assert q == [q[0]] + q[1..];
    }
  }

  /**
   * `set` overwrites the first pair under `name` where it stands: the pairs
   * before it stay, and the later pairs under `name` go.
   */
  lemma {:induction false} UpdatedInPlace(before: seq<Param>, first: string, after: seq<Param>, name: string, value: string)
    requires Count(before, name) == 0
    ensures Updated(before + [Param(name, first)] + after, name, value)
            == before + [Param(name, value)] + Removed(after, name)
  {
    var rest, tail := [Param(name, first)] + after, Removed(after, name);
    Associative(before, [Param(name, first)], after);
    if before == [] {
      assert before + rest == rest;
    } else {
      var b1 := before[1..];
      Associative(b1, [Param(name, first)], after);
      UpdatedInPlace(b1, first, after, name, value);
      UpdatedPastOther(before, rest, name, value);
      Associative([before[0]], b1 + [Param(name, value)], tail);
      Associative([before[0]], b1, [Param(name, value)]);
      assert [before[0]] + b1 == before;
    }
  }

  lemma Associative(a: seq<Param>, b: seq<Param>, c: seq<Param>)
    ensures a + b + c == a + (b + c)
  {
  }

  /** `set` passes over a leading pair with another name. */
  lemma UpdatedPastOther(before: seq<Param>, rest: seq<Param>, name: string, value: string)
    requires before != [] && Count(before, name) == 0
    ensures before[0].name != name
    ensures Updated(before + rest, name, value) == [before[0]] + Updated(before[1..] + rest, name, value)
  {
    assert (before + rest)[1..] == before[1..] + rest;
  }

  /** `set` on one name leaves `get` and the number of pairs of every other name as they were. */
  lemma {:induction false} UpdatedKeepsOthers(q: seq<Param>, name: string, value: string, other: string)
    requires other != name
    ensures Get(Updated(q, name, value), other) == Get(q, other)
    ensures Count(Updated(q, name, value), other) == Count(q, other)
  {
    if q != [] {
      var r := Updated(q, name, value);
      if q[0].name == name {
        RemovedKeepsOthers(q[1..], name, other);
        assert r[1..] == Removed(q[1..], name);
      } else {
        UpdatedKeepsOthers(q[1..], name, value, other);
        assert r[1..] == Updated(q[1..], name, value);
      }
    }
  }

  /** `delete` on one name leaves `get` and the number of pairs of every other name as they were. */
  lemma {:induction false} RemovedKeepsOthers(q: seq<Param>, name: string, other: string)
    requires other != name
    ensures Get(Removed(q, name), other) == Get(q, other)
    ensures Count(Removed(q, name), other) == Count(q, other)
  {
    if q != [] {
      RemovedKeepsOthers(q[1..], name, other);
      if q[0].name != name {
        assert Removed(q, name)[1..] == Removed(q[1..], name);
      }
    }
  }

  /** `set` under a name in `names` leaves every pair outside `names`, and their order, as they were. */
  lemma {:induction false} UpdatedFrame(q: seq<Param>, name: string, value: string, names: set<string>)
    requires name in names
    ensures Without(Updated(q, name, value), names) == Without(q, names)
  {
    if q != [] {
      var r := Updated(q, name, value);
      if q[0].name == name {
        RemovedFrame(q[1..], name, names);
        assert r[1..] == Removed(q[1..], name);
      } else {
        UpdatedFrame(q[1..], name, value, names);
        assert r[1..] == Updated(q[1..], name, value);
      }
    }
  }

  /** `delete` of a name in `names` leaves every pair outside `names`, and their order, as they were. */
  lemma {:induction false} RemovedFrame(q: seq<Param>, name: string, names: set<string>)
    requires name in names
    ensures Without(Removed(q, name), names) == Without(q, names)
  {
    if q != [] {
      RemovedFrame(q[1..], name, names);
      if q[0].name != name {
        assert Removed(q, name)[1..] == Removed(q[1..], name);
      }
    }
  }

  /** The value `get` reads under a name outside `names` is the same with or without the pairs in `names`. */
  lemma {:induction false} GetWithout(q: seq<Param>, names: set<string>, name: string)
    requires name !in names
    ensures Get(Without(q, names), name) == Get(q, name)
  {
    if q != [] {
      GetWithout(q[1..], names, name);
      if q[0].name !in names {
        assert Without(q, names)[1..] == Without(q[1..], names);
      }
    }
  }

  /** Setting a name to the value it already holds, as its only pair, changes nothing. */
  lemma {:induction false} UpdatedSame(q: seq<Param>, name: string, value: string)
    requires Count(q, name) == 1 && Get(q, name) == Some(value)
    ensures Updated(q, name, value) == q
  {
    if q[0].name == name {
      RemovedAbsent(q[1..], name);
      assert q == [q[0]] + q[1..];
    } else {
      UpdatedSame(q[1..], name, value);
      assert q == [q[0]] + q[1..];
    }
  }

  /** Deleting a name that has no pair changes nothing. */
  lemma {:induction false} RemovedAbsent(q: seq<Param>, name: string)
    requires Count(q, name) == 0
    ensures Removed(q, name) == q
  {
    if q != [] {
      RemovedAbsent(q[1..], name);
      assert q == [q[0]] + q[1..];
    }
  }

  /**
   * The `searchParams` object of a `URL`, updated in place by `set` and
   * `delete`; `list` is its pair list.
   */
  class SearchParams {
    var list: seq<Param>

    /** The query of `new URL(href)`: the pairs of the URL being copied. */
    constructor (query: seq<Param>)
      ensures list == query
    {
      list := query;
    }

    method Set(name: string, value: string)
      modifies this
      ensures list == Updated(old(list), name, value)
      ensures Count(list, name) == 1 && Get(list, name) == Some(value)
    {
      list := Updated(list, name, value);
    }

    method Delete(name: string)
      modifies this
      ensures list == Removed(old(list), name)
      ensures Count(list, name) == 0
    {
      list := Removed(list, name);
    }
  }
}
