/** The query of a URL as the `URLSearchParams` class of section 6.2 of the WHATWG URL Standard
    holds it: an ordered list of name-value pairs in which a name may repeat. Parsing and
    serialising the query text (percent-encoding, `+`, `&`) are not part of this model. */
module SearchParams {
  import opened Wrappers

  type Pair = (string, string)

  /** `getAll(name)`: the values of every pair with that name, in list order. */
  function ValuesOf(q: seq<Pair>, name: string): (vs: seq<string>)
    ensures |vs| <= |q|
  {
    if q == [] then []
    else (if q[0].0 == name then [q[0].1] else []) + ValuesOf(q[1..], name)
  }

  /** `has(name)`. */
  predicate Has(q: seq<Pair>, name: string) {
    exists i :: 0 <= i < |q| && q[i].0 == name
  }

  /** `get(name)`: the value of the first pair with that name, `None` for `null`. */
  function Get(q: seq<Pair>, name: string): (r: Option<string>)
    ensures r.Some? <==> Has(q, name)
    ensures r.Some? ==> exists i :: 0 <= i < |q| && q[i] == (name, r.value) && forall j :: 0 <= j < i ==> q[j].0 != name
  {
    if q == [] then None
    else if q[0].0 == name then Some(q[0].1)
    else
      var r := Get(q[1..], name);
      assert Has(q[1..], name) ==> Has(q, name) by {
        if Has(q[1..], name) {
          var i :| 0 <= i < |q[1..]| && q[1..][i].0 == name;
          assert q[i + 1].0 == name;
        }
      }
      assert Has(q, name) ==> Has(q[1..], name) by {
        if Has(q, name) {
          var i :| 0 <= i < |q| && q[i].0 == name;
          assert q[1..][i - 1].0 == name;
        }
      }
      if r.Some? then
        var i :| 0 <= i < |q[1..]| && q[1..][i] == (name, r.value) && forall j :: 0 <= j < i ==> q[1..][j].0 != name;
        assert q[i + 1] == (name, r.value);
        assert forall j :: 0 <= j < i + 1 ==> q[j].0 != name by {
          forall j | 0 <= j < i + 1 ensures q[j].0 != name {
            if j > 0 { assert q[j] == q[1..][j - 1]; }
          }
        }
        r
      else r
  }

  /** All pairs with the given name removed, the others kept in order. */
  function RemoveName(q: seq<Pair>, name: string): (r: seq<Pair>)
    ensures |r| <= |q|
  {
    if q == [] then []
    else (if q[0].0 == name then [] else [q[0]]) + RemoveName(q[1..], name)
  }

  /** The first pair with the name gets the value; every later pair with that name is removed. */
  function ReplaceFirst(q: seq<Pair>, name: string, value: string): seq<Pair> {
    if q == [] then []
    else if q[0].0 == name then [(name, value)] + RemoveName(q[1..], name)
    else [q[0]] + ReplaceFirst(q[1..], name, value)
  }

  /** `set(name, value)`, section 6.2 of the URL Standard: if a pair has that name, the first such pair
      takes the value and the others are removed; otherwise the pair is appended. */
  function SetParam(q: seq<Pair>, name: string, value: string): seq<Pair> {
    if Has(q, name) then ReplaceFirst(q, name, value) else q + [(name, value)]
  }

  /** Appending lists appends their values for every name. */
  lemma {:induction false} ValuesOfAppend(a: seq<Pair>, b: seq<Pair>, name: string)
    ensures ValuesOf(a + b, name) == ValuesOf(a, name) + ValuesOf(b, name)
  {
    if a != [] {
      assert (a + b)[1..] == a[1..] + b;
      ValuesOfAppend(a[1..], b, name);
    } else {
      assert a + b == b;
    }
  }

  /** A name is present exactly when it has a value; `get` returns the first of its values. */
  lemma {:induction false} GetIsFirstValue(q: seq<Pair>, name: string)
    ensures Has(q, name) <==> ValuesOf(q, name) != []
    ensures Get(q, name) == if ValuesOf(q, name) == [] then None else Some(ValuesOf(q, name)[0])
  {
    if q != [] {
      GetIsFirstValue(q[1..], name);
      if q[0].0 != name {
        assert Has(q, name) ==> Has(q[1..], name) by {
          if Has(q, name) {
            var i :| 0 <= i < |q| && q[i].0 == name;
            assert q[1..][i - 1].0 == name;
          }
        }
        assert Has(q[1..], name) ==> Has(q, name) by {
          if Has(q[1..], name) {
            var i :| 0 <= i < |q[1..]| && q[1..][i].0 == name;
            assert q[i + 1].0 == name;
          }
        }
      }
    }
  }

  lemma {:induction false} RemoveNameValues(q: seq<Pair>, name: string, other: string)
    ensures ValuesOf(RemoveName(q, name), other) == if other == name then [] else ValuesOf(q, other)
  {
    if q != [] {
      RemoveNameValues(q[1..], name, other);
      ValuesOfAppend(if q[0].0 == name then [] else [q[0]], RemoveName(q[1..], name), other);
    }
  }

  lemma {:induction false} ReplaceFirstValues(q: seq<Pair>, name: string, value: string, other: string)
    requires Has(q, name)
    ensures ValuesOf(ReplaceFirst(q, name, value), other) == if other == name then [value] else ValuesOf(q, other)
  {
    if q[0].0 == name {
      RemoveNameValues(q[1..], name, other);
      ValuesOfAppend([(name, value)], RemoveName(q[1..], name), other);
    } else {
      var i :| 0 <= i < |q| && q[i].0 == name;
      assert q[1..][i - 1].0 == name;
      ReplaceFirstValues(q[1..], name, value, other);
      ValuesOfAppend([q[0]], ReplaceFirst(q[1..], name, value), other);
    }
  }

  /** After `set(name, value)` the name has exactly the one value, and every other name keeps its
      values in order. */
  lemma SetParamValues(q: seq<Pair>, name: string, value: string, other: string)
    ensures ValuesOf(SetParam(q, name, value), other) == if other == name then [value] else ValuesOf(q, other)
  {
    if Has(q, name) {
      ReplaceFirstValues(q, name, value, other);
    } else {
      GetIsFirstValue(q, name);
      ValuesOfAppend(q, [(name, value)], other);
    }
  }

  /** `set` on a present name rewrites the first pair where it stands: everything before it is kept. */
  lemma {:induction false} SetParamInPlace(q: seq<Pair>, name: string, value: string, i: nat)
    requires i < |q| && q[i].0 == name
    requires forall j :: 0 <= j < i ==> q[j].0 != name
    ensures Has(q, name)
    ensures |SetParam(q, name, value)| > i
    ensures SetParam(q, name, value)[..i] == q[..i]
    ensures SetParam(q, name, value)[i] == (name, value)
  {
    ReplaceFirstInPlace(q, name, value, i);
  }

  lemma {:induction false} ReplaceFirstInPlace(q: seq<Pair>, name: string, value: string, i: nat)
    requires i < |q| && q[i].0 == name
    requires forall j :: 0 <= j < i ==> q[j].0 != name
    ensures |ReplaceFirst(q, name, value)| > i
    ensures ReplaceFirst(q, name, value)[..i] == q[..i]
    ensures ReplaceFirst(q, name, value)[i] == (name, value)
  {
    if i > 0 {
      ReplaceFirstInPlace(q[1..], name, value, i - 1);
      var rest := ReplaceFirst(q[1..], name, value);
      assert ReplaceFirst(q, name, value) == [q[0]] + rest;
      assert ([q[0]] + rest)[..i] == [q[0]] + rest[..i - 1];
      assert q[..i] == [q[0]] + q[1..][..i - 1];
    }
  }

  /** Removing a name from two joined lists removes it from each. */
  lemma {:induction false} RemoveNameAppend(a: seq<Pair>, b: seq<Pair>, name: string)
    ensures RemoveName(a + b, name) == RemoveName(a, name) + RemoveName(b, name)
  {
    if a != [] {
      assert (a + b)[1..] == a[1..] + b;
      RemoveNameAppend(a[1..], b, name);
    } else {
      assert a + b == b;
    }
  }

  /** Removing a name twice removes no more than removing it once. */
  lemma {:induction false} RemoveNameTwice(q: seq<Pair>, name: string)
    ensures RemoveName(RemoveName(q, name), name) == RemoveName(q, name)
  {
    if q != [] {
      RemoveNameTwice(q[1..], name);
      RemoveNameAppend(if q[0].0 == name then [] else [q[0]], RemoveName(q[1..], name), name);
    }
  }

  /** `set` on an absent name appends exactly that pair. */
  lemma SetParamAbsent(q: seq<Pair>, name: string, value: string)
    requires !Has(q, name)
    ensures SetParam(q, name, value) == q + [(name, value)]
  {
  }

  /** `ensureSearchParam`: `set` only when the name is absent, which then appends the one pair. */
  function EnsureParam(q: seq<Pair>, name: string, value: string): (r: seq<Pair>)
    ensures Has(q, name) ==> r == q
    ensures !Has(q, name) ==> r == q + [(name, value)]
  {
    if Has(q, name) then q else SetParam(q, name, value)
  }

  /** After `ensureSearchParam`, an absent name has exactly the one value and every other name (and a
      present one) keeps its values. */
  lemma EnsureParamValues(q: seq<Pair>, name: string, value: string, other: string)
    ensures ValuesOf(EnsureParam(q, name, value), other)
            == if other == name && !Has(q, name) then [value] else ValuesOf(q, other)
  {
    if !Has(q, name) {
      ValuesOfAppend(q, [(name, value)], other);
      GetIsFirstValue(q, name);
    }
  }

  /** Lists with the same values for a name agree on `get` and `has` for it. */
  lemma SameValuesSameGet(q1: seq<Pair>, q2: seq<Pair>, name: string)
    requires ValuesOf(q1, name) == ValuesOf(q2, name)
    ensures Get(q1, name) == Get(q2, name) && (Has(q1, name) <==> Has(q2, name))
  {
    GetIsFirstValue(q1, name);
    GetIsFirstValue(q2, name);
  }

  /** The mutable query of one URL, `url.searchParams`. */
  class UrlSearchParams {
    var list: seq<Pair>

    /** `new URL(text)` for a base URL without a query. */
    constructor ()
      ensures list == []
    {
      list := [];
    }

    /** `append(name, value)`. */
    method Append(name: string, value: string)
      modifies this
      ensures list == old(list) + [(name, value)]
    {
      list := list + [(name, value)];
    }

    /** `set(name, value)`. */
    method Set(name: string, value: string)
      modifies this
      ensures list == SetParam(old(list), name, value)
    {
      list := SetParam(list, name, value);
    }

    /** `has(name)`. */
    predicate HasName(name: string)
      reads this
    {
      Has(list, name)
    }

    /** `get(name)`. */
    function GetValue(name: string): Option<string>
      reads this
    {
      Get(list, name)
    }
  }
}
