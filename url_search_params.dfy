/** The part of the browser's URLSearchParams class that the client uses (section 6.2
    of the WHATWG URL Standard): an ordered list of name/value pairs, already
    percent-decoded, with `get` (first match) and `set` (overwrite the first match and
    drop the others, or append). Serialising the list into a query string is the
    browser's and is not modelled; a navigation target is a path plus its pairs. */
module UrlSearchParams {
  import opened Wrappers

  type Pairs = seq<(string, string)>

  /** Where a `navigate(...)` call sends the browser. */
  datatype Location = Location(pathname: string, search: Pairs)

  predicate HasName(q: Pairs, name: string)
  {
    exists i :: 0 <= i < |q| && q[i].0 == name
  }

  /** `params.get(name)`: the value of the first pair with that name, None for `null`. */
  function Get(q: Pairs, name: string): (r: Option<string>)
    ensures r.None? <==> !HasName(q, name)
    ensures r.Some? ==> exists i :: 0 <= i < |q| && q[i] == (name, r.value) && !HasName(q[..i], name)
  {
    if q == [] then None
    else if q[0].0 == name then
      assert q[0] == (name, q[0].1) && q[..0] == [];
      Some(q[0].1)
    else
      var r := Get(q[1..], name);
      assert HasName(q, name) <==> HasName(q[1..], name) by {
        if HasName(q, name) {
          var i :| 0 <= i < |q| && q[i].0 == name;
          assert q[1..][i - 1].0 == name;
        }
      }
      if r.Some? then
        var i :| 0 <= i < |q[1..]| && q[1..][i] == (name, r.value) && !HasName(q[1..][..i], name);
        assert q[i + 1] == (name, r.value);
        assert !HasName(q[..i + 1], name) by {
          assert q[..i + 1] == [q[0]] + q[1..][..i];
        }
        r
      else r
  }

  /** JavaScript truthiness of a `get` result: present and not the empty string. */
  predicate NonEmpty(v: Option<string>)
  {
    v.Some? && v.value != ""
  }

  /** `get(name) || fallback`. */
  function OrElse(v: Option<string>, fallback: string): (r: string)
    ensures NonEmpty(v) ==> r == v.value
    ensures !NonEmpty(v) ==> r == fallback
  {
    if NonEmpty(v) then v.value else fallback
  }

  /** The pairs whose name is not `name`, in their order. */
  function Without(q: Pairs, name: string): (r: Pairs)
    ensures !HasName(r, name)
    ensures |r| <= |q|
    ensures forall p :: p in r <==> p in q && p.0 != name
  {
    if q == [] then []
    else if q[0].0 == name then Without(q[1..], name)
    else [q[0]] + Without(q[1..], name)
  }

  /** Number of pairs named `name`. */
  function Count(q: Pairs, name: string): nat
  {
    if q == [] then 0 else (if q[0].0 == name then 1 else 0) + Count(q[1..], name)
  }

  /** The first pair named `name` takes `value`; the later ones are removed. */
  function ReplaceFirst(q: Pairs, name: string, value: string): (r: Pairs)
    ensures HasName(q, name) ==> (name, value) in r
    ensures |r| <= |q|
  {
    if q == [] then []
    else if q[0].0 == name then [(name, value)] + Without(q[1..], name)
    else
      HasNameCons(q, name);
      [q[0]] + ReplaceFirst(q[1..], name, value)
  }

  /** `params.set(name, value)`. */
  function SetValue(q: Pairs, name: string, value: string): (r: Pairs)
    ensures HasName(q, name) ==> |r| <= |q|
    ensures !HasName(q, name) ==> r == q + [(name, value)]
  {
    if HasName(q, name) then ReplaceFirst(q, name, value) else q + [(name, value)]
  }

  /** The browser object: `new URLSearchParams(init)` and its in-place `set`. */
  class SearchParams {
    var pairs: Pairs

    constructor (init: Pairs)
      ensures pairs == init
    {
      pairs := init;
    }

    method Set(name: string, value: string)
      modifies this
      ensures pairs == SetValue(old(pairs), name, value)
    {
      pairs := SetValue(pairs, name, value);
    }
  }

  /** A list has the name when its head has it or its tail does. */
  lemma HasNameCons(q: Pairs, name: string)
    requires q != []
    ensures HasName(q, name) <==> q[0].0 == name || HasName(q[1..], name)
  {
    if HasName(q[1..], name) {
      var i :| 0 <= i < |q[1..]| && q[1..][i].0 == name;
      assert q[i + 1].0 == name;
    }
    if HasName(q, name) && q[0].0 != name {
      var i :| 0 <= i < |q| && q[i].0 == name;
      assert q[1..][i - 1].0 == name;
    }
  }

  lemma {:induction false} CountWithout(q: Pairs, name: string)
    ensures Count(Without(q, name), name) == 0
  {
    if q != [] {
      CountWithout(q[1..], name);
      if q[0].0 != name {
        assert ([q[0]] + Without(q[1..], name))[1..] == Without(q[1..], name);
      }
    }
  }

  lemma {:induction false} CountAbsent(q: Pairs, name: string)
    requires !HasName(q, name)
    ensures Count(q, name) == 0
  {
    if q != [] {
      assert q[0].0 != name;
      HasNameCons(q, name);
      CountAbsent(q[1..], name);
    }
  }

  lemma {:induction false} CountAppend(a: Pairs, b: Pairs, name: string)
    ensures Count(a + b, name) == Count(a, name) + Count(b, name)
  {
    if a != [] {
      assert (a + b)[1..] == a[1..] + b;
      CountAppend(a[1..], b, name);
    } else {
      assert a + b == b;
    }
  }

  lemma {:induction false} CountPositive(q: Pairs, name: string)
    requires HasName(q, name)
    ensures Count(q, name) > 0
  {
    if q[0].0 != name {
      assert HasName(q[1..], name) by {
        var i :| 0 <= i < |q| && q[i].0 == name;
        assert q[1..][i - 1].0 == name;
      }
      CountPositive(q[1..], name);
    }
  }

  /** After `set`, the name occurs exactly once. */
  lemma {:induction false} SetLeavesOne(q: Pairs, name: string, value: string)
    ensures Count(SetValue(q, name, value), name) == 1
  {
    if HasName(q, name) {
      ReplaceFirstCount(q, name, value);
    } else {
      CountAbsent(q, name);
      CountAppend(q, [(name, value)], name);
      assert [(name, value)][1..] == [];
    }
  }

  lemma {:induction false} ReplaceFirstCount(q: Pairs, name: string, value: string)
    requires HasName(q, name)
    ensures Count(ReplaceFirst(q, name, value), name) == 1
  {
    var r := ReplaceFirst(q, name, value);
    if q[0].0 == name {
      CountWithout(q[1..], name);
      assert r[1..] == Without(q[1..], name);
    } else {
      assert HasName(q[1..], name) by {
        var i :| 0 <= i < |q| && q[i].0 == name;
        assert q[1..][i - 1].0 == name;
      }
      ReplaceFirstCount(q[1..], name, value);
      assert r[1..] == ReplaceFirst(q[1..], name, value);
    }
  }

  /** After `set`, `get` returns the value just set. */
  lemma {:induction false} GetAfterSet(q: Pairs, name: string, value: string)
    ensures Get(SetValue(q, name, value), name) == Some(value)
  {
    if HasName(q, name) {
      ReplaceFirstGet(q, name, value);
    } else {
      GetAppendAbsent(q, [(name, value)], name);
    }
  }

  lemma {:induction false} ReplaceFirstGet(q: Pairs, name: string, value: string)
    requires HasName(q, name)
    ensures Get(ReplaceFirst(q, name, value), name) == Some(value)
  {
    if q[0].0 != name {
      assert HasName(q[1..], name) by {
        var i :| 0 <= i < |q| && q[i].0 == name;
        assert q[1..][i - 1].0 == name;
      }
      ReplaceFirstGet(q[1..], name, value);
      var r := ReplaceFirst(q, name, value);
      assert r[1..] == ReplaceFirst(q[1..], name, value);
    }
  }

  lemma {:induction false} GetAppendAbsent(a: Pairs, b: Pairs, name: string)
    requires !HasName(a, name)
    ensures Get(a + b, name) == Get(b, name)
  {
    if a == [] {
      assert a + b == b;
    } else {
      assert a[0].0 != name;
      assert (a + b)[1..] == a[1..] + b;
      HasNameCons(a, name);
      GetAppendAbsent(a[1..], b, name);
    }
  }

  /** `set` leaves every pair with another name in place and in order. */
  lemma {:induction false} SetKeepsOthers(q: Pairs, name: string, value: string)
    ensures Without(SetValue(q, name, value), name) == Without(q, name)
  {
    if HasName(q, name) {
      ReplaceFirstKeepsOthers(q, name, value);
    } else {
      WithoutAppend(q, [(name, value)], name);
      assert Without([(name, value)], name) == [] by {
        assert [(name, value)][1..] == [];
      }
      assert Without(q, name) + [] == Without(q, name);
    }
  }

  lemma {:induction false} WithoutIdempotent(q: Pairs, name: string)
    ensures Without(Without(q, name), name) == Without(q, name)
  {
    if q != [] {
      WithoutIdempotent(q[1..], name);
      if q[0].0 != name {
        assert ([q[0]] + Without(q[1..], name))[1..] == Without(q[1..], name);
      }
    }
  }

  lemma {:induction false} ReplaceFirstKeepsOthers(q: Pairs, name: string, value: string)
    ensures Without(ReplaceFirst(q, name, value), name) == Without(q, name)
  {
    if q != [] {
      var r := ReplaceFirst(q, name, value);
      if q[0].0 == name {
        assert r[1..] == Without(q[1..], name);
        WithoutIdempotent(q[1..], name);
      } else {
        assert r[1..] == ReplaceFirst(q[1..], name, value);
        ReplaceFirstKeepsOthers(q[1..], name, value);
      }
    }
  }

  lemma {:induction false} WithoutAppend(a: Pairs, b: Pairs, name: string)
    ensures Without(a + b, name) == Without(a, name) + Without(b, name)
  {
    if a == [] {
      assert a + b == b;
    } else {
      assert (a + b)[1..] == a[1..] + b;
      WithoutAppend(a[1..], b, name);
    }
  }

  /** Another name reads the same before and after `set`. */
  lemma {:induction false} GetOtherAfterSet(q: Pairs, name: string, value: string, other: string)
    requires other != name
    ensures Get(SetValue(q, name, value), other) == Get(q, other)
  {
    SetKeepsOthers(q, name, value);
    GetIgnoresWithout(q, name, other);
    GetIgnoresWithout(SetValue(q, name, value), name, other);
  }

  lemma {:induction false} GetIgnoresWithout(q: Pairs, name: string, other: string)
    requires other != name
    ensures Get(Without(q, name), other) == Get(q, other)
  {
    if q != [] {
      GetIgnoresWithout(q[1..], name, other);
      if q[0].0 != name {
        assert ([q[0]] + Without(q[1..], name))[1..] == Without(q[1..], name);
      }
    }
  }

  /** When the name is present, the first such pair keeps its position and everything
      before it is untouched; when it is absent, the new pair goes at the end. */
  lemma {:induction false} SetPosition(q: Pairs, name: string, value: string, i: nat)
    requires i < |q| && q[i].0 == name && !HasName(q[..i], name)
    ensures |SetValue(q, name, value)| > i
    ensures SetValue(q, name, value)[..i] == q[..i]
    ensures SetValue(q, name, value)[i] == (name, value)
  {
    assert HasName(q, name);
    ReplaceFirstPosition(q, name, value, i);
  }

  lemma {:induction false} ReplaceFirstPosition(q: Pairs, name: string, value: string, i: nat)
    requires i < |q| && q[i].0 == name && !HasName(q[..i], name)
    ensures |ReplaceFirst(q, name, value)| > i
    ensures ReplaceFirst(q, name, value)[..i] == q[..i]
    ensures ReplaceFirst(q, name, value)[i] == (name, value)
  {
    if i > 0 {
      assert q[0] == q[..i][0];
      var r := ReplaceFirst(q, name, value);
      assert q[..i] == [q[0]] + q[1..][..i - 1];
      HasNameCons(q[..i], name);
      assert q[..i][1..] == q[1..][..i - 1];
      ReplaceFirstPosition(q[1..], name, value, i - 1);
      assert r == [q[0]] + ReplaceFirst(q[1..], name, value);
      assert r[..i] == [q[0]] + ReplaceFirst(q[1..], name, value)[..i - 1];
      assert q[..i] == [q[0]] + q[1..][..i - 1];
    }
  }

  /** A name found in a prefix is read from there, whatever follows. */
  lemma {:induction false} GetFromPrefix(a: Pairs, b: Pairs, name: string)
    requires HasName(a, name)
    ensures Get(a + b, name) == Get(a, name)
  {
    HasNameCons(a, name);
    assert (a + b)[0] == a[0];
    if a[0].0 != name {
      assert (a + b)[1..] == a[1..] + b;
      GetFromPrefix(a[1..], b, name);
    }
  }
}
