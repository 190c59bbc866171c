/** Small shared vocabulary: optional values and facts about sequences. */
module Prelude {
  datatype Option<+T> = None | Some(value: T)

  ghost predicate Distinct<T(!new)>(s: seq<T>) {
    forall i, j :: 0 <= i < j < |s| ==> s[i] != s[j]
  }

  function ToSet<T>(s: seq<T>): set<T> {
    set x | x in s
  }

  /** A Python dict with string keys; `keys` holds the insertion order. */
  datatype Dict<V> = Dict(keys: seq<string>, at: map<string, V>) {
    ghost predicate Valid() {
      && Distinct(keys)
      && forall k :: k in keys <==> k in at
    }

    /** `d[k] = v`: a key already present keeps its place and takes the new value. */
    function Put(k: string, v: V): Dict<V> {
      Dict(if k in at then keys else keys + [k], at[k := v])
    }

    /** `d.pop(k, None)` */
    function Remove(k: string): Dict<V> {
      Dict(Without(keys, k), at - {k})
    }
  }

  function Without(keys: seq<string>, k: string): (r: seq<string>)
    ensures forall x :: x in r <==> x in keys && x != k
    ensures Distinct(keys) ==> Distinct(r)
  {
    if keys == [] then [] else
      var last := Last(keys);
      var rest := Without(keys[..|keys| - 1], k);
      assert keys == keys[..|keys| - 1] + [last];
      assert forall i :: 0 <= i < |rest| ==> rest[i] in rest && rest[i] in keys[..|keys| - 1];
      rest + if last == k then [] else [last]
  }

  lemma PutKeepsValid<V>(d: Dict<V>, k: string, v: V)
    requires d.Valid()
    ensures d.Put(k, v).Valid()
  {
    var h := d.Put(k, v);
    forall x ensures x in h.keys <==> x in h.at {
      if k !in d.at { assert h.keys[|d.keys|] == k; }
    }
  }

  function Last<T>(s: seq<T>): T
    requires |s| > 0
  {
    s[|s| - 1]
  }

  predicate EndsWith(s: string, suffix: string) {
    |suffix| <= |s| && s[|s| - |suffix|..] == suffix
  }

  ghost predicate StrictlyIncreasing(s: seq<int>) {
    forall i, j :: 0 <= i < j < |s| ==> s[i] < s[j]
  }

  /** A strictly increasing sequence is determined by its elements. */
  lemma {:induction false} IncreasingIsUnique(s: seq<int>, t: seq<int>)
    requires StrictlyIncreasing(s) && StrictlyIncreasing(t)
    requires forall x :: x in s <==> x in t
    ensures s == t
  {
    if s == [] {
      assert forall i :: 0 <= i < |t| ==> t[i] in s;
    } else {
      assert s[0] in t && t != [];
      assert t[0] in s;
      assert s[0] == t[0];
      forall x ensures x in s[1..] <==> x in t[1..] {
        if x in s[1..] { assert x in s && x != s[0]; }
        if x in t[1..] { assert x in t && x != t[0]; }
      }
      IncreasingIsUnique(s[1..], t[1..]);
      assert s == [s[0]] + s[1..];
      assert t == [t[0]] + t[1..];
    }
  }

  /** The elements of a set of integers in ascending order, as Python's sorted() returns them. */
  method SortKeys(keys: set<int>) returns (ks: seq<int>)
    ensures StrictlyIncreasing(ks)
    ensures forall k :: k in ks <==> k in keys
  {
    ks := [];
    var rest := keys;
    while rest != {}
      invariant rest <= keys
      invariant StrictlyIncreasing(ks)
      invariant forall k :: k in ks <==> k in keys - rest
      invariant forall a, b :: a in ks && b in rest ==> a < b
      decreases rest
    {
      ghost var least := Least(rest);
      var m :| m in rest && forall x :: x in rest ==> m <= x;
      forall i | 0 <= i < |ks| ensures ks[i] < m {
        assert ks[i] in ks && m in rest;
      }
      ks := ks + [m];
      rest := rest - {m};
    }
  }

  lemma SomeElement<T>(s: set<T>) returns (x: T)
    requires s != {}
    ensures x in s
  {
    x :| x in s;
  }

  lemma {:induction false} Least(s: set<int>) returns (m: int)
    requires s != {}
    ensures m in s && forall x :: x in s ==> m <= x
    decreases s
  {
    m := SomeElement(s);
    var rest := s - {m};
    if rest != {} {
      var n := Least(rest);
      m := if m < n then m else n;
      assert forall x :: x in s ==> x in rest || m <= x;
    } else {
      assert forall x :: x in s ==> x == m || x in rest;
    }
  }

  lemma LeastExists(s: set<int>)
    requires s != {}
    ensures exists m :: m in s && forall x :: x in s ==> m <= x
  {
    var m := Least(s);
  }

  /** The ascending list of a set's elements, as a specification. */
  ghost function Ascending(s: set<int>): (r: seq<int>)
    ensures StrictlyIncreasing(r)
    ensures forall x :: x in r <==> x in s
    decreases s
  {
    if s == {} then [] else
      LeastExists(s);
      var m :| m in s && forall x :: x in s ==> m <= x;
      var rest := Ascending(s - {m});
      assert forall i :: 0 <= i < |rest| ==> rest[i] in rest && rest[i] in s;
      [m] + rest
  }
}
