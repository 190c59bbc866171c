/** Nested payloads: flattening to dotted keys, and walking a dotted path. */
module Flatten {
  import opened Prelude

  /**
   * Decoded JSON. A number or boolean is known by its truth value and by what str() shows. An object keeps its
   * insertion order.
   */
  datatype Json =
    | Null
    | Text(text: string)
    | Scalar(truthy: bool, shown: string)
    | List(items: seq<Json>)
    | Object(entries: seq<Entry>)
  datatype Entry = Entry(key: string, value: Json)

  const Dot := '.'

  /** A Python dict has each key once. */
  ghost predicate WellFormed(d: Json) {
    d.Object? ==>
      && (forall i, j :: 0 <= i < j < |d.entries| ==> d.entries[i].key != d.entries[j].key)
      && (forall i :: 0 <= i < |d.entries| ==> WellFormed(d.entries[i].value))
  }

  /** No key of the object or of any object inside it contains a dot. */
  ghost predicate DotFree(d: Json) {
    d.Object? ==> forall i :: 0 <= i < |d.entries| ==> Dot !in d.entries[i].key && DotFree(d.entries[i].value)
  }

  // ---------------------------------------------------------------- flattening

  /** The flat map of the first n entries; an inner object contributes its own flat map under "key.". */
  function FlatEntries(d: Json, n: nat, prefix: string): map<string, Json>
    requires d.Object? && n <= |d.entries|
    decreases d, n
  {
    if n == 0 then map[] else
      var e := d.entries[n - 1];
      var flat := FlatEntries(d, n - 1, prefix)[prefix + e.key := e.value];
      if e.value.Object? then flat + FlatEntries(e.value, |e.value.entries|, prefix + e.key + [Dot]) else flat
  }

  method FlattenDict(d: Json, prefix: string) returns (result: map<string, Json>)
    requires d.Object?
    ensures result == FlatEntries(d, |d.entries|, prefix)
    decreases d
  {
    result := map[];
    var i := 0;
    while i < |d.entries|
      invariant 0 <= i <= |d.entries|
      invariant result == FlatEntries(d, i, prefix)
    {
      var k, v := d.entries[i].key, d.entries[i].value;
      var key := if prefix != "" then prefix + k else k;
      assert key == prefix + k;
      result := result[key := v];
      if v.Object? {
        var inner := FlattenDict(v, key + [Dot]);
        result := result + inner;
      }
      i := i + 1;
    }
  }

  /** `flat.get(path)`: a missing path reads as null. */
  function Lookup(flat: map<string, Json>, path: string): Json {
    if path in flat then flat[path] else Null
  }

  // ---------------------------------------------------------------- walking a path

  /** Python's `path.split(".")`. */
  function Split(path: string): (parts: seq<string>)
    ensures parts != []
  {
    if path == "" then [""]
    else if path[0] == Dot then [""] + Split(path[1..])
    else
      var rest := Split(path[1..]);
      [[path[0]] + rest[0]] + rest[1..]
  }

  function Join(parts: seq<string>): string
    requires parts != []
  {
    if |parts| == 1 then parts[0] else parts[0] + [Dot] + Join(parts[1..])
  }

  function Member(d: Json, n: nat, key: string): Json
    requires d.Object? && n <= |d.entries|
  {
    if n == 0 then Null else if d.entries[n - 1].key == key then d.entries[n - 1].value else Member(d, n - 1, key)
  }

  /** `d.get(part)` on an object, null on anything else. */
  function Get(d: Json, part: string): Json {
    if d.Object? then Member(d, |d.entries|, part) else Null
  }

  function Walk(d: Json, parts: seq<string>): Json
    decreases |parts|
  {
    if parts == [] then d else Walk(Get(d, parts[0]), parts[1..])
  }

  lemma {:induction false} WalkFromNull(parts: seq<string>)
    ensures Walk(Null, parts) == Null
  {
    if parts != [] {
      WalkFromNull(parts[1..]);
    }
  }

  method GetNestedField(data: Json, path: string) returns (value: Json)
    ensures value == Walk(data, Split(path))
  {
    var parts := Split(path);
    value := data;
    var i := 0;
    while i < |parts|
      invariant 0 <= i <= |parts|
      invariant Walk(data, parts) == Walk(value, parts[i..])
    {
      assert parts[i..][1..] == parts[i + 1..];
      if value.Object? {
        value := Get(value, parts[i]);
      } else {
        WalkFromNull(parts[i + 1..]);
        return Null;
      }
      i := i + 1;
    }
  }

  // ---------------------------------------------------------------- split and join

  lemma {:induction false} JoinUndoesSplit(path: string)
    ensures Join(Split(path)) == path
    ensures forall p :: p in Split(path) ==> Dot !in p
  {
    PartsAreDotFree(path);
    if path != "" {
      JoinUndoesSplit(path[1..]);
      SplitOnce(path);
      hide Split;
      var rest := Split(path[1..]);
      assert path == [path[0]] + path[1..];
      if path[0] == Dot {
        assert ([""] + rest)[1..] == rest;
      } else {
        LongerFirstPart(path[0], rest);
      }
    }
  }

  lemma SplitOnce(path: string)
    requires path != ""
    ensures var rest := Split(path[1..]);
            Split(path) == if path[0] == Dot then [""] + rest else [[path[0]] + rest[0]] + rest[1..]
  {
  }

  lemma LongerFirstPart(c: char, parts: seq<string>)
    requires parts != []
    ensures Join([[c] + parts[0]] + parts[1..]) == [c] + Join(parts)
  {
    var longer := [[c] + parts[0]] + parts[1..];
    assert longer[1..] == parts[1..];
  }

  lemma {:induction false} PartsAreDotFree(path: string)
    ensures forall p :: p in Split(path) ==> Dot !in p
  {
    if path != "" {
      PartsAreDotFree(path[1..]);
      var rest := Split(path[1..]);
      assert rest[0] in rest;
      assert forall p :: p in rest[1..] ==> p in rest;
    }
  }

  lemma {:induction false} SplitOfKey(key: string)
    requires Dot !in key
    ensures Split(key) == [key]
  {
    if key != "" {
      assert forall c :: c in key[1..] ==> c in key;
      SplitOfKey(key[1..]);
      assert key[0] in key;
      assert [key[0]] + key[1..] == key;
    }
  }

  lemma {:induction false} SplitOfJoined(key: string, rest: string)
    requires Dot !in key
    ensures Split(key + [Dot] + rest) == [key] + Split(rest)
  {
    var path := key + [Dot] + rest;
    if key == "" {
      assert path[1..] == rest;
    } else {
      assert forall c :: c in key[1..] ==> c in key;
      assert path[1..] == key[1..] + [Dot] + rest;
      SplitOfJoined(key[1..], rest);
      assert key[0] in key;
      assert [key[0]] + key[1..] == key;
    }
  }

  /** Dot-free parts survive the round trip, so distinct part lists give distinct dotted paths. */
  lemma {:induction false} SplitUndoesJoin(parts: seq<string>)
    requires parts != [] && forall p :: p in parts ==> Dot !in p
    ensures Split(Join(parts)) == parts
  {
    if |parts| == 1 {
      assert parts == [parts[0]];
      SplitOfKey(parts[0]);
    } else {
      SplitUndoesJoin(parts[1..]);
      SplitOfJoined(parts[0], Join(parts[1..]));
      assert parts == [parts[0]] + parts[1..];
    }
  }

  // ---------------------------------------------------------------- flattening agrees with walking

  /** Everything flattened lies under the prefix, and starts with one of the object's own keys. */
  lemma {:induction false} FlatKeys(d: Json, n: nat, prefix: string, k: string)
    requires d.Object? && n <= |d.entries| && DotFree(d) && k in FlatEntries(d, n, prefix)
    ensures prefix <= k
    ensures exists i :: 0 <= i < n && d.entries[i].key == Split(k[|prefix|..])[0]
    decreases d, n
  {
    var e := d.entries[n - 1];
    if k in FlatEntries(d, n - 1, prefix) {
      FlatKeys(d, n - 1, prefix, k);
    } else if k == prefix + e.key {
      assert k[|prefix|..] == e.key;
      SplitOfKey(e.key);
    } else {
      var inner := prefix + e.key + [Dot];
      FlatKeys(e.value, |e.value.entries|, inner, k);
      assert k == inner + k[|inner|..];
      assert k[|prefix|..] == e.key + [Dot] + k[|inner|..];
      SplitOfJoined(e.key, k[|inner|..]);
    }
  }

  /** The walk restricted to the first n entries of the object. */
  function WalkAmong(d: Json, n: nat, parts: seq<string>): Json
    requires d.Object? && n <= |d.entries| && parts != []
  {
    Walk(Member(d, n, parts[0]), parts[1..])
  }

  lemma {:induction false} MemberAbsent(d: Json, n: nat, key: string)
    requires d.Object? && n <= |d.entries|
    requires forall i :: 0 <= i < n ==> d.entries[i].key != key
    ensures Member(d, n, key) == Null
  {
    if n > 0 {
      MemberAbsent(d, n - 1, key);
    }
  }

  lemma {:induction false} FlatAgrees(d: Json, n: nat, prefix: string, path: string)
    requires d.Object? && n <= |d.entries| && WellFormed(d) && DotFree(d)
    ensures Lookup(FlatEntries(d, n, prefix), prefix + path) == WalkAmong(d, n, Split(path))
    decreases d, n
  {
    var parts, full := Split(path), prefix + path;
    JoinUndoesSplit(path);
    assert full[|prefix|..] == path;
    if n == 0 {
      WalkFromNull(parts[1..]);
    } else {
      var e := d.entries[n - 1];
      FlatAgrees(d, n - 1, prefix, path);
      if parts[0] == e.key {
        EarlierEntriesMiss(d, n, prefix, path);
        if |parts| == 1 {
          OwnKey(d, n, prefix, path);
        } else {
          InnerKey(d, n, prefix, path, Join(parts[1..]));
        }
      } else {
        OtherKey(d, n, prefix, path);
      }
    }
  }

  lemma EarlierEntriesMiss(d: Json, n: nat, prefix: string, path: string)
    requires d.Object? && 0 < n <= |d.entries| && WellFormed(d) && DotFree(d)
    requires Split(path)[0] == d.entries[n - 1].key
    ensures prefix + path !in FlatEntries(d, n - 1, prefix)
  {
    assert (prefix + path)[|prefix|..] == path;
    if prefix + path in FlatEntries(d, n - 1, prefix) {
      FlatKeys(d, n - 1, prefix, prefix + path);
    }
  }

  lemma OwnKey(d: Json, n: nat, prefix: string, path: string)
    requires d.Object? && 0 < n <= |d.entries| && DotFree(d)
    requires Split(path) == [d.entries[n - 1].key]
    ensures Lookup(FlatEntries(d, n, prefix), prefix + path) == d.entries[n - 1].value
  {
    var e := d.entries[n - 1];
    JoinUndoesSplit(path);
    assert path == e.key;
    if e.value.Object? && prefix + path in FlatEntries(e.value, |e.value.entries|, prefix + e.key + [Dot]) {
      FlatKeys(e.value, |e.value.entries|, prefix + e.key + [Dot], prefix + path);
    }
  }

  lemma InnerKey(d: Json, n: nat, prefix: string, path: string, rest: string)
    requires d.Object? && 0 < n <= |d.entries| && WellFormed(d) && DotFree(d)
    requires |Split(path)| > 1 && Split(path)[0] == d.entries[n - 1].key && rest == Join(Split(path)[1..])
    requires prefix + path !in FlatEntries(d, n - 1, prefix)
    ensures Lookup(FlatEntries(d, n, prefix), prefix + path) == Walk(d.entries[n - 1].value, Split(path)[1..])
    decreases d, n, 0
  {
    var e, parts := d.entries[n - 1], Split(path);
    JoinUndoesSplit(path);
    assert parts == [parts[0]] + parts[1..];
    assert forall p :: p in parts[1..] ==> p in parts;
    SplitUndoesJoin(parts[1..]);
    assert path == e.key + [Dot] + rest;
    assert prefix + path == prefix + e.key + [Dot] + rest;
    if e.value.Object? {
      FlatAgrees(e.value, |e.value.entries|, prefix + e.key + [Dot], rest);
    } else {
      WalkFromNull(parts[2..]);
      assert parts[1..][1..] == parts[2..];
    }
  }

  lemma OtherKey(d: Json, n: nat, prefix: string, path: string)
    requires d.Object? && 0 < n <= |d.entries| && DotFree(d)
    requires Split(path)[0] != d.entries[n - 1].key
    ensures Lookup(FlatEntries(d, n, prefix), prefix + path) == Lookup(FlatEntries(d, n - 1, prefix), prefix + path)
  {
    var e, full := d.entries[n - 1], prefix + path;
    assert full[|prefix|..] == path;
    if full == prefix + e.key {
      assert path == e.key;
      SplitOfKey(e.key);
    }
    if e.value.Object? && full in FlatEntries(e.value, |e.value.entries|, prefix + e.key + [Dot]) {
      var inner := prefix + e.key + [Dot];
      FlatKeys(e.value, |e.value.entries|, inner, full);
      assert path == e.key + [Dot] + full[|inner|..];
      SplitOfJoined(e.key, full[|inner|..]);
    }
  }

  /** Looking a dotted path up in the flattened payload gives what walking the payload gives. */
  lemma FlatteningAgreesWithWalking(d: Json, path: string)
    requires d.Object? && WellFormed(d) && DotFree(d)
    ensures Lookup(FlatEntries(d, |d.entries|, ""), path) == Walk(d, Split(path))
  {
    assert "" + path == path;
    FlatAgrees(d, |d.entries|, "", path);
  }

  // ---------------------------------------------------------------- dotted keys

  lemma {:induction false} UnderPrefix(d: Json, n: nat, prefix: string, k: string)
    requires d.Object? && n <= |d.entries| && k in FlatEntries(d, n, prefix)
    ensures prefix <= k
    decreases d, n
  {
    var e := d.entries[n - 1];
    if k in FlatEntries(d, n - 1, prefix) {
      UnderPrefix(d, n - 1, prefix, k);
    } else if k != prefix + e.key {
      UnderPrefix(e.value, |e.value.entries|, prefix + e.key + [Dot], k);
    }
  }

  lemma {:induction false} FirstPart(a: string, rest: string)
    ensures Split(a + [Dot] + rest)[0] == Split(a)[0]
  {
    var path := a + [Dot] + rest;
    if a == "" {
      assert path[1..] == rest;
    } else {
      assert path[1..] == a[1..] + [Dot] + rest;
      FirstPart(a[1..], rest);
    }
  }

  /** An entry whose key continues no object's key is found under its own key. */
  lemma {:induction false} OwnDottedKey(d: Json, n: nat, i: nat)
    requires d.Object? && n <= |d.entries| && i < n && WellFormed(d)
    requires forall j :: 0 <= j < |d.entries| && d.entries[j].value.Object? ==> !(d.entries[j].key + [Dot] <= d.entries[i].key)
    ensures d.entries[i].key in FlatEntries(d, n, "") && FlatEntries(d, n, "")[d.entries[i].key] == d.entries[i].value
  {
    var e, key := d.entries[n - 1], d.entries[i].key;
    assert "" + e.key == e.key;
    if i < n - 1 {
      OwnDottedKey(d, n - 1, i);
    }
    if e.value.Object? && key in FlatEntries(e.value, |e.value.entries|, "" + e.key + [Dot]) {
      UnderPrefix(e.value, |e.value.entries|, "" + e.key + [Dot], key);
    }
  }

  lemma {:induction false} DottedKeyFindsMore(d: Json, i: nat) returns (path: string)
    requires d.Object? && WellFormed(d) && i < |d.entries| && d.entries[i].value != Null
    requires forall j :: 0 <= j < |d.entries| ==> d.entries[j].key != Split(d.entries[i].key)[0]
    ensures Lookup(FlatEntries(d, |d.entries|, ""), path) != Null && Walk(d, Split(path)) == Null
    decreases |d.entries[i].key|
  {
    path := d.entries[i].key;
    if j :| 0 <= j < |d.entries| && d.entries[j].value.Object? && d.entries[j].key + [Dot] <= path {
      var shorter := d.entries[j].key;
      assert path == shorter + [Dot] + path[|shorter| + 1..];
      FirstPart(shorter, path[|shorter| + 1..]);
      path := DottedKeyFindsMore(d, j);
    } else {
      OwnDottedKey(d, |d.entries|, i);
      MemberAbsent(d, |d.entries|, Split(path)[0]);
      WalkFromNull(Split(path)[1..]);
    }
  }

  /**
   * Dots in keys break the agreement: a top-level entry with a value, whose key starts with a part that is no key
   * of the object itself, makes some path read differently in the flattened payload.
   */
  lemma DottedKeyDisagrees(d: Json, i: nat)
    requires d.Object? && WellFormed(d) && i < |d.entries| && d.entries[i].value != Null
    requires forall j :: 0 <= j < |d.entries| ==> d.entries[j].key != Split(d.entries[i].key)[0]
    ensures exists path :: Lookup(FlatEntries(d, |d.entries|, ""), path) != Walk(d, Split(path))
    ensures Dot in d.entries[i].key
  {
    var path := DottedKeyFindsMore(d, i);
    if Dot !in d.entries[i].key {
      SplitOfKey(d.entries[i].key);
    }
  }
}
