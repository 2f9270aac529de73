/** JSON-like values as the source sees them (`unknown` in TypeScript), JavaScript
    truthiness, and plain objects as insertion-ordered dictionaries. */
module Json {
  import opened Wrappers

  /** A dataset value. Numbers are reals (NaN and the infinities are not modelled);
      an object keeps its keys in insertion order, as `Object.entries` reports them. */
  datatype Json =
    | JNull
    | JUndefined
    | JBool(b: bool)
    | JNum(n: real)
    | JStr(s: string)
    | JArr(items: seq<Json>)
    | JObj(fields: seq<(string, Json)>)

  /** JavaScript truthiness: null, undefined, false, 0 and "" are falsy; every array
      and every object, even an empty one, is truthy. */
  predicate Truthy(v: Json) {
    match v
    case JNull => false
    case JUndefined => false
    case JBool(b) => b
    case JNum(n) => n != 0.0
    case JStr(s) => s != ""
    case JArr(_) => true
    case JObj(_) => true
  }

  // ---------------------------------------------------------------------------
  // Dictionaries: a JavaScript object used as a record, an ordered list of entries.

  function Keys<V>(d: seq<(string, V)>): (ks: seq<string>)
    ensures |ks| == |d|
    ensures forall i :: 0 <= i < |d| ==> ks[i] == d[i].0
  {
    seq(|d|, i requires 0 <= i < |d| => d[i].0)
  }

  predicate DistinctKeys<V>(d: seq<(string, V)>) {
    forall i, j :: 0 <= i < j < |d| ==> d[i].0 != d[j].0
  }

  predicate NoDuplicates<T(==)>(s: seq<T>) {
    forall i, j :: 0 <= i < j < |s| ==> s[i] != s[j]
  }

  /** The position of the first entry with key `k`, or -1. */
  function FindKey<V>(d: seq<(string, V)>, k: string): (i: int)
    ensures -1 <= i < |d|
    ensures i >= 0 ==> d[i].0 == k && forall j :: 0 <= j < i ==> d[j].0 != k
    ensures i < 0 <==> k !in Keys(d)
  {
    if d == [] then -1
    else if d[0].0 == k then 0
    else
      var j := FindKey(d[1..], k);
      assert Keys(d) == [d[0].0] + Keys(d[1..]);
      if j < 0 then -1 else j + 1
  }

  /** `d[k]`: the value stored under `k`, if any. */
  function Get<V>(d: seq<(string, V)>, k: string): (r: Option<V>)
    ensures r.Some? <==> k in Keys(d)
    ensures r.Some? ==> exists i :: 0 <= i < |d| && d[i] == (k, r.value)
  {
    var i := FindKey(d, k);
    if i < 0 then None else Some(d[i].1)
  }

  /** With distinct keys, looking up the key of an entry gives that entry's value. */
  lemma {:induction false} GetEntry<V>(d: seq<(string, V)>, i: int)
    requires DistinctKeys(d) && 0 <= i < |d|
    ensures Get(d, d[i].0) == Some(d[i].1)
  {
    if i > 0 {
      GetEntry(d[1..], i - 1);
    }
  }

  /** With distinct keys, a key has at most one value. */
  lemma OneValuePerKey<V>(d: seq<(string, V)>, k: string)
    requires DistinctKeys(d)
    ensures forall v1, v2 :: (k, v1) in d && (k, v2) in d ==> v1 == v2
  {
    forall v1, v2 | (k, v1) in d && (k, v2) in d ensures v1 == v2 {
      var i :| 0 <= i < |d| && d[i] == (k, v1);
      var j :| 0 <= j < |d| && d[j] == (k, v2);
      assert i == j;
    }
  }

  /** `d[k] = v`: overwrite the value in place when `k` is present, append otherwise. */
  function Put<V>(d: seq<(string, V)>, k: string, v: V): (r: seq<(string, V)>)
    ensures Keys(r) == if k in Keys(d) then Keys(d) else Keys(d) + [k]
  {
    var i := FindKey(d, k);
    if i < 0 then d + [(k, v)] else d[i := (k, v)]
  }

  /** After `d[k] = v`, `d[k]` is `v` and every other key keeps its value. */
  lemma GetPut<V>(d: seq<(string, V)>, k: string, v: V, k': string)
    ensures Get(Put(d, k, v), k') == if k' == k then Some(v) else Get(d, k')
  {
    var r := Put(d, k, v);
    var i := FindKey(d, k);
    var j := FindKey(d, k');
    var j' := FindKey(r, k');
    if k' == k {
      if i >= 0 { assert j' == i; } else { assert j' == |d|; }
    } else if j >= 0 {
      assert r[j].0 == k';
      assert forall m :: 0 <= m < j ==> r[m].0 == d[m].0 || r[m].0 == k;
      assert j' == j;
    } else {
      assert Keys(r) == if k in Keys(d) then Keys(d) else Keys(d) + [k];
    }
  }

  /** Assigning a fresh key appends an entry. */
  lemma PutFresh<V>(d: seq<(string, V)>, k: string, v: V)
    requires k !in Keys(d)
    ensures Put(d, k, v) == d + [(k, v)]
  {
  }

  /** Assigning an existing key replaces that entry and keeps its position. */
  lemma PutExisting<V>(d: seq<(string, V)>, i: int, v: V)
    requires DistinctKeys(d) && 0 <= i < |d|
    ensures Put(d, d[i].0, v) == d[i := (d[i].0, v)]
  {
    assert FindKey(d, d[i].0) == i;
  }

  /** Keys stay distinct under assignment. */
  lemma PutDistinct<V>(d: seq<(string, V)>, k: string, v: V)
    requires DistinctKeys(d)
    ensures DistinctKeys(Put(d, k, v))
  {
    var r := Put(d, k, v);
    assert Keys(r) == if k in Keys(d) then Keys(d) else Keys(d) + [k];
    forall i, j | 0 <= i < j < |r| ensures r[i].0 != r[j].0 {
      assert r[i].0 == Keys(r)[i] && r[j].0 == Keys(r)[j];
    }
  }

  /** `Object.assign(d, src)`: assign every entry of `src`, in order. */
  function Assign<V>(d: seq<(string, V)>, src: seq<(string, V)>): seq<(string, V)>
    decreases |src|
  {
    if src == [] then d else Assign(Put(d, src[0].0, src[0].1), src[1..])
  }

  /** When no key of `src` is already in `d`, assigning it is appending it. */
  lemma {:induction false} AssignFresh<V>(d: seq<(string, V)>, src: seq<(string, V)>)
    requires DistinctKeys(src)
    requires forall i :: 0 <= i < |src| ==> src[i].0 !in Keys(d)
    ensures Assign(d, src) == d + src
    decreases |src|
  {
    if src != [] {
      PutFresh(d, src[0].0, src[0].1);
      var d' := d + [(src[0].0, src[0].1)];
      assert Keys(d') == Keys(d) + [src[0].0];
      AssignFresh(d', src[1..]);
      assert d' + src[1..] == d + src;
    }
  }

  // ---------------------------------------------------------------------------
  // Property access and well-formed records

  /** `v[k]` on a value: a member of an object, `undefined` for a missing key.
      Property access on anything that is not a plain object is taken as `undefined`. */
  function Member(v: Json, k: string): (r: Json)
    ensures !v.JObj? ==> r == JUndefined
    ensures v.JObj? ==> (k in Keys(v.fields) <==> Get(v.fields, k) == Some(r))
  {
    if v.JObj? then
      match Get(v.fields, k)
      case Some(x) => x
      case None => JUndefined
    else JUndefined
  }

  /** A key that can be used as one segment of a dot-joined path. */
  predicate PathKey(k: string) {
    k != "" && '.' !in k
  }

  /** Every object in `v` has distinct keys that are path segments. Arrays are not
      looked into: nothing in the model descends into an array. */
  predicate WellFormed(v: Json)
    decreases v
  {
    match v
    case JObj(fs) =>
      && DistinctKeys(fs)
      && forall i :: 0 <= i < |fs| ==> PathKey(fs[i].0) && WellFormed(fs[i].1)
    case _ => true
  }

  function Max(s: seq<nat>): (m: nat)
    ensures forall i :: 0 <= i < |s| ==> s[i] <= m
  {
    if s == [] then 0
    else
      var rest := Max(s[1..]);
      assert forall i :: 1 <= i < |s| ==> s[i] == s[1..][i - 1];
      if s[0] < rest then rest else s[0]
  }

  /** Nesting depth: the number of objects on the deepest chain of members. */
  function Depth(v: Json): nat
  {
    match v
    case JObj(fs) => 1 + Max(seq(|fs|, i requires 0 <= i < |fs| => Depth(fs[i].1)))
    case _ => 0
  }

  /** A member is strictly shallower than the object holding it. */
  lemma MemberDepth(v: Json, k: string)
    requires v.JObj?
    ensures Depth(Member(v, k)) < Depth(v)
  {
    var fs := v.fields;
    var r := Get(fs, k);
    if r.Some? {
      var i :| 0 <= i < |fs| && fs[i] == (k, r.value);
      var ds := seq(|fs|, i requires 0 <= i < |fs| => Depth(fs[i].1));
      assert ds[i] == Depth(r.value);
    }
  }

  /** The member under the key of an entry of an object with distinct keys is that
      entry's value. */
  lemma MemberAt(v: Json, j: int)
    requires v.JObj? && DistinctKeys(v.fields) && 0 <= j < |v.fields|
    ensures v.fields[j].0 in Keys(v.fields)
    ensures Member(v, v.fields[j].0) == v.fields[j].1
  {
    GetEntry(v.fields, j);
    assert Keys(v.fields)[j] == v.fields[j].0;
  }

  /** A member of a well-formed object is well formed. */
  lemma MemberWellFormed(v: Json, k: string)
    requires WellFormed(v)
    ensures WellFormed(Member(v, k))
  {
    if v.JObj? && k in Keys(v.fields) {
      var i :| 0 <= i < |v.fields| && v.fields[i] == (k, Member(v, k));
    }
  }
}
