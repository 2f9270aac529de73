/** src/utils.ts: dot-path lookup and update, flattening to dot-joined keys, and the
    float test on numbers. */
module Utils {
  import opened Wrappers
  import opened Seqs
  import opened Strings
  import opened Json

  // ---------------------------------------------------------------------------
  // Dot-joined key paths

  /** The segments of a key path: `keyPath.split(".")`, and none for the empty path
      (which both getObjectKeyPath and setObjectKeyPath treat before splitting). */
  function Segments(keyPath: string): (segs: seq<string>)
    ensures keyPath != "" ==> |segs| >= 1
  {
    if keyPath == "" then [] else Split(keyPath, '.')
  }

  /** `prefix ? `${prefix}.${key}` : key`, the key of a member below `prefix`. */
  function Child(prefix: string, key: string): (r: string)
    ensures |r| >= |key|
  {
    if prefix == "" then key else prefix + "." + key
  }

  /** The key reached from `prefix` by descending through `segs`. */
  function ChildPath(prefix: string, segs: seq<string>): string
    decreases |segs|
  {
    if segs == [] then prefix else ChildPath(Child(prefix, segs[0]), segs[1..])
  }

  /** The dot-join of a path. */
  function JoinPath(segs: seq<string>): string {
    ChildPath("", segs)
  }

  predicate PathKeys(segs: seq<string>) {
    forall i :: 0 <= i < |segs| ==> PathKey(segs[i])
  }

  /** Appending a key to a path appends one segment. */
  lemma SegmentsChild(prefix: string, key: string)
    requires PathKey(key)
    ensures Segments(Child(prefix, key)) == Segments(prefix) + [key]
  {
    if prefix == "" {
      SplitNoSep(key, '.');
    } else {
      assert prefix + "." + key == prefix + ['.'] + key;
      SplitSnoc(prefix, '.', key);
    }
  }

  /** The segments of a descended key are the prefix's segments followed by the path. */
  lemma {:induction false} SegmentsChildPath(prefix: string, segs: seq<string>)
    requires PathKeys(segs)
    ensures Segments(ChildPath(prefix, segs)) == Segments(prefix) + segs
    decreases |segs|
  {
    if segs == [] {
      assert Segments(prefix) + segs == Segments(prefix);
    } else {
      var c := Child(prefix, segs[0]);
      var rest := segs[1..];
      assert PathKeys(rest) by {
        forall i | 0 <= i < |rest| ensures PathKey(rest[i]) {
          assert rest[i] == segs[i + 1];
        }
      }
      SegmentsChild(prefix, segs[0]);
      SegmentsChildPath(c, rest);
      ConsAssoc(Segments(prefix), segs);
    }
  }

  /** Splitting a dot-joined path of proper keys gives the path back. */
  lemma SegmentsJoinPath(segs: seq<string>)
    requires PathKeys(segs)
    ensures Segments(JoinPath(segs)) == segs
  {
    SegmentsChildPath("", segs);
  }

  // ---------------------------------------------------------------------------
  // getObjectKeyPath

  /** The walk of getObjectKeyPath's loop (src/utils.ts:18-26): step into each key in
      turn, and give null as soon as a step reaches a falsy value. */
  function Descend(current: Json, path: seq<string>): (r: Json)
    ensures path != [] ==> r == JNull || Truthy(r)
    decreases |path|
  {
    if path == [] then current
    else
      var next := Member(current, path[0]);
      if !Truthy(next) then JNull else Descend(next, path[1..])
  }

  /** `getObjectKeyPath(obj, keyPath)`: the object itself for the empty path; otherwise
      the value reached along the path, or null when it is missing or falsy. */
  function GetObjectKeyPath(obj: Json, keyPath: string): (r: Json)
    ensures keyPath == "" ==> r == obj
    ensures keyPath != "" ==> r == JNull || Truthy(r)
  {
    Descend(obj, Segments(keyPath))
  }

  /** The value at a path, following members without any truthiness test. */
  function ValueAt(v: Json, path: seq<string>): Json
    decreases |path|
  {
    if path == [] then v else ValueAt(Member(v, path[0]), path[1..])
  }

  /** Every value met on the way down, the last one included, is truthy. */
  predicate TruthyAlong(v: Json, path: seq<string>)
    decreases |path|
  {
    path == [] || (Truthy(Member(v, path[0])) && TruthyAlong(Member(v, path[0]), path[1..]))
  }

  /** getObjectKeyPath gives the value at the path when every step on the way is truthy,
      and null otherwise. */
  lemma {:induction false} DescendSpec(v: Json, path: seq<string>)
    ensures Descend(v, path) == if TruthyAlong(v, path) then ValueAt(v, path) else JNull
    decreases |path|
  {
    if path != [] {
      DescendSpec(Member(v, path[0]), path[1..]);
    }
  }

  /** One more segment: look the key up in what the shorter path gave. A null from the
      shorter path has no members, so it stays null. */
  lemma {:induction false} DescendSnoc(v: Json, path: seq<string>, k: string)
    ensures Descend(v, path + [k]) ==
              var m := Member(Descend(v, path), k); if Truthy(m) then m else JNull
    decreases |path|
  {
    if path != [] {
      assert (path + [k])[1..] == path[1..] + [k];
      DescendSnoc(Member(v, path[0]), path[1..], k);
    }
  }

  /** The lookup below a child key is one member step below the lookup of the parent key. */
  lemma GetObjectKeyPathChild(obj: Json, rootKey: string, key: string)
    requires PathKey(key)
    ensures GetObjectKeyPath(obj, Child(rootKey, key)) ==
              var m := Member(GetObjectKeyPath(obj, rootKey), key); if Truthy(m) then m else JNull
  {
    SegmentsChild(rootKey, key);
    DescendSnoc(obj, Segments(rootKey), key);
  }

  /** An object found by a lookup sits deeper than the path that leads to it. */
  lemma {:induction false} DescendDepth(v: Json, path: seq<string>)
    requires Descend(v, path).JObj?
    ensures |path| < Depth(v)
    decreases |path|
  {
    if path != [] {
      var next := Member(v, path[0]);
      assert v.JObj?;
      MemberDepth(v, path[0]);
      DescendDepth(next, path[1..]);
    }
  }

  // ---------------------------------------------------------------------------
  // setObjectKeyPath

  /** `typeof x === "object"`: null, arrays and plain objects. */
  predicate TypeofObject(v: Json) {
    v.JNull? || v.JArr? || v.JObj?
  }

  /** No intermediate on the path (the values at its strict non-empty prefixes) is an
      array: the walk of setObjectKeyPath only ever steps into plain objects. */
  predicate NoArrayOnPath(v: Json, path: seq<string>) {
    forall i :: 1 <= i < |path| ==> !ValueAt(v, path[..i]).JArr?
  }

  /** The object the walk of setObjectKeyPath steps into for a member `child`
      (src/utils.ts:52-55): `child` itself when it is a truthy object, a fresh `{}`
      otherwise. */
  function Intermediate(child: Json): Json {
    if !Truthy(child) || !TypeofObject(child) then JObj([]) else child
  }

  /** The walk steps into a plain object, and the rest of the path meets no array. */
  lemma IntermediateStep(current: Json, path: seq<string>)
    requires |path| >= 2 && NoArrayOnPath(current, path)
    ensures Intermediate(Member(current, path[0])).JObj?
    ensures NoArrayOnPath(Intermediate(Member(current, path[0])), path[1..])
  {
    var child := Member(current, path[0]);
    var next := Intermediate(child);
    assert path[..1] == [path[0]];
    assert ValueAt(current, path[..1]) == child;
    forall i | 1 <= i < |path[1..]| ensures !ValueAt(next, path[1..][..i]).JArr? {
      assert path[..i + 1][1..] == path[1..][..i];
      assert !ValueAt(current, path[..i + 1]).JArr?;
      if next == JObj([]) {
        UndefinedBelow(path[1..][..i]);
      }
    }
  }

  /** The walk of setObjectKeyPath (src/utils.ts:50-59) on values: every intermediate
      that is falsy or not an object is replaced by `{}`, and the last key is assigned. */
  function SetPath(current: Json, path: seq<string>, value: Json): (r: Json)
    requires current.JObj? && |path| >= 1
    requires NoArrayOnPath(current, path)
    ensures r.JObj?
    decreases |path|
  {
    if |path| == 1 then JObj(Put(current.fields, path[0], value))
    else
      var next := Intermediate(Member(current, path[0]));
      IntermediateStep(current, path);
      JObj(Put(current.fields, path[0], SetPath(next, path[1..], value)))
  }

  lemma {:induction false} UndefinedBelow(path: seq<string>)
    requires path != []
    ensures ValueAt(JObj([]), path) == JUndefined
  {
    ValueAtUndefined(path[1..]);
  }

  lemma {:induction false} ValueAtUndefined(path: seq<string>)
    ensures ValueAt(JUndefined, path) == JUndefined
    decreases |path|
  {
    if path != [] {
      ValueAtUndefined(path[1..]);
    }
  }

  /** `setObjectKeyPath(obj, keyPath, value)`: the empty path gives `value` itself and
      leaves `obj` alone; any other path gives `obj` updated along the path. */
  function SetObjectKeyPath(obj: Json, keyPath: string, value: Json): (r: Json)
    requires obj.JObj?
    requires NoArrayOnPath(obj, Segments(keyPath))
    ensures keyPath == "" ==> r == value
    ensures keyPath != "" ==> r.JObj?
  {
    if keyPath == "" then value else SetPath(obj, Segments(keyPath), value)
  }

  /** Looking up the path just set gives the value set, or null for a falsy value. */
  lemma {:induction false} GetAfterSetPath(current: Json, path: seq<string>, value: Json)
    requires current.JObj? && |path| >= 1 && NoArrayOnPath(current, path)
    ensures Descend(SetPath(current, path, value), path) == if Truthy(value) then value else JNull
    decreases |path|
  {
    var r := SetPath(current, path, value);
    if |path| == 1 {
      GetPut(current.fields, path[0], value, path[0]);
    } else {
      var next := Intermediate(Member(current, path[0]));
      IntermediateStep(current, path);
      var sub := SetPath(next, path[1..], value);
      GetPut(current.fields, path[0], sub, path[0]);
      assert Member(r, path[0]) == sub;
      GetAfterSetPath(next, path[1..], value);
    }
  }

  /** After `setObjectKeyPath(o, p, v)` with a non-empty path, `getObjectKeyPath(o, p)`
      is `v` (null when `v` is falsy). */
  lemma GetAfterSet(obj: Json, keyPath: string, value: Json)
    requires obj.JObj? && keyPath != ""
    requires NoArrayOnPath(obj, Segments(keyPath))
    ensures GetObjectKeyPath(SetObjectKeyPath(obj, keyPath, value), keyPath)
            == if Truthy(value) then value else JNull
  {
    GetAfterSetPath(obj, Segments(keyPath), value);
  }

  /** Every intermediate on the path is a plain object after the update: missing, falsy
      and non-object intermediates have been replaced by `{}`. */
  lemma {:induction false} SetPathIntermediates(current: Json, path: seq<string>, value: Json, i: int)
    requires current.JObj? && |path| >= 1 && NoArrayOnPath(current, path)
    requires 0 <= i < |path|
    ensures ValueAt(SetPath(current, path, value), path[..i]).JObj?
    decreases |path|
  {
    if i > 0 {
      var next := Intermediate(Member(current, path[0]));
      IntermediateStep(current, path);
      var sub := SetPath(next, path[1..], value);
      assert Member(SetPath(current, path, value), path[0]) == sub by {
        GetPut(current.fields, path[0], sub, path[0]);
      }
      SetPathIntermediates(next, path[1..], value, i - 1);
      PrefixTail(path, i);
    }
  }

  /** `other` leaves `path` after a common prefix, and every value met along that common
      prefix is a plain object (so the walk of setObjectKeyPath keeps it). */
  predicate Diverges(v: Json, path: seq<string>, other: seq<string>)
    decreases |path|
  {
    && |path| >= 1 && |other| >= 1
    && (|| other[0] != path[0]
        || (&& |path| >= 2
            && Member(v, path[0]).JObj?
            && Diverges(Member(v, path[0]), path[1..], other[1..])))
  }

  /** A lookup whose path leaves the updated path where the original still had an
      object is not affected: siblings of the updated keys keep their values. */
  lemma {:induction false} SetPathKeepsOthers(current: Json, path: seq<string>, value: Json,
                                              other: seq<string>)
    requires current.JObj? && |path| >= 1 && NoArrayOnPath(current, path)
    requires Diverges(current, path, other)
    ensures Descend(SetPath(current, path, value), other) == Descend(current, other)
    decreases |path|
  {
    var r := SetPath(current, path, value);
    if other[0] != path[0] {
      SetPathMember(current, path, value, other[0]);
      DescendSameMember(r, current, other);
    } else {
      var child := Member(current, path[0]);
      SetPathStep(current, path, value);
      SetPathKeepsOthers(child, path[1..], value, other[1..]);
      DescendIntoObject(r, other);
      DescendIntoObject(current, other);
    }
  }

  /** When the member under the first key is an object, the walk steps into it and the
      updated object holds the updated member. */
  lemma SetPathStep(current: Json, path: seq<string>, value: Json)
    requires current.JObj? && |path| >= 2 && NoArrayOnPath(current, path)
    requires Member(current, path[0]).JObj?
    ensures NoArrayOnPath(Member(current, path[0]), path[1..])
    ensures Member(SetPath(current, path, value), path[0])
            == SetPath(Member(current, path[0]), path[1..], value)
  {
    IntermediateStep(current, path);
    assert Intermediate(Member(current, path[0])) == Member(current, path[0]);
    GetPut(current.fields, path[0], SetPath(Member(current, path[0]), path[1..], value), path[0]);
  }

  lemma DescendSameMember(a: Json, b: Json, path: seq<string>)
    requires path != [] && Member(a, path[0]) == Member(b, path[0])
    ensures Descend(a, path) == Descend(b, path)
  {
  }

  lemma DescendIntoObject(v: Json, path: seq<string>)
    requires path != [] && Member(v, path[0]).JObj?
    ensures Descend(v, path) == Descend(Member(v, path[0]), path[1..])
  {
  }

  /** The members of the updated object: the first key of the path holds the updated
      sub-object (or the value), every other key keeps its member. */
  lemma SetPathMember(current: Json, path: seq<string>, value: Json, k: string)
    requires current.JObj? && |path| >= 1 && NoArrayOnPath(current, path)
    ensures k != path[0] ==> Member(SetPath(current, path, value), k) == Member(current, k)
    ensures |path| == 1 ==> Member(SetPath(current, path, value), path[0]) == value
  {
    var r := SetPath(current, path, value);
    if |path| == 1 {
      GetPut(current.fields, path[0], value, k);
      GetPut(current.fields, path[0], value, path[0]);
    } else {
      var next := Intermediate(Member(current, path[0]));
      IntermediateStep(current, path);
      GetPut(current.fields, path[0], SetPath(next, path[1..], value), k);
    }
  }

  // ---------------------------------------------------------------------------
  // flattenObject

  /** The entries flattenObject produces for the first `n` members of `v`, depth first:
      a plain-object member contributes the entries of its own members, any other value
      (null and arrays included) one entry under the dot-joined key. */
  function Leaves(v: Json, n: nat, prefix: string): seq<(string, Json)>
    requires v.JObj? && n <= |v.fields|
    decreases v, n
  {
    if n == 0 then [] else Leaves(v, n - 1, prefix) + Block(v, n - 1, prefix)
  }

  /** The entries contributed by the member at position `j`. */
  function Block(v: Json, j: nat, prefix: string): seq<(string, Json)>
    requires v.JObj? && j < |v.fields|
    decreases v, j
  {
    var key := v.fields[j].0;
    var x := v.fields[j].1;
    if x.JObj? then Leaves(x, |x.fields|, Child(prefix, key)) else [(Child(prefix, key), x)]
  }

  /** The flattening of a whole object. */
  function Flatten(v: Json, prefix: string): seq<(string, Json)>
    requires v.JObj?
  {
    Leaves(v, |v.fields|, prefix)
  }

  /** `key` is `c` itself or lies below it (`c` followed by a dot). */
  predicate Extends(key: string, c: string) {
    key == c || (|key| > |c| && key[..|c| + 1] == c + ".")
  }

  /** Every flattened key lies below the child key of one of the members it came from. */
  lemma {:induction false} LeavesExtend(v: Json, n: nat, prefix: string, e: (string, Json))
    requires v.JObj? && n <= |v.fields| && WellFormed(v)
    requires e in Leaves(v, n, prefix)
    ensures exists j :: 0 <= j < n && Extends(e.0, Child(prefix, v.fields[j].0))
    decreases v, n
  {
    var key := v.fields[n - 1].0;
    var x := v.fields[n - 1].1;
    var c := Child(prefix, key);
    if e in Leaves(v, n - 1, prefix) {
      LeavesExtend(v, n - 1, prefix, e);
      var j :| 0 <= j < n - 1 && Extends(e.0, Child(prefix, v.fields[j].0));
    } else if x.JObj? {
      assert e in Leaves(x, |x.fields|, c);
      LeavesExtend(x, |x.fields|, c, e);
      var j :| 0 <= j < |x.fields| && Extends(e.0, Child(c, x.fields[j].0));
      ExtendsChild(e.0, c, x.fields[j].0);
    }
  }

  lemma ExtendsChild(key: string, c: string, k: string)
    requires c != "" && Extends(key, Child(c, k))
    ensures Extends(key, c)
  {
    var ck := c + "." + k;
    assert Child(c, k) == ck;
    assert key[..|c| + 1] == ck[..|c| + 1];
  }

  /** Keys below the child keys of two different proper keys are different. */
  lemma ExtendsDisjoint(key1: string, key2: string, prefix: string, k1: string, k2: string)
    requires PathKey(k1) && PathKey(k2) && k1 != k2
    requires Extends(key1, Child(prefix, k1)) && Extends(key2, Child(prefix, k2))
    ensures key1 != key2
  {
    var h := if prefix == "" then "" else prefix + ".";
    var c1 := Child(prefix, k1);
    var c2 := Child(prefix, k2);
    assert c1 == h + k1 && c2 == h + k2;
    if |k1| == |k2| {
      assert c1[|h|..] == k1 && c2[|h|..] == k2;
      assert key1[..|c1|] == c1 && key2[..|c2|] == c2;
    } else if |k1| < |k2| {
      assert k2[|k1|] in k2;
      assert key2[..|c2|] == c2 && c2[|c1|] == k2[|k1|];
      assert key1 == c1 || key1[|c1|] == '.';
    } else {
      assert k1[|k2|] in k1;
      assert key1[..|c1|] == c1 && c1[|c2|] == k1[|k2|];
      assert key2 == c2 || key2[|c2|] == '.';
    }
  }

  /** Flattening a well-formed object yields distinct keys. */
  lemma {:induction false} LeavesDistinct(v: Json, n: nat, prefix: string)
    requires v.JObj? && n <= |v.fields| && WellFormed(v)
    ensures DistinctKeys(Leaves(v, n, prefix))
    decreases v, n
  {
    if n > 0 {
      var front := Leaves(v, n - 1, prefix);
      var block := Block(v, n - 1, prefix);
      LeavesDistinct(v, n - 1, prefix);
      assert DistinctKeys(block) by {
        var x := v.fields[n - 1].1;
        if x.JObj? {
          LeavesDistinct(x, |x.fields|, Child(prefix, v.fields[n - 1].0));
        }
      }
      forall a, b | 0 <= a < |front| && 0 <= b < |block| ensures front[a].0 != block[b].0 {
        FrontBlockApart(v, n, prefix, front[a], block[b]);
      }
      DistinctConcat(front, block);
    }
  }

  /** An entry of the earlier members and an entry of member `n - 1` have different keys. */
  lemma FrontBlockApart(v: Json, n: nat, prefix: string, e1: (string, Json), e2: (string, Json))
    requires v.JObj? && 0 < n <= |v.fields| && WellFormed(v)
    requires e1 in Leaves(v, n - 1, prefix) && e2 in Block(v, n - 1, prefix)
    ensures e1.0 != e2.0
  {
    var key := v.fields[n - 1].0;
    var x := v.fields[n - 1].1;
    var c := Child(prefix, key);
    LeavesExtend(v, n - 1, prefix, e1);
    var j :| 0 <= j < n - 1 && Extends(e1.0, Child(prefix, v.fields[j].0));
    if x.JObj? {
      LeavesExtend(x, |x.fields|, c, e2);
      var m :| 0 <= m < |x.fields| && Extends(e2.0, Child(c, x.fields[m].0));
      ExtendsChild(e2.0, c, x.fields[m].0);
    }
    ExtendsDisjoint(e1.0, e2.0, prefix, v.fields[j].0, key);
  }

  lemma DistinctConcat<V>(a: seq<(string, V)>, b: seq<(string, V)>)
    requires DistinctKeys(a) && DistinctKeys(b)
    requires forall i, j :: 0 <= i < |a| && 0 <= j < |b| ==> a[i].0 != b[j].0
    ensures DistinctKeys(a + b)
  {
    forall i, j | 0 <= i < j < |a + b| ensures (a + b)[i].0 != (a + b)[j].0 {
      if j < |a| {
      } else if i >= |a| {
        assert (a + b)[i] == b[i - |a|] && (a + b)[j] == b[j - |a|];
      } else {
        assert (a + b)[j] == b[j - |a|];
      }
    }
  }

  lemma DistinctSplit<V>(a: seq<(string, V)>, b: seq<(string, V)>)
    requires DistinctKeys(a + b)
    ensures DistinctKeys(b)
    ensures forall j :: 0 <= j < |b| ==> b[j].0 !in Keys(a)
  {
    forall i, j | 0 <= i < j < |b| ensures b[i].0 != b[j].0 {
      assert (a + b)[|a| + i] == b[i] && (a + b)[|a| + j] == b[j];
    }
    forall j | 0 <= j < |b| ensures b[j].0 !in Keys(a) {
      assert forall i :: 0 <= i < |a| ==> (a + b)[i] == a[i];
      assert (a + b)[|a| + j] == b[j];
    }
  }

  /** `flattenObject(obj, prefix)` (src/utils.ts:71-96): walks the members in order,
      merging the flattening of each plain-object member with Object.assign and
      assigning every other member under its dot-joined key. */
  method FlattenObject(obj: Json, prefix: string) returns (flattened: seq<(string, Json)>)
    requires obj.JObj? && WellFormed(obj)
    ensures flattened == Flatten(obj, prefix)
    ensures DistinctKeys(flattened)
    decreases obj
  {
    flattened := [];
    for i := 0 to |obj.fields|
      invariant flattened == Leaves(obj, i, prefix)
    {
      var key := obj.fields[i].0;
      var value := obj.fields[i].1;
      var newKey := Child(prefix, key);
      LeavesDistinct(obj, i + 1, prefix);
      assert Leaves(obj, i + 1, prefix) == flattened + Block(obj, i, prefix);
      if value.JObj? {
        var sub := FlattenObject(value, newKey);
        DistinctSplit(flattened, sub);
        AssignFresh(flattened, sub);
        flattened := Assign(flattened, sub);
      } else {
        DistinctSplit(flattened, [(newKey, value)]);
        assert [(newKey, value)][0].0 == newKey;
        PutFresh(flattened, newKey, value);
        flattened := Put(flattened, newKey, value);
      }
    }
    LeavesDistinct(obj, |obj.fields|, prefix);
  }

  /** A path to a leaf: every step goes through a key present in a plain object, and
      the value reached is not a plain object. */
  predicate LeafPath(v: Json, segs: seq<string>)
    decreases |segs|
  {
    && v.JObj?
    && |segs| >= 1
    && segs[0] in Keys(v.fields)
    && var x := Member(v, segs[0]);
       if |segs| == 1 then !x.JObj? else LeafPath(x, segs[1..])
  }

  /** Each flattened entry is a leaf path, keyed by the prefix and the path's segments
      joined with dots, holding the value at that path. */
  lemma {:induction false} LeavesSound(v: Json, n: nat, prefix: string, e: (string, Json))
    requires v.JObj? && n <= |v.fields| && WellFormed(v)
    requires e in Leaves(v, n, prefix)
    ensures exists segs :: LeafPath(v, segs) && e == (ChildPath(prefix, segs), ValueAt(v, segs))
    decreases v, n
  {
    if e in Leaves(v, n - 1, prefix) {
      LeavesSound(v, n - 1, prefix, e);
    } else {
      BlockSound(v, n - 1, prefix, e);
    }
  }

  lemma {:induction false} BlockSound(v: Json, j: nat, prefix: string, e: (string, Json))
    requires v.JObj? && j < |v.fields| && WellFormed(v)
    requires e in Block(v, j, prefix)
    ensures exists segs :: LeafPath(v, segs) && e == (ChildPath(prefix, segs), ValueAt(v, segs))
    decreases v, j
  {
    var key := v.fields[j].0;
    var x := v.fields[j].1;
    var c := Child(prefix, key);
    MemberAt(v, j);
    if x.JObj? {
      assert WellFormed(x);
      LeavesSound(x, |x.fields|, c, e);
      var segs :| LeafPath(x, segs) && e == (ChildPath(c, segs), ValueAt(x, segs));
      LeafPathCons(v, key, segs);
    } else {
      LeafPathOne(v, key);
    }
  }

  lemma LeafPathCons(v: Json, key: string, segs: seq<string>)
    requires v.JObj? && key in Keys(v.fields) && LeafPath(Member(v, key), segs)
    ensures LeafPath(v, [key] + segs)
    ensures ChildPath("", [key] + segs) == ChildPath(key, segs)
    ensures forall prefix :: ChildPath(prefix, [key] + segs) == ChildPath(Child(prefix, key), segs)
    ensures ValueAt(v, [key] + segs) == ValueAt(Member(v, key), segs)
  {
    assert ([key] + segs)[1..] == segs;
  }

  lemma LeafPathOne(v: Json, key: string)
    requires v.JObj? && key in Keys(v.fields) && !Member(v, key).JObj?
    ensures LeafPath(v, [key])
    ensures forall prefix :: ChildPath(prefix, [key]) == Child(prefix, key)
    ensures ValueAt(v, [key]) == Member(v, key)
  {
    assert [key][1..] == [];
  }

  /** Flattening keeps what it has: the entries of the first members stay in front. */
  lemma {:induction false} LeavesPrefix(v: Json, n: nat, m: nat, prefix: string)
    requires v.JObj? && n <= m <= |v.fields|
    ensures Leaves(v, n, prefix) <= Leaves(v, m, prefix)
    decreases m
  {
    if n < m {
      LeavesPrefix(v, n, m - 1, prefix);
    }
  }

  /** Every leaf path gives a flattened entry. */
  lemma {:induction false} LeavesComplete(v: Json, prefix: string, segs: seq<string>)
    requires v.JObj? && WellFormed(v) && LeafPath(v, segs)
    ensures (ChildPath(prefix, segs), ValueAt(v, segs)) in Flatten(v, prefix)
    decreases v, 1
  {
    var j :| 0 <= j < |v.fields| && Keys(v.fields)[j] == segs[0];
    BlockComplete(v, j, prefix, segs);
    LeavesPrefix(v, j + 1, |v.fields|, prefix);
  }

  lemma {:induction false} BlockComplete(v: Json, j: nat, prefix: string, segs: seq<string>)
    requires v.JObj? && WellFormed(v) && LeafPath(v, segs)
    requires j < |v.fields| && v.fields[j].0 == segs[0]
    ensures (ChildPath(prefix, segs), ValueAt(v, segs)) in Leaves(v, j + 1, prefix)
    decreases v, 0
  {
    var key := segs[0];
    MemberAt(v, j);
    var x := v.fields[j].1;
    var c := Child(prefix, key);
    var entry := (ChildPath(prefix, segs), ValueAt(v, segs));
    if |segs| == 1 {
      assert segs == [key];
      LeafPathOne(v, key);
      assert entry == (c, x);
      assert entry in Block(v, j, prefix);
    } else {
      assert segs == [key] + segs[1..];
      LeafPathCons(v, key, segs[1..]);
      LeavesComplete(x, c, segs[1..]);
      assert entry == (ChildPath(c, segs[1..]), ValueAt(x, segs[1..]));
      assert entry in Block(v, j, prefix);
    }
  }

  /** flattenObject with no prefix gives exactly one entry per leaf path: the key is the
      path joined with dots, splitting the key gives the path back, and the value is
      the one at that path. */
  lemma FlattenIsLeafPaths(v: Json)
    requires v.JObj? && WellFormed(v)
    ensures DistinctKeys(Flatten(v, ""))
    ensures forall e :: e in Flatten(v, "") ==>
              LeafPath(v, Segments(e.0)) && e.1 == ValueAt(v, Segments(e.0))
    ensures forall segs :: LeafPath(v, segs) ==> (JoinPath(segs), ValueAt(v, segs)) in Flatten(v, "")
  {
    LeavesDistinct(v, |v.fields|, "");
    forall e | e in Flatten(v, "")
      ensures LeafPath(v, Segments(e.0)) && e.1 == ValueAt(v, Segments(e.0))
    {
      LeavesSound(v, |v.fields|, "", e);
      var segs :| LeafPath(v, segs) && e == (ChildPath("", segs), ValueAt(v, segs));
      LeafPathKeys(v, segs);
      SegmentsJoinPath(segs);
    }
    forall segs | LeafPath(v, segs) ensures (JoinPath(segs), ValueAt(v, segs)) in Flatten(v, "") {
      LeavesComplete(v, "", segs);
    }
  }

  /** The segments of a leaf path in a well-formed object are proper keys. */
  lemma {:induction false} LeafPathKeys(v: Json, segs: seq<string>)
    requires WellFormed(v) && LeafPath(v, segs)
    ensures PathKeys(segs)
    decreases |segs|
  {
    var j :| 0 <= j < |v.fields| && Keys(v.fields)[j] == segs[0];
    if |segs| > 1 {
      MemberWellFormed(v, segs[0]);
      LeafPathKeys(Member(v, segs[0]), segs[1..]);
    }
  }

  // ---------------------------------------------------------------------------
  // isNumberFloat

  /** `isNumberFloat(value)`: a number that is not an integer. Strings, numeric or not,
      are never floats. */
  function IsNumberFloat(value: Json): (r: bool)
    ensures r ==> value.JNum?
    ensures value.JNum? ==> (r <==> value.n.Floor as real < value.n)
  {
    value.JNum? && value.n.Floor as real != value.n
  }

  /** Integral numbers are not floats. */
  lemma IntegerIsNotFloat(k: int)
    ensures !IsNumberFloat(JNum(k as real))
  {
  }

  // ---------------------------------------------------------------------------
  // The cases of tests/utils.test.ts

  function Nested42(): Json {
    JObj([("a", JObj([("b", JObj([("c", JNum(42.0))]))]))])
  }

  /** A three-segment path splits into its three keys. */
  lemma SegmentsOfThree(x: string, y: string, z: string)
    requires '.' !in x && '.' !in y && '.' !in z
    ensures Segments(x + "." + y + "." + z) == [x, y, z]
  {
    assert x + "." + y + "." + z == x + ['.'] + (y + ['.'] + z);
    SplitCons(x, '.', y + ['.'] + z);
    SplitCons(y, '.', z);
    SplitNoSep(z, '.');
  }

  /** A present path gives its value; the empty path gives the object itself. */
  lemma GetObjectKeyPathPresent()
    ensures GetObjectKeyPath(Nested42(), "a.b.c") == JNum(42.0)
    ensures GetObjectKeyPath(Nested42(), "") == Nested42()
  {
    SegmentsABC();
    var x := JObj([("b", JObj([("c", JNum(42.0))]))]);
    assert Member(Nested42(), "a") == x;
    assert Member(x, "b") == JObj([("c", JNum(42.0))]);
  }

  /** A missing key, at the end or in the middle of the path, gives null. */
  lemma GetObjectKeyPathMissing()
    ensures GetObjectKeyPath(Nested42(), "a.b.d") == JNull
    ensures GetObjectKeyPath(Nested42(), "a.x.c") == JNull
  {
    var x := JObj([("b", JObj([("c", JNum(42.0))]))]);
    assert Member(Nested42(), "a") == x;
    SegmentsOfThree("a", "b", "d");
    assert "a" + "." + "b" + "." + "d" == "a.b.d";
    SegmentsOfThree("a", "x", "c");
    assert "a" + "." + "x" + "." + "c" == "a.x.c";
  }

  /** Stepping into a number gives null. */
  lemma GetObjectKeyPathThroughNumber()
    ensures GetObjectKeyPath(JObj([("a", JObj([("b", JNum(42.0))]))]), "a.b.c") == JNull
  {
    SegmentsABC();
  }

  lemma SegmentsABC()
    ensures Segments("a.b.c") == ["a", "b", "c"]
  {
    SegmentsOfThree("a", "b", "c");
    assert "a" + "." + "b" + "." + "c" == "a.b.c";
  }

  /** Setting a path that exists overwrites the value found there. */
  lemma SetExistingPath()
    ensures NoArrayOnPath(Nested42(), Segments("a.b.c"))
            && GetObjectKeyPath(SetObjectKeyPath(Nested42(), "a.b.c", JNum(100.0)), "a.b.c") == JNum(100.0)
  {
    var p := ["a", "b", "c"];
    SegmentsABC();
    assert p[..1] == ["a"] && p[..2] == ["a", "b"];
    assert ValueAt(Nested42(), ["a"]) == JObj([("b", JObj([("c", JNum(42.0))]))]);
    assert ValueAt(Nested42(), ["a", "b"]) == JObj([("c", JNum(42.0))]);
    assert NoArrayOnPath(Nested42(), p);
    GetAfterSet(Nested42(), "a.b.c", JNum(100.0));
  }

  /** Setting a path on an empty object creates the intermediate objects. */
  lemma SetMissingPath()
    ensures NoArrayOnPath(JObj([]), Segments("a.b.c"))
            && GetObjectKeyPath(SetObjectKeyPath(JObj([]), "a.b.c", JNum(42.0)), "a.b.c") == JNum(42.0)
  {
    var p := ["a", "b", "c"];
    SegmentsABC();
    assert NoArrayOnPath(JObj([]), p) by {
      assert p[..1] == ["a"] && p[..2] == ["a", "b"];
      UndefinedBelow(p[..1]);
      UndefinedBelow(p[..2]);
    }
    GetAfterSet(JObj([]), "a.b.c", JNum(42.0));
  }

  /** The empty path gives the value itself. */
  lemma SetEmptyPath()
    ensures SetObjectKeyPath(Nested42(), "", JObj([("x", JNum(100.0))])) == JObj([("x", JNum(100.0))])
  {
  }

  lemma SegmentsOfTwo(x: string, y: string)
    requires '.' !in x && '.' !in y
    ensures Segments(x + "." + y) == [x, y]
  {
    assert x + "." + y == x + ['.'] + y;
    SplitCons(x, '.', y);
    SplitNoSep(y, '.');
  }

  /** Setting a path to an object replaces what was below it: the old leaf under it is
      gone. */
  lemma SetOverwritesObject()
    ensures NoArrayOnPath(Nested42(), Segments("a.b"))
            && GetObjectKeyPath(SetObjectKeyPath(Nested42(), "a.b", JObj([("d", JNum(100.0))])), "a.b")
               == JObj([("d", JNum(100.0))])
            && GetObjectKeyPath(SetObjectKeyPath(Nested42(), "a.b", JObj([("d", JNum(100.0))])), "a.b.c")
               == JNull
  {
    var d := JObj([("d", JNum(100.0))]);
    var p := ["a", "b"];
    SegmentsOfTwo("a", "b");
    assert "a" + "." + "b" == "a.b";
    SegmentsABC();
    assert NoArrayOnPath(Nested42(), p) by {
      assert p[..1] == ["a"];
      assert ValueAt(Nested42(), ["a"]) == JObj([("b", JObj([("c", JNum(42.0))]))]);
    }
    var r := SetPath(Nested42(), p, d);
    GetAfterSetPath(Nested42(), p, d);
    DescendSnoc(r, p, "c");
    assert p + ["c"] == ["a", "b", "c"];
    assert Member(d, "c") == JUndefined;
  }

  function NumberBelowA(): Json {
    JObj([("a", JObj([("b", JNum(42.0))]))])
  }

  /** Below `{b: 42}`, setting `b.c` replaces the number by `{c: ...}`. */
  lemma NumberReplaced(value: Json)
    ensures NoArrayOnPath(JObj([("b", JNum(42.0))]), ["b", "c"])
            && SetPath(JObj([("b", JNum(42.0))]), ["b", "c"], value) == JObj([("b", JObj([("c", value)]))])
  {
    var inner := JObj([("b", JNum(42.0))]);
    var p := ["b", "c"];
    assert Member(inner, "b") == JNum(42.0);
    assert NoArrayOnPath(inner, p) by {
      assert p[..1] == ["b"];
      assert ValueAt(inner, ["b"]) == JNum(42.0);
    }
    assert Intermediate(JNum(42.0)) == JObj([]);
    PutFresh([], "c", value);
    assert SetPath(JObj([]), ["c"], value) == JObj([("c", value)]);
    PutExisting(inner.fields, 0, JObj([("c", value)]));
  }

  lemma NoArrayBelowA(p: seq<string>)
    requires p == ["a", "b", "c"] || p == ["a", "c"]
    ensures NoArrayOnPath(NumberBelowA(), p)
  {
    var inner := JObj([("b", JNum(42.0))]);
    assert Member(NumberBelowA(), "a") == inner;
    assert Member(inner, "b") == JNum(42.0);
    assert p[..1] == ["a"];
    assert ValueAt(NumberBelowA(), ["a"]) == inner;
    if |p| == 3 {
      assert p[..2] == ["a", "b"];
      assert ValueAt(NumberBelowA(), ["a", "b"]) == JNum(42.0);
    }
  }

  /** A number in the middle of the path is replaced by a fresh object holding the new
      key. */
  lemma SetThroughNumber()
    ensures NoArrayOnPath(NumberBelowA(), Segments("a.b.c"))
            && GetObjectKeyPath(SetObjectKeyPath(NumberBelowA(), "a.b.c", JNum(100.0)), "a.b")
               == JObj([("c", JNum(100.0))])
  {
    var p := ["a", "b", "c"];
    SegmentsABC();
    SegmentsOfTwo("a", "b");
    assert "a" + "." + "b" == "a.b";
    assert Member(NumberBelowA(), "a") == JObj([("b", JNum(42.0))]);
    NoArrayBelowA(p);
    var r := SetPath(NumberBelowA(), p, JNum(100.0));
    assert Member(r, "a") == JObj([("b", JObj([("c", JNum(100.0))]))]) by {
      SetPathStep(NumberBelowA(), p, JNum(100.0));
      assert p[1..] == ["b", "c"];
      NumberReplaced(JNum(100.0));
    }
    ReadBelowA(r);
  }

  lemma ReadBelowA(r: Json)
    requires Member(r, "a") == JObj([("b", JObj([("c", JNum(100.0))]))])
    ensures Descend(r, ["a", "b"]) == JObj([("c", JNum(100.0))])
  {
    var after := JObj([("b", JObj([("c", JNum(100.0))]))]);
    assert Member(after, "b") == JObj([("c", JNum(100.0))]);
    DescendIntoObject(r, ["a", "b"]);
    assert ["a", "b"][1..] == ["b"];
  }

  /** Setting one key of a nested object keeps its siblings. */
  lemma SetKeepsSibling()
    ensures NoArrayOnPath(NumberBelowA(), Segments("a.c"))
            && GetObjectKeyPath(SetObjectKeyPath(NumberBelowA(), "a.c", JNum(100.0)), "a.b") == JNum(42.0)
            && GetObjectKeyPath(SetObjectKeyPath(NumberBelowA(), "a.c", JNum(100.0)), "a.c") == JNum(100.0)
  {
    var p := ["a", "c"];
    SegmentsOfTwo("a", "c");
    assert "a" + "." + "c" == "a.c";
    SegmentsOfTwo("a", "b");
    assert "a" + "." + "b" == "a.b";
    NoArrayBelowA(p);
    SiblingKept(p);
    GetAfterSet(NumberBelowA(), "a.c", JNum(100.0));
  }

  lemma SiblingKept(p: seq<string>)
    requires p == ["a", "c"] && NoArrayOnPath(NumberBelowA(), p)
    ensures Descend(SetPath(NumberBelowA(), p, JNum(100.0)), ["a", "b"]) == JNum(42.0)
  {
    var inner := JObj([("b", JNum(42.0))]);
    assert Member(NumberBelowA(), "a") == inner;
    assert Member(inner, "b") == JNum(42.0);
    assert Diverges(NumberBelowA(), p, ["a", "b"]) by {
      assert Diverges(inner, ["c"], ["b"]);
    }
    SetPathKeepsOthers(NumberBelowA(), p, JNum(100.0), ["a", "b"]);
    DescendIntoObject(NumberBelowA(), ["a", "b"]);
  }

  lemma FlattenCase()
    ensures Flatten(Nested42(), "") == [("a.b.c", JNum(42.0))]
  {
    var y := JObj([("c", JNum(42.0))]);
    var x := JObj([("b", y)]);
    assert Child("", "a") == "a";
    assert Child("a", "b") == "a.b";
    assert Child("a.b", "c") == "a.b.c";
    assert Block(y, 0, "a.b") == [("a.b.c", JNum(42.0))];
    assert Leaves(y, 1, "a.b") == [] + Block(y, 0, "a.b");
    assert Block(x, 0, "a") == Leaves(y, 1, "a.b");
    assert Leaves(x, 1, "a") == [] + Block(x, 0, "a");
    assert Block(Nested42(), 0, "") == Leaves(x, 1, "a");
    assert Leaves(Nested42(), 1, "") == [] + Block(Nested42(), 0, "");
  }

  lemma IsNumberFloatCases()
    ensures !IsNumberFloat(JNum(42.0)) && IsNumberFloat(JNum(42.5))
    ensures !IsNumberFloat(JStr("42")) && !IsNumberFloat(JStr("42.5")) && !IsNumberFloat(JStr("42.5.5"))
  {
  }
}
