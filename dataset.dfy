/** src/dataset.ts: the kind of a value, the strict-consensus rule over the kinds seen
    for a key, and the inference of a nested type shape from a list of records. */
module Dataset {
  import opened Wrappers
  import opened Seqs
  import opened Json
  import opened Utils

  /** The kinds of src/types.ts:1-8. */
  datatype ValueType = String | Integer | Float | Boolean | Object | Unknown | Array

  /** A type shape (src/types.ts:12): a kind, or an object of shapes keyed in order. */
  datatype TypeShape = Scalar(kind: ValueType) | Nested(entries: seq<(string, TypeShape)>)

  /** The string a kind is in the source, as stored at the leaves of a type shape. */
  function Name(k: ValueType): string {
    match k
    case String => "string"
    case Integer => "integer"
    case Float => "float"
    case Boolean => "boolean"
    case Object => "object"
    case Unknown => "unknown"
    case Array => "array"
  }

  /** The kind a string names, if any: the cast `type as ValueType`, checked. */
  function KindNamed(s: string): (r: Option<ValueType>)
    ensures r.Some? ==> Name(r.value) == s
  {
    if s == "string" then Some(String)
    else if s == "integer" then Some(Integer)
    else if s == "float" then Some(Float)
    else if s == "boolean" then Some(Boolean)
    else if s == "object" then Some(Object)
    else if s == "unknown" then Some(Unknown)
    else if s == "array" then Some(Array)
    else None
  }

  /** Every kind's name reads back as that kind, so no two kinds share a name. */
  lemma KindNamedName(k: ValueType)
    ensures KindNamed(Name(k)) == Some(k)
  {
  }

  /** A shape whose objects have distinct keys that are path segments. */
  predicate ShapeWellFormed(t: TypeShape)
    decreases t
  {
    match t
    case Scalar(_) => true
    case Nested(entries) =>
      && DistinctKeys(entries)
      && forall i :: 0 <= i < |entries| ==> PathKey(entries[i].0) && ShapeWellFormed(entries[i].1)
  }

  // ---------------------------------------------------------------------------
  // Kinds

  /** `getValueType(value)` (src/dataset.ts:48-63). Arrays are tested first, so even an
      empty array is an array; every other falsy value is unknown. */
  function GetValueType(value: Json): (r: ValueType)
    ensures r == Array <==> value.JArr?
    ensures r == Unknown <==> !Truthy(value)
    ensures r == Object <==> value.JObj?
    ensures r == String <==> value.JStr? && value.s != ""
    ensures r == Boolean <==> value == JBool(true)
    ensures r == Float <==> IsNumberFloat(value)
    ensures r == Integer <==> value.JNum? && value.n != 0.0 && !IsNumberFloat(value)
  {
    if value.JArr? then Array
    else if !Truthy(value) then Unknown
    else match value
      case JStr(_) => String
      case JBool(_) => Boolean
      case JObj(_) => Object
      case JNum(_) => if IsNumberFloat(value) then Float else Integer
      case _ => Unknown
  }

  /** `set.add(t)` on a JavaScript Set, kept as its insertion-ordered contents. */
  function AddType(types: seq<ValueType>, t: ValueType): (r: seq<ValueType>)
    ensures NoDuplicates(types) ==> NoDuplicates(r)
    ensures forall u :: u in r <==> u in types || u == t
  {
    if t in types then types else types + [t]
  }

  /** `types.filter((type) => type !== 'unknown')`. */
  function Known(types: seq<ValueType>): (r: seq<ValueType>)
    ensures forall t :: t in r <==> t in types && t != Unknown
    ensures NoDuplicates(types) ==> NoDuplicates(r)
    decreases |types|
  {
    if types == [] then []
    else
      var rest := Known(types[1..]);
      assert forall t :: t in types <==> t == types[0] || t in types[1..];
      NoDuplicatesTail(types);
      NoDuplicatesCons(types[0], rest);
      if types[0] == Unknown then rest else [types[0]] + rest
  }

  lemma NoDuplicatesTail<T>(s: seq<T>)
    requires s != []
    ensures NoDuplicates(s) ==> NoDuplicates(s[1..]) && s[0] !in s[1..]
  {
    if NoDuplicates(s) {
      forall i, j | 0 <= i < j < |s[1..]| ensures s[1..][i] != s[1..][j] {
        assert s[1..][i] == s[i + 1] && s[1..][j] == s[j + 1];
      }
      forall i | 0 <= i < |s[1..]| ensures s[1..][i] != s[0] {
        assert s[1..][i] == s[i + 1];
      }
    }
  }

  lemma NoDuplicatesCons<T>(x: T, s: seq<T>)
    ensures NoDuplicates(s) && x !in s ==> NoDuplicates([x] + s)
  {
    if NoDuplicates(s) && x !in s {
      NoDuplicatesConsHolds(x, s);
    }
  }

  lemma NoDuplicatesConsHolds<T>(x: T, s: seq<T>)
    requires NoDuplicates(s) && x !in s
    ensures NoDuplicates([x] + s)
  {
    forall i, j | 0 <= i < j < |[x] + s| ensures ([x] + s)[i] != ([x] + s)[j] {
      assert ([x] + s)[j] == s[j - 1];
      if i > 0 {
        assert ([x] + s)[i] == s[i - 1];
      }
    }
  }

  /** With no kind other than unknown, the filter leaves nothing. */
  lemma {:induction false} KnownNone(types: seq<ValueType>)
    requires forall t :: t in types ==> t == Unknown
    ensures Known(types) == []
    decreases |types|
  {
    if types != [] {
      assert types[0] in types;
      assert forall t :: t in types[1..] ==> t in types;
      KnownNone(types[1..]);
    }
  }

  /** With exactly one kind other than unknown, the filter leaves just that kind. */
  lemma {:induction false} KnownSingle(types: seq<ValueType>, k: ValueType)
    requires NoDuplicates(types) && k in types && k != Unknown
    requires forall t :: t in types ==> t == k || t == Unknown
    ensures Known(types) == [k]
    decreases |types|
  {
    assert types[0] in types;
    NoDuplicatesTail(types);
    assert forall t :: t in types[1..] ==> t in types;
    if types[0] == Unknown {
      assert k in types[1..];
      KnownSingle(types[1..], k);
    } else {
      KnownNone(types[1..]);
    }
  }

  /** `resolveTypeCandidate(types)` (src/dataset.ts:30-40): the one kind other than
      unknown when there is exactly one, unknown when there are none or several. */
  function ResolveTypeCandidate(types: seq<ValueType>): (r: ValueType)
    requires NoDuplicates(types)
    ensures r != Unknown ==> r in types && forall t :: t in types ==> t == r || t == Unknown
    ensures forall k :: k in types && k != Unknown && (forall t :: t in types ==> t == k || t == Unknown)
                        ==> r == k
  {
    var f := Known(types);
    KnownOfSingleKind(types);
    if |f| == 1 then
      assert f[0] in f;
      f[0]
    else
      Unknown
  }

  lemma KnownOfSingleKind(types: seq<ValueType>)
    requires NoDuplicates(types)
    ensures forall k :: k in types && k != Unknown && (forall t :: t in types ==> t == k || t == Unknown)
                        ==> Known(types) == [k]
  {
    forall k | k in types && k != Unknown && (forall t :: t in types ==> t == k || t == Unknown)
      ensures Known(types) == [k]
    {
      KnownSingle(types, k);
    }
  }

  // ---------------------------------------------------------------------------
  // Collecting the candidate kinds of every key (src/dataset.ts:73-87)

  /** Every record is a plain object whose objects have distinct, dot-free keys. */
  predicate ValidRecords(records: seq<Json>) {
    forall i :: 0 <= i < |records| ==> records[i].JObj? && WellFormed(records[i])
  }

  /** The entries of a record's sub-object at `rootKey`; a falsy sub-object is skipped
      and gives none. `Object.entries` of a truthy value that is not a plain object is
      taken as empty. */
  function EntriesAt(record: Json, rootKey: string): seq<(string, Json)> {
    var itemObj := GetObjectKeyPath(record, rootKey);
    if itemObj.JObj? then itemObj.fields else []
  }

  /** All entries met by the collecting loops, record after record. */
  function AllEntries(records: seq<Json>, rootKey: string): seq<(string, Json)>
    decreases |records|
  {
    if records == [] then []
    else AllEntries(records[..|records| - 1], rootKey) + EntriesAt(records[|records| - 1], rootKey)
  }

  /** The candidate dictionary after one more entry: create the key's set if it is
      missing, then add the entry's kind to it. */
  function CollectEntry(cands: seq<(string, seq<ValueType>)>, e: (string, Json)): seq<(string, seq<ValueType>)> {
    var types := match Get(cands, e.0) case Some(ts) => ts case None => [];
    Put(cands, e.0, AddType(types, GetValueType(e.1)))
  }

  /** The candidate dictionary after a sequence of entries. */
  function CollectEntries(cands: seq<(string, seq<ValueType>)>, entries: seq<(string, Json)>): seq<(string, seq<ValueType>)>
    decreases |entries|
  {
    if entries == [] then cands
    else CollectEntry(CollectEntries(cands, entries[..|entries| - 1]), entries[|entries| - 1])
  }

  /** `typeCandidates` once every record has been visited. */
  function Collect(records: seq<Json>, rootKey: string): seq<(string, seq<ValueType>)> {
    CollectEntries([], AllEntries(records, rootKey))
  }

  /** The kinds seen for key `k` among `entries`: the reference for a candidate set. */
  function SeenKinds(entries: seq<(string, Json)>, k: string): set<ValueType> {
    set j | 0 <= j < |entries| && entries[j].0 == k :: GetValueType(entries[j].1)
  }

  /** The keys without repetition, each at its first occurrence. */
  function Dedup(s: seq<string>): (r: seq<string>)
    ensures NoDuplicates(r)
    ensures forall x :: x in r <==> x in s
    decreases |s|
  {
    if s == [] then []
    else
      var d := Dedup(s[..|s| - 1]);
      var x := s[|s| - 1];
      assert forall y :: y in s <==> y in s[..|s| - 1] || y == x;
      if x in d then d
      else
        assert forall i :: 0 <= i < |d| ==> (d + [x])[i] == d[i];
        d + [x]
  }

  /** The state of the candidate dictionary after `entries`: one entry per key seen, in
      first-seen order, each holding exactly the kinds seen for that key, once each. */
  predicate CandidatesOf(cands: seq<(string, seq<ValueType>)>, entries: seq<(string, Json)>) {
    && DistinctKeys(cands)
    && Keys(cands) == Dedup(Keys(entries))
    && forall i :: 0 <= i < |cands| ==>
         && NoDuplicates(cands[i].1)
         && forall t :: t in cands[i].1 <==> t in SeenKinds(entries, cands[i].0)
  }

  lemma SeenKindsSnoc(entries: seq<(string, Json)>, e: (string, Json), k: string)
    ensures SeenKinds(entries + [e], k)
            == SeenKinds(entries, k) + if e.0 == k then {GetValueType(e.1)} else {}
  {
    var all := entries + [e];
    assert forall j :: 0 <= j < |entries| ==> all[j] == entries[j];
    assert all[|entries|] == e;
  }

  lemma {:induction false} CollectEntriesSpec(entries: seq<(string, Json)>)
    ensures CandidatesOf(CollectEntries([], entries), entries)
    decreases |entries|
  {
    if entries != [] {
      var front := entries[..|entries| - 1];
      var e := entries[|entries| - 1];
      assert entries == front + [e];
      CollectEntriesSpec(front);
      CollectEntryStep(CollectEntries([], front), front, e);
    }
  }

  lemma CollectEntryStep(cands: seq<(string, seq<ValueType>)>, entries: seq<(string, Json)>, e: (string, Json))
    requires CandidatesOf(cands, entries)
    ensures CandidatesOf(CollectEntry(cands, e), entries + [e])
  {
    var r := CollectEntry(cands, e);
    var types := match Get(cands, e.0) case Some(ts) => ts case None => [];
    PutDistinct(cands, e.0, AddType(types, GetValueType(e.1)));
    assert Keys(entries + [e]) == Keys(entries) + [e.0];
    assert Keys(entries + [e])[..|entries|] == Keys(entries);
    forall i | 0 <= i < |r|
      ensures NoDuplicates(r[i].1)
      ensures forall t :: t in r[i].1 <==> t in SeenKinds(entries + [e], r[i].0)
    {
      CollectEntryAt(cands, entries, e, i);
    }
  }

  /** After one more entry, each key's set holds exactly the kinds seen for it. */
  lemma CollectEntryAt(cands: seq<(string, seq<ValueType>)>, entries: seq<(string, Json)>, e: (string, Json), i: int)
    requires CandidatesOf(cands, entries) && 0 <= i < |CollectEntry(cands, e)|
    requires DistinctKeys(CollectEntry(cands, e))
    ensures NoDuplicates(CollectEntry(cands, e)[i].1)
    ensures forall t :: t in CollectEntry(cands, e)[i].1 <==> t in SeenKinds(entries + [e], CollectEntry(cands, e)[i].0)
  {
    var types := match Get(cands, e.0) case Some(ts) => ts case None => [];
    var added := AddType(types, GetValueType(e.1));
    var r := CollectEntry(cands, e);
    var k := r[i].0;
    SeenKindsSnoc(entries, e, k);
    GetEntry(r, i);
    GetPut(cands, e.0, added, k);
    if k != e.0 {
      var m :| 0 <= m < |cands| && cands[m] == (k, r[i].1);
    } else if Get(cands, k).Some? {
      var m :| 0 <= m < |cands| && cands[m] == (k, types);
    }
  }

  /** Every collected entry is an entry of some record's sub-object. */
  lemma {:induction false} AllEntriesFrom(records: seq<Json>, rootKey: string, j: int)
    requires 0 <= j < |AllEntries(records, rootKey)|
    ensures exists i :: 0 <= i < |records| && AllEntries(records, rootKey)[j] in EntriesAt(records[i], rootKey)
    decreases |records|
  {
    var n := |records| - 1;
    var front := AllEntries(records[..n], rootKey);
    if j < |front| {
      AllEntriesFrom(records[..n], rootKey, j);
      var i :| 0 <= i < n && front[j] in EntriesAt(records[..n][i], rootKey);
      assert records[..n][i] == records[i];
    } else {
      assert AllEntries(records, rootKey)[j] == EntriesAt(records[n], rootKey)[j - |front|];
    }
  }

  /** Sub-objects of well-formed values are well formed. */
  lemma {:induction false} DescendWellFormed(v: Json, path: seq<string>)
    requires WellFormed(v)
    ensures WellFormed(Descend(v, path))
    decreases |path|
  {
    if path != [] {
      MemberWellFormed(v, path[0]);
      DescendWellFormed(Member(v, path[0]), path[1..]);
    }
  }

  /** An entry of a record's sub-object has a proper key, and looking the record up one
      key further down reaches the entry's value (null when it is falsy). */
  lemma EntryLookup(record: Json, rootKey: string, e: (string, Json))
    requires WellFormed(record) && e in EntriesAt(record, rootKey)
    ensures PathKey(e.0)
    ensures GetObjectKeyPath(record, Child(rootKey, e.0)) == if Truthy(e.1) then e.1 else JNull
  {
    var itemObj := GetObjectKeyPath(record, rootKey);
    DescendWellFormed(record, Segments(rootKey));
    var j :| 0 <= j < |itemObj.fields| && itemObj.fields[j] == e;
    MemberAt(itemObj, j);
    GetObjectKeyPathChild(record, rootKey, e.0);
  }

  // ---------------------------------------------------------------------------
  // Termination of the recursion on object-valued keys

  function MaxDepth(records: seq<Json>): nat {
    Max(seq(|records|, i requires 0 <= i < |records| => Depth(records[i])))
  }

  /** What is left to descend below `rootKey`: the recursion stops when no record is
      nested deeper than the path. */
  function Measure(records: seq<Json>, rootKey: string): int {
    MaxDepth(records) - |Segments(rootKey)|
  }

  /** Some record holds a plain object at `keyPath`. */
  predicate ObjectBelow(records: seq<Json>, keyPath: string) {
    exists i :: 0 <= i < |records| && GetObjectKeyPath(records[i], keyPath).JObj?
  }

  /** Descending to a key under which some record holds an object brings the recursion
      closer to the records' depth. */
  lemma Deeper(records: seq<Json>, rootKey: string, key: string)
    requires PathKey(key) && ObjectBelow(records, Child(rootKey, key))
    ensures 0 <= Measure(records, Child(rootKey, key)) < Measure(records, rootKey)
  {
    var i :| 0 <= i < |records| && GetObjectKeyPath(records[i], Child(rootKey, key)).JObj?;
    DescendDepth(records[i], Segments(Child(rootKey, key)));
    SegmentsChild(rootKey, key);
    var ds := seq(|records|, i requires 0 <= i < |records| => Depth(records[i]));
    assert ds[i] == Depth(records[i]);
  }

  /** The sub-path as written maps an empty key under the empty root key back to the
      empty root key. In a record `{"": v}` with `v` an object, such as `{"": {"": 1}}`,
      the key `""` holds an object, so the recursion would run again on the same records
      and the same root key: no descent, and no progress in `Measure`. */
  lemma EmptyKeyRecursesInPlace(r: Json, v: Json)
    requires r == JObj([("", v)]) && v.JObj?
    ensures EntriesAt(r, "") == [("", v)]
    ensures GetValueType(v) == Object && Child("", "") == ""
    ensures ObjectBelow([r], Child("", ""))
    ensures Measure([r], Child("", "")) == Measure([r], "")
  {
    assert GetObjectKeyPath(r, "") == r;
    assert [r][0] == r;
  }

  /** The model admits no such record: an empty key is not a path key. */
  lemma EmptyKeyExcluded(r: Json, v: Json)
    requires r == JObj([("", v)])
    ensures !ValidRecords([r])
  {
    assert !PathKey(r.fields[0].0);
    assert [r][0] == r;
  }

  /** A key whose candidates include object has a proper key and an object under it in
      some record. */
  lemma ObjectCandidates(records: seq<Json>, rootKey: string)
    requires ValidRecords(records)
    ensures CandidatesOf(Collect(records, rootKey), AllEntries(records, rootKey))
    ensures forall i :: 0 <= i < |Collect(records, rootKey)| && Object in Collect(records, rootKey)[i].1 ==>
              PathKey(Collect(records, rootKey)[i].0)
              && ObjectBelow(records, Child(rootKey, Collect(records, rootKey)[i].0))
  {
    var all := AllEntries(records, rootKey);
    var cands := Collect(records, rootKey);
    CollectEntriesSpec(all);
    forall i | 0 <= i < |cands| && Object in cands[i].1
      ensures PathKey(cands[i].0) && ObjectBelow(records, Child(rootKey, cands[i].0))
    {
      var k := cands[i].0;
      assert Object in SeenKinds(all, k);
      var j :| 0 <= j < |all| && all[j].0 == k && GetValueType(all[j].1) == Object;
      AllEntriesFrom(records, rootKey, j);
      var r :| 0 <= r < |records| && all[j] in EntriesAt(records[r], rootKey);
      EntryLookup(records[r], rootKey, all[j]);
    }
  }

  // ---------------------------------------------------------------------------
  // The inferred shape

  /** The shape after the second loop (src/dataset.ts:90-92): every key resolved. */
  function Resolved(cands: seq<(string, seq<ValueType>)>): (r: seq<(string, TypeShape)>)
    requires forall i :: 0 <= i < |cands| ==> NoDuplicates(cands[i].1)
    ensures Keys(r) == Keys(cands)
  {
    seq(|cands|, i requires 0 <= i < |cands| => (cands[i].0, Scalar(ResolveTypeCandidate(cands[i].1))))
  }

  /** Every key resolved to object names a proper key with an object below it. */
  predicate ObjectsBelow(records: seq<Json>, rootKey: string, shape: seq<(string, TypeShape)>) {
    forall i :: 0 <= i < |shape| && shape[i].1 == Scalar(Object) ==>
      PathKey(shape[i].0) && ObjectBelow(records, Child(rootKey, shape[i].0))
  }

  /** The third loop (src/dataset.ts:95-100) on the first `|shape|` entries: a key
      resolved to object is replaced, in place, by the shape inferred one key deeper. */
  function Expand(records: seq<Json>, rootKey: string, shape: seq<(string, TypeShape)>): (r: seq<(string, TypeShape)>)
    requires ValidRecords(records) && ObjectsBelow(records, rootKey, shape)
    ensures |r| == |shape| && forall j :: 0 <= j < |shape| ==> r[j].0 == shape[j].0
    decreases Measure(records, rootKey), 0, |shape|
  {
    if shape == [] then []
    else
      var n := |shape| - 1;
      Expand(records, rootKey, shape[..n]) + [ExpandEntry(records, rootKey, shape[n])]
  }

  /** One entry of the third loop: a key resolved to object holds the shape inferred
      one key deeper; any other entry is kept. */
  function ExpandEntry(records: seq<Json>, rootKey: string, e: (string, TypeShape)): (r: (string, TypeShape))
    requires ValidRecords(records)
    requires e.1 == Scalar(Object) ==> PathKey(e.0) && ObjectBelow(records, Child(rootKey, e.0))
    ensures r.0 == e.0
    decreases Measure(records, rootKey), 0, 0
  {
    if e.1 == Scalar(Object) then
      Deeper(records, rootKey, e.0);
      (e.0, Nested(InferShape(records, Child(rootKey, e.0))))
    else e
  }

  /** `getDatasetTypeShape(records, rootKey)` as a value: the candidates of every key seen
      under `rootKey`, resolved, with object-valued keys inferred one level deeper. */
  function InferShape(records: seq<Json>, rootKey: string): seq<(string, TypeShape)>
    requires ValidRecords(records)
    decreases Measure(records, rootKey), 1, 0
  {
    var cands := Collect(records, rootKey);
    ObjectCandidates(records, rootKey);
    var shape := Resolved(cands);
    assert ObjectsBelow(records, rootKey, shape);
    Expand(records, rootKey, shape)
  }

  // ---------------------------------------------------------------------------
  // getDatasetTypeShape

  /** `getDatasetTypeShape(records, rootKey)` (src/dataset.ts:65-103): collect the kinds
      of every key under `rootKey`, resolve each key, then replace object-valued keys by
      the shape inferred one level deeper. */
  method GetDatasetTypeShape(records: seq<Json>, rootKey: string) returns (typeShape: seq<(string, TypeShape)>)
    requires ValidRecords(records)
    ensures typeShape == InferShape(records, rootKey)
    decreases Measure(records, rootKey), 1
  {
    var typeCandidates := CollectTypeCandidates(records, rootKey);
    ObjectCandidates(records, rootKey);
    typeShape := ResolveTypeCandidates(typeCandidates);
    typeShape := ExpandObjects(records, rootKey, typeShape);
  }

  /** The third loop of getDatasetTypeShape (src/dataset.ts:94-100): every key resolved
      to object is overwritten, in place, by the shape inferred at the key's path. */
  method ExpandObjects(records: seq<Json>, rootKey: string, entries: seq<(string, TypeShape)>)
    returns (typeShape: seq<(string, TypeShape)>)
    requires ValidRecords(records) && ObjectsBelow(records, rootKey, entries) && DistinctKeys(entries)
    ensures typeShape == Expand(records, rootKey, entries)
    decreases Measure(records, rootKey), 0
  {
    typeShape := entries;
    for i := 0 to |entries|
      invariant typeShape == Expand(records, rootKey, entries[..i]) + entries[i..]
    {
      var key := entries[i].0;
      var kind := entries[i].1;
      ExpandStep(records, rootKey, entries, i);
      ExpandKeys(records, rootKey, entries, i);
      if kind == Scalar(Object) {
        Deeper(records, rootKey, key);
        var sub := GetDatasetTypeShape(records, Child(rootKey, key));
        PutExisting(typeShape, i, Nested(sub));
        typeShape := Put(typeShape, key, Nested(sub));
      }
    }
    assert entries[..|entries|] == entries;
  }

  /** The first loop of getDatasetTypeShape (src/dataset.ts:72-87): for every record
      whose sub-object at `rootKey` is truthy, add the kind of each of its members to
      the candidate set of the member's key, creating the set on first sight. */
  method CollectTypeCandidates(records: seq<Json>, rootKey: string)
    returns (typeCandidates: seq<(string, seq<ValueType>)>)
    ensures typeCandidates == Collect(records, rootKey)
  {
    typeCandidates := [];
    for i := 0 to |records|
      invariant typeCandidates == CollectEntries([], AllEntries(records[..i], rootKey))
    {
      AllEntriesSnoc(records, rootKey, i);
      var itemObj := GetObjectKeyPath(records[i], rootKey);
      ghost var seen := AllEntries(records[..i], rootKey);
      if !Truthy(itemObj) {
        assert seen + EntriesAt(records[i], rootKey) == seen;
        continue;
      }
      var entries := if itemObj.JObj? then itemObj.fields else [];
      assert entries == EntriesAt(records[i], rootKey);
      assert seen + entries[..0] == seen;
      for j := 0 to |entries|
        invariant typeCandidates == CollectEntries([], seen + entries[..j])
      {
        var key := entries[j].0;
        var value := entries[j].1;
        ghost var before := typeCandidates;
        if Get(typeCandidates, key).None? {
          typeCandidates := Put(typeCandidates, key, []);
        }
        CreatedSet(before, key);
        var valueType := GetValueType(value);
        typeCandidates := Put(typeCandidates, key, AddType(Get(typeCandidates, key).value, valueType));
        CollectEntriesSnoc(seen, entries, j);
      }
      assert entries[..|entries|] == entries;
    }
    assert records[..|records|] == records;
  }

  /** The second loop of getDatasetTypeShape (src/dataset.ts:89-92): one entry per
      candidate key, in the same order, holding the resolved kind. */
  method ResolveTypeCandidates(typeCandidates: seq<(string, seq<ValueType>)>)
    returns (typeShape: seq<(string, TypeShape)>)
    requires DistinctKeys(typeCandidates)
    requires forall m :: 0 <= m < |typeCandidates| ==> NoDuplicates(typeCandidates[m].1)
    ensures typeShape == Resolved(typeCandidates)
  {
    typeShape := [];
    for i := 0 to |typeCandidates|
      invariant typeShape == Resolved(typeCandidates)[..i]
    {
      var key := typeCandidates[i].0;
      var types := typeCandidates[i].1;
      ResolvedStep(typeCandidates, i);
      typeShape := Put(typeShape, key, Scalar(ResolveTypeCandidate(types)));
    }
  }

  lemma AllEntriesSnoc(records: seq<Json>, rootKey: string, i: int)
    requires 0 <= i < |records|
    ensures AllEntries(records[..i + 1], rootKey)
            == AllEntries(records[..i], rootKey) + EntriesAt(records[i], rootKey)
  {
    assert records[..i + 1][..i] == records[..i];
  }

  /** The two steps of the inner loop (create the set if missing, then add) make one
      CollectEntry step. */
  lemma CreatedSet(cands: seq<(string, seq<ValueType>)>, key: string)
    ensures var c := if Get(cands, key).None? then Put(cands, key, []) else cands;
            && Get(c, key).Some?
            && (forall v :: Put(c, key, v) == Put(cands, key, v))
            && (Get(cands, key).Some? ==> Get(c, key) == Get(cands, key))
            && (Get(cands, key).None? ==> Get(c, key) == Some([]))
  {
    if Get(cands, key).None? {
      var c := Put(cands, key, []);
      PutFresh(cands, key, []);
      GetPut(cands, key, [], key);
      forall v ensures Put(c, key, v) == Put(cands, key, v) {
        assert FindKey(c, key) == |cands|;
      }
    }
  }

  lemma CollectEntriesSnoc(seen: seq<(string, Json)>, entries: seq<(string, Json)>, j: int)
    requires 0 <= j < |entries|
    ensures CollectEntries([], seen + entries[..j + 1])
            == CollectEntry(CollectEntries([], seen + entries[..j]), entries[j])
  {
    var all := seen + entries[..j + 1];
    var front := seen + entries[..j];
    assert all == front + [entries[j]];
    CollectEntriesLast([], front, entries[j]);
  }

  lemma CollectEntriesLast(cands: seq<(string, seq<ValueType>)>, front: seq<(string, Json)>, e: (string, Json))
    ensures CollectEntries(cands, front + [e]) == CollectEntry(CollectEntries(cands, front), e)
  {
    assert (front + [e])[..|front|] == front;
  }

  /** Resolving the next key appends its entry. */
  lemma ResolvedStep(cands: seq<(string, seq<ValueType>)>, i: int)
    requires DistinctKeys(cands) && 0 <= i < |cands|
    requires forall m :: 0 <= m < |cands| ==> NoDuplicates(cands[m].1)
    ensures Put(Resolved(cands)[..i], cands[i].0, Scalar(ResolveTypeCandidate(cands[i].1)))
            == Resolved(cands)[..i + 1]
  {
    var r := Resolved(cands);
    assert Keys(r[..i]) == Keys(cands)[..i];
    assert cands[i].0 !in Keys(r[..i]);
    PutFresh(r[..i], cands[i].0, Scalar(ResolveTypeCandidate(cands[i].1)));
  }

  /** One step of the third loop: the entry at `i` is replaced in place. */
  lemma ExpandStep(records: seq<Json>, rootKey: string, entries: seq<(string, TypeShape)>, i: int)
    requires ValidRecords(records) && ObjectsBelow(records, rootKey, entries) && 0 <= i < |entries|
    ensures ObjectsBelow(records, rootKey, entries[..i]) && ObjectsBelow(records, rootKey, entries[..i + 1])
    ensures Expand(records, rootKey, entries[..i + 1]) + entries[i + 1..]
            == (Expand(records, rootKey, entries[..i]) + entries[i..])[i := ExpandEntry(records, rootKey, entries[i])]
  {
    var prefix := Expand(records, rootKey, entries[..i]);
    var rest := entries[i + 1..];
    assert ObjectsBelow(records, rootKey, entries[..i + 1]);
    var last := ExpandEntry(records, rootKey, entries[i]);
    assert Expand(records, rootKey, entries[..i + 1]) == prefix + [last] by {
      assert entries[..i + 1][..i] == entries[..i];
    }
    assert entries[i..] == [entries[i]] + rest;
    SnocReplace(prefix, entries[i], last, rest);
  }

  /** Expanding a prefix in place keeps every key where it was. */
  lemma ExpandKeys(records: seq<Json>, rootKey: string, entries: seq<(string, TypeShape)>, i: int)
    requires ValidRecords(records) && ObjectsBelow(records, rootKey, entries)
    requires DistinctKeys(entries) && 0 <= i < |entries|
    ensures ObjectsBelow(records, rootKey, entries[..i])
    ensures var front := Expand(records, rootKey, entries[..i]) + entries[i..];
            |front| == |entries| && front[i] == entries[i] && DistinctKeys(front)
  {
    var prefix := Expand(records, rootKey, entries[..i]);
    var front := prefix + entries[i..];
    assert Keys(prefix) == Keys(entries[..i]);
    forall j | 0 <= j < |front| ensures front[j].0 == entries[j].0 {
      if j < i { assert Keys(prefix)[j] == Keys(entries[..i])[j]; }
    }
  }

  // ---------------------------------------------------------------------------
  // What the inferred shape holds

  /** The strict-consensus rule on a set of kinds: the one kind other than unknown when
      there is exactly one, unknown otherwise. */
  ghost function Consensus(kinds: set<ValueType>): ValueType {
    if exists k :: kinds - {Unknown} == {k} then
      var k :| kinds - {Unknown} == {k}; k
    else Unknown
  }

  /** A single kind other than unknown, possibly beside unknown, is the consensus. */
  lemma ConsensusSingle(kinds: set<ValueType>, k: ValueType)
    requires k != Unknown && k in kinds
    requires forall t :: t in kinds ==> t == k || t == Unknown
    ensures Consensus(kinds) == k
  {
    assert kinds - {Unknown} == {k};
  }

  /** Two different kinds other than unknown conflict: the consensus is unknown. */
  lemma ConsensusConflict(kinds: set<ValueType>, a: ValueType, b: ValueType)
    requires a != b && a != Unknown && b != Unknown && a in kinds && b in kinds
    ensures Consensus(kinds) == Unknown
  {
    forall k ensures kinds - {Unknown} != {k} {
      if a != k {
        assert a in kinds - {Unknown};
      } else {
        assert b in kinds - {Unknown};
      }
    }
  }

  /** resolveTypeCandidate applies the consensus rule to the set it is given. */
  lemma ResolveIsConsensus(types: seq<ValueType>)
    requires NoDuplicates(types)
    ensures ResolveTypeCandidate(types) == Consensus(set t | t in types)
  {
    var kinds := set t | t in types;
    var r := ResolveTypeCandidate(types);
    if exists k :: kinds - {Unknown} == {k} {
      var k :| kinds - {Unknown} == {k};
      forall t | t in types ensures t == k || t == Unknown {
        assert t in kinds;
        if t != Unknown {
          assert t in kinds - {Unknown};
        }
      }
      assert k in kinds;
    } else {
      assert kinds - {Unknown} != {r};
    }
  }

  /** The entry at position `i` after the third loop. */
  lemma {:induction false} ExpandAt(records: seq<Json>, rootKey: string, shape: seq<(string, TypeShape)>, i: int)
    requires ValidRecords(records) && ObjectsBelow(records, rootKey, shape) && 0 <= i < |shape|
    ensures |Expand(records, rootKey, shape)| == |shape|
    ensures shape[i].1 == Scalar(Object) ==> PathKey(shape[i].0)
    ensures Expand(records, rootKey, shape)[i] ==
              if shape[i].1 == Scalar(Object)
              then (shape[i].0, Nested(InferShape(records, Child(rootKey, shape[i].0))))
              else shape[i]
    decreases |shape|
  {
    var n := |shape| - 1;
    ExpandLast(records, rootKey, shape);
    if i < n {
      ExpandAt(records, rootKey, shape[..n], i);
      assert shape[..n][i] == shape[i];
    } else {
      ExpandEntryValue(records, rootKey, shape[n]);
    }
  }

  /** The expansion of a non-empty shape is that of its front, then its last entry's. */
  lemma ExpandLast(records: seq<Json>, rootKey: string, shape: seq<(string, TypeShape)>)
    requires ValidRecords(records) && ObjectsBelow(records, rootKey, shape) && shape != []
    ensures ObjectsBelow(records, rootKey, shape[..|shape| - 1])
    ensures Expand(records, rootKey, shape)
            == Expand(records, rootKey, shape[..|shape| - 1]) + [ExpandEntry(records, rootKey, shape[|shape| - 1])]
  {
  }

  lemma ExpandEntryValue(records: seq<Json>, rootKey: string, e: (string, TypeShape))
    requires ValidRecords(records)
    requires e.1 == Scalar(Object) ==> PathKey(e.0) && ObjectBelow(records, Child(rootKey, e.0))
    ensures ExpandEntry(records, rootKey, e) ==
              if e.1 == Scalar(Object) then (e.0, Nested(InferShape(records, Child(rootKey, e.0)))) else e
  {
  }

  /** The inferred shape has exactly one entry per key seen in any record's sub-object at
      `rootKey`, in the order the keys were first seen. */
  lemma InferShapeKeys(records: seq<Json>, rootKey: string)
    requires ValidRecords(records)
    ensures Keys(InferShape(records, rootKey)) == Dedup(Keys(AllEntries(records, rootKey)))
    ensures DistinctKeys(InferShape(records, rootKey))
  {
    ObjectCandidates(records, rootKey);
    var shape := InferShape(records, rootKey);
    var ks := Keys(shape);
    forall i, j | 0 <= i < j < |shape| ensures shape[i].0 != shape[j].0 {
      assert ks[i] == shape[i].0 && ks[j] == shape[j].0;
    }
  }

  /** Each key of the inferred shape holds the consensus of the kinds seen for it; a key
      whose consensus is object holds the shape inferred one level deeper, at
      `rootKey.key` (or at `key` from the root). */
  lemma InferShapeEntry(records: seq<Json>, rootKey: string, i: int)
    requires ValidRecords(records) && 0 <= i < |InferShape(records, rootKey)|
    ensures var key := InferShape(records, rootKey)[i].0;
            var kind := Consensus(SeenKinds(AllEntries(records, rootKey), key));
            && PathKey(key)
            && InferShape(records, rootKey)[i].1 ==
                 if kind == Object then Nested(InferShape(records, Child(rootKey, key))) else Scalar(kind)
  {
    var cands := Collect(records, rootKey);
    InferShapeResolved(records, rootKey, i);
    CandidateKey(records, rootKey, i);
    ResolveIsConsensus(cands[i].1);
    assert (set t | t in cands[i].1) == SeenKinds(AllEntries(records, rootKey), cands[i].0);
  }

  /** The entry at `i` is the `i`-th candidate key, resolved and, when object, expanded. */
  lemma InferShapeResolved(records: seq<Json>, rootKey: string, i: int)
    requires ValidRecords(records) && 0 <= i < |InferShape(records, rootKey)|
    ensures var cands := Collect(records, rootKey);
            && CandidatesOf(cands, AllEntries(records, rootKey))
            && i < |cands|
            && InferShape(records, rootKey)[i].0 == cands[i].0
            && var kind := ResolveTypeCandidate(cands[i].1);
               InferShape(records, rootKey)[i].1 ==
                 if kind == Object then Nested(InferShape(records, Child(rootKey, cands[i].0))) else Scalar(kind)
  {
    var cands := Collect(records, rootKey);
    ObjectCandidates(records, rootKey);
    var res := Resolved(cands);
    assert ObjectsBelow(records, rootKey, res);
    ExpandAt(records, rootKey, res, i);
  }

  /** Every candidate key is a key of some record's sub-object, hence a path segment. */
  lemma CandidateKey(records: seq<Json>, rootKey: string, i: int)
    requires ValidRecords(records) && 0 <= i < |Collect(records, rootKey)|
    ensures PathKey(Collect(records, rootKey)[i].0)
  {
    var all := AllEntries(records, rootKey);
    var cands := Collect(records, rootKey);
    ObjectCandidates(records, rootKey);
    var key := cands[i].0;
    assert key in Keys(cands) by { assert Keys(cands)[i] == key; }
    assert key in Keys(all);
    var j :| 0 <= j < |all| && Keys(all)[j] == key;
    AllEntriesFrom(records, rootKey, j);
    var r :| 0 <= r < |records| && all[j] in EntriesAt(records[r], rootKey);
    EntryLookup(records[r], rootKey, all[j]);
  }

  /** Two different kinds other than unknown seen for one key conflict: the key is
      unknown. */
  lemma InferShapeConflict(records: seq<Json>, rootKey: string, i: int, a: ValueType, b: ValueType)
    requires ValidRecords(records) && 0 <= i < |InferShape(records, rootKey)|
    requires a != b && a != Unknown && b != Unknown
    requires var kinds := SeenKinds(AllEntries(records, rootKey), InferShape(records, rootKey)[i].0);
             a in kinds && b in kinds
    ensures InferShape(records, rootKey)[i].1 == Scalar(Unknown)
  {
    InferShapeEntry(records, rootKey, i);
    ConsensusConflict(SeenKinds(AllEntries(records, rootKey), InferShape(records, rootKey)[i].0), a, b);
  }

  /** No record, no keys. */
  lemma InferShapeEmpty(rootKey: string)
    ensures InferShape([], rootKey) == []
  {
  }

  /** A record whose sub-object at `rootKey` is falsy (missing, null, 0, false or "")
      adds no candidate: it is skipped. */
  lemma FalsyRecordSkipped(records: seq<Json>, record: Json, rootKey: string)
    requires !Truthy(GetObjectKeyPath(record, rootKey))
    ensures Collect(records + [record], rootKey) == Collect(records, rootKey)
  {
    var rs := records + [record];
    assert rs[..|rs| - 1] == records && rs[|rs| - 1] == record;
    assert EntriesAt(record, rootKey) == [];
    assert AllEntries(rs, rootKey) == AllEntries(records, rootKey);
  }

  /** No shape keeps object as a kind: every such key is nested. */
  predicate NoObjectKind(t: TypeShape)
    decreases t
  {
    match t
    case Scalar(k) => k != Object
    case Nested(entries) => forall i :: 0 <= i < |entries| ==> NoObjectKind(entries[i].1)
  }

  lemma {:induction false} InferShapeNoObjectKind(records: seq<Json>, rootKey: string)
    requires ValidRecords(records)
    ensures NoObjectKind(Nested(InferShape(records, rootKey)))
    decreases Measure(records, rootKey)
  {
    var shape := InferShape(records, rootKey);
    var cands := Collect(records, rootKey);
    ObjectCandidates(records, rootKey);
    var res := Resolved(cands);
    assert ObjectsBelow(records, rootKey, res);
    forall i | 0 <= i < |shape| ensures NoObjectKind(shape[i].1) {
      ExpandAt(records, rootKey, res, i);
      if res[i].1 == Scalar(Object) {
        Deeper(records, rootKey, res[i].0);
        InferShapeNoObjectKind(records, Child(rootKey, res[i].0));
      }
    }
  }

  // ---------------------------------------------------------------------------
  // Scenarios

  /** The entries of three records, one null and two 123 under "prop". */
  lemma NullThenIntegersEntries(a: Json, b: Json)
    requires a == JObj([("prop", JNull)]) && b == JObj([("prop", JNum(123.0))])
    ensures AllEntries([a, b, b], "") == [("prop", JNull), ("prop", JNum(123.0)), ("prop", JNum(123.0))]
    ensures Keys(AllEntries([a, b, b], "")) == ["prop", "prop", "prop"]
  {
    assert [a, b, b][..2] == [a, b] && [a, b][..1] == [a] && [a][..0] == [];
    assert AllEntries([a], "") == a.fields;
    assert AllEntries([a, b], "") == a.fields + b.fields;
  }

  /** A key that is null in one record and 123 in two others is an integer. */
  lemma NullThenIntegers(a: Json, b: Json)
    requires a == JObj([("prop", JNull)]) && b == JObj([("prop", JNum(123.0))])
    ensures ValidRecords([a, b, b]) && InferShape([a, b, b], "") == [("prop", Scalar(Integer))]
  {
    var records := [a, b, b];
    assert WellFormed(a) && WellFormed(b);
    NullThenIntegersEntries(a, b);
    var all := AllEntries(records, "");
    DedupThree("prop");
    InferShapeKeys(records, "");
    var shape := InferShape(records, "");
    assert Keys(shape) == ["prop"];
    InferShapeEntry(records, "", 0);
    NullThenIntegersKind(all);
  }

  lemma NullThenIntegersKind(all: seq<(string, Json)>)
    requires all == [("prop", JNull), ("prop", JNum(123.0)), ("prop", JNum(123.0))]
    ensures Consensus(SeenKinds(all, "prop")) == Integer
  {
    IntegerIsNotFloat(123);
    assert GetValueType(all[0].1) == Unknown;
    assert GetValueType(all[1].1) == Integer;
    var kinds := SeenKinds(all, "prop");
    forall t | t in kinds ensures t == Integer || t == Unknown {
      var j :| 0 <= j < |all| && all[j].0 == "prop" && t == GetValueType(all[j].1);
    }
    assert Integer in kinds;
    ConsensusSingle(kinds, Integer);
  }

  /** The entries of two records holding an empty and a non-empty array under
      "arrayProp". */
  lemma ArrayPropEntries(a: Json, b: Json)
    requires a == JObj([("arrayProp", JArr([]))])
    requires b == JObj([("arrayProp", JArr([JNum(4.0), JNum(5.0), JNum(6.0)]))])
    ensures AllEntries([a, b], "") == [("arrayProp", JArr([])), ("arrayProp", JArr([JNum(4.0), JNum(5.0), JNum(6.0)]))]
    ensures Keys(AllEntries([a, b], "")) == ["arrayProp", "arrayProp"]
  {
    assert [a, b][..1] == [a] && [a][..0] == [];
    assert AllEntries([a], "") == a.fields;
  }

  /** A key holding arrays, empty or not, is an array. */
  lemma ArrayProp(a: Json, b: Json)
    requires a == JObj([("arrayProp", JArr([]))])
    requires b == JObj([("arrayProp", JArr([JNum(4.0), JNum(5.0), JNum(6.0)]))])
    ensures ValidRecords([a, b]) && InferShape([a, b], "") == [("arrayProp", Scalar(Array))]
  {
    var records := [a, b];
    assert WellFormed(a) && WellFormed(b);
    ArrayPropEntries(a, b);
    var all := AllEntries(records, "");
    DedupTwo("arrayProp");
    InferShapeKeys(records, "");
    var shape := InferShape(records, "");
    assert Keys(shape) == ["arrayProp"];
    InferShapeEntry(records, "", 0);
    ArrayPropKind(all);
  }

  lemma ArrayPropKind(all: seq<(string, Json)>)
    requires all == [("arrayProp", JArr([])), ("arrayProp", JArr([JNum(4.0), JNum(5.0), JNum(6.0)]))]
    ensures Consensus(SeenKinds(all, "arrayProp")) == Array
  {
    var kinds := SeenKinds(all, "arrayProp");
    forall t | t in kinds ensures t == Array {
      var j :| 0 <= j < |all| && all[j].0 == "arrayProp" && t == GetValueType(all[j].1);
    }
    assert GetValueType(all[0].1) == Array;
    ConsensusSingle(kinds, Array);
  }

  lemma DedupTwo(x: string)
    ensures Dedup([x, x]) == [x]
  {
    assert [x, x][..1] == [x] && [x][..0] == [];
    assert Dedup([x]) == [x];
  }

  lemma DedupThree(x: string)
    ensures Dedup([x, x, x]) == [x]
  {
    assert [x, x, x][..2] == [x, x] && [x, x][..1] == [x] && [x][..0] == [];
    assert Dedup([x]) == [x];
    assert Dedup([x, x]) == [x];
  }

  /** The inferred shape is well formed at every level. */
  lemma {:induction false} InferShapeWellFormed(records: seq<Json>, rootKey: string)
    requires ValidRecords(records)
    ensures ShapeWellFormed(Nested(InferShape(records, rootKey)))
    decreases Measure(records, rootKey)
  {
    var shape := InferShape(records, rootKey);
    InferShapeKeys(records, rootKey);
    var cands := Collect(records, rootKey);
    ObjectCandidates(records, rootKey);
    var res := Resolved(cands);
    assert ObjectsBelow(records, rootKey, res);
    forall i | 0 <= i < |shape| ensures PathKey(shape[i].0) && ShapeWellFormed(shape[i].1) {
      InferShapeEntry(records, rootKey, i);
      ExpandAt(records, rootKey, res, i);
      if res[i].1 == Scalar(Object) {
        Deeper(records, rootKey, res[i].0);
        InferShapeWellFormed(records, Child(rootKey, res[i].0));
      }
    }
  }

  /** Keys that are already distinct are kept as they are, in order. */
  lemma {:induction false} DedupDistinct(s: seq<string>)
    requires NoDuplicates(s)
    ensures Dedup(s) == s
    decreases |s|
  {
    if s != [] {
      var front := s[..|s| - 1];
      DedupDistinct(front);
      assert s[|s| - 1] !in front;
      assert front + [s[|s| - 1]] == s;
    }
  }

  /** Keys seen again add nothing: the order is that of first appearance. */
  lemma {:induction false} DedupAppendSeen(s: seq<string>, t: seq<string>)
    requires forall x :: x in t ==> x in s
    ensures Dedup(s + t) == Dedup(s)
    decreases |t|
  {
    if t == [] {
      assert s + t == s;
    } else {
      var front := t[..|t| - 1];
      assert (s + t)[..|s + t| - 1] == s + front;
      DedupAppendSeen(s, front);
      assert (s + t)[|s + t| - 1] == t[|t| - 1];
    }
  }

  /** The kinds seen under a key in two runs of entries are those of each run. */
  lemma SeenKindsAppend(a: seq<(string, Json)>, b: seq<(string, Json)>, k: string)
    ensures SeenKinds(a + b, k) == SeenKinds(a, k) + SeenKinds(b, k)
  {
    forall t | t in SeenKinds(a + b, k) ensures t in SeenKinds(a, k) + SeenKinds(b, k) {
      var j :| 0 <= j < |a + b| && (a + b)[j].0 == k && t == GetValueType((a + b)[j].1);
      if j >= |a| {
        assert (a + b)[j] == b[j - |a|];
      }
    }
    forall t | t in SeenKinds(b, k) ensures t in SeenKinds(a + b, k) {
      var j :| 0 <= j < |b| && b[j].0 == k && t == GetValueType(b[j].1);
      assert (a + b)[|a| + j] == b[j];
    }
    forall t | t in SeenKinds(a, k) ensures t in SeenKinds(a + b, k) {
      var j :| 0 <= j < |a| && a[j].0 == k && t == GetValueType(a[j].1);
      assert (a + b)[j] == a[j];
    }
  }

  /** A single kind is the consensus, `unknown` included. */
  lemma ConsensusOne(k: ValueType)
    ensures Consensus({k}) == k
  {
    if k == Unknown {
      assert {k} - {Unknown} == {};
      forall t ensures {k} - {Unknown} != {t} {
        assert t in {t};
      }
    } else {
      ConsensusSingle({k}, k);
    }
  }

  lemma SingleRecordEntries(r: Json, rootKey: string)
    requires ValidRecords([r])
    ensures AllEntries([r], rootKey) == EntriesAt(r, rootKey)
    ensures GetObjectKeyPath(r, rootKey).JObj? ==> DistinctKeys(GetObjectKeyPath(r, rootKey).fields)
  {
    assert [r][..0] == [];
    assert WellFormed(r);
    DescendWellFormed(r, Segments(rootKey));
  }

  /** With a single record the keys of the shape are the record's keys, in order. */
  lemma SingleRecordKeys(r: Json, rootKey: string)
    requires ValidRecords([r]) && GetObjectKeyPath(r, rootKey).JObj?
    ensures Keys(InferShape([r], rootKey)) == Keys(GetObjectKeyPath(r, rootKey).fields)
  {
    var fs := GetObjectKeyPath(r, rootKey).fields;
    SingleRecordEntries(r, rootKey);
    InferShapeKeys([r], rootKey);
    DedupDistinct(Keys(fs));
  }

  /** With a single record every key takes its value's own kind, and an object
      value is described by the shape one level further down. */
  lemma SingleRecordEntry(r: Json, rootKey: string, i: int)
    requires ValidRecords([r]) && GetObjectKeyPath(r, rootKey).JObj?
    requires 0 <= i < |GetObjectKeyPath(r, rootKey).fields|
    ensures var e := GetObjectKeyPath(r, rootKey).fields[i];
            var kind := GetValueType(e.1);
            && i < |InferShape([r], rootKey)|
            && InferShape([r], rootKey)[i] ==
                 (e.0, if kind == Object then Nested(InferShape([r], Child(rootKey, e.0))) else Scalar(kind))
  {
    var fs := GetObjectKeyPath(r, rootKey).fields;
    var shape := InferShape([r], rootKey);
    assert i < |shape| && shape[i].0 == fs[i].0 by {
      SingleRecordKeys(r, rootKey);
      assert Keys(shape)[i] == fs[i].0;
    }
    assert Consensus(SeenKinds(AllEntries([r], rootKey), fs[i].0)) == GetValueType(fs[i].1) by {
      SingleRecordEntries(r, rootKey);
      SeenKindsDistinct(fs, i);
      ConsensusOne(GetValueType(fs[i].1));
    }
    InferShapeEntry([r], rootKey, i);
  }

  /** Under distinct keys, a key's only kind is that of its one value. */
  lemma SeenKindsDistinct(fs: seq<(string, Json)>, i: int)
    requires DistinctKeys(fs) && 0 <= i < |fs|
    ensures SeenKinds(fs, fs[i].0) == {GetValueType(fs[i].1)}
  {
    forall t | t in SeenKinds(fs, fs[i].0) ensures t == GetValueType(fs[i].1) {
      var j :| 0 <= j < |fs| && fs[j].0 == fs[i].0 && t == GetValueType(fs[j].1);
      assert j == i;
    }
  }

  /** The path to a field of the object at `rootKey` reads that field's value
      back, or null when the value is falsy. */
  lemma FieldPath(r: Json, rootKey: string, j: int)
    requires WellFormed(r) && GetObjectKeyPath(r, rootKey).JObj?
    requires 0 <= j < |GetObjectKeyPath(r, rootKey).fields|
    ensures var e := GetObjectKeyPath(r, rootKey).fields[j];
            GetObjectKeyPath(r, Child(rootKey, e.0)) == if Truthy(e.1) then e.1 else JNull
  {
    EntryLookup(r, rootKey, GetObjectKeyPath(r, rootKey).fields[j]);
  }

  /** A single record's non-object value gives its key a scalar of its own kind. */
  lemma SingleRecordScalar(r: Json, rootKey: string, i: int, key: string, kind: ValueType)
    requires ValidRecords([r]) && GetObjectKeyPath(r, rootKey).JObj?
    requires 0 <= i < |GetObjectKeyPath(r, rootKey).fields|
    requires GetObjectKeyPath(r, rootKey).fields[i].0 == key
    requires GetValueType(GetObjectKeyPath(r, rootKey).fields[i].1) == kind && kind != Object
    ensures i < |InferShape([r], rootKey)| && InferShape([r], rootKey)[i] == (key, Scalar(kind))
  {
    SingleRecordEntry(r, rootKey, i);
  }

  /** A single record's object value gives its key the shape one level down. */
  lemma SingleRecordObject(r: Json, rootKey: string, i: int, key: string)
    requires ValidRecords([r]) && GetObjectKeyPath(r, rootKey).JObj?
    requires 0 <= i < |GetObjectKeyPath(r, rootKey).fields|
    requires GetObjectKeyPath(r, rootKey).fields[i].0 == key
    requires GetObjectKeyPath(r, rootKey).fields[i].1.JObj?
    ensures i < |InferShape([r], rootKey)|
    ensures InferShape([r], rootKey)[i] == (key, Nested(InferShape([r], Child(rootKey, key))))
  {
    SingleRecordEntry(r, rootKey, i);
  }
}
