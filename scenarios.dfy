// Worked examples of the repository's tests, proved on the model: the shape
// inferred from nested records, the table shape and DDL text derived from a
// type shape, and a dataset taken from its records to its rows.

module Scenarios {
  import opened Strings
  import opened Json
  import opened Utils
  import opened Dataset
  import opened Engine

  // ---------------------------------------------------------------------------
  // "type shape basic" (tests/dataset.test.ts:5-34)
  // ---------------------------------------------------------------------------

  function Level2(): Json {
    JObj([("level3", JStr("hello")), ("integerProp", JNum(42.0)), ("floatProp", JNum(42.5))])
  }

  function Level1(): Json {
    JObj([("level2", Level2()), ("stringProp", JStr("test"))])
  }

  function Basic(): Json {
    JObj([("level1", Level1()), ("topLevelProp", JBool(true))])
  }

  /** The shape the test expects for `Basic()`. */
  function BasicShape(): seq<(string, TypeShape)> {
    [("level1", Nested([("level2", Nested(Level2Shape())), ("stringProp", Scalar(String))])),
     ("topLevelProp", Scalar(Boolean))]
  }

  function Level2Shape(): seq<(string, TypeShape)> {
    [("level3", Scalar(String)), ("integerProp", Scalar(Integer)), ("floatProp", Scalar(Float))]
  }

  lemma Level2Valid()
    ensures WellFormed(Level2())
  {
  }

  lemma BasicValid()
    ensures WellFormed(Basic()) && ValidRecords([Basic()])
  {
    Level2Valid();
    assert WellFormed(Level1());
  }

  lemma Three<T>(s: seq<T>, x: T, y: T, z: T)
    requires |s| == 3 && s[0] == x && s[1] == y && s[2] == z
    ensures s == [x, y, z]
  {
  }

  lemma One<T>(s: seq<T>, x: T)
    requires |s| == 1 && s[0] == x
    ensures s == [x]
  {
  }

  lemma Two<T>(s: seq<T>, x: T, y: T)
    requires |s| == 2 && s[0] == x && s[1] == y
    ensures s == [x, y]
  {
  }

  /** Any record whose sub-object at `p` is `Level2()` infers `Level2Shape()` there. */
  lemma Level2At(r: Json, p: string)
    requires ValidRecords([r]) && GetObjectKeyPath(r, p) == Level2()
    ensures InferShape([r], p) == Level2Shape()
  {
    var shape := InferShape([r], p);
    assert |shape| == 3 by {
      SingleRecordKeys(r, p);
    }
    assert shape[0] == ("level3", Scalar(String)) by {
      SingleRecordScalar(r, p, 0, "level3", String);
    }
    assert shape[1] == ("integerProp", Scalar(Integer)) by {
      IntegerIsNotFloat(42);
      SingleRecordScalar(r, p, 1, "integerProp", Integer);
    }
    assert shape[2] == ("floatProp", Scalar(Float)) by {
      SingleRecordScalar(r, p, 2, "floatProp", Float);
    }
    Three(shape, ("level3", Scalar(String)), ("integerProp", Scalar(Integer)), ("floatProp", Scalar(Float)));
  }

  /** Any record whose sub-object at `p` is `Level1()` infers the nested shape of
      `level1` there. */
  lemma Level1At(r: Json, p: string)
    requires ValidRecords([r]) && GetObjectKeyPath(r, p) == Level1()
    ensures InferShape([r], p) == BasicShape()[0].1.entries
  {
    var shape := InferShape([r], p);
    assert |shape| == 2 by {
      SingleRecordKeys(r, p);
    }
    assert shape[0] == ("level2", Nested(Level2Shape())) by {
      assert WellFormed([r][0]);
      FieldPath(r, p, 0);
      Level2At(r, Child(p, "level2"));
      SingleRecordObject(r, p, 0, "level2");
    }
    assert shape[1] == ("stringProp", Scalar(String)) by {
      SingleRecordScalar(r, p, 1, "stringProp", String);
    }
    Two(shape, ("level2", Nested(Level2Shape())), ("stringProp", Scalar(String)));
  }

  /** Any record whose sub-object at `p` is `Basic()` infers `BasicShape()` there. */
  lemma BasicAt(r: Json, p: string)
    requires ValidRecords([r]) && GetObjectKeyPath(r, p) == Basic()
    ensures InferShape([r], p) == BasicShape()
  {
    var shape := InferShape([r], p);
    assert |shape| == 2 by {
      SingleRecordKeys(r, p);
    }
    assert shape[0] == BasicShape()[0] by {
      assert WellFormed([r][0]);
      FieldPath(r, p, 0);
      Level1At(r, Child(p, "level1"));
      SingleRecordObject(r, p, 0, "level1");
    }
    assert shape[1] == ("topLevelProp", Scalar(Boolean)) by {
      SingleRecordScalar(r, p, 1, "topLevelProp", Boolean);
    }
    Two(shape, BasicShape()[0], ("topLevelProp", Scalar(Boolean)));
  }

  /** A single nested record infers the nested shape of its own values:
      strings, an integer, a float and a boolean, objects level by level. */
  lemma TypeShapeBasic(r: Json)
    requires r == Basic()
    ensures ValidRecords([r])
    ensures InferShape([r], "") == BasicShape()
  {
    BasicValid();
    BasicAt(r, "");
  }

  // ---------------------------------------------------------------------------
  // "init database, populate with dataset" (tests/engine.test.ts:91-144): records
  // taken to a type shape, a table shape and the rows bound to the INSERT
  // ---------------------------------------------------------------------------

  /** The fields of one record of the test: a status code, a response text and an id. */
  datatype Reply = Reply(status: int, text: string, id: int)

  /** Every field of the reply is truthy: a non-zero status and id, a non-empty text. */
  predicate Truthful(p: Reply) {
    p.status != 0 && p.text != "" && p.id != 0
  }

  function Response(p: Reply): Json {
    JObj([("status", JNum(p.status as real)), ("response", JStr(p.text)),
          ("metadata", JObj([("id", JNum(p.id as real))]))])
  }

  /** The three replies of the test. */
  function Replies(): seq<Reply> {
    [Reply(200, "ok", 1), Reply(404, "not found", 2), Reply(500, "server error", 3)]
  }

  function Responses(): seq<Json> {
    [Response(Replies()[0]), Response(Replies()[1]), Response(Replies()[2])]
  }

  function ResponseKeys(): seq<string> {
    ["status", "response", "metadata"]
  }

  function ResponseKinds(): seq<ValueType> {
    [Integer, String, Object]
  }

  /** The type shape the test expects. */
  function ResponseShape(): seq<(string, TypeShape)> {
    [("status", Scalar(Integer)), ("response", Scalar(String)),
     ("metadata", Nested([("id", Scalar(Integer))]))]
  }

  /** The table shape the test expects. */
  function ResponseTable(): seq<(string, SqliteType)> {
    [("status", INTEGER), ("response", TEXT), ("metadata.id", INTEGER)]
  }

  /** The row a record binds: its status, its text and its id. */
  function Row(p: Reply): seq<Json> {
    [JNum(p.status as real), JStr(p.text), JNum(p.id as real)]
  }

  /** The rows the test reads back, one per record, in column order. */
  function ResponseRows(): seq<seq<Json>> {
    [[JNum(200.0), JStr("ok"), JNum(1.0)],
     [JNum(404.0), JStr("not found"), JNum(2.0)],
     [JNum(500.0), JStr("server error"), JNum(3.0)]]
  }

  lemma KeysAppend<V>(a: seq<(string, V)>, b: seq<(string, V)>)
    ensures Keys(a + b) == Keys(a) + Keys(b)
  {
    forall i | 0 <= i < |a + b| ensures Keys(a + b)[i] == (Keys(a) + Keys(b))[i] {
      if i < |a| {
        assert (a + b)[i] == a[i];
      } else {
        assert (a + b)[i] == b[i - |a|];
      }
    }
  }

  lemma AllEntriesThree(a: Json, b: Json, c: Json, rootKey: string)
    ensures AllEntries([a, b, c], rootKey) == EntriesAt(a, rootKey) + EntriesAt(b, rootKey) + EntriesAt(c, rootKey)
  {
    var ea, eb, ec := EntriesAt(a, rootKey), EntriesAt(b, rootKey), EntriesAt(c, rootKey);
    assert AllEntries([a], rootKey) == ea by {
      AllEntriesPush([], a, rootKey);
      assert [] + [a] == [a];
      assert [] + ea == ea;
    }
    assert AllEntries([a, b], rootKey) == ea + eb by {
      AllEntriesPush([a], b, rootKey);
      assert [a] + [b] == [a, b];
    }
    AllEntriesPush([a, b], c, rootKey);
    assert [a, b] + [c] == [a, b, c];
  }

  lemma AllEntriesPush(records: seq<Json>, r: Json, rootKey: string)
    ensures AllEntries(records + [r], rootKey) == AllEntries(records, rootKey) + EntriesAt(r, rootKey)
  {
    assert (records + [r])[..|records|] == records;
  }

  lemma SeenKindsThree(a: seq<(string, Json)>, b: seq<(string, Json)>, c: seq<(string, Json)>,
                       key: string, kind: ValueType)
    requires SeenKinds(a, key) == {kind} && SeenKinds(b, key) == {kind} && SeenKinds(c, key) == {kind}
    ensures Consensus(SeenKinds(a + b + c, key)) == kind
  {
    SeenKindsAppend(a + b, c, key);
    SeenKindsAppend(a, b, key);
    ConsensusOne(kind);
  }

  lemma ResponseValid(p: Reply)
    ensures WellFormed(Response(p))
  {
    assert WellFormed(JObj([("id", JNum(p.id as real))]));
  }

  lemma ResponseEntries(p: Reply)
    ensures EntriesAt(Response(p), "") == Response(p).fields
    ensures GetObjectKeyPath(Response(p), "metadata") == JObj([("id", JNum(p.id as real))])
    ensures EntriesAt(Response(p), "metadata") == [("id", JNum(p.id as real))]
  {
    var x := Response(p);
    ResponseValid(p);
    assert GetObjectKeyPath(x, "") == x;
    FieldPath(x, "", 2);
  }

  /** Each key of a response record holds one kind: an integer, a string and an object. */
  lemma ResponseKind(p: Reply, j: int)
    requires Truthful(p) && 0 <= j < 3
    ensures SeenKinds(Response(p).fields, ResponseKeys()[j]) == {ResponseKinds()[j]}
    ensures SeenKinds(EntriesAt(Response(p), "metadata"), "id") == {Integer}
  {
    var x := Response(p);
    ResponseValid(p);
    IntegerIsNotFloat(p.status);
    IntegerIsNotFloat(p.id);
    assert x.fields[j].0 == ResponseKeys()[j];
    SeenKindsDistinct(x.fields, j);
    ResponseEntries(p);
    SeenKindsDistinct([("id", JNum(p.id as real))], 0);
  }

  lemma ResponsesValid(rs: seq<Json>, p: Reply, q: Reply, u: Reply)
    requires rs == [Response(p), Response(q), Response(u)]
    ensures ValidRecords(rs)
  {
    ResponseValid(p);
    ResponseValid(q);
    ResponseValid(u);
  }

  lemma ResponsesTopEntries(rs: seq<Json>, p: Reply, q: Reply, u: Reply)
    requires rs == [Response(p), Response(q), Response(u)]
    ensures AllEntries(rs, "") == Response(p).fields + Response(q).fields + Response(u).fields
  {
    AllEntriesThree(Response(p), Response(q), Response(u), "");
    ResponseEntries(p);
    ResponseEntries(q);
    ResponseEntries(u);
  }

  lemma ResponsesTopEntryKeys(rs: seq<Json>, p: Reply, q: Reply, u: Reply)
    requires rs == [Response(p), Response(q), Response(u)]
    ensures var k := ResponseKeys(); Keys(AllEntries(rs, "")) == k + (k + k)
  {
    var a, b, c := Response(p).fields, Response(q).fields, Response(u).fields;
    ResponsesTopEntries(rs, p, q, u);
    KeysAppend(a, b + c);
    KeysAppend(b, c);
    assert a + b + c == a + (b + c);
  }

  lemma ResponsesTopKeys(rs: seq<Json>, p: Reply, q: Reply, u: Reply)
    requires rs == [Response(p), Response(q), Response(u)]
    ensures ValidRecords(rs)
    ensures Keys(InferShape(rs, "")) == ResponseKeys()
  {
    ResponsesValid(rs, p, q, u);
    var k := ResponseKeys();
    ResponsesTopEntryKeys(rs, p, q, u);
    assert Dedup(k + (k + k)) == k by {
      DedupDistinct(k);
      DedupAppendSeen(k, k + k);
    }
    InferShapeKeys(rs, "");
  }

  lemma ResponsesTopKind(rs: seq<Json>, p: Reply, q: Reply, u: Reply, j: int)
    requires rs == [Response(p), Response(q), Response(u)]
    requires Truthful(p) && Truthful(q) && Truthful(u) && 0 <= j < 3
    ensures Consensus(SeenKinds(AllEntries(rs, ""), ResponseKeys()[j])) == ResponseKinds()[j]
  {
    ResponsesTopEntries(rs, p, q, u);
    ResponseKind(p, j);
    ResponseKind(q, j);
    ResponseKind(u, j);
    SeenKindsThree(Response(p).fields, Response(q).fields, Response(u).fields, ResponseKeys()[j], ResponseKinds()[j]);
  }

  lemma ResponsesMetadataEntries(rs: seq<Json>, p: Reply, q: Reply, u: Reply)
    requires rs == [Response(p), Response(q), Response(u)]
    ensures AllEntries(rs, "metadata")
            == EntriesAt(Response(p), "metadata") + EntriesAt(Response(q), "metadata")
               + EntriesAt(Response(u), "metadata")
    ensures Keys(AllEntries(rs, "metadata")) == ["id", "id", "id"]
  {
    AllEntriesThree(Response(p), Response(q), Response(u), "metadata");
    ResponseEntries(p);
    ResponseEntries(q);
    ResponseEntries(u);
  }

  lemma ResponsesMetadataKind(rs: seq<Json>, p: Reply, q: Reply, u: Reply)
    requires rs == [Response(p), Response(q), Response(u)]
    requires Truthful(p) && Truthful(q) && Truthful(u)
    ensures Consensus(SeenKinds(AllEntries(rs, "metadata"), "id")) == Integer
  {
    ResponsesMetadataEntries(rs, p, q, u);
    ResponseKind(p, 0);
    ResponseKind(q, 0);
    ResponseKind(u, 0);
    SeenKindsThree(EntriesAt(Response(p), "metadata"), EntriesAt(Response(q), "metadata"),
                   EntriesAt(Response(u), "metadata"), "id", Integer);
  }

  /** The records' `metadata` objects infer `{id: integer}`. */
  lemma ResponsesMetadata(rs: seq<Json>, p: Reply, q: Reply, u: Reply)
    requires rs == [Response(p), Response(q), Response(u)]
    requires Truthful(p) && Truthful(q) && Truthful(u)
    ensures ValidRecords(rs)
    ensures InferShape(rs, "metadata") == [("id", Scalar(Integer))]
  {
    ResponsesValid(rs, p, q, u);
    var shape := InferShape(rs, "metadata");
    assert Keys(shape) == ["id"] by {
      ResponsesMetadataEntries(rs, p, q, u);
      DedupThree("id");
      InferShapeKeys(rs, "metadata");
    }
    assert shape[0] == ("id", Scalar(Integer)) by {
      InferShapeEntry(rs, "metadata", 0);
      ResponsesMetadataKind(rs, p, q, u);
    }
    One(shape, ("id", Scalar(Integer)));
  }

  lemma ResponsesTopEntry(rs: seq<Json>, p: Reply, q: Reply, u: Reply, j: int)
    requires rs == [Response(p), Response(q), Response(u)]
    requires Truthful(p) && Truthful(q) && Truthful(u) && 0 <= j < 3
    ensures ValidRecords(rs) && j < |InferShape(rs, "")|
    ensures var key, kind := ResponseKeys()[j], ResponseKinds()[j];
            InferShape(rs, "")[j] == (key, if kind == Object then Nested(InferShape(rs, key)) else Scalar(kind))
  {
    ResponsesValid(rs, p, q, u);
    var shape := InferShape(rs, "");
    var key := ResponseKeys()[j];
    assert j < |shape| && shape[j].0 == key by {
      ResponsesTopKeys(rs, p, q, u);
      assert Keys(shape)[j] == key;
    }
    assert Consensus(SeenKinds(AllEntries(rs, ""), key)) == ResponseKinds()[j] by {
      ResponsesTopKind(rs, p, q, u, j);
    }
    InferShapeEntry(rs, "", j);
  }

  /** Any three response records with truthful fields infer
      `{status: integer, response: string, metadata: {id: integer}}`. */
  lemma ResponsesShape(rs: seq<Json>, p: Reply, q: Reply, u: Reply)
    requires rs == [Response(p), Response(q), Response(u)]
    requires Truthful(p) && Truthful(q) && Truthful(u)
    ensures ValidRecords(rs)
    ensures InferShape(rs, "") == ResponseShape()
  {
    ResponsesValid(rs, p, q, u);
    var shape := InferShape(rs, "");
    var t := ResponseShape();
    assert |shape| == 3 by {
      ResponsesTopKeys(rs, p, q, u);
    }
    assert shape[0] == t[0] by {
      ResponsesTopEntry(rs, p, q, u, 0);
    }
    assert shape[1] == t[1] by {
      ResponsesTopEntry(rs, p, q, u, 1);
    }
    assert shape[2] == t[2] by {
      ResponsesTopEntry(rs, p, q, u, 2);
      ResponsesMetadata(rs, p, q, u);
    }
    Three(shape, t[0], t[1], t[2]);
  }

  /** The type shape written out as the JSON object it stands for. */
  function ResponseShapeJson(): Json {
    JObj([("status", JStr("integer")), ("response", JStr("string")),
          ("metadata", JObj([("id", JStr("integer"))]))])
  }

  function ResponseFlat(): seq<(string, Json)> {
    [("status", JStr("integer")), ("response", JStr("string")), ("metadata.id", JStr("integer"))]
  }

  lemma ResponseShapeToJson()
    ensures ShapeToJson(Nested(ResponseShape())) == ResponseShapeJson()
  {
    assert ShapeToJson(Nested([("id", Scalar(Integer))])) == JObj([("id", JStr("integer"))]);
  }

  lemma ResponseFlatten()
    ensures Flatten(ResponseShapeJson(), "") == ResponseFlat()
  {
    var v := ResponseShapeJson();
    var m := JObj([("id", JStr("integer"))]);
    MetadataIdName();
    assert Leaves(m, 1, "metadata") == [] + Block(m, 0, "metadata");
    assert Block(v, 2, "") == [("metadata.id", JStr("integer"))];
    assert Leaves(v, 1, "") == [] + Block(v, 0, "");
    assert Leaves(v, 2, "") == Leaves(v, 1, "") + Block(v, 1, "");
  }

  lemma ColumnsPush(flat: seq<(string, Json)>, e: (string, Json), skip: set<ValueType>)
    ensures Columns(flat + [e], skip)
            == Columns(flat, skip) + if Skipped(e.1, skip) then [] else [(e.0, ColumnType(e.1))]
  {
    assert (flat + [e])[..|flat|] == flat;
  }

  /** The column of a leaf that is kept. */
  function Kept(e: (string, Json)): (string, SqliteType) {
    (e.0, ColumnType(e.1))
  }

  /** Three kept leaves give three columns, in order. */
  lemma ColumnsOfThree(e0: (string, Json), e1: (string, Json), e2: (string, Json), skip: set<ValueType>)
    requires !Skipped(e0.1, skip) && !Skipped(e1.1, skip) && !Skipped(e2.1, skip)
    ensures Columns([e0, e1, e2], skip) == [Kept(e0), Kept(e1), Kept(e2)]
  {
    assert Columns([e0], skip) == [Kept(e0)] by {
      ColumnsPush([], e0, skip);
      assert [] + [e0] == [e0];
    }
    assert Columns([e0, e1], skip) == [Kept(e0), Kept(e1)] by {
      ColumnsPush([e0], e1, skip);
      assert [e0] + [e1] == [e0, e1];
    }
    ColumnsPush([e0, e1], e2, skip);
    assert [e0, e1] + [e2] == [e0, e1, e2];
  }

  lemma ResponseColumns(skip: set<ValueType>)
    requires Integer !in skip && String !in skip
    ensures Columns(ResponseFlat(), skip) == ResponseTable()
  {
    var f := ResponseFlat();
    KindNamedName(Integer);
    KindNamedName(String);
    assert f == [f[0], f[1], f[2]];
    ColumnsOfThree(f[0], f[1], f[2], skip);
  }

  /** A value two members down is read back along the dotted path. */
  lemma PathOfTwo(x: Json, k1: string, k2: string, v: Json)
    requires PathKey(k1) && PathKey(k2) && Truthy(Member(x, k1)) && Member(Member(x, k1), k2) == v && Truthy(v)
    ensures GetObjectKeyPath(x, Child(k1, k2)) == v
  {
    GetObjectKeyPathChild(x, "", k1);
    GetObjectKeyPathChild(x, k1, k2);
  }

  lemma ResponseTopValues(p: Reply)
    requires p.status != 0 && p.text != ""
    ensures GetObjectKeyPath(Response(p), "status") == JNum(p.status as real)
    ensures GetObjectKeyPath(Response(p), "response") == JStr(p.text)
  {
    var x := Response(p);
    ResponseValid(p);
    assert GetObjectKeyPath(x, "") == x;
    FieldPath(x, "", 0);
    FieldPath(x, "", 1);
  }

  lemma ResponseIdValue(p: Reply)
    requires p.id != 0
    ensures GetObjectKeyPath(Response(p), Child("metadata", "id")) == JNum(p.id as real)
  {
    var x := Response(p);
    assert Member(x, "metadata") == JObj([("id", JNum(p.id as real))]);
    PathOfTwo(x, "metadata", "id", JNum(p.id as real));
  }

  lemma MetadataIdName()
    ensures Child("metadata", "id") == "metadata.id"
  {
  }

  lemma BindingsThree(x: Json, c0: string, c1: string, c2: string)
    ensures Bindings(x, [c0, c1, c2])
            == [GetObjectKeyPath(x, c0), GetObjectKeyPath(x, c1), GetObjectKeyPath(x, c2)]
  {
  }

  lemma ResponseTableKeys()
    ensures Keys(ResponseTable()) == ["status", "response", Child("metadata", "id")]
  {
    MetadataIdName();
  }

  /** Each record binds its status, its response text and its metadata id. */
  lemma ResponseRow(p: Reply)
    requires Truthful(p)
    ensures Bindings(Response(p), ["status", "response", Child("metadata", "id")]) == Row(p)
  {
    ResponseTopValues(p);
    ResponseIdValue(p);
    BindingsThree(Response(p), "status", "response", Child("metadata", "id"));
  }

  lemma ResponseShapeColumns(skip: set<ValueType>)
    requires Integer !in skip && String !in skip
    ensures Columns(Flatten(ShapeToJson(Nested(ResponseShape())), ""), skip) == ResponseTable()
  {
    ResponseShapeToJson();
    ResponseFlatten();
    ResponseColumns(skip);
  }

  /** Three response records from end to end: their inferred type shape converts
      to the columns `status INTEGER, response TEXT, metadata.id INTEGER`, and each
      record binds its own status, text and id. */
  lemma RepliesEndToEnd(rs: seq<Json>, p: Reply, q: Reply, u: Reply, skip: set<ValueType>)
    requires rs == [Response(p), Response(q), Response(u)]
    requires Truthful(p) && Truthful(q) && Truthful(u)
    requires Integer !in skip && String !in skip
    ensures ValidRecords(rs) && InferShape(rs, "") == ResponseShape()
    ensures ShapeWellFormed(Nested(InferShape(rs, "")))
    ensures Columns(Flatten(ShapeToJson(Nested(InferShape(rs, ""))), ""), skip) == ResponseTable()
    ensures Bindings(rs[0], Keys(ResponseTable())) == Row(p)
    ensures Bindings(rs[1], Keys(ResponseTable())) == Row(q)
    ensures Bindings(rs[2], Keys(ResponseTable())) == Row(u)
  {
    ResponsesShape(rs, p, q, u);
    InferShapeWellFormed(rs, "");
    ResponseShapeColumns(skip);
    ResponseTableKeys();
    ResponseRow(p);
    ResponseRow(q);
    ResponseRow(u);
  }

  /** The dataset of tests/engine.test.ts:91-144: its inferred type shape, its
      columns, and the rows the test reads back. */
  lemma ResponsesEndToEnd(rs: seq<Json>, skip: set<ValueType>)
    requires rs == Responses() && Integer !in skip && String !in skip
    ensures ValidRecords(rs) && InferShape(rs, "") == ResponseShape()
    ensures ShapeWellFormed(Nested(InferShape(rs, "")))
    ensures Columns(Flatten(ShapeToJson(Nested(InferShape(rs, ""))), ""), skip) == ResponseTable()
    ensures |rs| == |ResponseRows()| == 3
    ensures Bindings(rs[0], Keys(ResponseTable())) == ResponseRows()[0]
    ensures Bindings(rs[1], Keys(ResponseTable())) == ResponseRows()[1]
    ensures Bindings(rs[2], Keys(ResponseTable())) == ResponseRows()[2]
  {
    var ps := Replies();
    RepliesEndToEnd(rs, ps[0], ps[1], ps[2], skip);
    RepliesRows();
  }

  lemma RepliesRows()
    ensures |Replies()| == |ResponseRows()| == 3
    ensures forall i :: 0 <= i < 3 ==> Truthful(Replies()[i]) && Row(Replies()[i]) == ResponseRows()[i]
  {
  }

  // ---------------------------------------------------------------------------
  // "convert type shape to table shape" (tests/engine.test.ts:17-41) and
  // "sql schema from table shape" (tests/engine.test.ts:43-54)
  // ---------------------------------------------------------------------------

  /** The test's type shape: the shape of `Basic()` with an array-typed key added. */
  function ConvertShape(): seq<(string, TypeShape)> {
    BasicShape() + [("arrayProp", Scalar(Array))]
  }

  function Level2Json(): Json {
    JObj([("level3", JStr("string")), ("integerProp", JStr("integer")), ("floatProp", JStr("float"))])
  }

  function Level1Json(): Json {
    JObj([("level2", Level2Json()), ("stringProp", JStr("string"))])
  }

  function ConvertJson(): Json {
    JObj([("level1", Level1Json()), ("topLevelProp", JStr("boolean")), ("arrayProp", JStr("array"))])
  }

  function ConvertFlat(): seq<(string, Json)> {
    [("level1.level2.level3", JStr("string")), ("level1.level2.integerProp", JStr("integer")),
     ("level1.level2.floatProp", JStr("float")), ("level1.stringProp", JStr("string")),
     ("topLevelProp", JStr("boolean")), ("arrayProp", JStr("array"))]
  }

  /** The table shape the test expects: no column for the array. */
  function ConvertTable(): seq<(string, SqliteType)> {
    [("level1.level2.level3", TEXT), ("level1.level2.integerProp", INTEGER),
     ("level1.level2.floatProp", REAL), ("level1.stringProp", TEXT), ("topLevelProp", INTEGER)]
  }

  lemma ConvertShapeToJson()
    ensures ShapeToJson(Nested(ConvertShape())) == ConvertJson()
  {
    assert ShapeToJson(Nested(Level2Shape())) == Level2Json();
    assert ShapeToJson(Nested(BasicShape()[0].1.entries)) == Level1Json();
  }

  lemma Level2Names()
    ensures Child("level1", "level2") == "level1.level2"
    ensures Child("level1.level2", "level3") == "level1.level2.level3"
    ensures Child("level1.level2", "integerProp") == "level1.level2.integerProp"
    ensures Child("level1.level2", "floatProp") == "level1.level2.floatProp"
  {
  }

  lemma FlattenLevel2()
    ensures Leaves(Level2Json(), 3, "level1.level2") == ConvertFlat()[..3]
  {
    var v := Level2Json();
    Level2Names();
    assert Leaves(v, 1, "level1.level2") == [] + Block(v, 0, "level1.level2");
    assert Leaves(v, 2, "level1.level2") == Leaves(v, 1, "level1.level2") + Block(v, 1, "level1.level2");
  }

  lemma FlattenLevel1()
    ensures Leaves(Level1Json(), 2, "level1") == ConvertFlat()[..4]
  {
    var v := Level1Json();
    Level2Names();
    FlattenLevel2();
    assert Child("level1", "stringProp") == "level1.stringProp";
    assert Leaves(v, 1, "level1") == [] + Block(v, 0, "level1");
    assert ConvertFlat()[..4] == ConvertFlat()[..3] + [ConvertFlat()[3]];
  }

  lemma ConvertFlatten()
    ensures Flatten(ConvertJson(), "") == ConvertFlat()
  {
    var v := ConvertJson();
    var f := ConvertFlat();
    assert Block(v, 0, "") == f[..4] by {
      FlattenLevel1();
    }
    assert Leaves(v, 1, "") == f[..4] by {
      assert Leaves(v, 1, "") == [] + Block(v, 0, "");
    }
    assert Block(v, 1, "") == [f[4]];
    assert Block(v, 2, "") == [f[5]];
    assert Leaves(v, 2, "") == f[..4] + [f[4]];
    assert Leaves(v, 3, "") == f[..4] + [f[4]] + [f[5]];
    assert f == f[..4] + [f[4]] + [f[5]];
  }

  /** Five kept leaves and a skipped one give the five columns, in order. */
  lemma ColumnsOfSix(e0: (string, Json), e1: (string, Json), e2: (string, Json), e3: (string, Json),
                     e4: (string, Json), e5: (string, Json), skip: set<ValueType>)
    requires !Skipped(e0.1, skip) && !Skipped(e1.1, skip) && !Skipped(e2.1, skip)
    requires !Skipped(e3.1, skip) && !Skipped(e4.1, skip) && Skipped(e5.1, skip)
    ensures Columns([e0, e1, e2, e3, e4, e5], skip) == [Kept(e0), Kept(e1), Kept(e2), Kept(e3), Kept(e4)]
  {
    var k3 := [Kept(e0), Kept(e1), Kept(e2)];
    assert Columns([e0, e1, e2, e3], skip) == k3 + [Kept(e3)] by {
      ColumnsOfThree(e0, e1, e2, skip);
      ColumnsPush([e0, e1, e2], e3, skip);
      assert [e0, e1, e2] + [e3] == [e0, e1, e2, e3];
    }
    assert Columns([e0, e1, e2, e3, e4], skip) == k3 + [Kept(e3)] + [Kept(e4)] by {
      ColumnsPush([e0, e1, e2, e3], e4, skip);
      assert [e0, e1, e2, e3] + [e4] == [e0, e1, e2, e3, e4];
    }
    ColumnsPush([e0, e1, e2, e3, e4], e5, skip);
    assert [e0, e1, e2, e3, e4] + [e5] == [e0, e1, e2, e3, e4, e5];
  }

  lemma ConvertColumns(skip: set<ValueType>)
    requires Array in skip && String !in skip && Integer !in skip && Float !in skip && Boolean !in skip
    ensures Columns(ConvertFlat(), skip) == ConvertTable()
  {
    var f := ConvertFlat();
    KindNamedName(String);
    KindNamedName(Integer);
    KindNamedName(Float);
    KindNamedName(Boolean);
    KindNamedName(Array);
    assert f == [f[0], f[1], f[2], f[3], f[4], f[5]];
    ColumnsOfSix(f[0], f[1], f[2], f[3], f[4], f[5], skip);
  }

  /** The nested type shape converts to one column per leaf path, named by the
      dotted path, typed TEXT, INTEGER or REAL, with the array-typed key left out. */
  lemma ConvertTypeShapeCase(skip: set<ValueType>)
    requires Array in skip && String !in skip && Integer !in skip && Float !in skip && Boolean !in skip
    ensures Columns(Flatten(ShapeToJson(Nested(ConvertShape())), ""), skip) == ConvertTable()
  {
    ConvertShapeToJson();
    ConvertFlatten();
    ConvertColumns(skip);
  }

  /** The schema of five columns, with the join written out. */
  lemma SchemaOfFive(name: string, c0: (string, SqliteType), c1: (string, SqliteType),
                     c2: (string, SqliteType), c3: (string, SqliteType), c4: (string, SqliteType))
    ensures GetSQLSchemaFromTableShape(name, [c0, c1, c2, c3, c4])
            == "CREATE TABLE " + name + " (" + (ColumnDef(c0) + ", " + (ColumnDef(c1) + ", " + (ColumnDef(c2)
               + ", " + (ColumnDef(c3) + ", " + ColumnDef(c4))))) + ");"
  {
    var d0, d1, d2, d3, d4 := ColumnDef(c0), ColumnDef(c1), ColumnDef(c2), ColumnDef(c3), ColumnDef(c4);
    assert ColumnDefs([c0, c1, c2, c3, c4]) == [d0, d1, d2, d3, d4];
    assert Join([d3, d4], ", ") == d3 + ", " + d4 by {
      assert [d3, d4][1..] == [d4];
    }
    assert Join([d2, d3, d4], ", ") == d2 + ", " + Join([d3, d4], ", ") by {
      assert [d2, d3, d4][1..] == [d3, d4];
    }
    assert Join([d1, d2, d3, d4], ", ") == d1 + ", " + Join([d2, d3, d4], ", ") by {
      assert [d1, d2, d3, d4][1..] == [d2, d3, d4];
    }
    assert Join([d0, d1, d2, d3, d4], ", ") == d0 + ", " + Join([d1, d2, d3, d4], ", ") by {
      assert [d0, d1, d2, d3, d4][1..] == [d1, d2, d3, d4];
    }
  }

  /** Regrouping a right-nested join of five pieces as a left-to-right chain. */
  lemma Regroup(p: string, d0: string, d1: string, d2: string, d3: string, d4: string, sep: string, e: string)
    ensures p + (d0 + sep + (d1 + sep + (d2 + sep + (d3 + sep + d4)))) + e
            == p + d0 + sep + d1 + sep + d2 + sep + d3 + sep + d4 + e
  {
    assert d3 + sep + d4 == (d3 + sep) + d4;
    assert d2 + sep + (d3 + sep + d4) == d2 + sep + d3 + sep + d4;
    assert d1 + sep + (d2 + sep + d3 + sep + d4) == d1 + sep + d2 + sep + d3 + sep + d4;
    assert d0 + sep + (d1 + sep + d2 + sep + d3 + sep + d4) == d0 + sep + d1 + sep + d2 + sep + d3 + sep + d4;
    assert p + (d0 + sep + d1 + sep + d2 + sep + d3 + sep + d4) == p + d0 + sep + d1 + sep + d2 + sep + d3 + sep + d4;
  }

  lemma Def0()
    ensures ColumnDef(("level1.level2.level3", TEXT)) == "'level1.level2.level3' TEXT"
  {
  }

  lemma Def1()
    ensures ColumnDef(("level1.level2.integerProp", INTEGER)) == "'level1.level2.integerProp' INTEGER"
  {
  }

  lemma Def2()
    ensures ColumnDef(("level1.level2.floatProp", REAL)) == "'level1.level2.floatProp' REAL"
  {
  }

  lemma Def3()
    ensures ColumnDef(("level1.stringProp", TEXT)) == "'level1.stringProp' TEXT"
  {
  }

  lemma Def4()
    ensures ColumnDef(("topLevelProp", INTEGER)) == "'topLevelProp' INTEGER"
  {
  }

  /** The table shape renders as the statement the test expects, here written
      in the pieces the test's template puts together. */
  lemma SchemaCase()
    ensures GetSQLSchemaFromTableShape("test_table", ConvertTable())
            == "CREATE TABLE " + "test_table" + " (" + "'level1.level2.level3' TEXT"
               + ", " + "'level1.level2.integerProp' INTEGER" + ", " + "'level1.level2.floatProp' REAL"
               + ", " + "'level1.stringProp' TEXT" + ", " + "'topLevelProp' INTEGER" + ");"
  {
    var t := ConvertTable();
    SchemaOfFive("test_table", t[0], t[1], t[2], t[3], t[4]);
    assert t == [t[0], t[1], t[2], t[3], t[4]];
    Def0();
    Def1();
    Def2();
    Def3();
    Def4();
    Regroup("CREATE TABLE " + "test_table" + " (", ColumnDef(t[0]), ColumnDef(t[1]), ColumnDef(t[2]),
            ColumnDef(t[3]), ColumnDef(t[4]), ", ", ");");
  }
}
