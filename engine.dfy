/** src/engine.ts: from a type shape to a table shape, the CREATE TABLE text, and the
    INSERT text with one binding row per record. Running the statements on SQLite is
    not part of this model. */
module Engine {
  import opened Wrappers
  import opened Strings
  import opened Json
  import opened Utils
  import opened Dataset

  /** The column types of src/types.ts:10. */
  datatype SqliteType = TEXT | INTEGER | REAL

  function SqlName(t: SqliteType): string {
    match t
    case TEXT => "TEXT"
    case INTEGER => "INTEGER"
    case REAL => "REAL"
  }

  /** `convertValuePrimitiveTypeToSQLiteType` (src/engine.ts:28-43): strings are text,
      integers and booleans are integers, floats are reals, and every other kind falls
      back to text. */
  function ConvertValuePrimitiveTypeToSQLiteType(valueType: ValueType): (r: SqliteType)
  {
    match valueType
    case String => TEXT
    case Integer => INTEGER
    case Float => REAL
    case Boolean => INTEGER
    case _ => TEXT
  }

  /** The SQLite type that a value's own kind converts to: INTEGER for `true` and
      non-zero integral numbers, REAL for non-integral numbers, TEXT for everything
      else. The column a value is stored in takes its type from the kind agreed over
      all records (Dataset.Consensus), which can differ from the value's own kind. */
  lemma StoredType(v: Json)
    ensures ConvertValuePrimitiveTypeToSQLiteType(GetValueType(v)) == INTEGER <==>
              v == JBool(true) || (v.JNum? && v.n != 0.0 && v.n.Floor as real == v.n)
    ensures ConvertValuePrimitiveTypeToSQLiteType(GetValueType(v)) == REAL <==>
              v.JNum? && v.n.Floor as real < v.n
    ensures ConvertValuePrimitiveTypeToSQLiteType(GetValueType(v)) == TEXT <==>
              (!v.JNum? && v != JBool(true)) || v == JNum(0.0)
  {
  }

  // ---------------------------------------------------------------------------
  // Table shape

  /** `typeShape as Record<string, unknown>`: a shape seen as a plain object whose leaves
      are the kinds' names. */
  function ShapeToJson(t: TypeShape): (r: Json)
    ensures t.Nested? <==> r.JObj?
    ensures t.Scalar? ==> r == JStr(Name(t.kind))
    decreases t
  {
    match t
    case Scalar(k) => JStr(Name(k))
    case Nested(entries) =>
      JObj(seq(|entries|, i requires 0 <= i < |entries| => (entries[i].0, ShapeToJson(entries[i].1))))
  }

  /** A well-formed shape is a well-formed object. */
  lemma {:induction false} ShapeToJsonWellFormed(t: TypeShape)
    requires ShapeWellFormed(t)
    ensures WellFormed(ShapeToJson(t))
    decreases t
  {
    if t.Nested? {
      var es := t.entries;
      var fs := ShapeToJson(t).fields;
      forall i | 0 <= i < |fs| ensures PathKey(fs[i].0) && WellFormed(fs[i].1) {
        ShapeToJsonWellFormed(es[i].1);
      }
    }
  }

  /** Every leaf reached in a shape seen as an object is the name of a kind. */
  lemma {:induction false} ShapeLeaf(t: TypeShape, segs: seq<string>)
    requires ShapeWellFormed(t) && LeafPath(ShapeToJson(t), segs)
    ensures LeafKind(ValueAt(ShapeToJson(t), segs)).Some?
    decreases |segs|
  {
    var v := ShapeToJson(t);
    var es := t.entries;
    var j :| 0 <= j < |v.fields| && Keys(v.fields)[j] == segs[0];
    assert DistinctKeys(v.fields) by {
      forall a, b | 0 <= a < b < |v.fields| ensures v.fields[a].0 != v.fields[b].0 {
        assert v.fields[a].0 == es[a].0 && v.fields[b].0 == es[b].0;
      }
    }
    MemberAt(v, j);
    assert Member(v, segs[0]) == ShapeToJson(es[j].1);
    if |segs| == 1 {
      KindNamedName(es[j].1.kind);
    } else {
      ShapeLeaf(es[j].1, segs[1..]);
    }
  }

  /** The kind a flattened leaf names, checked; a leaf that names no kind is not
      skipped and falls to the default column type, as the source's cast does. */
  function LeafKind(v: Json): Option<ValueType> {
    if v.JStr? then KindNamed(v.s) else None
  }

  /** `VALUE_TYPES_TO_SKIP.includes(type)` */
  predicate Skipped(v: Json, skip: set<ValueType>) {
    LeafKind(v).Some? && LeafKind(v).value in skip
  }

  function ColumnType(v: Json): SqliteType {
    match LeafKind(v)
    case Some(k) => ConvertValuePrimitiveTypeToSQLiteType(k)
    case None => TEXT
  }

  /** The reference table shape: one column per flattened leaf that is not skipped, in
      flatten order, typed by its kind. */
  function Columns(flat: seq<(string, Json)>, skip: set<ValueType>): seq<(string, SqliteType)>
    decreases |flat|
  {
    if flat == [] then []
    else
      var e := flat[|flat| - 1];
      Columns(flat[..|flat| - 1], skip) + if Skipped(e.1, skip) then [] else [(e.0, ColumnType(e.1))]
  }

  /** A column is a flattened leaf whose kind is not skipped, with its kind's type. */
  lemma {:induction false} ColumnsMember(flat: seq<(string, Json)>, skip: set<ValueType>, c: (string, SqliteType))
    ensures c in Columns(flat, skip) <==>
              exists v :: (c.0, v) in flat && !Skipped(v, skip) && c.1 == ColumnType(v)
    decreases |flat|
  {
    if flat != [] {
      var n := |flat| - 1;
      ColumnsMember(flat[..n], skip, c);
      assert flat == flat[..n] + [flat[n]];
      if exists v :: (c.0, v) in flat && !Skipped(v, skip) && c.1 == ColumnType(v) {
        var v :| (c.0, v) in flat && !Skipped(v, skip) && c.1 == ColumnType(v);
        if (c.0, v) != flat[n] {
          assert (c.0, v) in flat[..n];
        }
      }
    }
  }

  /** The columns' keys are drawn from the flattened keys, in order. */
  lemma {:induction false} ColumnsKeys(flat: seq<(string, Json)>, skip: set<ValueType>)
    ensures forall k :: k in Keys(Columns(flat, skip)) ==> k in Keys(flat)
    ensures |Columns(flat, skip)| <= |flat|
    ensures DistinctKeys(flat) ==> DistinctKeys(Columns(flat, skip))
    decreases |flat|
  {
    if flat != [] {
      var n := |flat| - 1;
      ColumnsKeys(flat[..n], skip);
      var front := Columns(flat[..n], skip);
      assert Keys(flat) == Keys(flat[..n]) + [flat[n].0];
      if !Skipped(flat[n].1, skip) {
        var r := front + [(flat[n].0, ColumnType(flat[n].1))];
        assert Keys(r) == Keys(front) + [flat[n].0];
        if DistinctKeys(flat) {
          DistinctSplit(flat[..n], [flat[n]]);
          assert [flat[n]][0].0 !in Keys(flat[..n]);
          PutFresh(front, flat[n].0, ColumnType(flat[n].1));
          PutDistinct(front, flat[n].0, ColumnType(flat[n].1));
        }
      }
    }
  }

  /** `convertTypeShapeToTableShape` (src/engine.ts:45-62): flatten the shape, then
      assign one column per leaf whose kind is not skipped. */
  method ConvertTypeShapeToTableShape(typeShape: seq<(string, TypeShape)>, skip: set<ValueType>)
    returns (tableShape: seq<(string, SqliteType)>)
    requires ShapeWellFormed(Nested(typeShape))
    ensures tableShape == Columns(Flatten(ShapeToJson(Nested(typeShape)), ""), skip)
    ensures DistinctKeys(tableShape)
  {
    ShapeToJsonWellFormed(Nested(typeShape));
    var typeShapeFlatten := FlattenObject(ShapeToJson(Nested(typeShape)), "");
    tableShape := [];
    for i := 0 to |typeShapeFlatten|
      invariant tableShape == Columns(typeShapeFlatten[..i], skip)
    {
      assert typeShapeFlatten[..i + 1][..i] == typeShapeFlatten[..i];
      var (key, leaf) := typeShapeFlatten[i];
      var kind := LeafKind(leaf);
      if kind.Some? && kind.value in skip {
        continue;
      }
      var columnType := if kind.Some? then ConvertValuePrimitiveTypeToSQLiteType(kind.value) else TEXT;
      ColumnsKeys(typeShapeFlatten[..i], skip);
      assert typeShapeFlatten == typeShapeFlatten[..i] + typeShapeFlatten[i..];
      DistinctSplit(typeShapeFlatten[..i], typeShapeFlatten[i..]);
      assert key !in Keys(typeShapeFlatten[..i]);
      PutFresh(tableShape, key, columnType);
      tableShape := Put(tableShape, key, columnType);
    }
    assert typeShapeFlatten[..|typeShapeFlatten|] == typeShapeFlatten;
    ColumnsKeys(typeShapeFlatten, skip);
  }

  /** The columns are exactly the leaves of the flattened shape whose kind is not
      skipped, each typed by its kind. */
  lemma TableShapeColumns(typeShape: seq<(string, TypeShape)>, skip: set<ValueType>, c: (string, SqliteType))
    requires ShapeWellFormed(Nested(typeShape))
    ensures var flat := (ShapeToJsonWellFormed(Nested(typeShape)); Flatten(ShapeToJson(Nested(typeShape)), ""));
            c in Columns(flat, skip) <==>
              exists k :: (c.0, JStr(Name(k))) in flat && k !in skip
                          && c.1 == ConvertValuePrimitiveTypeToSQLiteType(k)
  {
    ShapeToJsonWellFormed(Nested(typeShape));
    var flat := Flatten(ShapeToJson(Nested(typeShape)), "");
    ColumnsMember(flat, skip, c);
    if c in Columns(flat, skip) {
      ColumnNamesKind(typeShape, skip, c);
    } else {
      forall k | (c.0, JStr(Name(k))) in flat && k !in skip
        ensures c.1 != ConvertValuePrimitiveTypeToSQLiteType(k)
      {
        KindNamedName(k);
        assert !Skipped(JStr(Name(k)), skip);
      }
    }
  }

  /** Every column comes from a leaf naming a kind that is not skipped. */
  lemma ColumnNamesKind(typeShape: seq<(string, TypeShape)>, skip: set<ValueType>, c: (string, SqliteType))
    requires ShapeWellFormed(Nested(typeShape))
    requires var flat := (ShapeToJsonWellFormed(Nested(typeShape)); Flatten(ShapeToJson(Nested(typeShape)), ""));
             exists v :: (c.0, v) in flat && !Skipped(v, skip) && c.1 == ColumnType(v)
    ensures var flat := (ShapeToJsonWellFormed(Nested(typeShape)); Flatten(ShapeToJson(Nested(typeShape)), ""));
            exists k :: (c.0, JStr(Name(k))) in flat && k !in skip
                        && c.1 == ConvertValuePrimitiveTypeToSQLiteType(k)
  {
    var t := ShapeToJson(Nested(typeShape));
    ShapeToJsonWellFormed(Nested(typeShape));
    var flat := Flatten(t, "");
    var v :| (c.0, v) in flat && !Skipped(v, skip) && c.1 == ColumnType(v);
    FlatLeafNamesKind(typeShape, (c.0, v));
    var k := LeafKind(v).value;
    assert v == JStr(Name(k));
  }

  /** Every leaf of the flattened shape names a kind. */
  lemma FlatLeafNamesKind(typeShape: seq<(string, TypeShape)>, e: (string, Json))
    requires ShapeWellFormed(Nested(typeShape))
    requires e in (ShapeToJsonWellFormed(Nested(typeShape)); Flatten(ShapeToJson(Nested(typeShape)), ""))
    ensures LeafKind(e.1).Some? && e.1 == JStr(Name(LeafKind(e.1).value))
  {
    var t := ShapeToJson(Nested(typeShape));
    ShapeToJsonWellFormed(Nested(typeShape));
    FlattenIsLeafPaths(t);
    ShapeLeaf(Nested(typeShape), Segments(e.0));
  }

  /** With arrays skipped, no array leaf becomes a column. */
  lemma NoArrayColumn(typeShape: seq<(string, TypeShape)>, skip: set<ValueType>, c: (string, SqliteType))
    requires ShapeWellFormed(Nested(typeShape)) && Array in skip
    ensures var flat := (ShapeToJsonWellFormed(Nested(typeShape)); Flatten(ShapeToJson(Nested(typeShape)), ""));
            c in Columns(flat, skip) ==> (c.0, JStr(Name(Array))) !in flat
  {
    var t := ShapeToJson(Nested(typeShape));
    ShapeToJsonWellFormed(Nested(typeShape));
    var flat := Flatten(t, "");
    LeavesDistinct(t, |t.fields|, "");
    ColumnsMember(flat, skip, c);
    if c in Columns(flat, skip) {
      var v :| (c.0, v) in flat && !Skipped(v, skip) && c.1 == ColumnType(v);
      KindNamedName(Array);
      assert v != JStr(Name(Array));
      OneValuePerKey(flat, c.0);
    }
  }

  // ---------------------------------------------------------------------------
  // CREATE TABLE

  /** One column of the DDL: the quoted column name and its type. */
  function ColumnDef(c: (string, SqliteType)): string {
    "'" + c.0 + "' " + SqlName(c.1)
  }

  function ColumnDefs(tableShape: seq<(string, SqliteType)>): seq<string> {
    seq(|tableShape|, i requires 0 <= i < |tableShape| => ColumnDef(tableShape[i]))
  }

  /** `getSQLSchemaFromTableShape` (src/engine.ts:64-73): the column definitions joined
      with ", " inside `CREATE TABLE <name> (...);`. */
  function GetSQLSchemaFromTableShape(tableName: string, tableShape: seq<(string, SqliteType)>): (r: string)
  {
    "CREATE TABLE " + tableName + " (" + Join(ColumnDefs(tableShape), ", ") + ");"
  }

  /** A quoted name at the head of `s`, and the text after its closing quote. */
  function ParseQuoted(s: string): (r: Option<(string, string)>)
    ensures r.Some? ==> |r.value.1| < |s|
  {
    if |s| >= 1 && s[0] == '\'' then UpTo(s[1..], '\'') else None
  }

  function ParseSqlType(s: string): (r: Option<(SqliteType, string)>)
    ensures r.Some? ==> |r.value.1| < |s|
  {
    if |s| >= 4 && s[..4] == "TEXT" then Some((TEXT, s[4..]))
    else if |s| >= 7 && s[..7] == "INTEGER" then Some((INTEGER, s[7..]))
    else if |s| >= 4 && s[..4] == "REAL" then Some((REAL, s[4..]))
    else None
  }

  function ParseColumnDef(s: string): (r: Option<((string, SqliteType), string)>)
    ensures r.Some? ==> |r.value.1| < |s|
  {
    match ParseQuoted(s)
    case None => None
    case Some(q) =>
      if |q.1| >= 1 && q.1[0] == ' ' then
        match ParseSqlType(q.1[1..])
        case None => None
        case Some(t) => Some(((q.0, t.0), t.1))
      else None
  }

  /** Column definitions separated by ", ", as many as can be read, and the rest. */
  function ParseColumnDefs(s: string): (r: (seq<(string, SqliteType)>, string))
    decreases |s|
  {
    match ParseColumnDef(s)
    case None => ([], s)
    case Some(d) =>
      if |d.1| >= 2 && d.1[..2] == ", " then
        var more := ParseColumnDefs(d.1[2..]);
        ([d.0] + more.0, more.1)
      else ([d.0], d.1)
  }

  /** Reads a CREATE TABLE statement back into its table name and columns. */
  function ParseSchema(ddl: string): Option<(string, seq<(string, SqliteType)>)> {
    if |ddl| >= 13 && ddl[..13] == "CREATE TABLE " then
      match UpTo(ddl[13..], '(')
      case None => None
      case Some(p) =>
        if |p.0| >= 1 && p.0[|p.0| - 1] == ' ' then
          var columns := ParseColumnDefs(p.1);
          if columns.1 == ");" then Some((p.0[..|p.0| - 1], columns.0)) else None
        else None
    else None
  }

  /** A column name the quoting of src/engine.ts:69 keeps intact. */
  predicate QuoteFree(columns: seq<string>) {
    forall i :: 0 <= i < |columns| ==> '\'' !in columns[i]
  }

  lemma ParseSqlTypeOf(t: SqliteType, tail: string)
    ensures ParseSqlType(SqlName(t) + tail) == Some((t, tail))
  {
    var s := SqlName(t) + tail;
    match t
    case TEXT =>
      assert s[..4] == "TEXT" && s[4..] == tail;
    case INTEGER =>
      assert s[..4] != "TEXT" by { assert s[0] == 'I'; }
      assert s[..7] == "INTEGER" && s[7..] == tail;
    case REAL =>
      assert s[..4] != "TEXT" by { assert s[0] == 'R'; }
      assert !(|s| >= 7 && s[..7] == "INTEGER") by { assert s[0] == 'R'; }
      assert s[..4] == "REAL" && s[4..] == tail;
  }

  lemma ParseColumnDefOf(c: (string, SqliteType), tail: string)
    requires '\'' !in c.0
    ensures ParseColumnDef(ColumnDef(c) + tail) == Some((c, tail))
  {
    var s := ColumnDef(c) + tail;
    var rest := " " + SqlName(c.1) + tail;
    assert s[0] == '\'';
    assert s[1..] == c.0 + ['\''] + rest;
    UpToFirst(c.0, '\'', rest);
    assert ParseQuoted(s) == Some((c.0, rest));
    assert rest[1..] == SqlName(c.1) + tail;
    ParseSqlTypeOf(c.1, tail);
  }

  /** Text that closes the list: nothing, or a closing parenthesis. */
  predicate ListEnd(tail: string) {
    tail == [] || tail[0] == ')'
  }

  lemma ParseColumnDefsEnd(tail: string)
    requires ListEnd(tail)
    ensures ParseColumnDefs(tail) == ([], tail)
  {
  }

  lemma ParseColumnDefsLast(c: (string, SqliteType), tail: string)
    requires '\'' !in c.0 && ListEnd(tail)
    ensures ParseColumnDefs(ColumnDef(c) + tail) == ([c], tail)
  {
    ParseColumnDefOf(c, tail);
  }

  lemma ParseColumnDefsCons(c: (string, SqliteType), more: string)
    requires '\'' !in c.0
    ensures ParseColumnDefs(ColumnDef(c) + (", " + more)) ==
              ([c] + ParseColumnDefs(more).0, ParseColumnDefs(more).1)
  {
    ParseColumnDefOf(c, ", " + more);
    assert (", " + more)[..2] == ", " && (", " + more)[2..] == more;
  }

  lemma {:induction false} ParseColumnDefsOf(tableShape: seq<(string, SqliteType)>, tail: string)
    requires QuoteFree(Keys(tableShape)) && ListEnd(tail)
    ensures ParseColumnDefs(Join(ColumnDefs(tableShape), ", ") + tail) == (tableShape, tail)
    decreases |tableShape|
  {
    var defs := ColumnDefs(tableShape);
    if tableShape == [] {
      assert Join(defs, ", ") + tail == tail;
      ParseColumnDefsEnd(tail);
    } else {
      assert Keys(tableShape)[0] == tableShape[0].0;
      if |tableShape| == 1 {
        assert Join(defs, ", ") + tail == ColumnDef(tableShape[0]) + tail;
        ParseColumnDefsLast(tableShape[0], tail);
        assert [tableShape[0]] == tableShape;
      } else {
        var rest := tableShape[1..];
        assert QuoteFree(Keys(rest)) by {
          forall i | 0 <= i < |rest| ensures '\'' !in Keys(rest)[i] {
            assert Keys(rest)[i] == Keys(tableShape)[i + 1];
          }
        }
        ParseColumnDefsOf(rest, tail);
        ParseColumnDefsFront(tableShape, tail);
      }
    }
  }

  /** The first column definition is read off the front of a longer list. */
  lemma ParseColumnDefsFront(tableShape: seq<(string, SqliteType)>, tail: string)
    requires |tableShape| >= 2 && '\'' !in tableShape[0].0
    requires ParseColumnDefs(Join(ColumnDefs(tableShape[1..]), ", ") + tail) == (tableShape[1..], tail)
    ensures ParseColumnDefs(Join(ColumnDefs(tableShape), ", ") + tail) == (tableShape, tail)
  {
    var defs := ColumnDefs(tableShape);
    var rest := tableShape[1..];
    ColumnDefsTail(tableShape);
    JoinCons(defs, ", ", tail);
    ParseColumnDefsCons(tableShape[0], Join(ColumnDefs(rest), ", ") + tail);
    assert [tableShape[0]] + rest == tableShape;
  }

  lemma ColumnDefsTail(tableShape: seq<(string, SqliteType)>)
    requires tableShape != []
    ensures ColumnDefs(tableShape)[0] == ColumnDef(tableShape[0])
    ensures ColumnDefs(tableShape)[1..] == ColumnDefs(tableShape[1..])
  {
  }

  /** The CREATE TABLE text reads back as the table's name and its columns, in order,
      with their types. */
  lemma SchemaRoundTrip(tableName: string, tableShape: seq<(string, SqliteType)>)
    requires '(' !in tableName && QuoteFree(Keys(tableShape))
    ensures ParseSchema(GetSQLSchemaFromTableShape(tableName, tableShape)) == Some((tableName, tableShape))
  {
    var columns := Join(ColumnDefs(tableShape), ", ");
    var ddl := GetSQLSchemaFromTableShape(tableName, tableShape);
    assert ddl[..13] == "CREATE TABLE ";
    assert ddl[13..] == (tableName + " ") + ['('] + (columns + ");");
    UpToFirst(tableName + " ", '(', columns + ");");
    ParseColumnDefsOf(tableShape, ");");
  }

  // ---------------------------------------------------------------------------
  // INSERT and binding rows

  function Quoted(columns: seq<string>): seq<string> {
    seq(|columns|, i requires 0 <= i < |columns| => "'" + columns[i] + "'")
  }

  function Placeholders(n: nat): seq<string> {
    seq(n, i => "?")
  }

  /** The statement text built in src/engine.ts:91-100: the quoted column names and
      one `?` per column. */
  function InsertText(tableName: string, columns: seq<string>): string {
    "INSERT INTO " + tableName + " (" + Join(Quoted(columns), ", ") + ") VALUES ("
    + Join(Placeholders(|columns|), ", ") + ")"
  }

  /** Quoted names separated by ", ", as many as can be read, and the rest. */
  function ParseQuotedNames(s: string): (r: (seq<string>, string))
    decreases |s|
  {
    match ParseQuoted(s)
    case None => ([], s)
    case Some(q) =>
      if |q.1| >= 2 && q.1[..2] == ", " then
        var more := ParseQuotedNames(q.1[2..]);
        ([q.0] + more.0, more.1)
      else ([q.0], q.1)
  }

  /** Placeholders separated by ", ": how many, and the rest. */
  function ParsePlaceholders(s: string): (r: (nat, string))
    decreases |s|
  {
    if |s| >= 1 && s[0] == '?' then
      if |s| >= 3 && s[1..3] == ", " then
        var more := ParsePlaceholders(s[3..]);
        (1 + more.0, more.1)
      else (1, s[1..])
    else (0, s)
  }

  /** Reads the part of an INSERT statement after the table name's "(": the column
      names and the number of placeholders. */
  function ParseInsertColumns(s: string): Option<(seq<string>, nat)> {
    var names := ParseQuotedNames(s);
    var rest := names.1;
    if |rest| >= 10 && rest[..10] == ") VALUES (" then
      var holes := ParsePlaceholders(rest[10..]);
      if holes.1 == ")" then Some((names.0, holes.0)) else None
    else None
  }

  /** Reads an INSERT statement back into its table name, its columns and the number
      of its placeholders. */
  function ParseInsert(sql: string): Option<(string, seq<string>, nat)> {
    if |sql| >= 12 && sql[..12] == "INSERT INTO " then
      match UpTo(sql[12..], '(')
      case None => None
      case Some(p) =>
        if |p.0| >= 1 && p.0[|p.0| - 1] == ' ' then
          match ParseInsertColumns(p.1)
          case None => None
          case Some(c) => Some((p.0[..|p.0| - 1], c.0, c.1))
        else None
    else None
  }

  lemma ParseQuotedOf(name: string, tail: string)
    requires '\'' !in name
    ensures ParseQuoted("'" + name + "'" + tail) == Some((name, tail))
  {
    assert ("'" + name + "'" + tail)[1..] == name + ['\''] + tail;
    UpToFirst(name, '\'', tail);
  }

  lemma ParseQuotedNamesCons(name: string, more: string)
    requires '\'' !in name
    ensures ParseQuotedNames("'" + name + "'" + (", " + more)) ==
              ([name] + ParseQuotedNames(more).0, ParseQuotedNames(more).1)
  {
    ParseQuotedOf(name, ", " + more);
    assert (", " + more)[..2] == ", " && (", " + more)[2..] == more;
  }

  lemma ParseQuotedNamesLast(name: string, tail: string)
    requires '\'' !in name && ListEnd(tail)
    ensures ParseQuotedNames("'" + name + "'" + tail) == ([name], tail)
  {
    ParseQuotedOf(name, tail);
  }

  lemma {:induction false} ParseQuotedNamesOf(columns: seq<string>, tail: string)
    requires QuoteFree(columns) && ListEnd(tail)
    ensures ParseQuotedNames(Join(Quoted(columns), ", ") + tail) == (columns, tail)
    decreases |columns|
  {
    var qs := Quoted(columns);
    if columns == [] {
      assert Join(qs, ", ") + tail == tail;
    } else if |columns| == 1 {
      assert Join(qs, ", ") + tail == "'" + columns[0] + "'" + tail;
      ParseQuotedNamesLast(columns[0], tail);
      assert [columns[0]] == columns;
    } else {
      var rest := columns[1..];
      assert qs[1..] == Quoted(rest);
      var more := Join(Quoted(rest), ", ") + tail;
      assert Join(qs, ", ") + tail == "'" + columns[0] + "'" + (", " + more);
      ParseQuotedNamesCons(columns[0], more);
      ParseQuotedNamesOf(rest, tail);
      assert [columns[0]] + rest == columns;
    }
  }

  lemma {:induction false} ParsePlaceholdersOf(n: nat, tail: string)
    requires ListEnd(tail)
    ensures ParsePlaceholders(Join(Placeholders(n), ", ") + tail) == (n, tail)
    decreases n
  {
    var ps := Placeholders(n);
    if n == 0 {
      assert Join(ps, ", ") + tail == tail;
    } else if n == 1 {
      var s := Join(ps, ", ") + tail;
      assert s == "?" + tail;
      assert s[1..] == tail;
    } else {
      assert ps[1..] == Placeholders(n - 1);
      var more := Join(Placeholders(n - 1), ", ") + tail;
      var s := Join(ps, ", ") + tail;
      assert s == "?" + ", " + more;
      assert s[1..3] == ", " && s[3..] == more;
      ParsePlaceholdersOf(n - 1, tail);
    }
  }

  lemma ParseInsertColumnsOf(columns: seq<string>)
    requires QuoteFree(columns)
    ensures ParseInsertColumns(Join(Quoted(columns), ", ") + (") VALUES (" + Join(Placeholders(|columns|), ", ") + ")"))
            == Some((columns, |columns|))
  {
    var rest := ") VALUES (" + Join(Placeholders(|columns|), ", ") + ")";
    ParseQuotedNamesOf(columns, rest);
    assert rest[..10] == ") VALUES (" && rest[10..] == Join(Placeholders(|columns|), ", ") + ")";
    ParsePlaceholdersOf(|columns|, ")");
  }

  /** The INSERT text reads back as the table's name and its columns, in order, with
      exactly one placeholder per column. */
  lemma InsertRoundTrip(tableName: string, columns: seq<string>)
    requires '(' !in tableName && QuoteFree(columns)
    ensures ParseInsert(InsertText(tableName, columns)) == Some((tableName, columns, |columns|))
  {
    var after := Join(Quoted(columns), ", ") + (") VALUES (" + Join(Placeholders(|columns|), ", ") + ")");
    var sql := InsertText(tableName, columns);
    assert sql == "INSERT INTO " + ((tableName + " ") + ['('] + after);
    UpToFirst(tableName + " ", '(', after);
    ParseInsertColumnsOf(columns);
  }

  /** `Object.keys(tableShape).map((key) => getObjectKeyPath(item, key))`: one value
      per column, looked up along the column's path. */
  function Bindings(item: Json, columns: seq<string>): seq<Json> {
    seq(|columns|, j requires 0 <= j < |columns| => GetObjectKeyPath(item, columns[j]))
  }

  /** `populateDatabase` (src/engine.ts:85-108): the INSERT text and, record after
      record, the row of values bound to it. */
  method PopulateDatabase(tableName: string, tableShape: seq<(string, SqliteType)>, dataset: seq<Json>)
    returns (sql: string, rows: seq<seq<Json>>)
    ensures sql == InsertText(tableName, Keys(tableShape))
    ensures |rows| == |dataset|
    ensures forall i :: 0 <= i < |dataset| ==> |rows[i]| == |tableShape|
    ensures forall i, j :: 0 <= i < |dataset| && 0 <= j < |tableShape| ==>
              rows[i][j] == GetObjectKeyPath(dataset[i], tableShape[j].0)
  {
    var columns := Join(Quoted(Keys(tableShape)), ", ");
    var placeholders := Join(Placeholders(|Keys(tableShape)|), ", ");
    sql := "INSERT INTO " + tableName + " (" + columns + ") VALUES (" + placeholders + ")";
    rows := [];
    for i := 0 to |dataset|
      invariant |rows| == i
      invariant forall r :: 0 <= r < i ==> rows[r] == Bindings(dataset[r], Keys(tableShape))
    {
      var values := Bindings(dataset[i], Keys(tableShape));
      rows := rows + [values];
    }
  }

  /** A column whose path is missing or falsy in a record binds null; otherwise it
      binds the value at that path. */
  lemma BindingValue(item: Json, column: string)
    requires column != ""
    ensures GetObjectKeyPath(item, column) ==
              if TruthyAlong(item, Segments(column)) then ValueAt(item, Segments(column)) else JNull
  {
    DescendSpec(item, Segments(column));
  }
}
