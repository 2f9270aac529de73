# Natural-language dataset query: the data path, in Dafny

This project models the deterministic core of the Apify actor that answers questions
about a dataset in plain language. The actor:

1. Infers a type shape from the dataset items: the kind of every key, with nested objects
   followed recursively.
2. Flattens that shape into a table shape: one SQLite column per dotted leaf path.
3. Writes the `CREATE TABLE` and `INSERT` statements, and one binding row per item.
4. Reads two kinds of reply from the language model:
   - the important-fields list, one `field: reason` pair per line;
   - the sanity verdict, a yes/no line and a reason line.

The modules follow the source files:

| module | source | form |
|---|---|---|
| `Json` | JavaScript values and objects as ordered dictionaries | datatypes, functions |
| `Strings` | `split`, `join`, `trim`, `toLowerCase` | functions and lemmas |
| `Utils` | `src/utils.ts` | `getObjectKeyPath` and `setObjectKeyPath` as functions; `flattenObject` as a method with its loop |
| `Dataset` | `src/dataset.ts` | `getDatasetTypeShape` as a recursive method with its three loops, proved equal to the function `InferShape` |
| `Engine` | `src/engine.ts` | the conversion loop and `populateDatabase` as methods; the SQL texts with parsers that read them back |
| `Llm` | `src/llm.ts` | the important-fields loop as a method; the sanity parser as a function |
| `Scenarios` | `tests/dataset.test.ts`, `tests/engine.test.ts` | the repository's worked examples as lemmas: nested inference, a dataset taken from its records to its columns and rows, and the `CREATE TABLE` text |
| `Seqs`, `Wrappers` | none | sequence helpers and `Option`/`Result` |

Modelling choices:

- A JavaScript value is a `Json` datatype. An object is an ordered list of entries. Its
  insertion order matters: it is the order of `Object.entries` and therefore the order
  of the table's columns.
- An assignment `obj[k] = v` is `Put`: it replaces the value in place when `k` is
  present, and appends the entry when it is not.
- JavaScript truthiness is written out as `Truthy`.
- Numbers are reals.
- `VALUE_TYPES_TO_SKIP` becomes a parameter `skip`, and `TABLE_NAME` becomes a parameter
  `tableName`.

Every imperative operation is proved against a specification function. Each function is
tied to a partner:

- a reference definition: `Consensus` for `resolveTypeCandidate`, `SeenKinds` for the
  candidate sets, `ValueAt`/`LeafPath` for lookups and flattening;
- or an inverse: parsers that read the generated SQL and the formatted field pairs back.

## Model

| member | source | states |
|---|---|---|
| Dataset.KindNamedName | src/types.ts:1-8 | every kind's name reads back as that kind, so the cast `type as ValueType` on a shape leaf loses nothing |
| Dataset.GetValueType | src/dataset.ts:48-63 | seven if-and-only-ifs: array exactly for arrays; unknown exactly for falsy values; object for plain objects; string for non-empty strings; boolean only for `true`; float for non-integral numbers; integer for non-zero integral numbers |
| Dataset.AddType | src/dataset.ts:80-85 | `Set.add`: the result holds exactly the old kinds and the new one, still without repetition |
| Dataset.Known | src/dataset.ts:31-33 | the filter keeps exactly the kinds other than unknown, without repetition |
| Dataset.ResolveTypeCandidate | src/dataset.ts:30-40 | a result other than unknown is a candidate and every other candidate is unknown; when exactly one kind besides unknown is present, it is the result |
| Dataset.ResolveIsConsensus | src/dataset.ts:30-40 | the resolved kind equals `Consensus` of the candidate set: the single known kind if there is one, unknown otherwise |
| Dataset.ConsensusSingle | src/dataset.ts:35-36 | one kind, possibly beside unknown, is the consensus |
| Dataset.ConsensusConflict | src/dataset.ts:39 | two different known kinds give unknown |
| Dataset.CollectTypeCandidates | src/dataset.ts:72-87 | the first loop returns `Collect`, the candidate dictionary built entry by entry over all records |
| Dataset.CollectEntriesSpec | src/dataset.ts:77-86 | the dictionary has one key per distinct entry key, in first-seen order; each key's set holds exactly the kinds seen for that key, without repetition |
| Dataset.CollectEntryStep | src/dataset.ts:80-85 | one entry keeps that invariant |
| Dataset.FalsyRecordSkipped | src/dataset.ts:74-76 | a record whose sub-object at the root key is falsy adds no candidates |
| Dataset.EntryLookup | src/dataset.ts:74-79 | each entry met below the root key has a path key, and looking up root key + "." + key in the record finds that entry's value, or null when it is falsy |
| Dataset.ObjectCandidates | src/dataset.ts:73-99 | the collected candidates meet the invariant; a key with an object candidate has some record holding an object one level deeper, which is what the recursion descends into |
| Dataset.Deeper | src/dataset.ts:95-99 | descending to such a key strictly decreases the remaining depth of the records, so the recursion ends |
| Dataset.ResolveTypeCandidates | src/dataset.ts:89-92 | the second loop returns `Resolved`: the same keys in the same order, each with its resolved kind |
| Dataset.ResolvedStep | src/dataset.ts:91 | each assignment `typeShape[key] = …` extends the shape by one entry |
| Dataset.ExpandObjects | src/dataset.ts:94-100 | the third loop returns `Expand`: each object entry is replaced in place by the shape inferred one key deeper |
| Dataset.Expand | src/dataset.ts:94-100 | the expansion keeps every key at its position |
| Dataset.ExpandStep | src/dataset.ts:95-99 | one loop step replaces entry `i` and nothing else |
| Dataset.ExpandKeys | src/dataset.ts:95-99 | the partly expanded shape still has distinct keys, and entry `i` is still untouched |
| Dataset.ExpandAt | src/dataset.ts:95-99 | entry `i` of the expansion is the nested shape one key deeper if it was an object, and is unchanged otherwise |
| Dataset.GetDatasetTypeShape | src/dataset.ts:65-103 | the method returns `InferShape(records, rootKey)` |
| Dataset.InferShapeKeys | src/dataset.ts:73-92 | the inferred keys are the distinct entry keys in first-seen order, with no key twice |
| Dataset.InferShapeResolved | src/dataset.ts:89-100 | entry `i` of the inferred shape is candidate `i`, resolved, and expanded when it resolved to object |
| Dataset.InferShapeEntry | src/dataset.ts:65-103 | each key's shape is the consensus of the kinds seen for it, and a nested shape one key deeper when that consensus is object |
| Dataset.CandidateKey | src/dataset.ts:77-81 | every candidate key is a path key |
| Dataset.InferShapeConflict | src/dataset.ts:35-39 | a key seen with two different known kinds is inferred unknown |
| Dataset.InferShapeEmpty | src/dataset.ts:65-103 | no records give the empty shape |
| Dataset.InferShapeNoObjectKind | src/dataset.ts:94-100 | no leaf of the inferred shape is the kind object: every object was expanded |
| Dataset.InferShapeWellFormed | src/dataset.ts:65-103 | the inferred shape, at every level, has distinct path keys |
| Dataset.NullThenIntegers | tests/dataset.test.ts:36-55 | records `{prop: null}, {prop: 123}, {prop: 123}` infer `{prop: integer}` |
| Dataset.ArrayProp | tests/dataset.test.ts:57-73 | records holding an empty and a non-empty array under one key infer `{arrayProp: array}` |
| Utils.SegmentsChild | src/dataset.ts:97 | `rootKey ? rootKey + "." + key : key` splits into the root's segments followed by `key` |
| Utils.SegmentsChildPath | src/utils.ts:79 | a prefix extended key by key splits into the prefix's segments followed by the keys |
| Utils.SegmentsJoinPath | src/utils.ts:16 | splitting the dotted join of path keys gives those keys back |
| Utils.Descend | src/utils.ts:18-26 | after a non-empty walk the result is null or truthy |
| Utils.GetObjectKeyPath | src/utils.ts:8-27 | the empty path returns the object itself; any other path returns null or a truthy value |
| Utils.DescendSpec | src/utils.ts:18-26 | the walk returns the value at the path when every step is truthy, and null otherwise |
| Utils.DescendSnoc | src/utils.ts:19-24 | one more key looks that key up in the previous result, turning a falsy member into null |
| Utils.GetObjectKeyPathChild | src/utils.ts:8-27 | looking up `root.key` looks up `key` in the value at `root` |
| Utils.DescendDepth | src/utils.ts:19-24 | an object reached by the walk lies strictly deeper than the path's length |
| Utils.IntermediateStep | src/utils.ts:52-55 | the walk steps into a plain object, either the existing one or a fresh `{}` |
| Utils.SetPath | src/utils.ts:48-59 | setting below an object yields an object |
| Utils.SetObjectKeyPath | src/utils.ts:37-62 | the empty path returns the value itself; any other path returns an object |
| Utils.GetAfterSetPath | src/utils.ts:48-59 | walking the set path finds the value, or null when it is falsy |
| Utils.GetAfterSet | src/utils.ts:37-62 | `getObjectKeyPath(setObjectKeyPath(obj, p, v), p)` is `v`, or null when `v` is falsy |
| Utils.SetPathIntermediates | src/utils.ts:50-56 | after the set, every strict prefix of the path holds a plain object |
| Utils.SetPathKeepsOthers | src/utils.ts:50-59 | a path that leaves the set path at an existing object member reads the same before and after |
| Utils.SetPathStep | src/utils.ts:50-56 | below an existing object member, setting recurses into that member |
| Utils.SetPathMember | src/utils.ts:55-59 | members other than the first key are unchanged; a one-key path replaces that member by the value |
| Utils.FlattenObject | src/utils.ts:71-96 | the method returns `Flatten(obj, prefix)`, with no key twice |
| Utils.LeavesDistinct | src/utils.ts:77-92 | the flattened keys are distinct, because keys under different members extend different child keys |
| Utils.LeavesExtend | src/utils.ts:79-88 | every flattened key lies below the child key of the member it came from |
| Utils.LeavesSound | src/utils.ts:77-92 | every flattened entry is a leaf path of the object, joined with the prefix, with the value found there |
| Utils.LeavesComplete | src/utils.ts:77-92 | every leaf path of the object appears among the flattened entries |
| Utils.FlattenIsLeafPaths | src/utils.ts:71-96 | flattening from the empty prefix lists exactly the leaf paths, each key splitting back into its path and carrying the value found there, with no key twice |
| Utils.LeafPathKeys | src/utils.ts:79 | the keys along a leaf path are path keys |
| Utils.IsNumberFloat | src/utils.ts:104-106 | true only for numbers, and for a number exactly when it is not integral |
| Utils.IntegerIsNotFloat | src/utils.ts:104-106 | no integer is a float |
| Utils.GetObjectKeyPathPresent | tests/utils.test.ts:5-47 | `a.b.c` of `{a: {b: {c: 42}}}` is 42, and the empty path gives the object |
| Utils.GetObjectKeyPathMissing | tests/utils.test.ts:16-36 | `a.b.d` and `a.x.c` give null |
| Utils.GetObjectKeyPathThroughNumber | tests/utils.test.ts:49-56 | a path through a number gives null |
| Utils.SegmentsABC | src/utils.ts:16 | `"a.b.c"` splits into three keys |
| Utils.SetExistingPath | tests/utils.test.ts:58-68 | setting an existing path to 100 reads back 100 |
| Utils.SetMissingPath | tests/utils.test.ts:70-74 | setting below `{}` creates the intermediates and reads back the value |
| Utils.SetOverwritesObject | tests/utils.test.ts:76-87 | setting `a.b` to `{d: 100}` reads back `{d: 100}`, and `a.b.c` is then null |
| Utils.SetThroughNumber | tests/utils.test.ts:101-109 | setting `a.b.c` where `a.b` is 42 makes `a.b` the object `{c: 100}` |
| Utils.SetKeepsSibling | tests/utils.test.ts:111-120 | setting `a.c` keeps `a.b` at 42 and reads back `a.c` as 100 |
| Utils.SetEmptyPath | tests/utils.test.ts:89-99 | the empty path returns the new value |
| Utils.FlattenCase | tests/utils.test.ts:122-132 | `{a: {b: {c: 42}}}` flattens to `{"a.b.c": 42}` |
| Utils.IsNumberFloatCases | tests/utils.test.ts:134-140 | 42 is not a float, 42.5 is, and strings never are |
| Engine.StoredType | src/engine.ts:28-43 | a value's own kind converts to INTEGER exactly when the value is `true` or a non-zero integral number, to REAL exactly when it is a non-integral number, and to TEXT otherwise (the column's type comes from the kind agreed over all records, not from one value) |
| Engine.ShapeToJson | src/engine.ts:47-49 | nested shapes become objects, and leaves become their kind's name |
| Engine.ShapeToJsonWellFormed | src/engine.ts:47-49 | a well-formed shape becomes a well-formed object |
| Engine.ShapeLeaf | src/engine.ts:51-57 | every leaf of a shape seen as an object names a kind |
| Engine.ColumnsMember | src/engine.ts:51-59 | a column is in the result exactly when some flattened entry has its key, is not skipped, and converts to its type |
| Engine.ColumnsKeys | src/engine.ts:51-59 | column keys come from the flattened keys, there are no more columns than entries, and distinct keys stay distinct |
| Engine.ConvertTypeShapeToTableShape | src/engine.ts:45-62 | the loop returns `Columns` of the flattened shape, with no column twice |
| Engine.TableShapeColumns | src/engine.ts:45-62 | a column is in the table shape exactly when its key is a flattened leaf path whose kind is not skipped, typed by the conversion of that kind |
| Engine.FlatLeafNamesKind | src/engine.ts:47-57 | every flattened leaf is the name of a kind |
| Engine.NoArrayColumn | src/engine.ts:52-54 | with array among the skipped kinds, no column comes from an array leaf |
| Engine.ParseColumnDefsOf | src/engine.ts:68-70 | the joined column definitions read back as the columns, in order |
| Engine.SchemaRoundTrip | src/engine.ts:64-73 | the `CREATE TABLE` text reads back as the table name and every column, in order, with its type |
| Engine.ParseQuotedNamesOf | src/engine.ts:91-93 | the quoted column list reads back as the column names |
| Engine.ParsePlaceholdersOf | src/engine.ts:94-96 | the placeholder list reads back as its count |
| Engine.InsertRoundTrip | src/engine.ts:91-100 | the `INSERT` text reads back as the table name and the columns, with exactly one placeholder per column |
| Engine.PopulateDatabase | src/engine.ts:85-108 | the statement is the `INSERT` text over the table's columns; there is one row per record, each with one value per column, namely `getObjectKeyPath(record, column)` |
| Engine.BindingValue | src/engine.ts:102-105 | a column binds the value at its path when every step is truthy, and null otherwise |
| Llm.ParseImportantFields | src/llm.ts:74-84 | the loop returns `Pairs` of the reply's lines |
| Llm.PairsSnoc | src/llm.ts:77-82 | each line adds its own pair or nothing |
| Llm.PairsAppend | src/llm.ts:77-82 | lines are read independently and in order |
| Llm.LinePairGood | src/llm.ts:78-81 | a kept pair is a non-empty, trimmed field and reason, neither holding a colon or a line break |
| Llm.ImportantFieldsGood | src/llm.ts:74-84 | at most one pair per line, every pair good |
| Llm.ReasonStopsAtColon | src/llm.ts:78 | text after a second colon is dropped |
| Llm.TrimSpaceBefore | src/llm.ts:78 | the blank after the colon is trimmed away |
| Llm.LinePairFormat | src/llm.ts:78-81 | a good pair written `field: reason`, as src/engine.ts:147 does, reads back as itself |
| Llm.PairsFormatted | src/llm.ts:77-82 | formatted lines read back as the pairs, in order |
| Llm.ImportantFieldsRoundTrip | src/llm.ts:74-84 | good pairs written one per line and joined with line breaks read back as the same pairs |
| Llm.NonBlankSpec | src/llm.ts:106 | the kept lines are lines of the reply and none is blank; every non-blank line of the reply is kept |
| Llm.NonBlankSingle | src/llm.ts:106 | one line is kept exactly when it is not blank; with Llm.NonBlankAppend this fixes the kept lines and their order |
| Llm.NonBlankAppend | src/llm.ts:106 | the filter works line by line |
| Llm.ParseSanityReply | src/llm.ts:106-114 | an error exactly when the reply has other than two non-blank lines; otherwise sane exactly when the trimmed first line is "yes" in any letter case, with a reason that is the trimmed second non-blank line, non-empty, trimmed and single-line |
| Llm.BlankLineIgnored | src/llm.ts:106 | a trailing blank line changes nothing |
| Llm.SanityRoundTrip | src/llm.ts:106-114 | a verdict line and a reason line read back as the lower-cased verdict test and the trimmed reason |
| Llm.SaneReply | src/llm.ts:99-114 | `yes` / `n/a` reads as sane with reason `n/a` |
| Llm.InsaneReply | src/llm.ts:106-114 | `No` / `no data` reads as not sane |
| Strings.Split | src/llm.ts:74 | splitting gives at least one part, and no part holds the separator |
| Strings.SplitJoin | src/llm.ts:74 | splitting separator-free parts joined by the separator gives the parts back |
| Strings.JoinSplit | src/llm.ts:74 | joining the parts of a split gives the text back |
| Strings.SplitSnoc | src/llm.ts:74 | one more line adds one more part |
| Strings.TrimStartSpec | src/llm.ts:78 | trimming the start cuts a whitespace prefix and no more |
| Strings.TrimEndSpec | src/llm.ts:78 | trimming the end cuts a whitespace suffix and no more |
| Strings.TrimSpec | src/llm.ts:78 | the trimmed text is an infix with whitespace on both sides and whitespace at neither end |
| Strings.TrimIdempotent | src/llm.ts:78 | trimming twice is trimming once |
| Strings.TrimmedFixed | src/llm.ts:78 | text without whitespace at its ends is left alone |
| Strings.TrimEmptyIffBlank | src/llm.ts:106 | `line.trim() !== ""` exactly when the line is not all whitespace |
| Strings.ToLowerNoUpper | src/llm.ts:112 | the lowered text holds no capital A-Z |
| Strings.ToLowerUnchanged | src/llm.ts:112 | a text without capitals A-Z is its own lower case |
| Strings.ToLowerIdempotent | src/llm.ts:112 | lowering twice gives the same as lowering once |
| Strings.LowerIsYes | src/llm.ts:112 | lower-cases to "yes" exactly when the text is y, e, s in any letter case |
| Json.FindKey | src/dataset.ts:80 | the first position holding the key, or -1 exactly when it is absent |
| Json.Get | src/dataset.ts:80 | a value exactly when the key is present, and it is one of the key's entries |
| Json.GetEntry | src/dataset.ts:85 | with distinct keys, each entry's key finds that entry's value |
| Json.OneValuePerKey | src/dataset.ts:85 | with distinct keys, a key has one value |
| Json.Put | src/dataset.ts:91 | assignment keeps the keys, adding the new key last when it is absent |
| Json.GetPut | src/dataset.ts:91 | after an assignment, the key finds the new value and every other key its old one |
| Json.PutFresh | src/utils.ts:90 | assigning an absent key appends the entry |
| Json.PutExisting | src/dataset.ts:98 | assigning a present key replaces its value in place |
| Json.PutDistinct | src/dataset.ts:91 | assignment keeps keys distinct |
| Json.AssignFresh | src/utils.ts:85-88 | `Object.assign` with fresh, distinct keys appends the source's entries |
| Json.Member | src/utils.ts:20-23 | property access on a non-object is undefined; on an object it finds the key's value exactly when the key is present |
| Json.MemberDepth | src/utils.ts:23 | a member lies strictly less deep than its object |
| Json.MemberWellFormed | src/utils.ts:23 | members of a well-formed value are well-formed |
| Dataset.DedupDistinct | src/dataset.ts:77-86 | keys met without repeats become candidate keys in the order met |
| Dataset.DedupAppendSeen | src/dataset.ts:77-86 | keys met again in later records add no candidate key and do not move the earlier ones |
| Dataset.SeenKindsAppend | src/dataset.ts:77-86 | the kinds seen for a key over two runs of entries are the union of the kinds seen in each run |
| Dataset.ConsensusOne | src/dataset.ts:30-40 | a key only ever seen with one kind resolves to that kind |
| Dataset.SeenKindsDistinct | src/dataset.ts:77-86 | in one object with distinct keys, a key's seen kinds are exactly its own value's kind |
| Dataset.SingleRecordEntries | src/dataset.ts:72-87 | for a single record, the collected entries are those of its sub-object at the root key, and their keys are distinct |
| Dataset.SingleRecordKeys | src/dataset.ts:65-103 | for a single record, the inferred shape has the sub-object's keys, in the sub-object's order |
| Dataset.SingleRecordEntry | src/dataset.ts:65-103 | for a single record, entry `i` of the shape is the sub-object's `i`-th key with its own value's kind, and the shape inferred one key deeper when that kind is object |
| Dataset.SingleRecordScalar | src/dataset.ts:88-92 | for a single record, a key holding a non-object value gets that value's kind |
| Dataset.SingleRecordObject | src/dataset.ts:94-100 | for a single record, a key holding an object gets the shape inferred at the key's sub-path |
| Dataset.FieldPath | src/utils.ts:8-27 | looking up the root key extended by one of its sub-object's keys gives that key's value, or null when the value is falsy |
| Dataset.EmptyKeyRecursesInPlace | src/dataset.ts:97-98 | as written: under the empty root key, a key `""` holding an object gives the sub-path `""` back, so the recursive call repeats the caller's arguments and `Measure` does not decrease |
| Dataset.EmptyKeyExcluded | src/dataset.ts:97-98 | a record with a key `""` is not among the records `InferShape` accepts |
| Scenarios.Level2At | tests/dataset.test.ts:9-13 | an object `{level3: "hello", integerProp: 42, floatProp: 42.5}` at any path of a single record infers string, integer and float there, in that order |
| Scenarios.Level1At | tests/dataset.test.ts:8-15 | the `level1` object at any path infers the nested shape of `level2` and string for `stringProp` |
| Scenarios.BasicAt | tests/dataset.test.ts:5-34 | the test's record, found at any path of a single record, infers the expected nested shape there |
| Scenarios.TypeShapeBasic | tests/dataset.test.ts:5-34 | `getDatasetTypeShape([record], "")` is the expected shape: strings, an integer, a float and a boolean, objects nested level by level |
| Scenarios.ResponseKind | tests/engine.test.ts:92-113 | in a response record, `status` holds an integer, `response` a string, `metadata` an object and `metadata.id` an integer |
| Scenarios.ResponsesTopKeys | tests/engine.test.ts:136 | three response records infer the keys `status`, `response`, `metadata`, in that order, although every record repeats them |
| Scenarios.ResponsesMetadata | tests/engine.test.ts:136 | their `metadata` objects infer `{id: integer}` |
| Scenarios.ResponsesTopEntry | tests/engine.test.ts:136 | each top-level key gets the kind all three records agree on, and `metadata` the shape inferred below it |
| Scenarios.ResponsesShape | tests/engine.test.ts:136 | any three response records with truthful fields infer `{status: integer, response: string, metadata: {id: integer}}` |
| Scenarios.ResponseShapeColumns | tests/engine.test.ts:137 | that shape converts to the columns `status` INTEGER, `response` TEXT, `metadata.id` INTEGER, in that order |
| Scenarios.ResponseRow | tests/engine.test.ts:142-143 | a response record binds its status, its text and its metadata id, in column order |
| Scenarios.RepliesEndToEnd | tests/engine.test.ts:91-144 | for any three response records with truthful fields: the inferred shape, its well-formedness, its columns, and each record's row |
| Scenarios.ResponsesEndToEnd | tests/engine.test.ts:91-144 | the test's three records infer the expected shape and columns, and bind the rows the test reads back |
| Scenarios.ConvertColumns | tests/engine.test.ts:31-40 | the flattened leaves give five columns typed TEXT, INTEGER, REAL, TEXT, INTEGER, and none for the array |
| Scenarios.ConvertTypeShapeCase | tests/engine.test.ts:17-41 | the test's nested type shape converts to the expected table shape, with the array-typed key left out |
| Scenarios.SchemaOfFive | src/engine.ts:64-73 | the schema of five columns is `CREATE TABLE name (` followed by the five column definitions separated by `, `, then `);` |
| Scenarios.SchemaCase | tests/engine.test.ts:43-54 | the test's table shape renders as the expected `CREATE TABLE test_table (...)` text; the expected text is written as the pieces of the test's template |

## Left out

- Network and the language model itself: fetching the dataset, the requests to the model, and `runQuery`'s orchestration (src/engine.ts:110-184) are not modelled. The model's replies are parameters of the parsers.
- SQLite: the statements are produced and their text is proved to read back, but they are not executed. `initializeDatabase` and `query.run` are not modelled.
- src/index.ts, src/mcp.ts, src/standby.ts, src/actors.ts and src/input.ts, including input validation, are not part of this model.
- `VALUE_TYPES_TO_SKIP` and `TABLE_NAME` are parameters (`skip`, `tableName`), since their values live outside the core files. `NoArrayColumn` assumes array is skipped.
- Numbers are reals. NaN and the infinities are not modelled, and `Number.isInteger` is "equals its floor".
- JavaScript object quirks are not modelled:
  - integer-like keys enumerate before other keys in real objects; here every object keeps insertion order;
  - prototype properties are not modelled;
  - property access on a string, array or number is `undefined` here, so `"ab".length` and array indices are not followed.
- `Object.entries` of a truthy value that is not a plain object (a string, a number, an array) is taken as empty in `EntriesAt`. The source would enumerate a string's characters or an array's indices.
- Keys along paths must be non-empty and dot-free (`PathKey`): a dotted key cannot be told apart from a nested path. An empty key below an empty root key would make `getDatasetTypeShape` recurse with the same root key for ever (see Findings); `ValidRecords` excludes it.
- Utils.SetObjectKeyPath: modelled on values. The source mutates `obj` in place and returns it, so aliasing between the argument and the result is not captured. A path through an array (`typeof [] === "object"`) is excluded by `NoArrayOnPath`.
- Engine.SchemaRoundTrip and Engine.InsertRoundTrip: require column names without `'` and a table name without `(`. The source does not escape quotes, so a quote in a column name yields text that does not read back.
- Engine.ConvertTypeShapeToTableShape: a flattened leaf that names no kind is given TEXT. Inferred shapes always name a kind, by `ShapeLeaf`.
- Strings.ToLower: lowers only ASCII capitals; `toLowerCase` also lowers other scripts. Only the comparison with "yes" depends on it.
- Llm.ParseSanityReply: the thrown `Error` is modelled as an `Err` result.

## Findings

| source | as written | input that shows it | evidently intended | confidence | as-written member | corrected member |
|---|---|---|---|---|---|---|
| src/dataset.ts:97-98 | the sub-path ``rootKey ? `${rootKey}.${key}` : key`` equals `rootKey` when both are empty, so the recursion calls itself with the same arguments | a dataset `[{"": {"": 1}}]`: the key `""` holds an object | every recursive call goes one key deeper | medium, not executed | Dataset.EmptyKeyRecursesInPlace | Dataset.Deeper |
