# pdomodel SQL compilers in Dafny

This project models the SQL-text side of the pdomodel PHP library. Every
operation is a pure function. It takes structured input and returns the SQL
statement together with the ordered list of values bound to its `?` markers,
or the error the PHP code raises:

- criteria lists, rows, column lists and builder state;
- `PdoModel`'s `buildWhere`, `prepareInsertData` and `prepareUpdateData`;
- the SQL assembly of `select`, `insert`, `replace`, `update`, `updateWhere`,
  `deleteWhere` and `insertUpdate`;
- the batch planner of `insertBatch`/`insertBatchRaw` and
  `insertUpdateBatch`/`insertUpdateBatchRaw`, which splits rows so that no
  statement binds more than 60000 values;
- the scalar-only check of `execute`;
- the fluent `SelectorBuilder`;
- `CreateTableBuilder`;
- the SQLite dialect in `PdoModelSqlite`.

The PDO driver is a boundary. A statement that passes `execute`'s check counts
as "emitted". A batch yields the trace of statements emitted up to the first
failure.

Modules, one per file:

- `Strings`:
  - PHP's `implode`;
  - counting `?` characters;
  - `trim`;
  - ASCII case;
  - truthiness of strings;
  - decimal rendering of integers.
- `Common`:
  - values, rows and errors;
  - the `getTable` guard;
  - `execute`'s array check;
  - the emitted-statement trace.
- `Where`: `buildWhere`.
- `PdoModel`: the single-statement operations.
- `Batch`:
  - `array_chunk` and `array_slice` on lists;
  - the chunk planner;
  - the two batch operations.
- `Selector`: `SelectorBuilder`.
- `CreateTable`: `CreateTableBuilder`.
- `Sqlite`: `PdoModelSqlite`.

Recurring properties:

- **One `?` per bound value.** When the caller-supplied names hold no `?` of their own, each compiled SQL text holds exactly one `?` per bound value. A `*Placeholders` lemma states this for each operation: `select`, `insert`, `replace`, `update`, `updateWhere`, `deleteWhere`, `insertUpdate`, the batch planner, `SelectorBuilder`, the SQLite upsert and the SQLite batch.
- **Value order.** Bound values come in the order the PHP code collects them.
- **Errors.** Errors are raised exactly on the inputs the PHP code rejects.
- **Batches.** Splitting a batch loses and repeats nothing.

## Model

| member | source | states |
|---|---|---|
| Common.Table | src/PdoHandler.php:32-39 | The name is returned unchanged when it is neither "" nor "0", and otherwise the empty-table error is raised. |
| Common.FirstArray | src/PdoModel.php:649-653 | reports the position of the first array among the bound values, and reports none exactly when every value is a scalar |
| Common.Execute | src/PdoModel.php:647-656 | a statement reaches the driver exactly when no bound value is an array; otherwise the error carries the first array value |
| Common.RunAll | src/PdoModel.php:291-304 | statements run in order; the emitted ones are a prefix of the plan; all are emitted exactly when none fails; a failure is the execute error of the first statement not emitted |
| Common.LookupFirst | src/Engine/PdoModelSqlite.php:31-41 | reading `$row[$key]` finds the first entry under that key; it finds nothing exactly when no entry has that key |
| Where.Render | src/PdoModel.php:550-583 | one criterion is accepted exactly when its operand is one of the 18 allowed and a list operand comes with an array; a rejection carries the operand; a list operand inlines its values as `col OP (v1,v2)`, IS/IS NOT render `col OP NULL`, any other operand renders `col OP ?` and binds the value; a string-keyed entry renders `col = ?` binding its value; an integer-keyed entry is copied verbatim and binds nothing |
| Where.OperandForms | src/PdoModel.php:557-575 | IN/NOT IN inline the array as `key op (v1,v2)` and refuse a scalar; IS/IS NOT render `key op NULL` and ignore the value; other operands render `key op ?` and bind the value |
| Where.Compile | src/PdoModel.php:550-586 | the loop succeeds exactly when every criterion is valid; the error is the first invalid criterion's; it yields one pair per criterion and the bound values in criteria order |
| Where.BuildWhere | src/PdoModel.php:537-589 | empty criteria give no clause; otherwise the clause is the rendered criteria joined with " AND " in criteria order and binds the criteria's values in order; it fails exactly when some criterion is invalid, with the first invalid one's error |
| Where.RenderMarks | src/PdoModel.php:565-581 | a valid criterion whose own text holds no `?` renders exactly as many `?` as values it binds |
| Where.CompileMarks | src/PdoModel.php:550-584 | over clean criteria, the rendered pairs hold as many `?` as values bound |
| Where.WherePlaceholders | src/PdoModel.php:585-586 | the joined WHERE text holds exactly one `?` per bound value |
| PdoModel.PrepareUpdateData | src/PdoModel.php:591-609 | one assignment per entry in key order: `` `k` = ? `` normally, `k = v` in raw mode; the values are the entries' values in the same order |
| PdoModel.AssignmentsMarks | src/PdoModel.php:597-602 | in normal mode the assignments together hold one `?` per entry when the keys hold none |
| PdoModel.UpdatePlaceholders | src/PdoModel.php:597-606 | the SET list holds exactly one `?` per value it binds |
| PdoModel.PrepareInsertData | src/PdoModel.php:611-628 | column list, marker list and values all have the data's length and key order; each column is back-quoted and each marker is `?` |
| PdoModel.InsertMarkers | src/PdoModel.php:620-625 | the joined marker list holds exactly one `?` per value |
| PdoModel.LimitClause | src/PdoModel.php:81-86 | `LIMIT offset,limit` when both are truthy; `LIMIT limit` when only the limit is; nothing for an absent or zero limit, whatever the offset |
| PdoModel.Select | src/PdoModel.php:50-89 | a criteria error comes before the table check; a falsy table is refused; with valid criteria and a named table it succeeds exactly when no bound value is an array; the statement binds the criteria's values in order and starts with `SELECT cols FROM table` plus the WHERE fragment when there is one |
| PdoModel.SelectPlaceholders | src/PdoModel.php:59-89 | with clean names, a select statement holds exactly one `?` per bound value |
| PdoModel.SelectDefaults | src/PdoModel.php:62-72 | with no criteria and all defaults, select is `SELECT * FROM table ` and binds nothing |
| PdoModel.Update | src/PdoModel.php:429-443 | returns false exactly for empty data; otherwise a falsy table name gives the empty-table error (raised by `find`'s `getTable`, line 115), and on a named table it is emitted exactly when no data value is an array; the statement is `` UPDATE `table` SET `` with the SET list and ` WHERE id = ?`, binding the SET values and then the id |
| PdoModel.UpdateStatementPlaceholders | src/PdoModel.php:438-443 | with clean names, an update holds exactly one `?` per bound value, the id's included |
| PdoModel.UpdateWhere | src/PdoModel.php:458-473 | returns false exactly when data or criteria are empty; a criteria error is raised, then a falsy table name gives the empty-table error; on a named table it is emitted exactly when neither the data nor the criteria bind an array; the statement is `` UPDATE `table` SET `` with the SET list and ` WHERE ` with the compiled criteria, and binds the SET values and then the criteria values |
| PdoModel.UpdateWherePlaceholders | src/PdoModel.php:467-473 | when the table, the data keys and the criteria hold no `?` of their own, the statement holds one `?` per bound value |
| PdoModel.DeleteWhere | src/PdoModel.php:510-522 | skips exactly for empty criteria (PHP returns 0, the `false` of line 513 converted to the declared `int`); a criteria error is raised, then a falsy table name gives the empty-table error; on a named table it is emitted exactly when the criteria bind no array; the statement deletes with the compiled WHERE and binds its values |
| PdoModel.DeleteWherePlaceholders | src/PdoModel.php:518-522 | when the table and the criteria hold no `?` of their own, the statement holds one `?` per bound value |
| PdoModel.InsertUpdate | src/PdoModel.php:308-325 | returns false exactly when insert or update data are empty; otherwise a falsy table is refused, and on a named table it is emitted exactly when it is raw or no value is an array; it binds insert values then update values, or nothing in raw mode; the SQL is the insert SET list, then ON DUPLICATE KEY UPDATE, then the update SET list |
| PdoModel.InsertUpdatePlaceholders | src/PdoModel.php:315-325 | in bound mode, with a table and keys free of `?`, the statement holds exactly one `?` per bound value |
| PdoModel.Insert | src/PdoModel.php:207-218 | a falsy table is refused; it is emitted exactly when the table is named and no value is an array; it binds the data's values in key order under `INSERT [IGNORE ]INTO `t` (`k1`, ...) VALUES (?, ...)` |
| PdoModel.InsertPlaceholders | src/PdoModel.php:214-218 | with a table and keys free of `?`, the insert statement holds exactly one `?` per bound value |
| PdoModel.Replace | src/PdoModel.php:232-239 | a falsy table is refused; it is emitted exactly when the table is named and no value is an array; it binds the data's values in key order under `REPLACE INTO `t` (`k1`, ...) VALUES (?, ...)` |
| PdoModel.ReplacePlaceholders | src/PdoModel.php:235-239 | with a table and keys free of `?`, the replace statement holds exactly one `?` per bound value |
| PdoModel.ColumnsMarks | src/PdoModel.php:618-624 | the back-quoted column list holds no `?` when the keys hold none |
| Batch.Slice | src/PdoModel.php:292 | `array_slice` on a list: at most `length` items, taken from `offset` on, and nothing past the end |
| Batch.ArrayChunk | src/PdoModel.php:291 | `array_chunk`: the pieces concatenate back to the list, and each piece holds 1 to `size` items |
| Batch.ArrayChunkCount | src/PdoModel.php:291 | `array_chunk` gives ceil(n / size) pieces |
| Batch.ArrayChunkPieces | src/PdoModel.php:291-292 | piece i of `array_chunk` is the slice of `size` items at offset i * size |
| Batch.RowsPerChunk | src/PdoModel.php:275-276 | floor(60000 / k) rows fit in one statement: at least one row when k ≤ 60000, never more than 60000 values, and one row more would exceed 60000 values |
| Batch.RowMarkerMarks | src/PdoModel.php:277-279 | the marker of one row, `(?,...,?)`, holds k `?` |
| Batch.ChunkCount | src/PdoModel.php:274-291 | the planner emits ceil(rows / floor(60000 / k)) statements |
| Batch.ChunkRows | src/PdoModel.php:279-294 | each statement carries between one and floor(60000 / k) row markers, each with k `?` |
| Batch.ChunkValues | src/PdoModel.php:291-293 | for whole rows, statement i binds exactly piece i of the values cut into floor(60000 / k) · k, that is rows × k values |
| Batch.PlanBatch | src/PdoModel.php:269-295 | no keys is a division by zero; a falsy table is refused; more than 60000 keys gives an invalid chunk size; otherwise one statement per chunk |
| Batch.PlanBatchValues | src/PdoModel.php:269-305 | for whole rows, the statements' values, one after another, are exactly the batch's values; each binds a positive multiple of k and at most 60000 values; their count is ceil(rows / floor(60000 / k)) |
| Batch.PlanBatchPlaceholders | src/PdoModel.php:277-295 | with clean names, each planned statement holds one `?` per value it binds |
| Batch.ChunkValuesFrom | src/PdoModel.php:292 | every value a statement binds comes from the batch's values |
| Batch.RunPlan | src/PdoModel.php:291-297 | a plan over scalar values runs to the end with every statement emitted |
| Batch.InsertBatchRaw | src/PdoModel.php:269-306 | the planner's errors stop the batch before any statement; with scalar values every planned statement is emitted in order, with `INSERT [IGNORE ]` as head |
| Batch.FlattenSize | src/PdoModel.php:258-264 | rows of k columns flatten to rows × k values |
| Batch.FlattenScalars | src/PdoModel.php:259-264 | flattening rows of scalars yields only scalars |
| Batch.InsertBatch | src/PdoModel.php:256-267 | an empty batch fails on reading the first row; a first row without columns is a division by zero; a falsy table is refused |
| Batch.InsertBatchDelivers | src/PdoModel.php:256-306 | a batch of uniform scalar rows is inserted completely: the emitted statements' values are the rows' values in row-major order, none binds over 60000 values, and each holds one `?` per value |
| Batch.UpsertTailMarks | src/PdoModel.php:349-386 | the ON DUPLICATE KEY UPDATE list holds no `?` when the keys hold none |
| Batch.UpdateAssignments | src/PdoModel.php:349-352 | one `c = VALUES(c)` assignment per update key, in key order |
| Batch.InsertUpdateBatchRaw | src/PdoModel.php:365-398 | same errors and chunking as insertBatchRaw; every statement ends with the same ON DUPLICATE KEY UPDATE list |
| Batch.InsertUpdateBatch | src/PdoModel.php:337-356 | an empty batch fails on reading the first row; a first row without columns is a division by zero; a falsy table is refused |
| Batch.InsertUpdateBatchDelivers | src/PdoModel.php:337-398 | a batch of uniform scalar rows is upserted completely, within 60000 values per statement, in row-major order and with one `?` per value |
| Selector.New | src/Builder/SelectorBuilder.php:11-27 | a fresh builder selects `*` from its table with no where parts, no values and no clauses |
| Selector.WhereOp | src/Builder/SelectorBuilder.php:29-38 | the trimmed, upper-cased operand must be one of the ten allowed, else the error names it; an accepted call adds one where part and exactly one parameter, even for IS/IS NOT |
| Selector.WhereIn | src/Builder/SelectorBuilder.php:40-44 | appends `col IN (v1,v2)` with the values inlined; nothing else changes, so nothing is bound |
| Selector.WhereNotIn | src/Builder/SelectorBuilder.php:46-50 | appends `col NOT IN (v1,v2)` with the values inlined; nothing else changes, so nothing is bound |
| Selector.WhereIsNull | src/Builder/SelectorBuilder.php:52-56 | appends `col IS NULL`; nothing else changes |
| Selector.WhereIsNotNull | src/Builder/SelectorBuilder.php:58-62 | appends `col IS NOT NULL`; nothing else changes |
| Selector.WhereEqual | src/Builder/SelectorBuilder.php:64-69 | appends `col = ?` and binds the value after those already recorded; nothing else changes |
| Selector.OperandCase | src/Builder/SelectorBuilder.php:31 | the operand's case does not matter: lower-casing it first changes nothing |
| Selector.ListOperandsRefused | src/Builder/SelectorBuilder.php:31-34 | IN and NOT IN are refused by `where`, whatever their case or surrounding blanks |
| Selector.Columns | src/Builder/SelectorBuilder.php:95-105 | a non-list array is refused and nothing else changes; otherwise only the column text changes: a string is taken as it is and a list becomes its names joined with commas |
| Selector.ColumnsRoundTrip | src/Builder/SelectorBuilder.php:97-104 | a list of names without commas is recovered by splitting the column text on commas |
| Selector.Prepared | src/Builder/SelectorBuilder.php:127-133 | the prepared statement is the built SQL with one bound value per recorded parameter, null where none was given |
| Selector.ApplyOutcome | src/Builder/SelectorBuilder.php:29-105 | a call fails exactly when it is refused; `where` and `whereEqual` append their value, every other call appends nothing; the table is never changed |
| Selector.RunStep | src/Builder/SelectorBuilder.php:29-105 | a chain of calls is its first call followed by the rest of the chain |
| Selector.RunOutcome | src/Builder/SelectorBuilder.php:29-105 | a chain succeeds exactly when none of its calls is refused; its parameters are the bound values of the where and whereEqual calls, in call order |
| Selector.BoundByFirst | src/Builder/SelectorBuilder.php:29-69 | the values a chain binds are the first call's followed by the rest's |
| Selector.RunError | src/Builder/SelectorBuilder.php:31-34 | a chain fails with the error of its first refused call: the wrong operand, or the non-list columns |
| Selector.WhereBalanced | src/Builder/SelectorBuilder.php:35-36 | `where` keeps the where parts' `?` count equal to the parameter count |
| Selector.ListBalanced | src/Builder/SelectorBuilder.php:40-50 | `whereIn`/`whereNotIn` add a part without `?` and no parameter |
| Selector.NullBalanced | src/Builder/SelectorBuilder.php:52-62 | `whereIsNull`/`whereIsNotNull` add a part without `?` and no parameter |
| Selector.ApplyBalanced | src/Builder/SelectorBuilder.php:29-105 | every accepted call keeps the where parts' `?` count equal to the parameter count |
| Selector.RunBalanced | src/Builder/SelectorBuilder.php:29-105 | a whole chain of clean calls keeps the where parts' `?` count equal to the parameter count |
| Selector.WhereMarks | src/Builder/SelectorBuilder.php:110-112 | the WHERE text holds exactly the where parts' `?` |
| Selector.WhereSql | src/Builder/SelectorBuilder.php:110-112 | the WHERE clause is left out exactly when there are no parts; otherwise it is ` WHERE ` and the parts joined with " AND " |
| Selector.GroupSql | src/Builder/SelectorBuilder.php:113-115 | the grouping is rendered exactly when it was set, even when it is empty or "0" |
| Selector.OrderSql | src/Builder/SelectorBuilder.php:116-118 | the ordering is rendered exactly when it was set, even when it is empty or "0" |
| Selector.LimitSql | src/Builder/SelectorBuilder.php:119-123 | a set offset and limit give ` LIMIT o , l `, whatever their values; a limit alone gives ` LIMIT l`; no limit gives nothing, even with an offset |
| Selector.BuildSql | src/Builder/SelectorBuilder.php:107-125 | the statement is `SELECT cols FROM table ` followed by the WHERE, GROUP BY, ORDER BY and LIMIT clauses, in that order |
| Selector.ClauseCallsCommute | src/Builder/SelectorBuilder.php:29-125 | a clause call and a where call give the same SQL in either order, so the clause order in the text does not follow the call order |
| Selector.TailMarks | src/Builder/SelectorBuilder.php:113-123 | the GROUP BY, ORDER BY and LIMIT clauses add no `?` when the grouping and ordering hold none |
| Selector.PreparedPlaceholders | src/Builder/SelectorBuilder.php:107-133 | a balanced builder's prepared statement holds one `?` per bound value |
| Selector.ChainPlaceholders | src/Builder/SelectorBuilder.php:23-133 | every accepted chain of clean calls on a fresh builder prepares a statement with one `?` per bound value |
| Selector.NewSql | src/Builder/SelectorBuilder.php:107-109 | a fresh builder builds `SELECT * FROM table ` |
| Selector.LimitDialects | src/Builder/SelectorBuilder.php:119-123 | the builder keeps a zero offset and a zero limit, which `select` drops; an offset alone is dropped by both |
| CreateTable.New | src/Builder/CreateTableBuilder.php:17-23 | a fresh builder has the table name, no columns and no engine, and has a connection only when one was passed |
| CreateTable.Column | src/Builder/CreateTableBuilder.php:25-42 | a column is appended after those already declared; nothing else changes |
| CreateTable.SetEngine | src/Builder/CreateTableBuilder.php:44-48 | records the engine, `INNODB` when none is given, and changes nothing else |
| CreateTable.DefaultColumnText | src/Builder/CreateTableBuilder.php:25-31 | a column with the defaults is an `int` without constraints and renders as `name int` |
| CreateTable.Definitions | src/Builder/CreateTableBuilder.php:53-63 | one definition per column, in declaration order |
| CreateTable.BuildSql | src/Builder/CreateTableBuilder.php:50-69 | building fails exactly when no column was ever declared |
| CreateTable.Execute | src/Builder/CreateTableBuilder.php:71-77 | without a connection it fails before building; with one it runs exactly the built SQL |
| CreateTable.EngineSuffix | src/Builder/CreateTableBuilder.php:44-48 | a truthy engine appends `ENGINE=name` to the engine-less text and a falsy one appends nothing; the default engine appends `ENGINE=INNODB`; the text does not depend on the connection |
| CreateTable.DefinitionText | src/Builder/CreateTableBuilder.php:55-62 | a definition is the name, a space, the type, then each enabled constraint after a space |
| CreateTable.ConstraintsRoundTrip | src/Builder/CreateTableBuilder.php:57-61 | the constraint words are always in the fixed order, so reading them back recovers the three flags |
| CreateTable.DecodeColumnRoundTrip | src/Builder/CreateTableBuilder.php:54-62 | for names and types without blanks or commas, a definition decodes back to its column |
| Strings.SplitJoin | src/Builder/CreateTableBuilder.php:64 | splitting the comma-joined list recovers the definitions when none holds a comma |
| CreateTable.DecodeAllRoundTrip | src/Builder/CreateTableBuilder.php:53-63 | the definitions decode back to the declared columns, in order |
| CreateTable.BuildSqlRoundTrip | src/Builder/CreateTableBuilder.php:50-69 | the statement is `CREATE TABLE name (defs) ` plus the engine clause, and its column list decodes back to the declared columns |
| Sqlite.IsDriverSqlite | src/Engine/PdoModelSqlite.php:72-75 | the driver is SQLite exactly when its name has six characters that lower-case, one by one, to `sqlite` |
| Sqlite.DriverNameCase | src/Engine/PdoModelSqlite.php:72-75 | the dialect test ignores the case of the driver name |
| Sqlite.DriverNames | src/Engine/PdoModelSqlite.php:72-75 | "SQLite" and "sqlite" are SQLite; "mysql" and "sqlite3" are not |
| Sqlite.FirstIndex | src/Engine/PdoModelSqlite.php:44 | `array_search` reports the first position holding the primary key |
| Sqlite.RemoveFirstShape | src/Engine/PdoModelSqlite.php:44-47 | without the primary key the columns stay as they are; otherwise exactly its first occurrence is cut out, and the order of the rest is kept |
| Sqlite.RemoveFirstCount | src/Engine/PdoModelSqlite.php:44-47 | removing the primary key takes out exactly one copy of it |
| Sqlite.ConflictColumns | src/Engine/PdoModelSqlite.php:43-47 | no index metadata is an error; otherwise the conflict target is the unique columns less one copy of the primary key, and every column it names is a unique column |
| Sqlite.ColumnValues | src/Engine/PdoModelSqlite.php:29-42 | succeeds exactly when every listed column is set (a null counts as unset), else the error names an unset column; it reads one value per column from the insert data |
| Sqlite.UpsertValues | src/Engine/PdoModelSqlite.php:29-42 | succeeds exactly when every update and increment column is set; the update columns are checked first; it reads one value per update column and then one per increment column |
| Sqlite.CompileUpsert | src/Engine/PdoModelSqlite.php:16-49 | fails with the empty-upsert error exactly when insert data is empty or both column lists are; it succeeds exactly when the lists' columns are set, there is index data and the table is named; it binds insert values then the read-back values, under `INSERT ... ON CONFLICT(...) DO UPDATE SET ...` |
| Sqlite.UpsertParams | src/Engine/PdoModelSqlite.php:24-42 | the upsert binds the insert values first, then the value inserted for each update column, then the one for each increment column |
| Sqlite.ValuesLayout | src/Engine/PdoModelSqlite.php:27-41 | insert values fill the front of the bound list, update values follow, and increment values come last |
| Sqlite.LookupIsValue | src/Engine/PdoModelSqlite.php:34-41 | a value read back from the insert data is one of the insert values |
| Sqlite.UpsertValuesFromInsert | src/Engine/PdoModelSqlite.php:34-41 | every read-back value is one of the insert values |
| Sqlite.UpsertArrays | src/Engine/PdoModelSqlite.php:24-50 | an upsert binds an array only if the insert data holds one |
| Sqlite.UpsertPlaceholders | src/Engine/PdoModelSqlite.php:24-49 | with clean names, the upsert text holds one `?` per bound value |
| Sqlite.UpsertHeadMarks | src/Engine/PdoModelSqlite.php:24-28 | the INSERT part holds one `?` per inserted column |
| Sqlite.PairsMarks | src/Engine/PdoModelSqlite.php:29-41 | the SET list holds one `?` per update and per increment column |
| Sqlite.UpsertTailMarks | src/Engine/PdoModelSqlite.php:43-49 | the ON CONFLICT part holds one `?` per update and increment column |
| Sqlite.PairsOrder | src/Engine/PdoModelSqlite.php:29-41 | the SET list is every `` `c` = ? `` update pair, then every `` `c` = `c` + ? `` increment pair |
| Sqlite.SqliteUpsertAsWritten | src/Engine/PdoModelSqlite.php:50 | as written past the dialect test and with the index columns and the primary key supplied, the SQLite branch never completes: a compilation error is raised, and a compiled statement fails at the call to the parent's private `execute` |
| Sqlite.SqliteUpsert | src/Engine/PdoModelSqlite.php:48-50 | corrected: compilation errors pass through; a compiled upsert is emitted exactly when the insert data holds no array |
| Sqlite.ListRow | src/Engine/PdoModelSqlite.php:14 | the list of update columns seen as a PHP array has keys "0", "1", ..., with the column names as values |
| Sqlite.DriverTestAsWritten | src/Engine/PdoModelSqlite.php:72-75 | as written, the dialect test raises the undefined-connection error for every driver name, because `$connection` is private to `PdoHandler` (src/PdoHandler.php:9) and reads as null in the subclass |
| Sqlite.InsertUpdateBranchesAsWritten | src/Engine/PdoModelSqlite.php:13-50 | as written past the dialect test, another driver receives the list of update columns as the parent's update map, and SQLite always fails (with the index columns and the primary key supplied, at the private `execute`) |
| Sqlite.InsertUpdateAsWritten | src/Engine/PdoModelSqlite.php:11-15 | as written, every call raises the undefined-connection error of the dialect test at line 13, on every driver and before any other check |
| Sqlite.DialectTestRaises | src/Engine/PdoModelSqlite.php:13-15 | a MySQL upsert that the corrected model emits raises the undefined-connection error as written, and so does the same upsert on SQLite |
| Sqlite.UpdateFromColumns | src/Engine/PdoModelSqlite.php:13-15 | corrected update map: each update column paired with its inserted value, in order |
| Sqlite.InsertedValue | src/Engine/PdoModelSqlite.php:34 | the value inserted under a column |
| Sqlite.InsertUpdate | src/Engine/PdoModelSqlite.php:11-52 | corrected: on SQLite it succeeds exactly when the executed upsert does, and then emits the compiled statement; another driver delegates to the MySQL upsert, skips on empty input, and binds insert values then the inserted value of each update column |
| Sqlite.DelegationIgnoresIncrements | src/Engine/PdoModelSqlite.php:13-15 | outside SQLite the increment columns change nothing |
| Sqlite.DelegationBindsColumnNames | src/Engine/PdoModelSqlite.php:13-15 | as written past the dialect test, a MySQL upsert of `[id => 1, n => 5]` updating `n` sets `` `0` = ? `` and binds the string "n" |
| Sqlite.DelegationBindsValue | src/Engine/PdoModelSqlite.php:13-15 | corrected, the same upsert sets `` `n` = ? `` and binds 5, the value n is inserted with |
| Sqlite.DelegationBindsInsertedValues | src/Engine/PdoModelSqlite.php:13-15 | corrected, a delegated upsert binds all insert values in order, then for each update column the value it is inserted with |
| Sqlite.InsertedParams | src/Engine/PdoModelSqlite.php:13-15 | insert values followed by the update map's values bind each update column's inserted value after the insert values |
| Sqlite.Placed | src/Engine/PdoModelSqlite.php:13-15 | insert values placed in front of the read-back values sit where the delegated upsert binds them |
| Sqlite.ReadBack | src/Engine/PdoModelSqlite.php:13-15 | the corrected update map carries each update column's inserted value |
| Sqlite.SqliteExecuteRefused | src/Engine/PdoModelSqlite.php:50 | every upsert that SQLite validation accepts fails at the private `execute` as written past the dialect test and with the index columns and the primary key supplied, and is emitted once corrected |
| Sqlite.RunCalls | src/Engine/PdoModelSqlite.php:61-68 | calls run in order until the first error; every emitted statement is its call's result |
| Sqlite.UpsertRows | src/Engine/PdoModelSqlite.php:61-68 | one upsert per row, in row order, stopping at the first row that raises |
| Sqlite.InsertUpdateBatch | src/Engine/PdoModelSqlite.php:55-70 | corrected (each SQLite row goes through the corrected upsert): another driver runs the MySQL batch with the update columns as keys; SQLite upserts each row with the increments alone when there are any, else with the update columns alone |
| Sqlite.BatchIncrementsOverride | src/Engine/PdoModelSqlite.php:60-65 | with increment columns, the update columns have no effect on a SQLite batch |
| Sqlite.BatchNothingToUpdate | src/Engine/PdoModelSqlite.php:16-18 | a SQLite batch with nothing to update fails at its first row; an empty one does nothing |
| Sqlite.BatchPlaceholders | src/Engine/PdoModelSqlite.php:60-69 | each emitted statement of a SQLite batch holds one `?` per bound value when the row's names are clean |
| Sqlite.UpsertRowsAsWritten | src/Engine/PdoModelSqlite.php:59-68 | as written with each row's dialect test answered and with the index columns and the primary key supplied, the SQLite branch emits nothing and fails on its first row whenever there is one, with the private-execute error when that row compiles |
| Sqlite.InsertUpdateBatchBranchesAsWritten | src/Engine/PdoModelSqlite.php:57-69 | as written past the dialect test, another driver runs the MySQL batch, and a SQLite batch emits nothing and fails exactly when it has rows |
| Sqlite.InsertUpdateBatchAsWritten | src/Engine/PdoModelSqlite.php:55-58 | as written, every batch, even an empty one, emits nothing and fails with the undefined-connection error of the dialect test at line 57 |
| Sqlite.BatchAsWrittenStops | src/Engine/PdoModelSqlite.php:50-68 | a SQLite batch whose first row the corrected batch emits stops at that row as written past the dialect test and with the index columns and the primary key supplied, with the private-execute error and nothing emitted |

## Left out

- Driver I/O:
  - PDO `prepare`, `execute`, `exec` and fetching;
  - `getLastInsertId` and `find`;
  - the `changeListener` callbacks;
  - `log` and `microtime`;
  - the `error_log` call for driver errors.

  A statement that passes the array check is treated as emitted.
- Operations not modelled:
  - `select`'s `PdoResult` wrapper and the `SelectorBuilder` fetch helpers: they only pass fetched rows through;
  - `selectRaw`, `count`, `max`, `min`, `sum`, `increment` and `delete` by id: each is a single statement whose meaning lies in the database's result;
  - `PdoResult`, `PdoStatementFetcher` and `PdoFactory`: fetch pass-throughs and connection construction.
- `getIndexData` (src/Engine/PdoModelSqlite.php:86-96): it calls a `raw` method that no class defines (PdoModel has only `selectRaw`), so as written it raises at line 88. The model replaces it by an input list of index columns. The query it would run hard-codes the table `test_table` and lists the columns of every index of that table, unique or not, whatever table the model is bound to; the input list is what the query evidently means to return, the unique-index columns of the model's own table.
- The class constant `PRIMARY_KEY`: it is referenced at src/Engine/PdoModelSqlite.php:43-44 but defined nowhere (src/PdoModel.php:7-13), so as written line 44 raises. The primary key is a parameter.
- The `?? [PRIMARY_KEY]` fallback: it never applies, because `getUniqueColumns` returns `false`, not null. Empty index data is modelled as an error.
- PHP values: floats and booleans are not modelled. Values are null, integers, strings and arrays.
- Array keys: a row is a list of (key, value) pairs with string keys, so PHP's conversion of numeric-string keys is not modelled.
- Loose comparison: `array_search` and `in_array` are modelled as exact string equality. PHP's loose comparison differs only for numeric strings.
- Non-integer row counts: the planner's `count / keys` yields a float when the values are not whole rows. The model truncates it to whole rows. The lemmas about lossless splitting require whole rows; every batch built from uniform rows meets that.
- Batch.InsertBatch: rows of different widths are flattened as they are. Its delivery lemma covers uniform rows only.
- Batch.PlanBatchValues: states the split for whole rows only, because PHP builds a fractional row count otherwise.
- Sqlite.InsertUpdateBatch: on SQLite it uses the corrected upsert, so its rows are emitted; as written, with the index columns and the primary key supplied, each SQLite row is refused at the private `execute` call (src/Engine/PdoModelSqlite.php:50), which Sqlite.InsertUpdateBatchBranchesAsWritten models past the dialect test. On drivers other than SQLite, the parent's `insertUpdateBatch` takes two arguments, so the increment columns are dropped. This is modelled, not corrected.
- PdoModel.Insert: the post-insert lookup is not modelled. It covers the statement only, not the returned id.
- PdoModel.Replace: the post-insert lookup is not modelled. It covers the statement only, not the returned id.
- Sqlite.IsDriverSqlite: the corrected dialect test. It takes the driver name as a parameter, since the connection is the PDO boundary. As written, the test raises before reading any name (see Findings, src/Engine/PdoModelSqlite.php:74); every corrected SQLite member assumes it answers.
- Class loading: `PdoModelSqlite::insertUpdate` (src/Engine/PdoModelSqlite.php:11) overrides `PdoModel::insertUpdate` (src/PdoModel.php:308) with an `array` third parameter where the parent's is `bool $raw`. PHP 8 rejects such an incompatible override with a fatal error when the class is declared (not executed). The model, as-written members included, assumes the class loads, and its SQLite members take the increment columns as their third argument.

## Findings

Each row's as-written member isolates that row's defect. The dialect test of the third row raises before either branch is reached, so the first two rows describe the branches as they read once that test answers. The SQLite branch of the second row also assumes that the index columns and the primary key are supplied, as "## Left out" replaces them: as written, line 43 raises first at getIndexData's missing `raw` method (line 88), and line 44 at the undefined `PRIMARY_KEY`.

| source | as written | input that shows it | evidently intended | confidence | as-written member | corrected member |
|---|---|---|---|---|---|---|
| src/Engine/PdoModelSqlite.php:13-15 | on a driver other than SQLite, the list of update column names is passed where `PdoModel::insertUpdate` expects a column => value map | driver mysql, insert `[id => 1, n => 5]`, update columns `[n]`: SET list `` `0` = ? ``, binding the string "n" | `` `n` = ? `` binding 5, the value n is inserted with | high, not executed | Sqlite.InsertUpdateBranchesAsWritten (shown by Sqlite.DelegationBindsColumnNames) | Sqlite.InsertUpdate (proved by Sqlite.DelegationBindsInsertedValues and Sqlite.DelegationBindsValue) |
| src/Engine/PdoModelSqlite.php:50 | the SQLite branch calls `$this->execute($sql, $values)`, which is private in `PdoModel` (src/PdoModel.php:647) and takes a prepared statement, not SQL text | any upsert that passes validation, with the index columns and the primary key supplied, e.g. insert `[id => 1, n => 5]`, update columns `[n]`, index columns `[id, n]`, primary key `id` on driver sqlite; a SQLite `insertUpdateBatch` fails on its first such row | the statement is prepared and executed with its values | medium, not executed | Sqlite.SqliteUpsertAsWritten and Sqlite.InsertUpdateBatchBranchesAsWritten (shown by Sqlite.SqliteExecuteRefused and Sqlite.BatchAsWrittenStops) | Sqlite.SqliteUpsert and Sqlite.InsertUpdateBatch (proved by Sqlite.SqliteExecuteRefused, Sqlite.UpsertParams and Sqlite.BatchPlaceholders) |
| src/Engine/PdoModelSqlite.php:74 | `isDriverSQLite` reads `$this->connection`, which `PdoHandler` declares private (src/PdoHandler.php:9); in the subclass it is undefined and reads as null, and calling `getAttribute` on null raises an `Error` | any call of the SQLite class's `insertUpdate` or `insertUpdateBatch`, on any driver, e.g. driver mysql, insert `[id => 1, n => 5]`, update columns `[n]` | the connection's driver name is read and lower-cased | high, not executed | Sqlite.DriverTestAsWritten, Sqlite.InsertUpdateAsWritten and Sqlite.InsertUpdateBatchAsWritten (shown by Sqlite.DialectTestRaises) | Sqlite.IsDriverSqlite, Sqlite.InsertUpdate and Sqlite.InsertUpdateBatch (proved by Sqlite.DriverNames, Sqlite.DriverNameCase and Sqlite.DialectTestRaises) |
