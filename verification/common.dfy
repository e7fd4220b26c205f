/** What every compiler shares: PHP values and rows, the error taxonomy,
    compiled statements, the table-name guard of PdoHandler and the
    scalar-only check PdoModel::execute applies before the driver sees a
    statement. The driver itself is not modelled: a statement that passes
    the check is "emitted", and a batch yields the trace of emitted
    statements up to the first failure. */
module Common {
  import opened Strings

  datatype Option<T> = None | Some(value: T)

  /** A PHP value that can reach a compiler. Floats and booleans are not modelled. */
  datatype Value = Null | Int(n: int) | Str(s: string) | Arr(items: seq<Value>)

  /** A value that is not an array. */
  type Scalar = v: Value | !v.Arr? witness Null

  /** An associative PHP array with string keys, entries in insertion order. */
  type Row = seq<(string, Value)>

  function Keys(row: Row): (r: seq<string>)
    ensures |r| == |row|
    ensures forall i :: 0 <= i < |row| ==> r[i] == row[i].0
  {
    seq(|row|, i requires 0 <= i < |row| => row[i].0)
  }

  /** PHP `array_values`: the values of an array's entries, in order. */
  function ValuesOf<K, V>(row: seq<(K, V)>): (r: seq<V>)
    ensures |r| == |row|
    ensures forall i :: 0 <= i < |row| ==> r[i] == row[i].1
  {
    seq(|row|, i requires 0 <= i < |row| => row[i].1)
  }

  /** `$row[$key]`: the value stored under the key, if any. */
  function Lookup(row: Row, key: string): Option<Value>
  {
    if |row| == 0 then None
    else if row[0].0 == key then Some(row[0].1)
    else Lookup(row[1..], key)
  }

  /** A key is found exactly when some entry carries it, and what is found
      is the value of the first such entry. */
  lemma {:induction false} LookupFirst(row: Row, key: string)
    ensures Lookup(row, key).None? <==> forall i :: 0 <= i < |row| ==> row[i].0 != key
    ensures Lookup(row, key).Some? ==>
              exists i :: 0 <= i < |row| && row[i] == (key, Lookup(row, key).value)
                          && forall j :: 0 <= j < i ==> row[j].0 != key
  {
    if |row| > 0 {
      if row[0].0 == key {
        assert row[0] == (key, Lookup(row, key).value);
      } else {
        LookupFirst(row[1..], key);
        if Lookup(row, key).Some? {
          var i :| 0 <= i < |row[1..]| && row[1..][i] == (key, Lookup(row, key).value)
                   && forall j :: 0 <= j < i ==> row[1..][j].0 != key;
          assert row[i + 1] == (key, Lookup(row, key).value);
          assert forall j :: 0 <= j < i + 1 ==> row[j].0 != key by {
            forall j | 0 <= j < i + 1
              ensures row[j].0 != key
            {
              if j > 0 {
                assert row[j] == row[1..][j - 1];
              }
            }
          }
        } else {
          assert forall i :: 0 <= i < |row| ==> row[i].0 != key by {
            forall i | 0 <= i < |row|
              ensures row[i].0 != key
            {
              if i > 0 {
                assert row[i] == row[1..][i - 1];
              }
            }
          }
        }
      }
    }
  }

  /** PHP `isset($row[$key])`: present and not null. */
  predicate IsSet(row: Row, key: string)
  {
    Lookup(row, key).Some? && Lookup(row, key).value != Null
  }

  /** PHP's string conversion, as implode() and interpolation apply it; an
      array converts to the word `Array`. */
  function Text(v: Value): string
  {
    match v
    case Null => ""
    case Int(n) => IntToString(n)
    case Str(s) => s
    case Arr(_) => "Array"
  }

  function Texts(vs: seq<Value>): (r: seq<string>)
    ensures |r| == |vs|
    ensures forall i :: 0 <= i < |vs| ==> r[i] == Text(vs[i])
  {
    seq(|vs|, i requires 0 <= i < |vs| => Text(vs[i]))
  }

  /** PHP's truthiness of a nullable string and of a nullable int. */
  predicate SomeTruthy(s: Option<string>)
  {
    s.Some? && Truthy(s.value)
  }

  predicate NonZero(n: Option<int>)
  {
    n.Some? && n.value != 0
  }

  datatype Error =
    | UnsupportedOperand(operand: string)     // buildWhere: operand outside the allow-list
    | OperandNeedsArray(operand: string)      // buildWhere: IN / NOT IN with a scalar value
    | ArrayBindValue(value: Value)            // execute: a bound value is an array
    | EmptyTableName                          // getTable: no (or a falsy) table name
    | DivisionByZero                          // batch planner: rows without columns
    | ChunkSizeBelowOne                       // batch planner: more than 60000 columns
    | NoRows                                  // batch: the first row is read unconditionally
    | WrongOperand(operand: string)           // SelectorBuilder::where
    | ColumnsNotAList                         // SelectorBuilder::columns
    | ColumnsUninitialized                    // CreateTableBuilder::buildSql before any column()
    | NoConnection                            // CreateTableBuilder::execute
    | EmptyUpsert                             // SQLite insertUpdate: nothing to insert or update
    | MissingUpdateColumn(column: string)     // SQLite insertUpdate: update column not set
    | MissingIncrementColumn(column: string)  // SQLite insertUpdate: increment column not set
    | NoIndexData                             // SQLite insertUpdate: no unique-index metadata
    | InaccessibleExecute                     // SQLite insertUpdate: PdoModel::execute is private
    | UndefinedConnection                     // isDriverSQLite: PdoHandler's $connection is private

  datatype Result<T> = Ok(value: T) | Err(error: Error)

  /** A compiled statement: SQL text and the values bound to its `?` markers. */
  datatype Statement = Statement(sql: string, params: seq<Value>)

  /** PdoHandler::getTable: a falsy table name is an error. */
  function Table(name: string): (r: Result<string>)
    ensures r.Ok? <==> name != "" && name != "0"
    ensures r.Ok? ==> r.value == name
    ensures r.Err? ==> r.error == EmptyTableName
  {
    if Truthy(name) then Ok(name) else Err(EmptyTableName)
  }

  /** Index of the first array among the bound values, if there is one. */
  function FirstArray(params: seq<Value>): (r: Option<nat>)
    ensures r.None? <==> forall i :: 0 <= i < |params| ==> !params[i].Arr?
    ensures r.Some? ==> r.value < |params| && params[r.value].Arr?
    ensures r.Some? ==> forall j :: 0 <= j < r.value ==> !params[j].Arr?
  {
    if |params| == 0 then None
    else if params[0].Arr? then Some(0)
    else match FirstArray(params[1..])
      case None => None
      case Some(i) => Some(i + 1)
  }

  /** No bound value is an array. */
  predicate Scalars(values: seq<Value>)
  {
    forall i :: 0 <= i < |values| ==> !values[i].Arr?
  }

  /** PdoModel::execute: every bound value must be a scalar; the first array
      is reported and the statement never reaches the driver. */
  function Execute(sql: string, params: seq<Value>): (r: Result<Statement>)
    ensures r.Ok? <==> forall i :: 0 <= i < |params| ==> !params[i].Arr?
    ensures r.Ok? ==> r.value == Statement(sql, params)
    ensures r.Err? ==> exists i :: 0 <= i < |params| && params[i].Arr? && r.error == ArrayBindValue(params[i])
                                   && forall j :: 0 <= j < i ==> !params[j].Arr?
  {
    match FirstArray(params)
    case None => Ok(Statement(sql, params))
    case Some(i) => Err(ArrayBindValue(params[i]))
  }

  /** The statements a sequence of executions emitted, and the error that
      stopped it, if one did. */
  datatype Trace = Trace(emitted: seq<Statement>, failure: Option<Error>)

  /** Executes statements one after another, stopping at the first that is
      rejected; earlier statements stay emitted (there is no transaction). */
  function RunAll(stmts: seq<Statement>): (t: Trace)
    ensures |t.emitted| <= |stmts| && t.emitted == stmts[..|t.emitted|]
    ensures t.failure.None? <==> |t.emitted| == |stmts|
    ensures t.failure.Some? ==>
              Execute(stmts[|t.emitted|].sql, stmts[|t.emitted|].params) == Err(t.failure.value)
    ensures forall i :: 0 <= i < |t.emitted| ==> Execute(stmts[i].sql, stmts[i].params).Ok?
  {
    if |stmts| == 0 then Trace([], None)
    else match Execute(stmts[0].sql, stmts[0].params)
      case Err(e) => Trace([], Some(e))
      case Ok(s) =>
        var rest := RunAll(stmts[1..]);
        Trace([s] + rest.emitted, rest.failure)
  }
}
