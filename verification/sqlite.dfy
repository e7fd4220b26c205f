/** PdoModelSqlite: the SQLite dialect of insertUpdate and insertUpdateBatch.
    On SQLite an upsert is `INSERT INTO ... ON CONFLICT(...) DO UPDATE SET ...`
    with the conflict target taken from the table's unique-index metadata;
    on any other driver both calls delegate to PdoModel. The index metadata
    and the class's primary-key constant are inputs of the model. */
module Sqlite {
  import opened Strings
  import opened Common
  import PdoModel
  import Batch

  /** isDriverSQLite: the driver name, lower-cased, is `sqlite`. */
  predicate IsDriverSqlite(driver: string)
    ensures IsDriverSqlite(driver) <==> |driver| == 6 && forall i :: 0 <= i < 6 ==> LowerChar(driver[i]) == "sqlite"[i]
  {
    ToLower(driver) == "sqlite"
  }

  /** The dialect test ignores case: an upper-cased driver name is the same
      dialect as the name itself. */
  lemma DriverNameCase(driver: string)
    ensures IsDriverSqlite(ToUpper(driver)) <==> IsDriverSqlite(driver)
  {
    assert ToLower(ToUpper(driver)) == ToLower(driver) by {
      forall i | 0 <= i < |driver|
        ensures ToLower(ToUpper(driver))[i] == ToLower(driver)[i]
      {
        assert LowerChar(UpperChar(driver[i])) == LowerChar(driver[i]);
      }
    }
  }

  lemma DriverNames()
    ensures IsDriverSqlite("SQLite") && IsDriverSqlite("sqlite")
    ensures !IsDriverSqlite("mysql") && !IsDriverSqlite("sqlite3")
  {
    assert ToLower("SQLite") == "sqlite";
    assert ToLower("mysql") != "sqlite" by {
      assert ToLower("mysql")[0] == 'm';
    }
  }

  /** array_search followed by unset: the first occurrence of `x` is
      dropped, everything else keeps its order. */
  function RemoveFirst(xs: seq<string>, x: string): seq<string>
  {
    if |xs| == 0 then []
    else if xs[0] == x then xs[1..]
    else [xs[0]] + RemoveFirst(xs[1..], x)
  }

  /** The position array_search reports: the first occurrence. */
  function FirstIndex(xs: seq<string>, x: string): (i: nat)
    requires x in xs
    ensures i < |xs| && xs[i] == x && x !in xs[..i]
  {
    if xs[0] == x then 0
    else
      var i := FirstIndex(xs[1..], x);
      assert xs[..i + 1] == [xs[0]] + xs[1..][..i];
      i + 1
  }

  /** Without the primary key among them the index columns stay as they are;
      with it, exactly its first occurrence is cut out. */
  lemma {:induction false} RemoveFirstShape(xs: seq<string>, x: string)
    ensures x !in xs ==> RemoveFirst(xs, x) == xs
    ensures x in xs ==> RemoveFirst(xs, x) == xs[..FirstIndex(xs, x)] + xs[FirstIndex(xs, x) + 1..]
  {
    if |xs| > 0 && xs[0] != x {
      RemoveFirstShape(xs[1..], x);
      if x in xs {
        var i := FirstIndex(xs[1..], x);
        assert xs[..i + 1] == [xs[0]] + xs[1..][..i];
        assert xs[i + 2..] == xs[1..][i + 1..];
      }
    }
  }

  /** Removing the primary key takes exactly one copy of it out of the
      multiset of index columns, and none of anything else. */
  lemma {:induction false} RemoveFirstCount(xs: seq<string>, x: string)
    ensures multiset(RemoveFirst(xs, x)) == multiset(xs) - multiset{x}
  {
    if |xs| > 0 {
      assert xs == [xs[0]] + xs[1..];
      if xs[0] != x {
        RemoveFirstCount(xs[1..], x);
      }
    }
  }

  /** getUniqueColumns and the conflict target built from it: no index data
      makes getUniqueColumns return false, which `??` lets through and
      array_search refuses; otherwise the index columns minus the first
      occurrence of the primary key. */
  function ConflictColumns(indexColumns: seq<string>, pk: string): (r: Result<seq<string>>)
    ensures r.Err? <==> |indexColumns| == 0
    ensures r.Err? ==> r.error == NoIndexData
    ensures r.Ok? ==> multiset(r.value) == multiset(indexColumns) - multiset{pk}
    ensures r.Ok? ==> forall i :: 0 <= i < |r.value| ==> r.value[i] in indexColumns
  {
    if |indexColumns| == 0 then Err(NoIndexData)
    else
      RemoveFirstCount(indexColumns, pk);
      var r := RemoveFirst(indexColumns, pk);
      assert forall i :: 0 <= i < |r| ==> r[i] in multiset(r);
      Ok(r)
  }

  /** The error for an update (or increment) column that is not set. */
  function Missing(column: string, increment: bool): Error
  {
    if increment then MissingIncrementColumn(column) else MissingUpdateColumn(column)
  }

  /** `$insertData[$column]` for each listed column, each required to be set. */
  function ColumnValues(insert: Row, columns: seq<string>, increment: bool): (r: Result<seq<Value>>)
    ensures r.Ok? <==> forall i :: 0 <= i < |columns| ==> IsSet(insert, columns[i])
    ensures r.Ok? ==> |r.value| == |columns|
    ensures r.Ok? ==> forall i :: 0 <= i < |columns| ==> Lookup(insert, columns[i]) == Some(r.value[i])
    ensures r.Err? ==> exists i :: 0 <= i < |columns| && !IsSet(insert, columns[i]) && r.error == Missing(columns[i], increment)
                                   && forall j :: 0 <= j < i ==> IsSet(insert, columns[j])
  {
    if |columns| == 0 then Ok([])
    else if !IsSet(insert, columns[0]) then Err(Missing(columns[0], increment))
    else match ColumnValues(insert, columns[1..], increment)
      case Err(e) =>
        ghost var i :| 0 <= i < |columns[1..]| && !IsSet(insert, columns[1..][i]) && e == Missing(columns[1..][i], increment)
                       && forall j :: 0 <= j < i ==> IsSet(insert, columns[1..][j]);
        assert !IsSet(insert, columns[i + 1]) && forall j :: 0 <= j < i + 1 ==> IsSet(insert, columns[j]);
        Err(e)
      case Ok(rest) => Ok([Lookup(insert, columns[0]).value] + rest)
  }

  function UpdatePair(column: string): string
  {
    "`" + column + "` = ?"
  }

  function IncrementPair(column: string): string
  {
    "`" + column + "` = `" + column + "` + ?"
  }

  /** The SET list: every update assignment, then every increment. */
  function Pairs(update: seq<string>, increment: seq<string>): seq<string>
  {
    seq(|update|, i requires 0 <= i < |update| => UpdatePair(update[i]))
    + seq(|increment|, i requires 0 <= i < |increment| => IncrementPair(increment[i]))
  }

  function UpsertHead(table: string, data: PdoModel.InsertData): string
  {
    "INSERT INTO `" + table + "` (" + data.ColumnsSql() + ") VALUES (" + data.ParamsSql() + ")"
  }

  function UpsertTail(conflict: seq<string>, pairs: seq<string>): string
  {
    " ON CONFLICT(" + Join(conflict, ", ") + ") DO UPDATE SET " + Join(pairs, ", ")
  }

  /** The statement the SQLite branch of insertUpdate compiles, or the error
      it raises first: empty input, an update column not set, an increment
      column not set, no index metadata, no table name, in that order. */
  function CompileUpsert(table: string, pk: string, indexColumns: seq<string>, insert: Row,
                         update: seq<string>, increment: seq<string>): (r: Result<Statement>)
    ensures (r == Err(EmptyUpsert)) <==> |insert| == 0 || (|update| == 0 && |increment| == 0)
    ensures r.Ok? <==> |insert| > 0 && (|update| > 0 || |increment| > 0)
                       && (forall i :: 0 <= i < |update| ==> IsSet(insert, update[i]))
                       && (forall i :: 0 <= i < |increment| ==> IsSet(insert, increment[i]))
                       && |indexColumns| > 0 && Truthy(table)
    ensures r.Ok? ==> UpsertValues(insert, update, increment).Ok?
                      && r.value.params == ValuesOf(insert) + UpsertValues(insert, update, increment).value
    ensures r.Ok? ==> r.value.sql == UpsertHead(table, PdoModel.PrepareInsertData(insert))
                                     + UpsertTail(RemoveFirst(indexColumns, pk), Pairs(update, increment))
  {
    if |insert| == 0 || (|update| == 0 && |increment| == 0) then Err(EmptyUpsert)
    else match UpsertValues(insert, update, increment)
      case Err(e) => Err(e)
      case Ok(extra) =>
        match ConflictColumns(indexColumns, pk)
        case Err(e) => Err(e)
        case Ok(conflict) =>
          match Table(table)
          case Err(e) => Err(e)
          case Ok(t) =>
            Ok(Statement(UpsertHead(t, PdoModel.PrepareInsertData(insert)) + UpsertTail(conflict, Pairs(update, increment)),
                         ValuesOf(insert) + extra))
  }

  /** The upsert binds the insert values in order, then for each update
      column and then each increment column the value it is inserted with. */
  lemma UpsertParams(table: string, pk: string, indexColumns: seq<string>, insert: Row,
                     update: seq<string>, increment: seq<string>)
    requires CompileUpsert(table, pk, indexColumns, insert, update, increment).Ok?
    ensures var params := CompileUpsert(table, pk, indexColumns, insert, update, increment).value.params;
            |params| == |insert| + |update| + |increment|
            && params[..|insert|] == ValuesOf(insert)
            && (forall i :: 0 <= i < |update| ==> Lookup(insert, update[i]) == Some(params[|insert| + i]))
            && (forall i :: 0 <= i < |increment| ==> Lookup(insert, increment[i]) == Some(params[|insert| + |update| + i]))
  {
    ValuesLayout(insert, update, increment, CompileUpsert(table, pk, indexColumns, insert, update, increment).value.params);
  }

  lemma ValuesLayout(insert: Row, update: seq<string>, increment: seq<string>, params: seq<Value>)
    requires UpsertValues(insert, update, increment).Ok?
    requires params == ValuesOf(insert) + UpsertValues(insert, update, increment).value
    ensures |params| == |insert| + |update| + |increment|
            && params[..|insert|] == ValuesOf(insert)
            && (forall i :: 0 <= i < |update| ==> Lookup(insert, update[i]) == Some(params[|insert| + i]))
            && (forall i :: 0 <= i < |increment| ==> Lookup(insert, increment[i]) == Some(params[|insert| + |update| + i]))
  {
    var extra := UpsertValues(insert, update, increment).value;
    ParamsLayout(ValuesOf(insert), extra, params);
    forall i | 0 <= i < |increment|
      ensures Lookup(insert, increment[i]) == Some(params[|insert| + |update| + i])
    {
      assert params[|insert| + |update| + i] == extra[|update| + i];
    }
  }

  /** The values bound after the insert values: one per update column, then
      one per increment column, each read from the insert data. */
  function UpsertValues(insert: Row, update: seq<string>, increment: seq<string>): (r: Result<seq<Value>>)
    ensures r.Ok? <==> (forall i :: 0 <= i < |update| ==> IsSet(insert, update[i]))
                       && (forall i :: 0 <= i < |increment| ==> IsSet(insert, increment[i]))
    ensures r.Ok? ==> |r.value| == |update| + |increment|
                      && (forall i :: 0 <= i < |update| ==> Lookup(insert, update[i]) == Some(r.value[i]))
                      && (forall i :: 0 <= i < |increment| ==> Lookup(insert, increment[i]) == Some(r.value[|update| + i]))
    ensures r.Err? ==> (r.error.MissingUpdateColumn? || r.error.MissingIncrementColumn?)
    ensures r.Err? && r.error.MissingIncrementColumn? ==> forall i :: 0 <= i < |update| ==> IsSet(insert, update[i])
  {
    match ColumnValues(insert, update, false)
    case Err(e) => Err(e)
    case Ok(u) =>
      match ColumnValues(insert, increment, true)
      case Err(e) => Err(e)
      case Ok(v) =>
        assert forall i :: 0 <= i < |v| ==> (u + v)[|u| + i] == v[i];
        Ok(u + v)
  }

  /** A value read back for an update or increment column is one of the
      insert values. */
  lemma LookupIsValue(insert: Row, column: string)
    requires Lookup(insert, column).Some?
    ensures Lookup(insert, column).value in ValuesOf(insert)
  {
    LookupFirst(insert, column);
    var i :| 0 <= i < |insert| && insert[i] == (column, Lookup(insert, column).value);
    assert ValuesOf(insert)[i] == Lookup(insert, column).value;
  }

  lemma ReadBackValues(insert: Row, columns: seq<string>, values: seq<Value>)
    requires |values| == |columns|
    requires forall i :: 0 <= i < |columns| ==> Lookup(insert, columns[i]) == Some(values[i])
    ensures forall i :: 0 <= i < |values| ==> values[i] in ValuesOf(insert)
  {
    forall i | 0 <= i < |values|
      ensures values[i] in ValuesOf(insert)
    {
      LookupIsValue(insert, columns[i]);
    }
  }

  /** Appending values already among the insert values adds no array. */
  lemma ScalarValues(insert: Row, extra: seq<Value>)
    requires forall i :: 0 <= i < |extra| ==> extra[i] in ValuesOf(insert)
    ensures (forall i :: 0 <= i < |ValuesOf(insert) + extra| ==> !(ValuesOf(insert) + extra)[i].Arr?)
            <==> (forall i :: 0 <= i < |insert| ==> !insert[i].1.Arr?)
  {
    var all := ValuesOf(insert) + extra;
    if forall i :: 0 <= i < |insert| ==> !insert[i].1.Arr? {
      forall i | 0 <= i < |all|
        ensures !all[i].Arr?
      {
        if i >= |insert| {
          assert all[i] == extra[i - |insert|];
          var j :| 0 <= j < |insert| && ValuesOf(insert)[j] == all[i];
        }
      }
    } else {
      var j :| 0 <= j < |insert| && insert[j].1.Arr?;
      assert all[j] == insert[j].1;
    }
  }

  /** Every bound value of the upsert is one of the insert values, so only an
      array among the insert data can stop the statement at execute. */
  lemma UpsertArrays(table: string, pk: string, indexColumns: seq<string>, insert: Row,
                     update: seq<string>, increment: seq<string>)
    requires CompileUpsert(table, pk, indexColumns, insert, update, increment).Ok?
    ensures (forall i :: 0 <= i < |CompileUpsert(table, pk, indexColumns, insert, update, increment).value.params| ==>
               !CompileUpsert(table, pk, indexColumns, insert, update, increment).value.params[i].Arr?)
            <==> (forall i :: 0 <= i < |insert| ==> !insert[i].1.Arr?)
  {
    var extra := UpsertValues(insert, update, increment).value;
    UpsertValuesFromInsert(insert, update, increment);
    ScalarValues(insert, extra);
  }

  /** Each value bound for an update or increment column is one of the
      insert values. */
  lemma UpsertValuesFromInsert(insert: Row, update: seq<string>, increment: seq<string>)
    requires UpsertValues(insert, update, increment).Ok?
    ensures var extra := UpsertValues(insert, update, increment).value;
            forall i :: 0 <= i < |extra| ==> extra[i] in ValuesOf(insert)
  {
    var extra := UpsertValues(insert, update, increment).value;
    forall i | 0 <= i < |extra|
      ensures extra[i] in ValuesOf(insert)
    {
      if i < |update| {
        LookupIsValue(insert, update[i]);
      } else {
        var j := i - |update|;
        assert Lookup(insert, increment[j]) == Some(extra[|update| + j]);
        LookupIsValue(insert, increment[j]);
      }
    }
  }

  /** The SQLite branch as it reads, with the index columns and the primary
      key supplied (getIndexData's `raw` call and `PRIMARY_KEY` do not exist
      as written): the compiled statement is handed to `$this->execute`,
      which resolves to PdoModel's private execute and so cannot be called
      from the subclass. */
  function SqliteUpsertAsWritten(table: string, pk: string, indexColumns: seq<string>, insert: Row,
                                 update: seq<string>, increment: seq<string>): (r: Result<Statement>)
    ensures r.Err?
    ensures CompileUpsert(table, pk, indexColumns, insert, update, increment).Ok? ==> r.error == InaccessibleExecute
  {
    match CompileUpsert(table, pk, indexColumns, insert, update, increment)
    case Err(e) => Err(e)
    case Ok(_) => Err(InaccessibleExecute)
  }

  /** The SQLite branch with the statement executed: the compiled statement
      passes PdoModel's scalar-only check exactly when the insert data holds
      no array. */
  function SqliteUpsert(table: string, pk: string, indexColumns: seq<string>, insert: Row,
                        update: seq<string>, increment: seq<string>): (r: Result<Statement>)
    ensures CompileUpsert(table, pk, indexColumns, insert, update, increment).Err? ==>
              r == CompileUpsert(table, pk, indexColumns, insert, update, increment)
    ensures CompileUpsert(table, pk, indexColumns, insert, update, increment).Ok? ==>
              (r.Ok? <==> forall i :: 0 <= i < |insert| ==> !insert[i].1.Arr?)
    ensures r.Ok? ==> r == CompileUpsert(table, pk, indexColumns, insert, update, increment)
  {
    match CompileUpsert(table, pk, indexColumns, insert, update, increment)
    case Err(e) => Err(e)
    case Ok(s) =>
      UpsertArrays(table, pk, indexColumns, insert, update, increment);
      Execute(s.sql, s.params)
  }

  /** Nothing in the text of an upsert holds a `?` of its own. */
  predicate CleanUpsert(table: string, indexColumns: seq<string>, insert: Row, update: seq<string>, increment: seq<string>)
  {
    Marks(table) == 0
    && (forall i :: 0 <= i < |indexColumns| ==> Marks(indexColumns[i]) == 0)
    && (forall i :: 0 <= i < |insert| ==> Marks(insert[i].0) == 0)
    && (forall i :: 0 <= i < |update| ==> Marks(update[i]) == 0)
    && (forall i :: 0 <= i < |increment| ==> Marks(increment[i]) == 0)
  }

  lemma UpsertHeadMarks(table: string, insert: Row)
    requires Marks(table) == 0 && forall i :: 0 <= i < |insert| ==> Marks(insert[i].0) == 0
    ensures Marks(UpsertHead(table, PdoModel.PrepareInsertData(insert))) == |insert|
  {
    var data := PdoModel.PrepareInsertData(insert);
    assert Marks(data.ColumnsSql()) == 0 by { PdoModel.ColumnsMarks(insert); }
    assert Marks(data.ParamsSql()) == |insert| by { PdoModel.InsertMarkers(insert); }
    PdoModel.InsertLiteral();
    PdoModel.InsertTextMarks("INSERT INTO `", table, data.ColumnsSql(), data.ParamsSql());
  }

  lemma UpdatePairMarks(column: string)
    ensures Marks(UpdatePair(column)) == Marks(column) + 1
  {
    NoMarks("`");
    MarksConcat("`", column);
    MarksConcat("`" + column, "` = ?");
  }

  lemma IncrementPairMarks(column: string)
    ensures Marks(IncrementPair(column)) == 2 * Marks(column) + 1
  {
    NoMarks("`");
    NoMarks("` = `");
    MarksConcat("`", column);
    MarksConcat("`" + column, "` = `");
    MarksConcat("`" + column + "` = `", column);
    MarksConcat("`" + column + "` = `" + column, "` + ?");
  }

  /** One `?` per update and per increment assignment. */
  lemma {:induction false} PairsMarks(update: seq<string>, increment: seq<string>)
    requires forall i :: 0 <= i < |update| ==> Marks(update[i]) == 0
    requires forall i :: 0 <= i < |increment| ==> Marks(increment[i]) == 0
    ensures SumMarks(Pairs(update, increment)) == |update| + |increment|
    decreases |update| + |increment|
  {
    if |update| > 0 {
      UpdatePairMarks(update[0]);
      PairsMarks(update[1..], increment);
      assert Pairs(update, increment) == [UpdatePair(update[0])] + Pairs(update[1..], increment);
      SumMarksConcat([UpdatePair(update[0])], Pairs(update[1..], increment));
    } else if |increment| > 0 {
      IncrementPairMarks(increment[0]);
      PairsMarks(update, increment[1..]);
      assert Pairs(update, increment) == [IncrementPair(increment[0])] + Pairs(update, increment[1..]);
      SumMarksConcat([IncrementPair(increment[0])], Pairs(update, increment[1..]));
    } else {
      assert Pairs(update, increment) == [];
    }
  }

  lemma UpsertTailMarks(conflict: seq<string>, update: seq<string>, increment: seq<string>)
    requires forall i :: 0 <= i < |conflict| ==> Marks(conflict[i]) == 0
    requires forall i :: 0 <= i < |update| ==> Marks(update[i]) == 0
    requires forall i :: 0 <= i < |increment| ==> Marks(increment[i]) == 0
    ensures Marks(UpsertTail(conflict, Pairs(update, increment))) == |update| + |increment|
  {
    var target := Join(conflict, ", ");
    var assignments := Join(Pairs(update, increment), ", ");
    assert Marks(target) == 0 by {
      SumMarksZero(conflict);
      MarksJoin(conflict, ", ");
    }
    assert Marks(assignments) == |update| + |increment| by {
      PairsMarks(update, increment);
      MarksJoin(Pairs(update, increment), ", ");
    }
    TailText(target, assignments);
  }

  lemma ConflictLiteral()
    ensures Marks(" ON CONFLICT(") == 0
  {
    NoMarks(" ON CONFLICT(");
  }

  lemma SetLiteral()
    ensures Marks(") DO UPDATE SET ") == 0
  {
    NoMarks(") DO UPDATE SET ");
  }

  lemma TailText(target: string, assignments: string)
    ensures Marks(" ON CONFLICT(" + target + ") DO UPDATE SET " + assignments) == Marks(target) + Marks(assignments)
  {
    ConflictLiteral();
    SetLiteral();
    MarksConcat(" ON CONFLICT(", target);
    MarksConcat(" ON CONFLICT(" + target, ") DO UPDATE SET ");
    MarksConcat(" ON CONFLICT(" + target + ") DO UPDATE SET ", assignments);
  }

  /** When none of the names holds a `?`, the SQLite upsert carries exactly
      one marker per bound value. */
  lemma UpsertPlaceholders(table: string, pk: string, indexColumns: seq<string>, insert: Row,
                           update: seq<string>, increment: seq<string>)
    requires CompileUpsert(table, pk, indexColumns, insert, update, increment).Ok?
    requires CleanUpsert(table, indexColumns, insert, update, increment)
    ensures Marks(CompileUpsert(table, pk, indexColumns, insert, update, increment).value.sql)
            == |CompileUpsert(table, pk, indexColumns, insert, update, increment).value.params|
  {
    var conflict := RemoveFirst(indexColumns, pk);
    assert forall i :: 0 <= i < |conflict| ==> Marks(conflict[i]) == 0 by {
      assert ConflictColumns(indexColumns, pk).value == conflict;
    }
    UpsertHeadMarks(table, insert);
    UpsertTailMarks(conflict, update, increment);
    MarksConcat(UpsertHead(table, PdoModel.PrepareInsertData(insert)), UpsertTail(conflict, Pairs(update, increment)));
  }

  /** The SET list names every update column, then every increment column,
      each in the order given. */
  lemma PairsOrder(update: seq<string>, increment: seq<string>)
    ensures |Pairs(update, increment)| == |update| + |increment|
    ensures forall i :: 0 <= i < |update| ==> Pairs(update, increment)[i] == "`" + update[i] + "` = ?"
    ensures forall i :: 0 <= i < |increment| ==>
              Pairs(update, increment)[|update| + i] == "`" + increment[i] + "` = `" + increment[i] + "` + ?"
  {
  }

  /** The update map the column list stands for: each listed column assigned
      the value it is inserted with (null when the insert data lacks it, as
      reading an undefined key gives). */
  function UpdateFromColumns(insert: Row, columns: seq<string>): (r: Row)
    ensures |r| == |columns|
    ensures forall i :: 0 <= i < |columns| ==> r[i].0 == columns[i] && r[i].1 == InsertedValue(insert, columns[i])
  {
    seq(|columns|, i requires 0 <= i < |columns| => (columns[i], InsertedValue(insert, columns[i])))
  }

  /** `$insertData[$column]`, null when the column is not inserted. */
  function InsertedValue(insert: Row, column: string): (v: Value)
    ensures Lookup(insert, column).Some? ==> v == Lookup(insert, column).value
  {
    match Lookup(insert, column)
    case Some(v) => v
    case None => Null
  }

  /** The column list passed where an update map is expected: PHP list keys
      0, 1, ... and the column names as values. */
  function ListRow(columns: seq<string>): (r: Row)
    ensures |r| == |columns|
    ensures forall i :: 0 <= i < |columns| ==> r[i] == (IntToString(i), Str(columns[i]))
  {
    seq(|columns|, i requires 0 <= i < |columns| => (IntToString(i), Str(columns[i])))
  }

  /** The two branches of PdoModelSqlite::insertUpdate as they read, once the
      dialect test has answered `sqlite`: on another driver the list of
      update columns goes to PdoModel::insertUpdate as its update map and the
      increments are dropped; on SQLite, with the index columns and the
      primary key supplied, the compiled statement reaches a private
      method. */
  function InsertUpdateBranchesAsWritten(sqlite: bool, table: string, pk: string, indexColumns: seq<string>,
                                         insert: Row, update: seq<string>, increment: seq<string>)
    : (r: Result<PdoModel.Outcome>)
    ensures !sqlite ==> r == PdoModel.InsertUpdate(table, insert, ListRow(update), false)
    ensures sqlite ==> r.Err?
  {
    if !sqlite then PdoModel.InsertUpdate(table, insert, ListRow(update), false)
    else match SqliteUpsertAsWritten(table, pk, indexColumns, insert, update, increment)
      case Err(e) => Err(e)
      case Ok(s) => Ok(PdoModel.Emitted(s))
  }

  /** isDriverSQLite as it reads: `$connection` is private to PdoHandler, so
      in PdoModelSqlite the property is undefined and reads as null, and
      asking null for its driver attribute raises, whatever the driver. */
  function DriverTestAsWritten(driver: string): (r: Result<bool>)
    ensures r.Err? && r.error == UndefinedConnection
  {
    Err(UndefinedConnection)
  }

  /** PdoModelSqlite::insertUpdate as it reads: the dialect test comes first
      and raises, so neither branch is reached on any driver. */
  function InsertUpdateAsWritten(driver: string, table: string, pk: string, indexColumns: seq<string>, insert: Row,
                                 update: seq<string>, increment: seq<string>): (r: Result<PdoModel.Outcome>)
    ensures r == Err(UndefinedConnection)
  {
    match DriverTestAsWritten(driver)
    case Err(e) => Err(e)
    case Ok(sqlite) => InsertUpdateBranchesAsWritten(sqlite, table, pk, indexColumns, insert, update, increment)
  }

  /** PdoModelSqlite::insertUpdate with both defects corrected: another
      driver receives the update columns as a map to their inserted values,
      and SQLite executes its statement. The increments only matter on
      SQLite. */
  function InsertUpdate(driver: string, table: string, pk: string, indexColumns: seq<string>, insert: Row,
                        update: seq<string>, increment: seq<string>): (r: Result<PdoModel.Outcome>)
    ensures IsDriverSqlite(driver) ==> (r.Ok? <==> SqliteUpsert(table, pk, indexColumns, insert, update, increment).Ok?)
    ensures IsDriverSqlite(driver) && r.Ok? ==>
              r.value == PdoModel.Emitted(CompileUpsert(table, pk, indexColumns, insert, update, increment).value)
    ensures IsDriverSqlite(driver) && r.Err? ==> r.error == SqliteUpsert(table, pk, indexColumns, insert, update, increment).error
    ensures !IsDriverSqlite(driver) ==> (r == Ok(PdoModel.Skipped) <==> |insert| == 0 || |update| == 0)
    ensures !IsDriverSqlite(driver) && r.Ok? && r.value.Emitted? ==>
              r.value.statement.params == ValuesOf(insert) + ValuesOf(UpdateFromColumns(insert, update))
  {
    if !IsDriverSqlite(driver) then PdoModel.InsertUpdate(table, insert, UpdateFromColumns(insert, update), false)
    else match SqliteUpsert(table, pk, indexColumns, insert, update, increment)
      case Err(e) => Err(e)
      case Ok(s) => Ok(PdoModel.Emitted(s))
  }

  /** Outside SQLite the increment columns change nothing. */
  lemma DelegationIgnoresIncrements(driver: string, table: string, pk: string, indexColumns: seq<string>, insert: Row,
                                    update: seq<string>, increment: seq<string>, other: seq<string>)
    requires !IsDriverSqlite(driver)
    ensures InsertUpdate(driver, table, pk, indexColumns, insert, update, increment)
            == InsertUpdate(driver, table, pk, indexColumns, insert, update, other)
  {
  }

  /** As written past the dialect test, a non-SQLite upsert assigns the list
      positions, not the columns: updating `n` reads `` `0` = ? `` and binds
      the column's name. */
  lemma DelegationBindsColumnNames()
    ensures InsertUpdateBranchesAsWritten(false, "t", "id", [], [("id", Int(1)), ("n", Int(5))], ["n"], []).Ok?
    ensures PdoModel.PrepareUpdateData(ListRow(["n"]), false).pairs == ["`0` = ?"]
    ensures InsertUpdateBranchesAsWritten(false, "t", "id", [], [("id", Int(1)), ("n", Int(5))], ["n"], []).value.statement.params
            == [Int(1), Int(5), Str("n")]
  {
    var insert := [("id", Int(1)), ("n", Int(5))];
    assert Truthy("t");
    assert IntToString(0) == "0";
    assert ListRow(["n"]) == [("0", Str("n"))];
    assert PdoModel.PrepareUpdateData([("0", Str("n"))], false).pairs[0] == "`0` = ?";
    assert ValuesOf(insert) == [Int(1), Int(5)];
  }

  /** Corrected, the same upsert reads `` `n` = ? `` and binds the value
      `n` is inserted with. */
  lemma DelegationBindsValue()
    ensures PdoModel.PrepareUpdateData(UpdateFromColumns([("id", Int(1)), ("n", Int(5))], ["n"]), false).pairs == ["`n` = ?"]
    ensures InsertUpdate("mysql", "t", "id", [], [("id", Int(1)), ("n", Int(5))], ["n"], []).Ok?
    ensures InsertUpdate("mysql", "t", "id", [], [("id", Int(1)), ("n", Int(5))], ["n"], []).value.statement.params
            == [Int(1), Int(5), Int(5)]
  {
    var insert := [("id", Int(1)), ("n", Int(5))];
    DriverNames();
    assert Truthy("t");
    assert Lookup(insert, "n") == Some(Int(5));
    assert UpdateFromColumns(insert, ["n"]) == [("n", Int(5))];
    assert PdoModel.PrepareUpdateData([("n", Int(5))], false).pairs[0] == "`n` = ?";
    assert ValuesOf(insert) == [Int(1), Int(5)];
  }

  /** Corrected, a non-SQLite upsert binds the insert values and then, for
      each update column, the value it is inserted with. */
  lemma DelegationBindsInsertedValues(driver: string, table: string, pk: string, indexColumns: seq<string>, insert: Row,
                                      update: seq<string>, increment: seq<string>)
    requires !IsDriverSqlite(driver)
    requires forall i :: 0 <= i < |update| ==> Lookup(insert, update[i]).Some?
    requires InsertUpdate(driver, table, pk, indexColumns, insert, update, increment).Ok?
    requires InsertUpdate(driver, table, pk, indexColumns, insert, update, increment).value.Emitted?
    ensures var params := InsertUpdate(driver, table, pk, indexColumns, insert, update, increment).value.statement.params;
            |params| == |insert| + |update|
            && (forall i :: 0 <= i < |insert| ==> params[i] == insert[i].1)
            && (forall i :: 0 <= i < |update| ==> Lookup(insert, update[i]) == Some(params[|insert| + i]))
  {
    var params := InsertUpdate(driver, table, pk, indexColumns, insert, update, increment).value.statement.params;
    InsertedParams(insert, update, params);
  }

  lemma InsertedParams(insert: Row, update: seq<string>, params: seq<Value>)
    requires forall i :: 0 <= i < |update| ==> Lookup(insert, update[i]).Some?
    requires params == ValuesOf(insert) + ValuesOf(UpdateFromColumns(insert, update))
    ensures |params| == |insert| + |update|
            && (forall i :: 0 <= i < |insert| ==> params[i] == insert[i].1)
            && (forall i :: 0 <= i < |update| ==> Lookup(insert, update[i]) == Some(params[|insert| + i]))
  {
    ReadBack(insert, update);
    Placed(insert, update, ValuesOf(insert), ValuesOf(UpdateFromColumns(insert, update)), params);
  }

  /** Insert values in front and read-back values behind them land at the
      positions the delegated upsert binds them to. */
  lemma Placed(insert: Row, update: seq<string>, front: seq<Value>, back: seq<Value>, params: seq<Value>)
    requires |front| == |insert| && forall i :: 0 <= i < |insert| ==> front[i] == insert[i].1
    requires |back| == |update| && forall i :: 0 <= i < |update| ==> Lookup(insert, update[i]) == Some(back[i])
    requires params == front + back
    ensures |params| == |insert| + |update|
            && (forall i :: 0 <= i < |insert| ==> params[i] == insert[i].1)
            && (forall i :: 0 <= i < |update| ==> Lookup(insert, update[i]) == Some(params[|insert| + i]))
  {
    ParamsLayout(front, back, params);
  }

  /** The value bound for each update column is the one it is inserted with. */
  lemma ReadBack(insert: Row, update: seq<string>)
    requires forall i :: 0 <= i < |update| ==> Lookup(insert, update[i]).Some?
    ensures var back := ValuesOf(UpdateFromColumns(insert, update));
            |back| == |update| && forall i :: 0 <= i < |update| ==> Lookup(insert, update[i]) == Some(back[i])
  {
  }

  /** Where each part of a concatenated parameter list lands. */
  lemma ParamsLayout(front: seq<Value>, back: seq<Value>, params: seq<Value>)
    requires params == front + back
    ensures |params| == |front| + |back|
    ensures params[..|front|] == front
    ensures forall i :: 0 <= i < |front| ==> params[i] == front[i]
    ensures forall i :: 0 <= i < |back| ==> params[|front| + i] == back[i]
  {
  }

  /** Every upsert SQLite validation accepts is, as written past the dialect
      test and with the index columns and the primary key supplied, refused
      at execute, while the corrected branch runs it whenever
      the insert data holds no array. */
  lemma SqliteExecuteRefused(table: string, pk: string, indexColumns: seq<string>, insert: Row,
                             update: seq<string>, increment: seq<string>)
    requires CompileUpsert(table, pk, indexColumns, insert, update, increment).Ok?
    requires forall i :: 0 <= i < |insert| ==> !insert[i].1.Arr?
    ensures InsertUpdateBranchesAsWritten(true, table, pk, indexColumns, insert, update, increment)
            == Err(InaccessibleExecute)
    ensures InsertUpdate("sqlite", table, pk, indexColumns, insert, update, increment)
            == Ok(PdoModel.Emitted(CompileUpsert(table, pk, indexColumns, insert, update, increment).value))
  {
    DriverNames();
  }

  /** As written, the dialect test raises before either branch: a MySQL
      upsert the corrected model emits fails with the undefined connection,
      and so does the same upsert on SQLite. */
  lemma DialectTestRaises()
    ensures InsertUpdate("mysql", "t", "id", [], [("id", Int(1)), ("n", Int(5))], ["n"], []).Ok?
    ensures InsertUpdate("mysql", "t", "id", [], [("id", Int(1)), ("n", Int(5))], ["n"], []).value.Emitted?
    ensures InsertUpdateAsWritten("mysql", "t", "id", [], [("id", Int(1)), ("n", Int(5))], ["n"], [])
            == Err(UndefinedConnection)
    ensures InsertUpdateAsWritten("sqlite", "t", "id", [], [("id", Int(1)), ("n", Int(5))], ["n"], [])
            == Err(UndefinedConnection)
  {
    DelegationBindsValue();
  }

  /** Runs calls one after another until the first that raises. */
  function RunCalls(results: seq<Result<Statement>>): (t: Trace)
    ensures |t.emitted| <= |results|
    ensures t.failure.None? <==> |t.emitted| == |results|
    ensures forall i :: 0 <= i < |t.emitted| ==> results[i] == Ok(t.emitted[i])
    ensures t.failure.Some? ==> results[|t.emitted|] == Err(t.failure.value)
  {
    if |results| == 0 then Trace([], None)
    else match results[0]
      case Err(e) => Trace([], Some(e))
      case Ok(s) =>
        var rest := RunCalls(results[1..]);
        Trace([s] + rest.emitted, rest.failure)
  }

  /** The SQLite branch of insertUpdateBatch: one upsert per row, in order,
      stopping at the first that raises. */
  function UpsertRows(table: string, pk: string, indexColumns: seq<string>, rows: seq<Row>,
                      update: seq<string>, increment: seq<string>): (t: Trace)
    ensures |t.emitted| <= |rows|
    ensures t.failure.None? <==> |t.emitted| == |rows|
    ensures forall i :: 0 <= i < |t.emitted| ==>
              SqliteUpsert(table, pk, indexColumns, rows[i], update, increment) == Ok(t.emitted[i])
    ensures t.failure.Some? ==>
              SqliteUpsert(table, pk, indexColumns, rows[|t.emitted|], update, increment) == Err(t.failure.value)
  {
    RunCalls(seq(|rows|, i requires 0 <= i < |rows| => SqliteUpsert(table, pk, indexColumns, rows[i], update, increment)))
  }

  /** The SQLite branch of insertUpdateBatch as written, with each row's
      dialect test answered and the index columns and the primary key
      supplied: each row goes through the upsert that calls PdoModel's
      private execute, so the first row raises and nothing is emitted. */
  function UpsertRowsAsWritten(table: string, pk: string, indexColumns: seq<string>, rows: seq<Row>,
                               update: seq<string>, increment: seq<string>): (t: Trace)
    ensures t.emitted == []
    ensures t.failure.Some? <==> |rows| > 0
    ensures |rows| > 0 && CompileUpsert(table, pk, indexColumns, rows[0], update, increment).Ok? ==>
              t.failure == Some(InaccessibleExecute)
  {
    var results := seq(|rows|, i requires 0 <= i < |rows| =>
                         SqliteUpsertAsWritten(table, pk, indexColumns, rows[i], update, increment));
    var t := RunCalls(results);
    assert forall i :: 0 <= i < |results| ==> results[i].Err?;
    t
  }

  /** The two branches of PdoModelSqlite::insertUpdateBatch as they read,
      once the dialect test has answered `sqlite`. */
  function InsertUpdateBatchBranchesAsWritten(sqlite: bool, table: string, pk: string, indexColumns: seq<string>,
                                              rows: seq<Row>, update: seq<string>, increment: seq<string>): (t: Trace)
    ensures !sqlite ==> t == Batch.InsertUpdateBatch(table, rows, update)
    ensures sqlite ==> t.emitted == [] && (t.failure.Some? <==> |rows| > 0)
  {
    if !sqlite then Batch.InsertUpdateBatch(table, rows, update)
    else if |increment| > 0 then UpsertRowsAsWritten(table, pk, indexColumns, rows, [], increment)
    else UpsertRowsAsWritten(table, pk, indexColumns, rows, update, [])
  }

  /** PdoModelSqlite::insertUpdateBatch as it reads: the dialect test comes
      first and raises, so nothing is emitted on any driver, even for no
      rows. */
  function InsertUpdateBatchAsWritten(driver: string, table: string, pk: string, indexColumns: seq<string>,
                                      rows: seq<Row>, update: seq<string>, increment: seq<string>): (t: Trace)
    ensures t == Trace([], Some(UndefinedConnection))
  {
    match DriverTestAsWritten(driver)
    case Err(e) => Trace([], Some(e))
    case Ok(sqlite) => InsertUpdateBatchBranchesAsWritten(sqlite, table, pk, indexColumns, rows, update, increment)
  }

  /** PdoModelSqlite::insertUpdateBatch: outside SQLite the MySQL batch runs
      with the update columns as its update keys; on SQLite each row is
      upserted on its own, with the increments alone when there are any and
      with the update columns alone otherwise. */
  function InsertUpdateBatch(driver: string, table: string, pk: string, indexColumns: seq<string>, rows: seq<Row>,
                             update: seq<string>, increment: seq<string>): (t: Trace)
    ensures !IsDriverSqlite(driver) ==> t == Batch.InsertUpdateBatch(table, rows, update)
    ensures IsDriverSqlite(driver) && |increment| > 0 ==> t == UpsertRows(table, pk, indexColumns, rows, [], increment)
    ensures IsDriverSqlite(driver) && |increment| == 0 ==> t == UpsertRows(table, pk, indexColumns, rows, update, [])
  {
    if !IsDriverSqlite(driver) then Batch.InsertUpdateBatch(table, rows, update)
    else if |increment| > 0 then UpsertRows(table, pk, indexColumns, rows, [], increment)
    else UpsertRows(table, pk, indexColumns, rows, update, [])
  }

  /** With increment columns, the update columns are not used at all. */
  lemma BatchIncrementsOverride(driver: string, table: string, pk: string, indexColumns: seq<string>, rows: seq<Row>,
                                update: seq<string>, other: seq<string>, increment: seq<string>)
    requires IsDriverSqlite(driver) && |increment| > 0
    ensures InsertUpdateBatch(driver, table, pk, indexColumns, rows, update, increment)
            == InsertUpdateBatch(driver, table, pk, indexColumns, rows, other, increment)
  {
  }

  /** A SQLite batch with no update and no increment columns stops at its
      first row, and an empty SQLite batch does nothing. */
  lemma BatchNothingToUpdate(driver: string, table: string, pk: string, indexColumns: seq<string>, rows: seq<Row>)
    requires IsDriverSqlite(driver)
    ensures |rows| > 0 ==> InsertUpdateBatch(driver, table, pk, indexColumns, rows, [], []) == Trace([], Some(EmptyUpsert))
    ensures |rows| == 0 ==> InsertUpdateBatch(driver, table, pk, indexColumns, rows, [], []) == Trace([], None)
  {
  }

  /** Each statement a SQLite batch emits is the compiled upsert of the row
      at its position and, for clean names, holds one `?` per bound value. */
  lemma BatchPlaceholders(driver: string, table: string, pk: string, indexColumns: seq<string>, rows: seq<Row>,
                          update: seq<string>, increment: seq<string>, i: nat)
    requires IsDriverSqlite(driver)
    requires i < |InsertUpdateBatch(driver, table, pk, indexColumns, rows, update, increment).emitted|
    requires CleanUpsert(table, indexColumns, rows[i], update, increment)
    ensures Marks(InsertUpdateBatch(driver, table, pk, indexColumns, rows, update, increment).emitted[i].sql)
            == |InsertUpdateBatch(driver, table, pk, indexColumns, rows, update, increment).emitted[i].params|
  {
    if |increment| > 0 {
      assert CleanUpsert(table, indexColumns, rows[i], [], increment);
      UpsertPlaceholders(table, pk, indexColumns, rows[i], [], increment);
    } else {
      assert CleanUpsert(table, indexColumns, rows[i], update, []);
      UpsertPlaceholders(table, pk, indexColumns, rows[i], update, []);
    }
  }

  /** Where the corrected batch upserts a first row that compiles and holds
      only scalars, the batch as written past the dialect test, with the
      index columns and the primary key supplied, stops at that row with the
      private-execute error and emits nothing. */
  lemma BatchAsWrittenStops(driver: string, table: string, pk: string, indexColumns: seq<string>, rows: seq<Row>,
                            update: seq<string>)
    requires IsDriverSqlite(driver) && |rows| > 0
    requires CompileUpsert(table, pk, indexColumns, rows[0], update, []).Ok?
    requires forall i :: 0 <= i < |rows[0]| ==> !rows[0][i].1.Arr?
    ensures InsertUpdateBatchBranchesAsWritten(true, table, pk, indexColumns, rows, update, [])
            == Trace([], Some(InaccessibleExecute))
    ensures |InsertUpdateBatch(driver, table, pk, indexColumns, rows, update, []).emitted| > 0
    ensures InsertUpdateBatch(driver, table, pk, indexColumns, rows, update, []).emitted[0]
            == CompileUpsert(table, pk, indexColumns, rows[0], update, []).value
  {
    var t := InsertUpdateBatch(driver, table, pk, indexColumns, rows, update, []);
    assert SqliteUpsert(table, pk, indexColumns, rows[0], update, []).Ok?;
    assert t.failure.Some? ==> SqliteUpsert(table, pk, indexColumns, rows[|t.emitted|], update, []).Err?;
  }
}
