/** The SQL assembly of PdoModel's single-statement operations: the
    insert/update fragment builders, select, update, updateWhere,
    deleteWhere, insertUpdate, insert and replace. Each yields the statement
    it would hand to the driver; the reads done only to feed the change
    listener are kept only for the errors they can raise. */
module PdoModel {
  import opened Strings
  import opened Common
  import opened Where

  /** What a write operation did: returned false before building SQL, or
      emitted one statement. */
  datatype Outcome = Skipped | Emitted(statement: Statement)

  /** prepareUpdateData's result: one assignment per entry and the values. */
  datatype UpdateData = UpdateData(pairs: seq<string>, values: seq<Value>)
  {
    /** The `SET` list, assignments joined with ", ". */
    function Set(): string
    {
      Join(pairs, ", ")
    }
  }

  /** prepareInsertData's result: column list, marker list and values. */
  datatype InsertData = InsertData(columns: seq<string>, params: seq<string>, values: seq<Value>)
  {
    function ColumnsSql(): string
    {
      Join(columns, ", ")
    }

    function ParamsSql(): string
    {
      Join(params, ", ")
    }
  }

  /** One assignment of prepareUpdateData: bound in normal mode, the value
      interpolated verbatim in raw mode. */
  function Assignment(key: string, value: Value, raw: bool): string
  {
    if raw then key + " = " + Text(value) else "`" + key + "` = ?"
  }

  /** PdoModel::prepareUpdateData, entry by entry in the data's key order. */
  function PrepareUpdateData(data: Row, raw: bool): (r: UpdateData)
    ensures |r.pairs| == |data|
    ensures r.values == ValuesOf(data)
    ensures forall i :: 0 <= i < |data| ==> r.pairs[i] == Assignment(data[i].0, data[i].1, raw)
  {
    if |data| == 0 then UpdateData([], [])
    else
      var front := PrepareUpdateData(data[..|data| - 1], raw);
      var (k, v) := data[|data| - 1];
      UpdateData(front.pairs + [Assignment(k, v, raw)], front.values + [v])
  }

  /** PdoModel::prepareInsertData, entry by entry in the data's key order. */
  function PrepareInsertData(data: Row): (r: InsertData)
    ensures |r.columns| == |r.params| == |r.values| == |data|
    ensures r.values == ValuesOf(data)
    ensures forall i :: 0 <= i < |data| ==> r.columns[i] == "`" + data[i].0 + "`" && r.params[i] == "?"
  {
    if |data| == 0 then InsertData([], [], [])
    else
      var front := PrepareInsertData(data[..|data| - 1]);
      var (k, v) := data[|data| - 1];
      InsertData(front.columns + ["`" + k + "`"], front.params + ["?"], front.values + [v])
  }

  /** Keys whose text holds no `?`. */
  predicate CleanKeys(data: Row)
  {
    forall i :: 0 <= i < |data| ==> Marks(data[i].0) == 0
  }

  lemma AssignmentMarks(key: string, value: Value)
    ensures Marks(Assignment(key, value, false)) == Marks(key) + 1
  {
    MarksConcat("`", key);
    MarksConcat("`" + key, "` = ?");
  }

  lemma {:induction false} AssignmentsMarks(data: Row)
    requires CleanKeys(data)
    ensures SumMarks(PrepareUpdateData(data, false).pairs) == |data|
  {
    if |data| > 0 {
      var front := data[..|data| - 1];
      AssignmentsMarks(front);
      var pairs := PrepareUpdateData(data, false).pairs;
      assert pairs == PrepareUpdateData(front, false).pairs + [pairs[|data| - 1]];
      SumMarksConcat(PrepareUpdateData(front, false).pairs, [pairs[|data| - 1]]);
      AssignmentMarks(data[|data| - 1].0, data[|data| - 1].1);
    }
  }

  /** In normal mode the SET list holds exactly one `?` per value. */
  lemma UpdatePlaceholders(data: Row)
    requires CleanKeys(data)
    ensures Marks(PrepareUpdateData(data, false).Set()) == |PrepareUpdateData(data, false).values|
  {
    AssignmentsMarks(data);
    NoMarks(", ");
    MarksJoin(PrepareUpdateData(data, false).pairs, ", ");
  }

  /** The column list of a select: the given names joined with commas and
      trimmed, or `*` when none are given. */
  function ColumnList(columns: seq<string>): string
  {
    if |columns| > 0 then Trim(Join(columns, ",")) else "*"
  }

  /** `SELECT ... FROM ...`, with the WHERE fragment only when it is truthy. */
  function SelectHead(columns: string, table: string, where: WhereClause): string
  {
    if where.Clause? && Truthy(where.sql) then "SELECT " + columns + " FROM " + table + " WHERE " + where.sql
    else "SELECT " + columns + " FROM " + table + " "
  }

  function GroupClause(groupBy: Option<string>): string
  {
    if SomeTruthy(groupBy) then " GROUP BY " + groupBy.value else ""
  }

  function OrderClause(order: Option<string>): string
  {
    if SomeTruthy(order) then " ORDER BY " + order.value else ""
  }

  /** The LIMIT rule of select: both truthy gives `LIMIT offset,limit`, a
      limit alone gives `LIMIT limit`, no (or a zero) limit gives nothing. */
  function LimitClause(offset: Option<int>, limit: Option<int>): (r: string)
    ensures !NonZero(limit) ==> r == ""
    ensures NonZero(limit) && NonZero(offset) ==>
              r == " LIMIT " + IntToString(offset.value) + "," + IntToString(limit.value)
    ensures NonZero(limit) && !NonZero(offset) ==> r == " LIMIT " + IntToString(limit.value)
  {
    if NonZero(offset) && NonZero(limit) then " LIMIT " + IntToString(offset.value) + "," + IntToString(limit.value)
    else if !NonZero(offset) && NonZero(limit) then " LIMIT " + IntToString(limit.value)
    else ""
  }

  /** Everything select appends after the WHERE fragment. */
  function SelectTail(groupBy: Option<string>, order: Option<string>, offset: Option<int>, limit: Option<int>): string
  {
    GroupClause(groupBy) + OrderClause(order) + LimitClause(offset, limit)
  }

  function WhereValues(where: WhereClause): seq<Value>
  {
    if where.Clause? then where.values else []
  }

  /** PdoModel::select: criteria first, then the table name, then the scalar
      check on the bound values. */
  function Select(table: string, criteria: seq<Criterion>, order: Option<string>, limit: Option<int>,
                  offset: Option<int>, groupBy: Option<string>, columns: seq<string>): (r: Result<Statement>)
    ensures BuildWhere(criteria).Err? ==> r == Err(BuildWhere(criteria).error)
    ensures BuildWhere(criteria).Ok? && !Truthy(table) ==> r == Err(EmptyTableName)
    ensures BuildWhere(criteria).Ok? && Truthy(table) ==>
              (r.Ok? <==> forall i :: 0 <= i < |BoundValues(criteria)| ==> !BoundValues(criteria)[i].Arr?)
    ensures r.Ok? ==> r.value.params == BoundValues(criteria)
    ensures r.Ok? ==> r.value.sql == SelectHead(ColumnList(columns), table, BuildWhere(criteria).value)
                                     + SelectTail(groupBy, order, offset, limit)
  {
    match BuildWhere(criteria)
    case Err(e) => Err(e)
    case Ok(where) =>
      assert WhereValues(where) == BoundValues(criteria);
      match Table(table)
      case Err(e) => Err(e)
      case Ok(t) =>
        var sql := SelectHead(ColumnList(columns), t, where) + SelectTail(groupBy, order, offset, limit);
        Execute(sql, WhereValues(where))
  }

  lemma SelectLiteral()
    ensures Marks("SELECT ") == 0
  {
    NoMarks("SELECT ");
  }

  lemma FromLiteral()
    ensures Marks(" FROM ") == 0
  {
    NoMarks(" FROM ");
  }

  lemma WhereLiteral()
    ensures Marks(" WHERE ") == 0
  {
    NoMarks(" WHERE ");
  }

  lemma SpaceLiteral()
    ensures Marks(" ") == 0
  {
    NoMarks(" ");
  }

  lemma SelectFrontMarks(columns: string, table: string)
    ensures Marks("SELECT " + columns + " FROM " + table) == Marks(columns) + Marks(table)
  {
    SelectLiteral();
    FromLiteral();
    MarksConcat("SELECT ", columns);
    MarksConcat("SELECT " + columns, " FROM ");
    MarksConcat("SELECT " + columns + " FROM ", table);
  }

  lemma SelectHeadMarks(columns: string, table: string, where: WhereClause)
    ensures Marks(SelectHead(columns, table, where))
            == Marks(columns) + Marks(table) + (if where.Clause? && Truthy(where.sql) then Marks(where.sql) else 0)
  {
    var front := "SELECT " + columns + " FROM " + table;
    SelectFrontMarks(columns, table);
    if where.Clause? && Truthy(where.sql) {
      WhereLiteral();
      MarksConcat(front, " WHERE ");
      MarksConcat(front + " WHERE ", where.sql);
    } else {
      SpaceLiteral();
      MarksConcat(front, " ");
    }
  }

  lemma GroupMarks(groupBy: Option<string>)
    requires groupBy.Some? ==> Marks(groupBy.value) == 0
    ensures Marks(GroupClause(groupBy)) == 0
  {
    if groupBy.Some? {
      MarksConcat(" GROUP BY ", groupBy.value);
    }
  }

  lemma OrderMarks(order: Option<string>)
    requires order.Some? ==> Marks(order.value) == 0
    ensures Marks(OrderClause(order)) == 0
  {
    if order.Some? {
      MarksConcat(" ORDER BY ", order.value);
    }
  }

  lemma LimitMarks(offset: Option<int>, limit: Option<int>)
    ensures Marks(LimitClause(offset, limit)) == 0
  {
    if limit.Some? {
      var l := IntToString(limit.value);
      MarksConcat(" LIMIT ", l);
      if offset.Some? {
        var o := IntToString(offset.value);
        MarksConcat(" LIMIT ", o);
        MarksConcat(" LIMIT " + o, ",");
        MarksConcat(" LIMIT " + o + ",", l);
      }
    }
  }

  lemma TailMarks(groupBy: Option<string>, order: Option<string>, offset: Option<int>, limit: Option<int>)
    requires groupBy.Some? ==> Marks(groupBy.value) == 0
    requires order.Some? ==> Marks(order.value) == 0
    ensures Marks(SelectTail(groupBy, order, offset, limit)) == 0
  {
    GroupMarks(groupBy);
    OrderMarks(order);
    LimitMarks(offset, limit);
    MarksConcat(GroupClause(groupBy), OrderClause(order));
    MarksConcat(GroupClause(groupBy) + OrderClause(order), LimitClause(offset, limit));
  }

  /** One `?` per bound value in a select whose table, columns, grouping,
      ordering and criteria text hold none of their own. */
  lemma SelectPlaceholders(table: string, criteria: seq<Criterion>, order: Option<string>, limit: Option<int>,
                           offset: Option<int>, groupBy: Option<string>, columns: seq<string>)
    requires Marks(table) == 0 && SumMarks(columns) == 0
    requires groupBy.Some? ==> Marks(groupBy.value) == 0
    requires order.Some? ==> Marks(order.value) == 0
    requires forall i :: 0 <= i < |criteria| ==> Clean(criteria[i])
    requires Select(table, criteria, order, limit, offset, groupBy, columns).Ok?
    ensures var s := Select(table, criteria, order, limit, offset, groupBy, columns).value;
            Marks(s.sql) == |s.params|
  {
    var where := BuildWhere(criteria).value;
    if |criteria| > 0 {
      WherePlaceholders(criteria);
    }
    SelectTextMarks(table, where, BoundValues(criteria), order, limit, offset, groupBy, columns);
  }

  lemma SelectTextMarks(table: string, where: WhereClause, values: seq<Value>, order: Option<string>,
                        limit: Option<int>, offset: Option<int>, groupBy: Option<string>, columns: seq<string>)
    requires Marks(table) == 0 && SumMarks(columns) == 0
    requires groupBy.Some? ==> Marks(groupBy.value) == 0
    requires order.Some? ==> Marks(order.value) == 0
    requires where.NoCriteria? ==> values == []
    requires where.Clause? ==> Marks(where.sql) == |values| && where.values == values
    ensures Marks(SelectHead(ColumnList(columns), table, where) + SelectTail(groupBy, order, offset, limit)) == |values|
  {
    var head := SelectHead(ColumnList(columns), table, where);
    var tail := SelectTail(groupBy, order, offset, limit);
    assert Marks(head) == |values| by {
      ColumnListMarks(columns);
      HeadPlaceholders(ColumnList(columns), table, where, values);
    }
    assert Marks(tail) == 0 by {
      TailMarks(groupBy, order, offset, limit);
    }
    MarksConcat(head, tail);
  }

  lemma HeadPlaceholders(columns: string, table: string, where: WhereClause, values: seq<Value>)
    requires Marks(table) == 0 && Marks(columns) == 0
    requires where.NoCriteria? ==> values == []
    requires where.Clause? ==> Marks(where.sql) == |values|
    ensures Marks(SelectHead(columns, table, where)) == |values|
  {
    SelectHeadMarks(columns, table, where);
    if where.Clause? && !Truthy(where.sql) {
      assert Marks(where.sql) == 0;
    }
  }

  lemma ColumnListMarks(columns: seq<string>)
    requires SumMarks(columns) == 0
    ensures Marks(ColumnList(columns)) == 0
  {
    MarksJoin(columns, ",");
    if |columns| > 0 {
      TrimMarks(Join(columns, ","));
    }
  }

  /** The empty-criteria form: all columns, no WHERE, nothing bound. */
  lemma SelectDefaults(table: string)
    requires Truthy(table)
    ensures Select(table, [], None, None, None, None, []) == Ok(Statement("SELECT * FROM " + table + " ", []))
  {
    assert BuildWhere([]) == Ok(NoCriteria);
    assert Table(table) == Ok(table);
    assert ColumnList([]) == "*";
    assert SelectHead("*", table, NoCriteria) == "SELECT * FROM " + table + " ";
    assert LimitClause(None, None) == "";
    assert GroupClause(None) == "";
    assert OrderClause(None) == "";
    assert Execute("SELECT * FROM " + table + " ", []) == Ok(Statement("SELECT * FROM " + table + " ", []));
    assert SelectTail(None, None, None, None) == "";
    assert "SELECT * FROM " + table + " " + "" == "SELECT * FROM " + table + " ";
  }

  /** PdoModel::update: empty data returns false; otherwise the SET values
      are bound first and the id last. */
  function Update(table: string, id: int, data: Row): (r: Result<Outcome>)
    ensures r == Ok(Skipped) <==> |data| == 0
    ensures |data| > 0 && !Truthy(table) ==> r == Err(EmptyTableName)
    ensures |data| > 0 && Truthy(table) ==> (r.Ok? <==> forall i :: 0 <= i < |data| ==> !data[i].1.Arr?)
    ensures r.Ok? && r.value.Emitted? ==> r.value.statement.params == ValuesOf(data) + [Int(id)]
    ensures r.Ok? && r.value.Emitted? ==>
              r.value.statement.sql == "UPDATE `" + table + "` SET " + PrepareUpdateData(data, false).Set() + " WHERE id = ?"
  {
    if |data| == 0 then Ok(Skipped)
    else match Table(table)
      case Err(e) => Err(e)
      case Ok(t) =>
        var assignments := PrepareUpdateData(data, false);
        var sql := "UPDATE `" + t + "` SET " + assignments.Set() + " WHERE id = ?";
        ScalarConcat(ValuesOf(data), [Int(id)]);
        match Execute(sql, assignments.values + [Int(id)])
        case Err(e) => Err(e)
        case Ok(s) => Ok(Emitted(s))
  }

  lemma UpdateLiteral()
    ensures Marks("UPDATE `") == 0
  {
    NoMarks("UPDATE `");
  }

  lemma SetLiteral()
    ensures Marks("` SET ") == 0
  {
    NoMarks("` SET ");
  }

  lemma IdLiteral()
    ensures Marks(" WHERE id = ?") == 1
  {
    OneMark(" WHERE id = ?", 12);
  }

  lemma UpdateTextMarks(table: string, assignments: string)
    ensures Marks("UPDATE `" + table + "` SET " + assignments + " WHERE id = ?") == Marks(table) + Marks(assignments) + 1
  {
    UpdateLiteral();
    SetLiteral();
    IdLiteral();
    MarksConcat("UPDATE `", table);
    MarksConcat("UPDATE `" + table, "` SET ");
    MarksConcat("UPDATE `" + table + "` SET ", assignments);
    MarksConcat("UPDATE `" + table + "` SET " + assignments, " WHERE id = ?");
  }

  /** One `?` per bound value in an update whose table and keys hold none. */
  lemma UpdateStatementPlaceholders(table: string, id: int, data: Row)
    requires Marks(table) == 0 && CleanKeys(data)
    requires Update(table, id, data).Ok? && Update(table, id, data).value.Emitted?
    ensures var s := Update(table, id, data).value.statement; Marks(s.sql) == |s.params|
  {
    UpdatePlaceholders(data);
    UpdateTextMarks(table, PrepareUpdateData(data, false).Set());
  }

  /** PdoModel::updateWhere: empty data or criteria return false; the
      listener's pre-read select runs first and can fail; SET values are
      bound before the criteria values. */
  function UpdateWhere(table: string, criteria: seq<Criterion>, data: Row): (r: Result<Outcome>)
    ensures r == Ok(Skipped) <==> |data| == 0 || |criteria| == 0
    ensures |data| > 0 && |criteria| > 0 && BuildWhere(criteria).Err? ==> r == Err(BuildWhere(criteria).error)
    ensures |data| > 0 && |criteria| > 0 && BuildWhere(criteria).Ok? && !Truthy(table) ==> r == Err(EmptyTableName)
    ensures |data| > 0 && |criteria| > 0 && BuildWhere(criteria).Ok? && Truthy(table) ==>
              (r.Ok? <==> Scalars(ValuesOf(data)) && Scalars(BoundValues(criteria)))
    ensures r.Ok? && r.value.Emitted? ==> r.value.statement.params == ValuesOf(data) + BoundValues(criteria)
    ensures r.Ok? && r.value.Emitted? ==>
              r.value.statement.sql == "UPDATE `" + table + "` SET " + PrepareUpdateData(data, false).Set()
                                       + " WHERE " + BuildWhere(criteria).value.sql
  {
    if |data| == 0 || |criteria| == 0 then Ok(Skipped)
    else match Select(table, criteria, None, None, None, None, [])
      case Err(e) =>
        assert BuildWhere(criteria).Ok? && Truthy(table) ==> !Scalars(BoundValues(criteria));
        Err(e)
      case Ok(_) =>
        var where := BuildWhere(criteria).value;
        assert where.values == BoundValues(criteria);
        var assignments := PrepareUpdateData(data, false);
        var sql := "UPDATE `" + table + "` SET " + assignments.Set() + " WHERE " + where.sql;
        ScalarsConcat(ValuesOf(data), where.values);
        match Execute(sql, assignments.values + where.values)
        case Err(e) => Err(e)
        case Ok(s) => Ok(Emitted(s))
  }

  /** PdoModel::deleteWhere: empty criteria return false; otherwise the
      criteria values are bound. */
  function DeleteWhere(table: string, criteria: seq<Criterion>): (r: Result<Outcome>)
    ensures r == Ok(Skipped) <==> |criteria| == 0
    ensures |criteria| > 0 && BuildWhere(criteria).Err? ==> r == Err(BuildWhere(criteria).error)
    ensures |criteria| > 0 && BuildWhere(criteria).Ok? && !Truthy(table) ==> r == Err(EmptyTableName)
    ensures |criteria| > 0 && BuildWhere(criteria).Ok? && Truthy(table) ==> (r.Ok? <==> Scalars(BoundValues(criteria)))
    ensures r.Ok? && r.value.Emitted? ==> r.value.statement.params == BoundValues(criteria)
    ensures r.Ok? && r.value.Emitted? ==> r.value.statement.sql == "DELETE FROM " + table + " WHERE " + BuildWhere(criteria).value.sql
  {
    if |criteria| == 0 then Ok(Skipped)
    else match Select(table, criteria, None, None, None, None, [])
      case Err(e) =>
        assert BuildWhere(criteria).Ok? && Truthy(table) ==> !Scalars(BoundValues(criteria));
        Err(e)
      case Ok(_) =>
        var where := BuildWhere(criteria).value;
        assert where.values == BoundValues(criteria);
        match Execute("DELETE FROM " + table + " WHERE " + where.sql, where.values)
        case Err(e) => Err(e)
        case Ok(s) => Ok(Emitted(s))
  }

  lemma DeleteLiteral()
    ensures Marks("DELETE FROM ") == 0
  {
    NoMarks("DELETE FROM ");
  }

  /** One `?` per bound value in a deleteWhere whose table and criteria text
      hold none: the WHERE fragment is the only source of `?`. */
  lemma DeleteWherePlaceholders(table: string, criteria: seq<Criterion>)
    requires Marks(table) == 0 && forall i :: 0 <= i < |criteria| ==> Clean(criteria[i])
    requires DeleteWhere(table, criteria).Ok? && DeleteWhere(table, criteria).value.Emitted?
    ensures var s := DeleteWhere(table, criteria).value.statement; Marks(s.sql) == |s.params|
  {
    WherePlaceholders(criteria);
    DeleteWhereTextMarks(table, BuildWhere(criteria).value.sql);
  }

  lemma DeleteWhereTextMarks(table: string, where: string)
    ensures Marks("DELETE FROM " + table + " WHERE " + where) == Marks(table) + Marks(where)
  {
    DeleteLiteral();
    WhereLiteral();
    MarksConcat("DELETE FROM ", table);
    MarksConcat("DELETE FROM " + table, " WHERE ");
    MarksConcat("DELETE FROM " + table + " WHERE ", where);
  }

  lemma UpdateWhereTextMarks(table: string, assignments: string, where: string)
    ensures Marks("UPDATE `" + table + "` SET " + assignments + " WHERE " + where)
            == Marks(table) + Marks(assignments) + Marks(where)
  {
    UpdateLiteral();
    SetLiteral();
    WhereLiteral();
    var a := "UPDATE `" + table;
    var b := a + "` SET ";
    var c := b + assignments;
    var d := c + " WHERE ";
    MarksConcat("UPDATE `", table);
    MarksConcat(a, "` SET ");
    MarksConcat(b, assignments);
    MarksConcat(c, " WHERE ");
    MarksConcat(d, where);
  }

  /** One `?` per bound value in an updateWhere whose table, keys and
      criteria text hold none: the SET values' markers come first, then the
      WHERE fragment's. */
  lemma UpdateWherePlaceholders(table: string, criteria: seq<Criterion>, data: Row)
    requires Marks(table) == 0 && CleanKeys(data) && forall i :: 0 <= i < |criteria| ==> Clean(criteria[i])
    requires UpdateWhere(table, criteria, data).Ok? && UpdateWhere(table, criteria, data).value.Emitted?
    ensures var s := UpdateWhere(table, criteria, data).value.statement; Marks(s.sql) == |s.params|
  {
    WherePlaceholders(criteria);
    UpdatePlaceholders(data);
    UpdateWhereTextMarks(table, PrepareUpdateData(data, false).Set(), BuildWhere(criteria).value.sql);
  }

  /** Two value lists, one after the other, hold no array exactly when
      neither does. */
  lemma ScalarConcat(xs: seq<Value>, ys: seq<Value>)
    ensures (forall i :: 0 <= i < |xs + ys| ==> !(xs + ys)[i].Arr?)
            <==> (forall i :: 0 <= i < |xs| ==> !xs[i].Arr?) && (forall i :: 0 <= i < |ys| ==> !ys[i].Arr?)
  {
    var zs := xs + ys;
    assert forall i :: 0 <= i < |xs| ==> zs[i] == xs[i];
    assert forall i :: 0 <= i < |ys| ==> zs[|xs| + i] == ys[i];
    if (forall i :: 0 <= i < |xs| ==> !xs[i].Arr?) && (forall i :: 0 <= i < |ys| ==> !ys[i].Arr?) {
      forall i | 0 <= i < |zs|
        ensures !zs[i].Arr?
      {
        if i >= |xs| {
          assert zs[i] == ys[i - |xs|];
        }
      }
    }
  }

  /** The same, stated with Scalars. */
  lemma ScalarsConcat(xs: seq<Value>, ys: seq<Value>)
    ensures Scalars(xs + ys) <==> Scalars(xs) && Scalars(ys)
  {
    ScalarConcat(xs, ys);
  }

  /** The values of two rows, one after the other, hold no array exactly
      when neither row does. */
  lemma ScalarPair(a: Row, b: Row)
    ensures (forall i :: 0 <= i < |ValuesOf(a) + ValuesOf(b)| ==> !(ValuesOf(a) + ValuesOf(b))[i].Arr?)
            <==> (forall i :: 0 <= i < |a| ==> !a[i].1.Arr?) && (forall i :: 0 <= i < |b| ==> !b[i].1.Arr?)
  {
    ScalarConcat(ValuesOf(a), ValuesOf(b));
  }

  /** PdoModel::insertUpdate (MySQL): empty insert or update data return
      false; insert values are bound before update values, and raw mode
      binds nothing because the values are interpolated. */
  function InsertUpdate(table: string, insert: Row, update: Row, raw: bool): (r: Result<Outcome>)
    ensures r == Ok(Skipped) <==> |insert| == 0 || |update| == 0
    ensures |insert| > 0 && |update| > 0 && !Truthy(table) ==> r == Err(EmptyTableName)
    ensures |insert| > 0 && |update| > 0 && Truthy(table) ==>
              (r.Ok? <==> raw || ((forall i :: 0 <= i < |insert| ==> !insert[i].1.Arr?)
                                  && (forall i :: 0 <= i < |update| ==> !update[i].1.Arr?)))
    ensures r.Ok? && r.value.Emitted? ==>
              r.value.statement.params == (if raw then [] else ValuesOf(insert) + ValuesOf(update))
    ensures r.Ok? && r.value.Emitted? ==>
              r.value.statement.sql == "INSERT INTO `" + table + "` SET " + PrepareUpdateData(insert, raw).Set()
                                       + " ON DUPLICATE KEY UPDATE " + PrepareUpdateData(update, raw).Set()
  {
    if |insert| == 0 || |update| == 0 then Ok(Skipped)
    else
      var insertData := PrepareUpdateData(insert, raw);
      var updateData := PrepareUpdateData(update, raw);
      match Table(table)
      case Err(e) => Err(e)
      case Ok(t) =>
        var sql := "INSERT INTO `" + t + "` SET " + insertData.Set() + " ON DUPLICATE KEY UPDATE " + updateData.Set();
        var params := if raw then [] else insertData.values + updateData.values;
        ScalarPair(insert, update);
        match Execute(sql, params)
        case Err(e) => Err(e)
        case Ok(s) => Ok(Emitted(s))
  }

  lemma InsertLiteral()
    ensures Marks("INSERT INTO `") == 0
  {
    NoMarks("INSERT INTO `");
  }

  lemma DuplicateLiteral()
    ensures Marks(" ON DUPLICATE KEY UPDATE ") == 0
  {
    NoMarks(" ON DUPLICATE KEY UPDATE ");
  }

  lemma UpsertTextMarks(table: string, inserts: string, updates: string)
    ensures Marks("INSERT INTO `" + table + "` SET " + inserts + " ON DUPLICATE KEY UPDATE " + updates)
            == Marks(table) + Marks(inserts) + Marks(updates)
  {
    InsertLiteral();
    SetLiteral();
    DuplicateLiteral();
    var a := "INSERT INTO `" + table;
    var b := a + "` SET ";
    var c := b + inserts;
    var d := c + " ON DUPLICATE KEY UPDATE ";
    MarksConcat("INSERT INTO `", table);
    MarksConcat(a, "` SET ");
    MarksConcat(b, inserts);
    MarksConcat(c, " ON DUPLICATE KEY UPDATE ");
    MarksConcat(d, updates);
  }

  /** One `?` per bound value in a bound (not raw) insertUpdate whose table
      and keys hold none: the insert values fill the SET list, the update
      values the ON DUPLICATE KEY UPDATE list. */
  lemma InsertUpdatePlaceholders(table: string, insert: Row, update: Row)
    requires Marks(table) == 0 && CleanKeys(insert) && CleanKeys(update)
    requires InsertUpdate(table, insert, update, false).Ok? && InsertUpdate(table, insert, update, false).value.Emitted?
    ensures var s := InsertUpdate(table, insert, update, false).value.statement; Marks(s.sql) == |s.params|
  {
    UpdatePlaceholders(insert);
    UpdatePlaceholders(update);
    UpsertTextMarks(table, PrepareUpdateData(insert, false).Set(), PrepareUpdateData(update, false).Set());
  }

  /** PdoModel::insert's statement: `INSERT [IGNORE ]INTO `t` (cols) VALUES (?, ...)`. */
  function Insert(table: string, data: Row, ignore: bool): (r: Result<Statement>)
    ensures !Truthy(table) ==> r == Err(EmptyTableName)
    ensures r.Ok? <==> Truthy(table) && forall i :: 0 <= i < |data| ==> !data[i].1.Arr?
    ensures r.Ok? ==> r.value.params == ValuesOf(data)
    ensures r.Ok? ==> r.value.sql == "INSERT " + (if ignore then "IGNORE " else "") + "INTO `" + table + "` ("
                                     + PrepareInsertData(data).ColumnsSql() + ") VALUES ("
                                     + PrepareInsertData(data).ParamsSql() + ")"
  {
    var insertData := PrepareInsertData(data);
    match Table(table)
    case Err(e) => Err(e)
    case Ok(t) =>
      Execute("INSERT " + (if ignore then "IGNORE " else "") + "INTO `" + t + "` (" + insertData.ColumnsSql()
              + ") VALUES (" + insertData.ParamsSql() + ")", insertData.values)
  }

  /** PdoModel::replace's statement, the same shape with REPLACE. */
  function Replace(table: string, data: Row): (r: Result<Statement>)
    ensures !Truthy(table) ==> r == Err(EmptyTableName)
    ensures r.Ok? <==> Truthy(table) && forall i :: 0 <= i < |data| ==> !data[i].1.Arr?
    ensures r.Ok? ==> r.value.params == ValuesOf(data)
    ensures r.Ok? ==> r.value.sql == "REPLACE INTO `" + table + "` (" + PrepareInsertData(data).ColumnsSql()
                                     + ") VALUES (" + PrepareInsertData(data).ParamsSql() + ")"
  {
    var insertData := PrepareInsertData(data);
    match Table(table)
    case Err(e) => Err(e)
    case Ok(t) =>
      Execute("REPLACE INTO `" + t + "` (" + insertData.ColumnsSql() + ") VALUES (" + insertData.ParamsSql() + ")",
              insertData.values)
  }

  /** The marker list of prepareInsertData holds exactly one `?` per value. */
  lemma InsertMarkers(data: Row)
    ensures Marks(PrepareInsertData(data).ParamsSql()) == |PrepareInsertData(data).values|
  {
    var params := PrepareInsertData(data).params;
    assert params == Repeat(|data|, "?");
    SumMarksRepeat(|data|, "?");
    NoMarks(", ");
    MarksJoin(params, ", ");
  }

  lemma QuotedMarks(name: string)
    ensures Marks("`" + name + "`") == Marks(name)
  {
    MarksConcat("`", name);
    MarksConcat("`" + name, "`");
  }

  lemma {:induction false} QuotedColumns(data: Row)
    requires CleanKeys(data)
    ensures SumMarks(PrepareInsertData(data).columns) == 0
  {
    if |data| > 0 {
      var front := data[..|data| - 1];
      QuotedColumns(front);
      var columns := PrepareInsertData(data).columns;
      assert columns == PrepareInsertData(front).columns + [columns[|data| - 1]];
      SumMarksConcat(PrepareInsertData(front).columns, [columns[|data| - 1]]);
      QuotedMarks(data[|data| - 1].0);
    }
  }

  /** The column list of keys without `?` holds none. */
  lemma ColumnsMarks(data: Row)
    requires CleanKeys(data)
    ensures Marks(PrepareInsertData(data).ColumnsSql()) == 0
  {
    QuotedColumns(data);
    MarksJoin(PrepareInsertData(data).columns, ", ");
  }

  lemma InsertWordLiteral()
    ensures Marks("INSERT ") == 0
  {
    NoMarks("INSERT ");
  }

  lemma IgnoreLiteral()
    ensures Marks("IGNORE ") == 0
  {
    NoMarks("IGNORE ");
  }

  lemma IntoLiteral()
    ensures Marks("INTO `") == 0
  {
    NoMarks("INTO `");
  }

  lemma ReplaceLiteral()
    ensures Marks("REPLACE INTO `") == 0
  {
    NoMarks("REPLACE INTO `");
  }

  lemma OpenLiteral()
    ensures Marks("` (") == 0
  {
    NoMarks("` (");
  }

  lemma ValuesOpenLiteral()
    ensures Marks(") VALUES (") == 0
  {
    NoMarks(") VALUES (");
  }

  lemma CloseLiteral()
    ensures Marks(")") == 0
  {
    NoMarks(")");
  }

  lemma InsertPrefixMarks(ignore: bool)
    ensures Marks("INSERT " + (if ignore then "IGNORE " else "") + "INTO `") == 0
  {
    InsertWordLiteral();
    IgnoreLiteral();
    IntoLiteral();
    NoMarks("");
    var middle := if ignore then "IGNORE " else "";
    MarksConcat("INSERT ", middle);
    MarksConcat("INSERT " + middle, "INTO `");
  }

  /** The `... (columns) VALUES (markers)` statement adds no `?` of its own. */
  lemma InsertTextMarks(prefix: string, table: string, columns: string, params: string)
    requires Marks(prefix) == 0
    ensures Marks(prefix + table + "` (" + columns + ") VALUES (" + params + ")")
            == Marks(table) + Marks(columns) + Marks(params)
  {
    OpenLiteral();
    ValuesOpenLiteral();
    CloseLiteral();
    var a := prefix + table;
    var b := a + "` (";
    var c := b + columns;
    var d := c + ") VALUES (";
    var e := d + params;
    MarksConcat(prefix, table);
    MarksConcat(a, "` (");
    MarksConcat(b, columns);
    MarksConcat(c, ") VALUES (");
    MarksConcat(d, params);
    MarksConcat(e, ")");
  }

  /** One `?` per bound value in an insert whose table and keys hold none:
      the marker list is the only source of `?`. */
  lemma InsertPlaceholders(table: string, data: Row, ignore: bool)
    requires Marks(table) == 0 && CleanKeys(data) && Insert(table, data, ignore).Ok?
    ensures Marks(Insert(table, data, ignore).value.sql) == |Insert(table, data, ignore).value.params|
  {
    var insertData := PrepareInsertData(data);
    ColumnsMarks(data);
    InsertMarkers(data);
    InsertPrefixMarks(ignore);
    InsertTextMarks("INSERT " + (if ignore then "IGNORE " else "") + "INTO `", table,
                    insertData.ColumnsSql(), insertData.ParamsSql());
  }

  /** One `?` per bound value in a replace whose table and keys hold none. */
  lemma ReplacePlaceholders(table: string, data: Row)
    requires Marks(table) == 0 && CleanKeys(data) && Replace(table, data).Ok?
    ensures Marks(Replace(table, data).value.sql) == |Replace(table, data).value.params|
  {
    var insertData := PrepareInsertData(data);
    ColumnsMarks(data);
    InsertMarkers(data);
    ReplaceLiteral();
    InsertTextMarks("REPLACE INTO `", table, insertData.ColumnsSql(), insertData.ParamsSql());
  }
}
