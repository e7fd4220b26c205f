/** SelectorBuilder: a fluent SELECT builder. Each call records a WHERE part
    (and for `where` and `whereEqual` a bound value), a clause, or the column
    list; buildSql assembles them. Unlike PdoModel::select, clauses are kept
    whenever they were set (`!== null`), so a zero limit or a "0" grouping
    still appear. */
module Selector {
  import opened Strings
  import opened Common
  import Where
  import PdoModel

  datatype Selector = Selector(
    table: string,
    limit: Option<int>,
    offset: Option<int>,
    orderBy: Option<string>,
    groupBy: Option<string>,
    whereParts: seq<string>,
    params: seq<Option<string>>,
    columns: string)

  /** The constructor: all columns, nothing else set. */
  function New(table: string): (s: Selector)
    ensures s.table == table && s.columns == "*"
    ensures s.whereParts == [] && s.params == []
    ensures s.limit.None? && s.offset.None? && s.orderBy.None? && s.groupBy.None?
  {
    Selector(table, None, None, None, None, [], [], "*")
  }

  /** The operands `where` accepts after normalisation; IN and NOT IN are
      not among them (they have their own calls). */
  const SelectorOperands: seq<string> := [">", "<", "=", "!=", ">=", "<=", "LIKE", "NOT LIKE", "IS", "IS NOT"]

  /** `trim(strtoupper($operand))`. */
  function Normalize(operand: string): string
  {
    Trim(ToUpper(operand))
  }

  /** SelectorBuilder::where: `column OP ?` with the value bound, or an
      error naming the normalised operand. */
  function WhereOp(s: Selector, column: string, operand: string, value: Option<string>): (r: Result<Selector>)
    ensures r.Ok? <==> Normalize(operand) in SelectorOperands
    ensures r.Err? ==> r.error == WrongOperand(Normalize(operand))
    ensures r.Ok? ==> r.value.params == s.params + [value] && |r.value.whereParts| == |s.whereParts| + 1
    ensures r.Ok? ==> r.value.whereParts == s.whereParts + [column + " " + Normalize(operand) + " ?"]
    ensures r.Ok? ==> r.value.(whereParts := s.whereParts, params := s.params) == s
  {
    var op := Normalize(operand);
    if op !in SelectorOperands then Err(WrongOperand(op))
    else Ok(s.(whereParts := s.whereParts + [column + " " + op + " ?"], params := s.params + [value]))
  }

  /** SelectorBuilder::whereIn: the values inlined, nothing bound. */
  function WhereIn(s: Selector, column: string, values: seq<Value>): (r: Selector)
    ensures r.whereParts == s.whereParts + [column + " IN (" + Where.InlineList(values) + ")"]
    ensures r.(whereParts := s.whereParts) == s
  {
    s.(whereParts := s.whereParts + [column + " IN (" + Where.InlineList(values) + ")"])
  }

  /** SelectorBuilder::whereNotIn: the values inlined, nothing bound. */
  function WhereNotIn(s: Selector, column: string, values: seq<Value>): (r: Selector)
    ensures r.whereParts == s.whereParts + [column + " NOT IN (" + Where.InlineList(values) + ")"]
    ensures r.(whereParts := s.whereParts) == s
  {
    s.(whereParts := s.whereParts + [column + " NOT IN (" + Where.InlineList(values) + ")"])
  }

  /** SelectorBuilder::whereIsNull: a part, nothing bound. */
  function WhereIsNull(s: Selector, column: string): (r: Selector)
    ensures r.whereParts == s.whereParts + [column + " IS NULL"]
    ensures r.(whereParts := s.whereParts) == s
  {
    s.(whereParts := s.whereParts + [column + " IS NULL"])
  }

  /** SelectorBuilder::whereIsNotNull: a part, nothing bound. */
  function WhereIsNotNull(s: Selector, column: string): (r: Selector)
    ensures r.whereParts == s.whereParts + [column + " IS NOT NULL"]
    ensures r.(whereParts := s.whereParts) == s
  {
    s.(whereParts := s.whereParts + [column + " IS NOT NULL"])
  }

  /** SelectorBuilder::whereEqual: `column = ?` with the value bound. */
  function WhereEqual(s: Selector, column: string, value: string): (r: Selector)
    ensures r.whereParts == s.whereParts + [column + " = ?"]
    ensures r.params == s.params + [Some(value)]
    ensures r.(whereParts := s.whereParts, params := s.params) == s
  {
    s.(whereParts := s.whereParts + [column + " = ?"], params := s.params + [Some(value)])
  }

  /** The argument of SelectorBuilder::columns: a PHP array (its entries
      with their keys) or a string. */
  datatype Key = IntKey(i: int) | StrKey(s: string)
  datatype ColumnsArg = Names(entries: seq<(Key, string)>) | Fragment(text: string)

  /** PHP `array_is_list`: the keys are 0, 1, 2, ... in order. */
  predicate IsList(entries: seq<(Key, string)>)
  {
    forall i :: 0 <= i < |entries| ==> entries[i].0 == IntKey(i)
  }

  /** SelectorBuilder::columns: a list is joined with commas, a string is
      taken as it is, any other array is rejected. */
  function Columns(s: Selector, arg: ColumnsArg): (r: Result<Selector>)
    ensures r.Err? <==> arg.Names? && !IsList(arg.entries)
    ensures r.Err? ==> r.error == ColumnsNotAList
    ensures r.Ok? ==> r.value.(columns := s.columns) == s
    ensures r.Ok? && arg.Fragment? ==> r.value.columns == arg.text
    ensures r.Ok? && arg.Names? ==> r.value.columns == Join(ValuesOf(arg.entries), ",")
  {
    match arg
    case Fragment(text) => Ok(s.(columns := text))
    case Names(entries) =>
      if !IsList(entries) then Err(ColumnsNotAList) else Ok(s.(columns := Join(ValuesOf(entries), ",")))
  }

  /** ` WHERE p1 AND p2 ` when there are parts. */
  function WhereSql(parts: seq<string>): (r: string)
    ensures r == "" <==> |parts| == 0
    ensures |parts| > 0 ==> r == " WHERE " + Join(parts, " AND ") + " "
  {
    if |parts| == 0 then "" else " WHERE " + Join(parts, " AND ") + " "
  }

  /** The grouping is kept whenever it was set, even when empty or "0". */
  function GroupSql(groupBy: Option<string>): (r: string)
    ensures r == "" <==> groupBy.None?
    ensures groupBy.Some? ==> r == " GROUP BY " + groupBy.value
  {
    if groupBy.Some? then " GROUP BY " + groupBy.value else ""
  }

  /** The ordering is kept whenever it was set, even when empty or "0". */
  function OrderSql(orderBy: Option<string>): (r: string)
    ensures r == "" <==> orderBy.None?
    ensures orderBy.Some? ==> r == " ORDER BY " + orderBy.value
  {
    if orderBy.Some? then " ORDER BY " + orderBy.value else ""
  }

  /** ` LIMIT offset , limit ` when both are set, ` LIMIT limit` for a limit
      alone, nothing otherwise (an offset alone is dropped). */
  function LimitSql(offset: Option<int>, limit: Option<int>): (r: string)
    ensures limit.None? ==> r == ""
    ensures offset.Some? && limit.Some? ==>
              r == " LIMIT " + IntToString(offset.value) + " , " + IntToString(limit.value) + " "
    ensures offset.None? && limit.Some? ==> r == " LIMIT " + IntToString(limit.value)
  {
    if offset.Some? && limit.Some? then " LIMIT " + IntToString(offset.value) + " , " + IntToString(limit.value) + " "
    else if limit.Some? then " LIMIT " + IntToString(limit.value)
    else ""
  }

  function TailSql(s: Selector): string
  {
    GroupSql(s.groupBy) + OrderSql(s.orderBy) + LimitSql(s.offset, s.limit)
  }

  function HeadSql(s: Selector): string
  {
    "SELECT " + s.columns + " FROM " + s.table + " "
  }

  /** SelectorBuilder::buildSql: the head, then the WHERE, GROUP BY, ORDER BY
      and LIMIT clauses in that fixed order, whatever order the calls came in. */
  function BuildSql(s: Selector): (r: string)
    ensures r == "SELECT " + s.columns + " FROM " + s.table + " " + WhereSql(s.whereParts)
                 + GroupSql(s.groupBy) + OrderSql(s.orderBy) + LimitSql(s.offset, s.limit)
  {
    HeadSql(s) + WhereSql(s.whereParts) + TailSql(s)
  }

  /** The statement execute() prepares: the SQL and the recorded values, a
      missing value bound as NULL. */
  function Prepared(s: Selector): (r: Statement)
    ensures r.sql == BuildSql(s) && |r.params| == |s.params|
    ensures forall i :: 0 <= i < |s.params| ==> r.params[i] == (if s.params[i].Some? then Str(s.params[i].value) else Null)
  {
    Statement(BuildSql(s), seq(|s.params|, i requires 0 <= i < |s.params| =>
                                 if s.params[i].Some? then Str(s.params[i].value) else Null))
  }

  /** One builder call. */
  datatype Call =
    | CallWhere(column: string, operand: string, value: Option<string>)
    | CallWhereIn(column: string, values: seq<Value>)
    | CallWhereNotIn(column: string, values: seq<Value>)
    | CallWhereIsNull(column: string)
    | CallWhereIsNotNull(column: string)
    | CallWhereEqual(column: string, text: string)
    | CallGroupBy(group: string)
    | CallOrderBy(order: string)
    | CallLimit(limit: int)
    | CallOffset(offset: int)
    | CallColumns(arg: ColumnsArg)

  function Apply(s: Selector, call: Call): Result<Selector>
  {
    match call
    case CallWhere(c, op, v) => WhereOp(s, c, op, v)
    case CallWhereIn(c, vs) => Ok(WhereIn(s, c, vs))
    case CallWhereNotIn(c, vs) => Ok(WhereNotIn(s, c, vs))
    case CallWhereIsNull(c) => Ok(WhereIsNull(s, c))
    case CallWhereIsNotNull(c) => Ok(WhereIsNotNull(s, c))
    case CallWhereEqual(c, v) => Ok(WhereEqual(s, c, v))
    case CallGroupBy(g) => Ok(s.(groupBy := Some(g)))
    case CallOrderBy(o) => Ok(s.(orderBy := Some(o)))
    case CallLimit(l) => Ok(s.(limit := Some(l)))
    case CallOffset(o) => Ok(s.(offset := Some(o)))
    case CallColumns(arg) => Columns(s, arg)
  }

  /** A call the builder rejects: an operand outside the list, or an array
      of columns that is not a list. */
  predicate Rejected(call: Call)
  {
    (call.CallWhere? && Normalize(call.operand) !in SelectorOperands)
    || (call.CallColumns? && call.arg.Names? && !IsList(call.arg.entries))
  }

  /** A chain of calls, stopped by the first exception. */
  function Run(s: Selector, calls: seq<Call>): Result<Selector>
    decreases |calls|
  {
    if |calls| == 0 then Ok(s)
    else match Apply(s, calls[0])
      case Err(e) => Err(e)
      case Ok(next) => Run(next, calls[1..])
  }

  /** The values a chain of calls binds, in call order. */
  function BoundBy(calls: seq<Call>): seq<Option<string>>
  {
    if |calls| == 0 then []
    else (match calls[0]
          case CallWhere(_, _, v) => [v]
          case CallWhereEqual(_, v) => [Some(v)]
          case _ => []) + BoundBy(calls[1..])
  }

  lemma ApplyOutcome(s: Selector, call: Call)
    ensures Apply(s, call).Err? <==> Rejected(call)
    ensures Apply(s, call).Ok? ==> Apply(s, call).value.params == s.params + BoundBy([call])
    ensures Apply(s, call).Ok? ==> Apply(s, call).value.table == s.table
  {
    assert BoundBy([call]) == (match call
                               case CallWhere(_, _, v) => [v]
                               case CallWhereEqual(_, v) => [Some(v)]
                               case _ => []) + BoundBy([]);
  }

  /** One step of a chain: a rejected first call stops it, any other call
      hands its result to the rest of the chain. */
  lemma RunStep(s: Selector, calls: seq<Call>)
    requires |calls| > 0
    ensures Rejected(calls[0]) ==> Run(s, calls).Err?
    ensures !Rejected(calls[0]) ==> Apply(s, calls[0]).Ok? && Run(s, calls) == Run(Apply(s, calls[0]).value, calls[1..])
    ensures !Rejected(calls[0]) ==> Apply(s, calls[0]).value.params == s.params + BoundBy([calls[0]])
  {
    ApplyOutcome(s, calls[0]);
  }

  /** A chain succeeds exactly when none of its calls is rejected; then the
      bound values are the initial ones followed by those the calls bind, in
      call order. */
  lemma {:induction false} RunOutcome(s: Selector, calls: seq<Call>)
    ensures Run(s, calls).Ok? <==> forall i :: 0 <= i < |calls| ==> !Rejected(calls[i])
    ensures Run(s, calls).Ok? ==> Run(s, calls).value.params == s.params + BoundBy(calls)
    decreases |calls|
  {
    if |calls| > 0 {
      RunStep(s, calls);
      if !Rejected(calls[0]) {
        var next := Apply(s, calls[0]).value;
        RunOutcome(next, calls[1..]);
        assert forall i :: 1 <= i < |calls| ==> calls[i] == calls[1..][i - 1];
        BoundByFirst(calls);
      }
    }
  }

  lemma BoundByFirst(calls: seq<Call>)
    requires |calls| > 0
    ensures BoundBy(calls) == BoundBy([calls[0]]) + BoundBy(calls[1..])
  {
    assert [calls[0]][1..] == [];
  }

  /** The first rejected call decides the error. */
  lemma {:induction false} RunError(s: Selector, calls: seq<Call>, i: nat)
    requires i < |calls| && Rejected(calls[i]) && forall j :: 0 <= j < i ==> !Rejected(calls[j])
    ensures Run(s, calls).Err?
    ensures calls[i].CallWhere? ==> Run(s, calls) == Err(WrongOperand(Normalize(calls[i].operand)))
    ensures calls[i].CallColumns? ==> Run(s, calls) == Err(ColumnsNotAList)
    decreases i
  {
    ApplyOutcome(s, calls[0]);
    if i == 0 {
      assert Apply(s, calls[0]).Err?;
    } else {
      RunError(Apply(s, calls[0]).value, calls[1..], i - 1);
    }
  }

  lemma UpperLower(ch: char)
    ensures UpperChar(LowerChar(ch)) == UpperChar(ch)
  {
  }

  /** The operand is matched case-insensitively: lower-casing it first
      changes nothing. */
  lemma OperandCase(s: Selector, column: string, operand: string, value: Option<string>)
    ensures WhereOp(s, column, ToLower(operand), value) == WhereOp(s, column, operand, value)
  {
    assert ToUpper(ToLower(operand)) == ToUpper(operand) by {
      forall i | 0 <= i < |operand|
        ensures ToUpper(ToLower(operand))[i] == ToUpper(operand)[i]
      {
        UpperLower(operand[i]);
      }
    }
  }

  /** The criteria a `where` call leaves to whereIn and whereNotIn are
      refused whatever their case. */
  lemma ListOperandsRefused(s: Selector, column: string, operand: string, value: Option<string>)
    requires Normalize(operand) == "IN" || Normalize(operand) == "NOT IN"
    ensures WhereOp(s, column, operand, value) == Err(WrongOperand(Normalize(operand)))
  {
    if Normalize(operand) == "IN" {
      InRefused();
    } else {
      NotInRefused();
    }
  }

  lemma InRefused()
    ensures "IN" !in SelectorOperands
  {
  }

  lemma NotInRefused()
    ensures "NOT IN" !in SelectorOperands
  {
  }

  /** The text a selector interpolates holds no `?` of its own. */
  predicate CleanSelector(s: Selector)
  {
    Marks(s.table) == 0 && Marks(s.columns) == 0
    && (s.groupBy.Some? ==> Marks(s.groupBy.value) == 0)
    && (s.orderBy.Some? ==> Marks(s.orderBy.value) == 0)
  }

  /** The WHERE parts hold one `?` per recorded value. */
  predicate Balanced(s: Selector)
  {
    SumMarks(s.whereParts) == |s.params|
  }

  /** A call whose column names, inlined lists and clauses hold no `?`. */
  predicate CleanCall(call: Call)
  {
    match call
    case CallWhere(c, _, _) => Marks(c) == 0
    case CallWhereIn(c, vs) => Marks(c) == 0 && Marks(Where.InlineList(vs)) == 0
    case CallWhereNotIn(c, vs) => Marks(c) == 0 && Marks(Where.InlineList(vs)) == 0
    case CallWhereIsNull(c) => Marks(c) == 0
    case CallWhereIsNotNull(c) => Marks(c) == 0
    case CallWhereEqual(c, _) => Marks(c) == 0
    case CallGroupBy(g) => Marks(g) == 0
    case CallOrderBy(o) => Marks(o) == 0
    case CallLimit(_) => true
    case CallOffset(_) => true
    case CallColumns(arg) => if arg.Names? then SumMarks(ValuesOf(arg.entries)) == 0 else Marks(arg.text) == 0
  }

  lemma SelectorOperandMarks(op: string)
    requires op in SelectorOperands
    ensures Marks(op) == 0
  {
    var k :| 0 <= k < |SelectorOperands| && SelectorOperands[k] == op;
    assert forall i :: 0 <= i < |op| ==> op[i] != '?' by {
      if k < 6 {
        assert |op| <= 2;
      }
    }
    NoMarks(op);
  }

  /** Appending a part adds its markers. */
  lemma AddPart(parts: seq<string>, part: string)
    ensures SumMarks(parts + [part]) == SumMarks(parts) + Marks(part)
  {
    SumMarksConcat(parts, [part]);
  }

  lemma OpPartMarks(column: string, op: string)
    requires Marks(column) == 0 && op in SelectorOperands
    ensures Marks(column + " " + op + " ?") == 1
  {
    SelectorOperandMarks(op);
    MarksConcat(column, " ");
    MarksConcat(column + " ", op);
    MarksConcat(column + " " + op, " ?");
  }

  lemma ListPartMarks(column: string, keyword: string, list: string)
    requires Marks(column) == 0 && Marks(list) == 0 && Marks(keyword) == 0
    ensures Marks(column + keyword + list + ")") == 0
  {
    MarksConcat(column, keyword);
    MarksConcat(column + keyword, list);
    MarksConcat(column + keyword + list, ")");
  }

  lemma NullPartMarks(column: string, keyword: string)
    requires Marks(column) == 0 && Marks(keyword) == 0
    ensures Marks(column + keyword) == 0
  {
    MarksConcat(column, keyword);
  }

  /** Recording a part with as many markers as the values it binds keeps
      the selector balanced. */
  lemma PartBalanced(s: Selector, part: string, bound: seq<Option<string>>)
    requires CleanSelector(s) && Balanced(s) && Marks(part) == |bound|
    ensures CleanSelector(s.(whereParts := s.whereParts + [part], params := s.params + bound))
    ensures Balanced(s.(whereParts := s.whereParts + [part], params := s.params + bound))
  {
    AddPart(s.whereParts, part);
  }

  lemma WhereBalanced(s: Selector, c: string, op: string, v: Option<string>)
    requires CleanSelector(s) && Balanced(s) && Marks(c) == 0 && WhereOp(s, c, op, v).Ok?
    ensures CleanSelector(WhereOp(s, c, op, v).value) && Balanced(WhereOp(s, c, op, v).value)
  {
    OpPartMarks(c, Normalize(op));
    PartBalanced(s, c + " " + Normalize(op) + " ?", [v]);
  }

  lemma ListBalanced(s: Selector, c: string, keyword: string, vs: seq<Value>)
    requires CleanSelector(s) && Balanced(s) && Marks(c) == 0 && Marks(Where.InlineList(vs)) == 0
    requires keyword == " IN (" || keyword == " NOT IN ("
    ensures CleanSelector(s.(whereParts := s.whereParts + [c + keyword + Where.InlineList(vs) + ")"]))
    ensures Balanced(s.(whereParts := s.whereParts + [c + keyword + Where.InlineList(vs) + ")"]))
  {
    NoMarks(keyword);
    ListPartMarks(c, keyword, Where.InlineList(vs));
    PartBalanced(s, c + keyword + Where.InlineList(vs) + ")", []);
    assert s.params + [] == s.params;
  }

  lemma NullBalanced(s: Selector, c: string, keyword: string)
    requires CleanSelector(s) && Balanced(s) && Marks(c) == 0
    requires keyword == " IS NULL" || keyword == " IS NOT NULL"
    ensures CleanSelector(s.(whereParts := s.whereParts + [c + keyword]))
    ensures Balanced(s.(whereParts := s.whereParts + [c + keyword]))
  {
    NoMarks(keyword);
    NullPartMarks(c, keyword);
    PartBalanced(s, c + keyword, []);
    assert s.params + [] == s.params;
  }

  /** Each accepted clean call keeps a clean selector clean and balanced. */
  lemma ApplyBalanced(s: Selector, call: Call)
    requires CleanSelector(s) && Balanced(s) && CleanCall(call) && Apply(s, call).Ok?
    ensures CleanSelector(Apply(s, call).value) && Balanced(Apply(s, call).value)
  {
    match call
    case CallWhere(c, op, v) =>
      WhereBalanced(s, c, op, v);
    case CallWhereIn(c, vs) =>
      ListBalanced(s, c, " IN (", vs);
    case CallWhereNotIn(c, vs) =>
      ListBalanced(s, c, " NOT IN (", vs);
    case CallWhereIsNull(c) =>
      NullBalanced(s, c, " IS NULL");
    case CallWhereIsNotNull(c) =>
      NullBalanced(s, c, " IS NOT NULL");
    case CallWhereEqual(c, v) =>
      MarksConcat(c, " = ?");
      PartBalanced(s, c + " = ?", [Some(v)]);
    case CallGroupBy(_) =>
    case CallOrderBy(_) =>
    case CallLimit(_) =>
    case CallOffset(_) =>
    case CallColumns(arg) =>
      if arg.Names? {
        MarksJoin(ValuesOf(arg.entries), ",");
      }
  }

  /** A chain of clean calls on a clean, balanced selector keeps it so. */
  lemma {:induction false} RunBalanced(s: Selector, calls: seq<Call>)
    requires CleanSelector(s) && Balanced(s) && Run(s, calls).Ok?
    requires forall i :: 0 <= i < |calls| ==> CleanCall(calls[i])
    ensures CleanSelector(Run(s, calls).value) && Balanced(Run(s, calls).value)
    decreases |calls|
  {
    if |calls| > 0 {
      ApplyBalanced(s, calls[0]);
      RunBalanced(Apply(s, calls[0]).value, calls[1..]);
    }
  }

  lemma GroupByLiteral()
    ensures Marks(" GROUP BY ") == 0
  {
    NoMarks(" GROUP BY ");
  }

  lemma OrderByLiteral()
    ensures Marks(" ORDER BY ") == 0
  {
    NoMarks(" ORDER BY ");
  }

  lemma LimitLiteral()
    ensures Marks(" LIMIT ") == 0
  {
    NoMarks(" LIMIT ");
  }

  lemma CommaLiteral()
    ensures Marks(" , ") == 0
  {
    NoMarks(" , ");
  }

  lemma BlankLiteral()
    ensures Marks(" ") == 0
  {
    NoMarks(" ");
  }

  lemma GroupByMarks(groupBy: Option<string>)
    requires groupBy.Some? ==> Marks(groupBy.value) == 0
    ensures Marks(GroupSql(groupBy)) == 0
  {
    if groupBy.Some? {
      GroupByLiteral();
      MarksConcat(" GROUP BY ", groupBy.value);
    }
  }

  lemma OrderByMarks(orderBy: Option<string>)
    requires orderBy.Some? ==> Marks(orderBy.value) == 0
    ensures Marks(OrderSql(orderBy)) == 0
  {
    if orderBy.Some? {
      OrderByLiteral();
      MarksConcat(" ORDER BY ", orderBy.value);
    }
  }

  lemma TailMarks(s: Selector)
    requires CleanSelector(s)
    ensures Marks(TailSql(s)) == 0
  {
    GroupByMarks(s.groupBy);
    OrderByMarks(s.orderBy);
    LimitMarks(s.offset, s.limit);
    MarksConcat(GroupSql(s.groupBy), OrderSql(s.orderBy));
    MarksConcat(GroupSql(s.groupBy) + OrderSql(s.orderBy), LimitSql(s.offset, s.limit));
  }

  lemma LimitMarks(offset: Option<int>, limit: Option<int>)
    ensures Marks(LimitSql(offset, limit)) == 0
  {
    if limit.Some? {
      LimitLiteral();
      var l := IntToString(limit.value);
      MarksConcat(" LIMIT ", l);
      if offset.Some? {
        CommaLiteral();
        BlankLiteral();
        var o := IntToString(offset.value);
        MarksConcat(" LIMIT ", o);
        MarksConcat(" LIMIT " + o, " , ");
        MarksConcat(" LIMIT " + o + " , ", l);
        MarksConcat(" LIMIT " + o + " , " + l, " ");
      }
    }
  }

  lemma HeadMarks(s: Selector)
    requires CleanSelector(s)
    ensures Marks(HeadSql(s)) == 0
  {
    MarksConcat("SELECT ", s.columns);
    NoMarks(" FROM ");
    MarksConcat("SELECT " + s.columns, " FROM ");
    MarksConcat("SELECT " + s.columns + " FROM ", s.table);
    MarksConcat("SELECT " + s.columns + " FROM " + s.table, " ");
  }

  lemma WhereMarks(parts: seq<string>)
    ensures Marks(WhereSql(parts)) == SumMarks(parts)
  {
    if |parts| > 0 {
      NoMarks(" AND ");
      MarksJoin(parts, " AND ");
      NoMarks(" WHERE ");
      MarksConcat(" WHERE ", Join(parts, " AND "));
      MarksConcat(" WHERE " + Join(parts, " AND "), " ");
    }
  }

  /** A clean, balanced selector prepares a statement with one `?` per
      bound value. */
  lemma PreparedPlaceholders(s: Selector)
    requires CleanSelector(s) && Balanced(s)
    ensures Marks(Prepared(s).sql) == |Prepared(s).params|
  {
    HeadMarks(s);
    WhereMarks(s.whereParts);
    TailMarks(s);
    MarksConcat(HeadSql(s), WhereSql(s.whereParts));
    MarksConcat(HeadSql(s) + WhereSql(s.whereParts), TailSql(s));
  }

  /** Any accepted chain of clean calls on a fresh builder for a clean table
      name prepares a statement binding the chain's values, in call order,
      one `?` for each. */
  lemma ChainPlaceholders(table: string, calls: seq<Call>)
    requires Marks(table) == 0 && Run(New(table), calls).Ok?
    requires forall i :: 0 <= i < |calls| ==> CleanCall(calls[i])
    ensures var p := Prepared(Run(New(table), calls).value);
            Marks(p.sql) == |p.params| && |p.params| == |BoundBy(calls)|
  {
    assert Marks("*") == 0;
    RunOutcome(New(table), calls);
    RunBalanced(New(table), calls);
    PreparedPlaceholders(Run(New(table), calls).value);
  }

  /** A fresh builder selects every column of the table. */
  lemma NewSql(table: string)
    ensures BuildSql(New(table)) == "SELECT * FROM " + table + " "
  {
    assert TailSql(New(table)) == "";
    assert WhereSql([]) == "";
  }

  /** The clause calls and the where calls commute: the SQL puts WHERE before
      GROUP BY, ORDER BY and LIMIT whichever call came first. */
  lemma ClauseCallsCommute(s: Selector, clause: Call, part: Call)
    requires clause.CallGroupBy? || clause.CallOrderBy? || clause.CallLimit? || clause.CallOffset?
    requires part.CallWhereIn? || part.CallWhereNotIn? || part.CallWhereIsNull?
             || part.CallWhereIsNotNull? || part.CallWhereEqual?
             || (part.CallWhere? && !Rejected(part))
    ensures Run(s, [clause, part]).Ok? && Run(s, [part, clause]).Ok?
    ensures BuildSql(Run(s, [clause, part]).value) == BuildSql(Run(s, [part, clause]).value)
  {
    assert [clause, part][1..] == [part] && [part, clause][1..] == [clause];
    assert [part][1..] == [] && [clause][1..] == [];
    ApplyOutcome(s, part);
    ApplyOutcome(s, clause);
    var sc, sp := Apply(s, clause).value, Apply(s, part).value;
    ApplyOutcome(sc, part);
    ApplyOutcome(sp, clause);
    assert Run(s, [clause, part]) == Run(sc, [part]) == Apply(sc, part);
    assert Run(s, [part, clause]) == Run(sp, [clause]) == Apply(sp, clause);
  }

  /** A list of column names without commas is recovered by splitting the
      column text on commas. */
  lemma ColumnsRoundTrip(s: Selector, entries: seq<(Key, string)>)
    requires IsList(entries) && |entries| > 0
    requires forall i :: 0 <= i < |entries| ==> ',' !in entries[i].1
    ensures Columns(s, Names(entries)).Ok?
    ensures Split(Columns(s, Names(entries)).value.columns, ',') == ValuesOf(entries)
  {
    assert "," == [','];
    SplitJoin(ValuesOf(entries), ',');
  }

  /** The two LIMIT rules part ways on a zero offset: SelectorBuilder keeps a
      set offset of 0, PdoModel::select treats it as absent; and a limit of 0
      is rendered here but dropped by select. An offset alone is dropped by
      both. */
  lemma LimitDialects(offset: int, limit: int)
    requires limit != 0
    ensures LimitSql(Some(0), Some(limit)) == " LIMIT 0 , " + IntToString(limit) + " "
    ensures PdoModel.LimitClause(Some(0), Some(limit)) == " LIMIT " + IntToString(limit)
    ensures LimitSql(Some(offset), Some(0)) == " LIMIT " + IntToString(offset) + " , 0 "
    ensures PdoModel.LimitClause(Some(offset), Some(0)) == ""
    ensures LimitSql(Some(offset), None) == "" && PdoModel.LimitClause(Some(offset), None) == ""
  {
    assert IntToString(0) == "0" by {
      assert NatToString(0) == [DigitChar(0)];
    }
  }
}
