/** PdoModel::buildWhere: a list of criteria compiled into a WHERE fragment
    joined with AND, plus the values bound to its `?` markers in order. */
module Where {
  import opened Strings
  import opened Common

  /** The 18 operands buildWhere accepts; the comparison is case-sensitive,
      so only the all-upper and all-lower spellings of word operands pass. */
  const Operands: seq<string> :=
    [">", "<", "=", "!=", ">=", "<=", "IN", "in", "NOT IN", "not in",
     "LIKE", "like", "NOT LIKE", "not like", "IS", "is", "is not", "IS NOT"]

  predicate IsListOperand(op: string)
  {
    op == "IN" || op == "in" || op == "NOT IN" || op == "not in"
  }

  predicate IsNullOperand(op: string)
  {
    op == "IS" || op == "is" || op == "IS NOT" || op == "is not"
  }

  /** One entry of the criteria array:
      - an array value `[column, operand, value]` is a Compare;
      - a scalar under a string key is an Equals on that key;
      - a scalar under an integer key is a Raw SQL fragment. */
  datatype Criterion =
    | Compare(column: string, operand: string, value: Value)
    | Equals(column: string, scalar: Scalar)
    | Raw(fragment: string)

  /** The rendered text of one criterion and what it binds. */
  datatype Fragment = Fragment(pair: string, bound: seq<Value>)

  /** The compiled criteria: absent for an empty list, else SQL and values. */
  datatype WhereClause = NoCriteria | Clause(sql: string, values: seq<Value>)

  /** Values of IN / NOT IN, inlined as literals, not bound. */
  function InlineList(items: seq<Value>): string
  {
    Join(Texts(items), ",")
  }

  /** A criterion buildWhere accepts. */
  predicate Valid(c: Criterion)
  {
    c.Compare? ==> c.operand in Operands && (IsListOperand(c.operand) ==> c.value.Arr?)
  }

  /** A criterion that contributes a `?` and a bound value. */
  predicate Binds(c: Criterion)
  {
    c.Equals? || (c.Compare? && !IsListOperand(c.operand) && !IsNullOperand(c.operand))
  }

  /** The error buildWhere raises for an invalid criterion. */
  function Rejection(c: Criterion): Error
    requires !Valid(c)
  {
    if c.operand !in Operands then UnsupportedOperand(c.operand) else OperandNeedsArray(c.operand)
  }

  /** The value a binding criterion binds. */
  function BoundValue(c: Criterion): Value
    requires Binds(c)
  {
    if c.Equals? then c.scalar else c.value
  }

  /** The values the criteria bind, in criteria order. */
  function BoundValues(criteria: seq<Criterion>): seq<Value>
  {
    if |criteria| == 0 then []
    else (if Binds(criteria[0]) then [BoundValue(criteria[0])] else []) + BoundValues(criteria[1..])
  }

  /** One loop iteration of buildWhere. */
  function Render(c: Criterion): (r: Result<Fragment>)
    ensures r.Ok? <==> Valid(c)
    ensures r.Err? ==> r.error == Rejection(c)
    ensures r.Ok? ==> r.value.bound == (if Binds(c) then [BoundValue(c)] else [])
    ensures r.Ok? && c.Compare? && IsListOperand(c.operand) ==>
              r.value.pair == c.column + " " + c.operand + " (" + InlineList(c.value.items) + ")"
    ensures r.Ok? && c.Compare? && IsNullOperand(c.operand) ==> r.value.pair == c.column + " " + c.operand + " NULL"
    ensures r.Ok? && c.Compare? && Binds(c) ==> r.value.pair == c.column + " " + c.operand + " ?"
    ensures c.Equals? ==> r == Ok(Fragment(c.column + " = ?", [c.scalar]))
    ensures c.Raw? ==> r == Ok(Fragment(c.fragment, []))
  {
    match c
    case Compare(key, op, value) =>
      if op !in Operands then Err(UnsupportedOperand(op))
      else if IsListOperand(op) then
        if !value.Arr? then Err(OperandNeedsArray(op))
        else Ok(Fragment(key + " " + op + " (" + InlineList(value.items) + ")", []))
      else if IsNullOperand(op) then Ok(Fragment(key + " " + op + " NULL", []))
      else Ok(Fragment(key + " " + op + " ?", [value]))
    case Equals(key, value) => Ok(Fragment(key + " = ?", [value]))
    case Raw(fragment) => Ok(Fragment(fragment, []))
  }

  /** The loop of buildWhere: rendered pairs and bound values, or the error of
      the first invalid criterion. */
  function Compile(criteria: seq<Criterion>): (r: Result<(seq<string>, seq<Value>)>)
    ensures r.Ok? <==> forall i :: 0 <= i < |criteria| ==> Valid(criteria[i])
    ensures r.Err? ==> exists i :: 0 <= i < |criteria| && !Valid(criteria[i]) && r.error == Rejection(criteria[i])
                                   && forall j :: 0 <= j < i ==> Valid(criteria[j])
    ensures r.Ok? ==> |r.value.0| == |criteria| && r.value.1 == BoundValues(criteria)
    ensures r.Ok? ==> forall i :: 0 <= i < |criteria| ==> r.value.0[i] == Render(criteria[i]).value.pair
  {
    if |criteria| == 0 then Ok(([], []))
    else match Render(criteria[0])
      case Err(e) => Err(e)
      case Ok(f) =>
        match Compile(criteria[1..])
        case Err(e) =>
          ghost var i :| 0 <= i < |criteria[1..]| && !Valid(criteria[1..][i]) && e == Rejection(criteria[1..][i])
                         && forall j :: 0 <= j < i ==> Valid(criteria[1..][j]);
          assert !Valid(criteria[i + 1]) && forall j :: 0 <= j < i + 1 ==> Valid(criteria[j]);
          Err(e)
        case Ok(rest) => Ok(([f.pair] + rest.0, f.bound + rest.1))
  }

  /** The rendered text of every criterion, in criteria order. */
  function Pairs(criteria: seq<Criterion>): seq<string>
    requires forall i :: 0 <= i < |criteria| ==> Valid(criteria[i])
  {
    seq(|criteria|, i requires 0 <= i < |criteria| => Render(criteria[i]).value.pair)
  }

  /** PdoModel::buildWhere. */
  function BuildWhere(criteria: seq<Criterion>): (r: Result<WhereClause>)
    ensures |criteria| == 0 ==> r == Ok(NoCriteria)
    ensures r.Ok? <==> forall i :: 0 <= i < |criteria| ==> Valid(criteria[i])
    ensures r.Err? ==> exists i :: 0 <= i < |criteria| && !Valid(criteria[i]) && r.error == Rejection(criteria[i])
                                   && forall j :: 0 <= j < i ==> Valid(criteria[j])
    ensures r.Ok? && |criteria| > 0 ==> r.value.Clause? && r.value.values == BoundValues(criteria)
    ensures r.Ok? && |criteria| > 0 ==> r.value.sql == Join(Pairs(criteria), " AND ")
  {
    if |criteria| == 0 then Ok(NoCriteria)
    else match Compile(criteria)
      case Err(e) => Err(e)
      case Ok(compiled) =>
        assert compiled.0 == Pairs(criteria);
        Ok(Clause(Join(compiled.0, " AND "), compiled.1))
  }

  /** The criteria's own text (columns, fragments, inlined lists) holds no `?`. */
  predicate Clean(c: Criterion)
  {
    match c
    case Compare(key, _, value) => Marks(key) == 0 && (value.Arr? ==> Marks(InlineList(value.items)) == 0)
    case Equals(key, _) => Marks(key) == 0
    case Raw(fragment) => Marks(fragment) == 0
  }

  lemma OperandHasNoMarks(op: string)
    requires op in Operands
    ensures Marks(op) == 0
  {
    var k :| 0 <= k < |Operands| && Operands[k] == op;
    assert forall i :: 0 <= i < |op| ==> op[i] != '?' by {
      if k < 6 {
        assert |op| <= 2;
      }
    }
    NoMarks(op);
  }

  /** Each accepted clean criterion holds exactly as many `?` as it binds values. */
  lemma RenderMarks(c: Criterion)
    requires Valid(c) && Clean(c)
    ensures Marks(Render(c).value.pair) == |Render(c).value.bound|
  {
    match c
    case Compare(key, op, value) =>
      OperandHasNoMarks(op);
      HeadMarks(key, op);
      if IsListOperand(op) {
        ListMarks(key + " " + op, InlineList(value.items));
      } else if IsNullOperand(op) {
        NullMarks(key + " " + op);
      } else {
        BindMarks(key + " " + op);
      }
    case Equals(key, _) =>
      MarksConcat(key, " = ?");
    case Raw(_) =>
  }

  lemma HeadMarks(key: string, op: string)
    ensures Marks(key + " " + op) == Marks(key) + Marks(op)
  {
    NoMarks(" ");
    MarksConcat(key, " ");
    MarksConcat(key + " ", op);
  }

  lemma ListMarks(head: string, list: string)
    ensures Marks(head + " (" + list + ")") == Marks(head) + Marks(list)
  {
    NoMarks(" (");
    NoMarks(")");
    MarksConcat(head, " (");
    MarksConcat(head + " (", list);
    MarksConcat(head + " (" + list, ")");
  }

  lemma NullMarks(head: string)
    ensures Marks(head + " NULL") == Marks(head)
  {
    NoMarks(" NULL");
    MarksConcat(head, " NULL");
  }

  lemma BindMarks(head: string)
    ensures Marks(head + " ?") == Marks(head) + 1
  {
    MarksConcat(head, " ?");
  }

  lemma {:induction false} CompileMarks(criteria: seq<Criterion>)
    requires forall i :: 0 <= i < |criteria| ==> Valid(criteria[i]) && Clean(criteria[i])
    ensures SumMarks(Compile(criteria).value.0) == |Compile(criteria).value.1|
  {
    if |criteria| > 0 {
      RenderMarks(criteria[0]);
      CompileMarks(criteria[1..]);
      var pairs := Compile(criteria).value.0;
      assert pairs[1..] == Compile(criteria[1..]).value.0;
    }
  }

  /** One `?` per bound value: when the criteria's own text holds no `?`, the
      WHERE fragment holds exactly as many markers as there are values. */
  lemma WherePlaceholders(criteria: seq<Criterion>)
    requires forall i :: 0 <= i < |criteria| ==> Clean(criteria[i])
    requires BuildWhere(criteria).Ok? && |criteria| > 0
    ensures Marks(BuildWhere(criteria).value.sql) == |BuildWhere(criteria).value.values|
  {
    CompileMarks(criteria);
    assert Marks(" AND ") == 0;
    MarksJoin(Compile(criteria).value.0, " AND ");
  }

  /** IN and NOT IN inline the list and bind nothing; IS and IS NOT render
      NULL whatever value was supplied; the other operands bind the value. */
  lemma OperandForms(key: string, op: string, value: Value)
    requires op in Operands
    ensures IsListOperand(op) && value.Arr? ==>
              Render(Compare(key, op, value)) == Ok(Fragment(key + " " + op + " (" + InlineList(value.items) + ")", []))
    ensures IsListOperand(op) && !value.Arr? ==> Render(Compare(key, op, value)) == Err(OperandNeedsArray(op))
    ensures IsNullOperand(op) ==>
              forall other :: Render(Compare(key, op, value)) == Render(Compare(key, op, other)) == Ok(Fragment(key + " " + op + " NULL", []))
    ensures !IsListOperand(op) && !IsNullOperand(op) ==>
              Render(Compare(key, op, value)) == Ok(Fragment(key + " " + op + " ?", [value]))
  {
  }
}
