/** The batch planner shared by PdoModel::insertBatchRaw and
    PdoModel::insertUpdateBatchRaw. A batch of rows with `k` columns is split
    into statements of at most floor(60000 / k) rows, so that no statement
    binds more than 60000 values: the row markers are grouped with
    array_chunk and the values of group `i` are cut out of the flat value
    list with array_slice at offset `i * rows-per-chunk * k`. */
module Batch {
  import opened Strings
  import opened Common

  /** PdoModel::MAX_PREPARED_STMT_COUNT, the bound on values per statement. */
  const MaxPreparedStmtCount: nat := 60000

  /** A product of naturals, kept as a named term. */
  function Times(a: nat, b: nat): (r: nat)
    ensures r == a * b
  {
    a * b
  }

  function Min(a: int, b: int): int
  {
    if a <= b then a else b
  }

  /** The lists of a list of lists, one after another. */
  function Concat<T>(xss: seq<seq<T>>): seq<T>
  {
    if |xss| == 0 then [] else xss[0] + Concat(xss[1..])
  }

  /** PHP `array_slice($xs, $offset, $length)` for a list and non-negative
      arguments: at most `length` items from `offset`, none past the end. */
  function Slice<T>(xs: seq<T>, offset: nat, length: nat): (r: seq<T>)
    ensures |r| <= length
    ensures offset < |xs| ==> |r| == Min(length, |xs| - offset) && r == xs[offset..offset + |r|]
    ensures offset >= |xs| ==> r == []
  {
    if offset >= |xs| then [] else xs[offset..offset + Min(length, |xs| - offset)]
  }

  /** PHP `array_chunk($xs, $size)` on a list: consecutive non-empty pieces of
      `size` items, the last possibly shorter; together they are the list. */
  function ArrayChunk<T>(xs: seq<T>, size: nat): (r: seq<seq<T>>)
    requires size >= 1
    ensures Concat(r) == xs
    ensures forall i :: 0 <= i < |r| ==> 0 < |r[i]| <= size
    decreases |xs|
  {
    if |xs| == 0 then []
    else if |xs| <= size then
      assert Concat([xs]) == xs + Concat([]);
      [xs]
    else
      var rest := ArrayChunk(xs[size..], size);
      assert ([xs[..size]] + rest)[1..] == rest;
      assert xs == xs[..size] + xs[size..];
      [xs[..size]] + rest
  }

  /** Euclidean division is determined by quotient and remainder. */
  lemma DivUnique(a: int, d: int, q: int, r: int)
    requires d > 0 && 0 <= r < d && a == q * d + r
    ensures a / d == q
  {
    var q0, r0 := a / d, a % d;
    assert a == q0 * d + r0;
    if q0 < q {
      assert (q - q0) * d == r0 - r;
      assert (q - q0) * d >= d by {
        MulAtLeast(q - q0, d);
      }
    } else if q0 > q {
      assert (q0 - q) * d == r - r0;
      assert (q0 - q) * d >= d by {
        MulAtLeast(q0 - q, d);
      }
    }
  }

  lemma MulAtLeast(m: int, d: int)
    requires m >= 1 && d > 0
    ensures m * d >= d
  {
  }

  /** There are ceil(|xs| / size) pieces. */
  lemma {:induction false} ArrayChunkCount<T>(xs: seq<T>, size: nat)
    requires size >= 1
    ensures |ArrayChunk(xs, size)| == (|xs| + size - 1) / size
    decreases |xs|
  {
    if |xs| == 0 {
      DivUnique(size - 1, size, 0, size - 1);
    } else if |xs| <= size {
      DivUnique(|xs| + size - 1, size, 1, |xs| - 1);
    } else {
      var tail := xs[size..];
      ArrayChunkCount(tail, size);
      assert |xs| + size - 1 == (|tail| + size - 1) + size;
      DivAddOne(|tail| + size - 1, size);
    }
  }

  /** Adding the divisor adds one to the quotient. */
  lemma DivAddOne(a: nat, d: nat)
    requires d >= 1
    ensures (a + d) / d == a / d + 1
  {
    var q, m := a / d, a % d;
    assert a == q * d + m;
    assert a + d == (q + 1) * d + m;
    DivUnique(a + d, d, q + 1, m);
  }

  /** Slicing a suffix is slicing the list further on. */
  lemma SliceShift<T>(xs: seq<T>, d: nat, offset: nat, length: nat)
    requires d <= |xs|
    ensures Slice(xs[d..], offset, length) == Slice(xs, offset + d, length)
  {
    if offset + d < |xs| {
      assert xs[d..][offset..offset + Min(length, |xs| - d - offset)]
             == xs[offset + d..offset + d + Min(length, |xs| - d - offset)];
    }
  }

  /** The piece of array_chunk at position `i` is the slice of `size` items
      at offset `i * size`, and that offset lies inside the list. */
  lemma {:induction false} ArrayChunkPieces<T>(xs: seq<T>, size: nat)
    requires size >= 1
    ensures forall i :: 0 <= i < |ArrayChunk(xs, size)| ==>
              Times(i, size) < |xs| && ArrayChunk(xs, size)[i] == Slice(xs, Times(i, size), size)
    decreases |xs|
  {
    var r := ArrayChunk(xs, size);
    if |xs| > size {
      var tail := xs[size..];
      ArrayChunkPieces(tail, size);
      var rest := ArrayChunk(tail, size);
      assert r == [xs[..size]] + rest;
      forall i | 0 <= i < |r|
        ensures Times(i, size) < |xs| && r[i] == Slice(xs, Times(i, size), size)
      {
        if i > 0 {
          assert r[i] == rest[i - 1];
          PieceStep(xs, size, i);
        } else {
          assert Times(0, size) == 0;
        }
      }
    } else if |xs| > 0 {
      assert r == [xs];
      assert Times(0, size) == 0;
    }
  }

  lemma PieceStep<T>(xs: seq<T>, size: nat, i: nat)
    requires size >= 1 && i >= 1 && size <= |xs|
    requires Times(i - 1, size) < |xs| - size
    ensures Times(i, size) < |xs| && Slice(xs[size..], Times(i - 1, size), size) == Slice(xs, Times(i, size), size)
  {
    var off := Times(i - 1, size);
    assert off + size == Times(i, size);
    SliceShift(xs, size, off, size);
  }

  /** floor(60000 / k): the number of rows one statement may carry. */
  function RowsPerChunk(k: nat): (c: nat)
    requires k >= 1
    ensures k <= MaxPreparedStmtCount ==> c >= 1
    ensures c * k <= MaxPreparedStmtCount
    ensures MaxPreparedStmtCount < (c + 1) * k
  {
    MaxPreparedStmtCount / k
  }

  /** The markers of one row, `(?,?,...,?)` with one `?` per column. */
  function RowMarker(k: nat): string
  {
    "(" + Join(Repeat(k, "?"), ",") + ")"
  }

  lemma RowMarkerMarks(k: nat)
    ensures Marks(RowMarker(k)) == k
  {
    var inner := Join(Repeat(k, "?"), ",");
    SumMarksRepeat(k, "?");
    MarksJoin(Repeat(k, "?"), ",");
    MarksConcat("(", inner);
    MarksConcat("(" + inner, ")");
  }

  /** One statement's share of a batch: its row markers and its values. */
  datatype Chunk = Chunk(rows: seq<string>, values: seq<Value>)

  /** The loop of the planner: the row markers grouped by array_chunk, and for
      group `i` the values array_slice cuts at `i * c * k`. The row count is
      |values| / k, truncated as PHP truncates the count array_fill gets. */
  function Chunks(k: nat, values: seq<Value>): seq<Chunk>
    requires 1 <= k <= MaxPreparedStmtCount
  {
    var c := RowsPerChunk(k);
    var groups := ArrayChunk(Repeat(|values| / k, RowMarker(k)), c);
    seq(|groups|, i requires 0 <= i < |groups| => Chunk(groups[i], Slice(values, Times(Times(i, c), k), Times(c, k))))
  }

  /** The value lists of a sequence of chunks. */
  function ValueParts(chunks: seq<Chunk>): (r: seq<seq<Value>>)
    ensures |r| == |chunks|
    ensures forall i :: 0 <= i < |chunks| ==> r[i] == chunks[i].values
  {
    seq(|chunks|, i requires 0 <= i < |chunks| => chunks[i].values)
  }

  lemma MulLe(a: nat, b: nat, k: nat)
    requires a <= b
    ensures a * k <= b * k
  {
  }

  /** Groups of row markers: the row count is |values| / k, truncated as PHP
      truncates the count array_fill receives. */
  function Groups(k: nat, values: seq<Value>): seq<seq<string>>
    requires 1 <= k <= MaxPreparedStmtCount
  {
    ArrayChunk(Repeat(|values| / k, RowMarker(k)), RowsPerChunk(k))
  }

  lemma ChunkAt(k: nat, values: seq<Value>, i: nat)
    requires 1 <= k <= MaxPreparedStmtCount && i < |Chunks(k, values)|
    ensures |Chunks(k, values)| == |Groups(k, values)|
    ensures Chunks(k, values)[i].rows == Groups(k, values)[i]
    ensures Chunks(k, values)[i].values == Slice(values, Times(Times(i, RowsPerChunk(k)), k), Times(RowsPerChunk(k), k))
  {
  }

  /** There are ceil(rows / floor(60000 / k)) statements. */
  lemma ChunkCount(k: nat, values: seq<Value>)
    requires 1 <= k <= MaxPreparedStmtCount
    ensures |Chunks(k, values)| == (|values| / k + RowsPerChunk(k) - 1) / RowsPerChunk(k)
  {
    var markers := Repeat(|values| / k, RowMarker(k));
    ChunksLength(k, values);
    ArrayChunkCount(markers, RowsPerChunk(k));
  }

  lemma ChunksLength(k: nat, values: seq<Value>)
    requires 1 <= k <= MaxPreparedStmtCount
    ensures |Chunks(k, values)| == |ArrayChunk(Repeat(|values| / k, RowMarker(k)), RowsPerChunk(k))|
  {
  }

  /** Every statement carries between one and floor(60000 / k) rows, each of
      them `k` markers, so at most 60000 markers in all. */
  lemma ChunkRows(k: nat, values: seq<Value>)
    requires 1 <= k <= MaxPreparedStmtCount
    ensures forall i :: 0 <= i < |Chunks(k, values)| ==>
              var rows := Chunks(k, values)[i].rows;
              1 <= |rows| <= RowsPerChunk(k) && |rows| * k <= MaxPreparedStmtCount
              && forall j :: 0 <= j < |rows| ==> rows[j] == RowMarker(k)
  {
    forall i | 0 <= i < |Chunks(k, values)|
      ensures var rows := Chunks(k, values)[i].rows;
              1 <= |rows| <= RowsPerChunk(k) && |rows| * k <= MaxPreparedStmtCount
              && forall j :: 0 <= j < |rows| ==> rows[j] == RowMarker(k)
    {
      ChunkRowsAt(k, values, i);
    }
  }

  lemma ChunkRowsAt(k: nat, values: seq<Value>, i: nat)
    requires 1 <= k <= MaxPreparedStmtCount && i < |Chunks(k, values)|
    ensures var rows := Chunks(k, values)[i].rows;
            1 <= |rows| <= RowsPerChunk(k) && |rows| * k <= MaxPreparedStmtCount
            && forall j :: 0 <= j < |rows| ==> rows[j] == RowMarker(k)
  {
    var c := RowsPerChunk(k);
    var markers := Repeat(|values| / k, RowMarker(k));
    ChunkAt(k, values, i);
    var rows := Chunks(k, values)[i].rows;
    assert 1 <= |rows| <= c;
    assert |rows| * k <= MaxPreparedStmtCount by {
      MulLe(|rows|, c, k);
    }
    ArrayChunkPieces(markers, c);
  }

  lemma ScaleMin(a: int, b: int, k: nat)
    ensures Min(a, b) * k == Min(a * k, b * k)
  {
    if a <= b {
      MulLe2(a, b, k);
    } else {
      MulLe2(b, a, k);
    }
  }

  lemma MulLe2(a: int, b: int, k: nat)
    requires a <= b
    ensures a * k <= b * k
  {
  }

  /** ceil(n*k / (c*k)) == ceil(n / c). */
  lemma CountScale(n: nat, c: nat, k: nat)
    requires c >= 1 && k >= 1
    ensures (n * k + c * k - 1) / (c * k) == (n + c - 1) / c
  {
    var q, m := (n + c - 1) / c, (n + c - 1) % c;
    assert n + c - 1 == q * c + m;
    assert (n + c - 1) * k == q * (c * k) + m * k;
    MulLe(m + 1, c, k);
    DivUnique(n * k + c * k - 1, c * k, q, m * k + k - 1);
  }

  /** With whole rows of `k` values, chunk `i` carries exactly its rows'
      values, `k` per row, and the chunks' values together are all values,
      in order, each once. */
  lemma ChunkValues(k: nat, values: seq<Value>)
    requires 1 <= k <= MaxPreparedStmtCount && |values| % k == 0
    ensures var r := Chunks(k, values);
            (forall i :: 0 <= i < |r| ==> |r[i].values| == |r[i].rows| * k)
            && Concat(ValueParts(r)) == values
  {
    var n, c, r := |values| / k, RowsPerChunk(k), Chunks(k, values);
    var pieces := ArrayChunk(values, Times(c, k));
    assert |r| == |pieces| by {
      assert |values| == n * k by {
        DivExact(|values|, k);
      }
      ChunkCount(k, values);
      ArrayChunkCount(values, Times(c, k));
      CountScale(n, c, k);
    }
    forall i | 0 <= i < |r|
      ensures |r[i].values| == |r[i].rows| * k && r[i].values == pieces[i]
    {
      ChunkPiece(k, values, i);
    }
    assert ValueParts(r) == pieces;
  }

  lemma ChunkPiece(k: nat, values: seq<Value>, i: nat)
    requires 1 <= k <= MaxPreparedStmtCount && |values| % k == 0
    requires i < |Chunks(k, values)| && i < |ArrayChunk(values, Times(RowsPerChunk(k), k))|
    ensures |Chunks(k, values)[i].values| == Times(|Chunks(k, values)[i].rows|, k)
    ensures Chunks(k, values)[i].values == ArrayChunk(values, Times(RowsPerChunk(k), k))[i]
  {
    var n, c := |values| / k, RowsPerChunk(k);
    var markers := Repeat(n, RowMarker(k));
    var rows, vals := Chunks(k, values)[i].rows, Chunks(k, values)[i].values;
    assert rows == ArrayChunk(markers, c)[i] && vals == Slice(values, Times(Times(i, c), k), Times(c, k)) by {
      ChunkAt(k, values, i);
    }
    assert Times(i, c) < n && |rows| == Min(c, n - Times(i, c)) by {
      assert |markers| == n;
      ArrayChunkPieces(markers, c);
    }
    assert ArrayChunk(values, Times(c, k))[i] == Slice(values, Times(i, Times(c, k)), Times(c, k)) by {
      ArrayChunkPieces(values, Times(c, k));
    }
    assert |values| == Times(n, k) by {
      DivExact(|values|, k);
    }
    PieceScale(n, c, k, i);
    assert Times(|rows|, k) == |rows| * k;
  }

  lemma DivExact(a: nat, k: nat)
    requires k >= 1 && a % k == 0
    ensures a == a / k * k
  {
  }

  lemma PieceScale(n: nat, c: nat, k: nat, i: nat)
    requires c >= 1 && k >= 1 && Times(i, c) < n
    ensures Times(Times(i, c), k) == Times(i, Times(c, k)) < Times(n, k)
    ensures Min(c, n - Times(i, c)) * k == Min(Times(c, k), Times(n, k) - Times(Times(i, c), k))
  {
    MulLe(i * c + 1, n, k);
    ScaleMin(c, n - i * c, k);
  }

  /** `<head>INTO `t` (k1,k2) VALUES (?,?),(?,?)<tail>`: the keys are
      interpolated unquoted and joined with commas, and so are the chunk's
      row markers. */
  function ChunkSql(head: string, table: string, keys: seq<string>, rows: seq<string>, tail: string): string
  {
    head + "INTO `" + table + "` (" + Join(keys, ",") + ") VALUES " + Join(rows, ",") + tail
  }

  function Statements(head: string, table: string, keys: seq<string>, chunks: seq<Chunk>, tail: string): (r: seq<Statement>)
    ensures |r| == |chunks|
    ensures forall i :: 0 <= i < |chunks| ==> r[i] == Statement(ChunkSql(head, table, keys, chunks[i].rows, tail), chunks[i].values)
  {
    seq(|chunks|, i requires 0 <= i < |chunks| => Statement(ChunkSql(head, table, keys, chunks[i].rows, tail), chunks[i].values))
  }

  /** The bound values of a sequence of statements. */
  function Params(stmts: seq<Statement>): (r: seq<seq<Value>>)
    ensures |r| == |stmts|
    ensures forall i :: 0 <= i < |stmts| ==> r[i] == stmts[i].params
  {
    seq(|stmts|, i requires 0 <= i < |stmts| => stmts[i].params)
  }

  /** The statements of a batch, or the error raised before the first:
      `count($values) / count($keys)` divides by zero for no columns,
      getTable rejects a falsy name, and array_chunk rejects a chunk size
      below one, which floor(60000 / k) is for more than 60000 columns. */
  function PlanBatch(head: string, table: string, keys: seq<string>, values: seq<Value>, tail: string)
    : (r: Result<seq<Statement>>)
    ensures |keys| == 0 ==> r == Err(DivisionByZero)
    ensures |keys| > 0 && !Truthy(table) ==> r == Err(EmptyTableName)
    ensures |keys| > MaxPreparedStmtCount && Truthy(table) ==> r == Err(ChunkSizeBelowOne)
    ensures r.Ok? <==> 0 < |keys| <= MaxPreparedStmtCount && Truthy(table)
    ensures r.Ok? ==> r.value == Statements(head, table, keys, Chunks(|keys|, values), tail)
  {
    if |keys| == 0 then Err(DivisionByZero)
    else match Table(table)
      case Err(e) => Err(e)
      case Ok(t) =>
        if RowsPerChunk(|keys|) < 1 then Err(ChunkSizeBelowOne)
        else Ok(Statements(head, t, keys, Chunks(|keys|, values), tail))
  }

  /** A batch of whole rows is split without loss or repetition: the
      statements' bound values, one after another, are exactly the batch's
      values; each statement binds a positive multiple of k and at most
      60000 values; there are ceil(rows / floor(60000 / k)) statements. */
  lemma PlanBatchValues(head: string, table: string, keys: seq<string>, values: seq<Value>, tail: string)
    requires PlanBatch(head, table, keys, values, tail).Ok? && |values| % |keys| == 0
    ensures var stmts, k := PlanBatch(head, table, keys, values, tail).value, |keys|;
            Concat(Params(stmts)) == values
            && |stmts| == (|values| / k + RowsPerChunk(k) - 1) / RowsPerChunk(k)
            && forall i :: 0 <= i < |stmts| ==>
                 k <= |stmts[i].params| <= MaxPreparedStmtCount && |stmts[i].params| % k == 0
  {
    var k := |keys|;
    var chunks := Chunks(k, values);
    var stmts := PlanBatch(head, table, keys, values, tail).value;
    assert stmts == Statements(head, table, keys, chunks, tail);
    ChunkCount(k, values);
    ChunkRows(k, values);
    ChunkValues(k, values);
    assert Params(stmts) == ValueParts(chunks);
    forall i | 0 <= i < |stmts|
      ensures k <= |stmts[i].params| <= MaxPreparedStmtCount && |stmts[i].params| % k == 0
    {
      RowsBound(|chunks[i].rows|, k);
    }
  }

  lemma RowsBound(rows: nat, k: nat)
    requires 1 <= k && 1 <= rows && rows * k <= MaxPreparedStmtCount
    ensures k <= rows * k <= MaxPreparedStmtCount && (rows * k) % k == 0
  {
    MulLe(1, rows, k);
    assert rows * k == rows * k + 0;
    DivUnique(rows * k, k, rows, 0);
  }

  /** The statements' text holds one `?` per bound value when the head, the
      table name, the keys and the tail hold none of their own. */
  lemma PlanBatchPlaceholders(head: string, table: string, keys: seq<string>, values: seq<Value>, tail: string)
    requires PlanBatch(head, table, keys, values, tail).Ok? && |values| % |keys| == 0
    requires Marks(head) == 0 && Marks(table) == 0 && SumMarks(keys) == 0 && Marks(tail) == 0
    ensures var stmts := PlanBatch(head, table, keys, values, tail).value;
            forall i :: 0 <= i < |stmts| ==> Marks(stmts[i].sql) == |stmts[i].params|
  {
    var k := |keys|;
    var chunks := Chunks(k, values);
    ChunkRows(k, values);
    ChunkValues(k, values);
    forall i | 0 <= i < |chunks|
      ensures Marks(ChunkSql(head, table, keys, chunks[i].rows, tail)) == |chunks[i].values|
    {
      ChunkSqlMarks(head, table, keys, chunks[i].rows, tail, k);
    }
  }

  lemma ChunkSqlMarks(head: string, table: string, keys: seq<string>, rows: seq<string>, tail: string, k: nat)
    requires Marks(head) == 0 && Marks(table) == 0 && SumMarks(keys) == 0 && Marks(tail) == 0
    requires forall j :: 0 <= j < |rows| ==> rows[j] == RowMarker(k)
    ensures Marks(ChunkSql(head, table, keys, rows, tail)) == |rows| * k
  {
    assert Marks(Join(rows, ",")) == |rows| * k by {
      assert rows == Repeat(|rows|, RowMarker(k));
      SumMarksRepeat(|rows|, RowMarker(k));
      RowMarkerMarks(k);
      MarksJoin(rows, ",");
    }
    assert Marks(Join(keys, ",")) == 0 by {
      MarksJoin(keys, ",");
    }
    ChunkTextMarks(head, table, Join(keys, ","), Join(rows, ","), tail);
  }

  lemma ChunkLiterals()
    ensures Marks("INTO `") == 0 && Marks("` (") == 0 && Marks(") VALUES ") == 0
  {
    NoMarks("INTO `");
    NoMarks("` (");
    NoMarks(") VALUES ");
  }

  lemma ChunkTextMarks(head: string, table: string, keys: string, rows: string, tail: string)
    ensures Marks(head + "INTO `" + table + "` (" + keys + ") VALUES " + rows + tail)
            == Marks(head) + Marks(table) + Marks(keys) + Marks(rows) + Marks(tail)
  {
    ChunkLiterals();
    var a := head + "INTO `";
    var b := a + table;
    var c := b + "` (";
    var d := c + keys;
    var e := d + ") VALUES ";
    var f := e + rows;
    MarksConcat(head, "INTO `");
    MarksConcat(a, table);
    MarksConcat(b, "` (");
    MarksConcat(c, keys);
    MarksConcat(d, ") VALUES ");
    MarksConcat(e, rows);
    MarksConcat(f, tail);
  }

  /** Every value a statement binds is one of the batch's values. */
  lemma ChunkValuesFrom(k: nat, values: seq<Value>)
    requires 1 <= k <= MaxPreparedStmtCount
    ensures forall i, j :: 0 <= i < |Chunks(k, values)| && 0 <= j < |Chunks(k, values)[i].values| ==>
              Chunks(k, values)[i].values[j] in values
  {
    forall i | 0 <= i < |Chunks(k, values)|
      ensures forall j :: 0 <= j < |Chunks(k, values)[i].values| ==> Chunks(k, values)[i].values[j] in values
    {
      ChunkAt(k, values, i);
      SliceFrom(values, Times(Times(i, RowsPerChunk(k)), k), Times(RowsPerChunk(k), k));
    }
  }

  lemma SliceFrom<T>(xs: seq<T>, offset: nat, length: nat)
    ensures forall j :: 0 <= j < |Slice(xs, offset, length)| ==> Slice(xs, offset, length)[j] in xs
  {
    if offset < |xs| {
      var r := Slice(xs, offset, length);
      forall j | 0 <= j < |r|
        ensures r[j] in xs
      {
        assert r[j] == xs[offset + j];
      }
    }
  }

  predicate NoArrays(values: seq<Value>)
  {
    forall i :: 0 <= i < |values| ==> !values[i].Arr?
  }

  /** Running a plan whose values are all scalars emits every statement. */
  lemma RunPlan(head: string, table: string, keys: seq<string>, values: seq<Value>, tail: string)
    requires PlanBatch(head, table, keys, values, tail).Ok?
    ensures NoArrays(values) ==>
              RunAll(PlanBatch(head, table, keys, values, tail).value) == Trace(PlanBatch(head, table, keys, values, tail).value, None)
  {
    var stmts := PlanBatch(head, table, keys, values, tail).value;
    var t := RunAll(stmts);
    ChunkValuesFrom(|keys|, values);
  }

  /** `INSERT ` or `INSERT IGNORE `. */
  function InsertHead(ignore: bool): string
  {
    if ignore then "INSERT IGNORE " else "INSERT "
  }

  /** PdoModel::insertBatchRaw: the planned statements run one after another
      until one is rejected. */
  function InsertBatchRaw(table: string, keys: seq<string>, values: seq<Value>, ignore: bool): (t: Trace)
    ensures |keys| == 0 ==> t == Trace([], Some(DivisionByZero))
    ensures |keys| > 0 && !Truthy(table) ==> t == Trace([], Some(EmptyTableName))
    ensures |keys| > MaxPreparedStmtCount && Truthy(table) ==> t == Trace([], Some(ChunkSizeBelowOne))
    ensures 0 < |keys| <= MaxPreparedStmtCount && Truthy(table) && NoArrays(values) ==>
              t == Trace(PlanBatch(InsertHead(ignore), table, keys, values, "").value, None)
  {
    match PlanBatch(InsertHead(ignore), table, keys, values, "")
    case Err(e) => Trace([], Some(e))
    case Ok(stmts) =>
      RunPlan(InsertHead(ignore), table, keys, values, "");
      RunAll(stmts)
  }

  /** The values of the rows, row after row, each in its key order. */
  function Flatten(rows: seq<Row>): seq<Value>
  {
    if |rows| == 0 then [] else ValuesOf(rows[0]) + Flatten(rows[1..])
  }

  /** Rows of `k` columns each flatten to `|rows| * k` values. */
  lemma {:induction false} FlattenSize(rows: seq<Row>, k: nat)
    requires forall i :: 0 <= i < |rows| ==> |rows[i]| == k
    ensures |Flatten(rows)| == |rows| * k
  {
    if |rows| > 0 {
      FlattenSize(rows[1..], k);
    }
  }

  lemma {:induction false} FlattenScalars(rows: seq<Row>)
    requires forall i, j :: 0 <= i < |rows| && 0 <= j < |rows[i]| ==> !rows[i][j].1.Arr?
    ensures NoArrays(Flatten(rows))
  {
    if |rows| > 0 {
      FlattenScalars(rows[1..]);
    }
  }

  /** PdoModel::insertBatch: the column list comes from the first row and the
      values of every row are flattened; with no rows there is no first row
      to read. */
  function InsertBatch(table: string, rows: seq<Row>, ignore: bool): (t: Trace)
    ensures |rows| == 0 ==> t == Trace([], Some(NoRows))
    ensures |rows| > 0 && |rows[0]| == 0 ==> t == Trace([], Some(DivisionByZero))
    ensures |rows| > 0 && |rows[0]| > 0 && !Truthy(table) ==> t == Trace([], Some(EmptyTableName))
  {
    if |rows| == 0 then Trace([], Some(NoRows))
    else InsertBatchRaw(table, Keys(rows[0]), Flatten(rows), ignore)
  }

  /** Rows of one shape, none holding an array, of 1 to 60000 columns. */
  predicate WellFormedBatch(rows: seq<Row>)
  {
    |rows| > 0 && 0 < |rows[0]| <= MaxPreparedStmtCount
    && (forall i :: 0 <= i < |rows| ==> |rows[i]| == |rows[0]|)
    && (forall i, j :: 0 <= i < |rows| && 0 <= j < |rows[i]| ==> !rows[i][j].1.Arr?)
  }

  /** A well-formed batch is inserted completely: every planned statement is
      emitted, their bound values together are the rows' values in order,
      none binds more than 60000 values, and each holds one `?` per value
      when the table name and the keys hold none. */
  lemma InsertBatchDelivers(table: string, rows: seq<Row>, ignore: bool)
    requires WellFormedBatch(rows) && Truthy(table)
    ensures var t := InsertBatch(table, rows, ignore);
            t.failure.None?
            && Concat(Params(t.emitted)) == Flatten(rows)
            && (forall i :: 0 <= i < |t.emitted| ==> |t.emitted[i].params| <= MaxPreparedStmtCount)
            && (Marks(table) == 0 && SumMarks(Keys(rows[0])) == 0 ==>
                  forall i :: 0 <= i < |t.emitted| ==> Marks(t.emitted[i].sql) == |t.emitted[i].params|)
  {
    var keys, values := Keys(rows[0]), Flatten(rows);
    FlattenSize(rows, |keys|);
    FlattenScalars(rows);
    DivUnique(|rows| * |keys|, |keys|, |rows|, 0);
    assert |values| % |keys| == 0 by {
      ModZero(|rows|, |keys|);
    }
    PlanBatchValues(InsertHead(ignore), table, keys, values, "");
    if Marks(table) == 0 && SumMarks(keys) == 0 {
      NoMarks(InsertHead(ignore));
      assert Marks("") == 0;
      PlanBatchPlaceholders(InsertHead(ignore), table, keys, values, "");
    }
  }

  lemma ModZero(n: nat, k: nat)
    requires k >= 1
    ensures (n * k) % k == 0
  {
    DivUnique(n * k, k, n, 0);
  }

  /** The assignments of insertUpdateBatch: `c = VALUES(c)` per update key. */
  function UpdateAssignments(updateKeys: seq<string>): (r: seq<string>)
    ensures |r| == |updateKeys|
    ensures forall i :: 0 <= i < |updateKeys| ==> r[i] == updateKeys[i] + " = VALUES(" + updateKeys[i] + ")"
  {
    seq(|updateKeys|, i requires 0 <= i < |updateKeys| => updateKeys[i] + " = VALUES(" + updateKeys[i] + ")")
  }

  /** The tail every statement of insertUpdateBatchRaw ends with. */
  function UpsertTail(updates: seq<string>): string
  {
    " ON DUPLICATE KEY UPDATE " + Join(updates, ",")
  }

  /** PdoModel::insertUpdateBatchRaw: as insertBatchRaw, without IGNORE, each
      statement ending with the same ON DUPLICATE KEY UPDATE list. */
  function InsertUpdateBatchRaw(table: string, keys: seq<string>, values: seq<Value>, updates: seq<string>)
    : (t: Trace)
    ensures |keys| == 0 ==> t == Trace([], Some(DivisionByZero))
    ensures |keys| > 0 && !Truthy(table) ==> t == Trace([], Some(EmptyTableName))
    ensures |keys| > MaxPreparedStmtCount && Truthy(table) ==> t == Trace([], Some(ChunkSizeBelowOne))
    ensures 0 < |keys| <= MaxPreparedStmtCount && Truthy(table) && NoArrays(values) ==>
              t == Trace(PlanBatch("INSERT ", table, keys, values, UpsertTail(updates)).value, None)
  {
    match PlanBatch("INSERT ", table, keys, values, UpsertTail(updates))
    case Err(e) => Trace([], Some(e))
    case Ok(stmts) =>
      RunPlan("INSERT ", table, keys, values, UpsertTail(updates));
      RunAll(stmts)
  }

  /** PdoModel::insertUpdateBatch. */
  function InsertUpdateBatch(table: string, rows: seq<Row>, updateKeys: seq<string>): (t: Trace)
    ensures |rows| == 0 ==> t == Trace([], Some(NoRows))
    ensures |rows| > 0 && |rows[0]| == 0 ==> t == Trace([], Some(DivisionByZero))
    ensures |rows| > 0 && |rows[0]| > 0 && !Truthy(table) ==> t == Trace([], Some(EmptyTableName))
  {
    if |rows| == 0 then Trace([], Some(NoRows))
    else InsertUpdateBatchRaw(table, Keys(rows[0]), Flatten(rows), UpdateAssignments(updateKeys))
  }

  /** The update list holds no placeholder when the update keys hold none. */
  lemma UpsertTailMarks(updateKeys: seq<string>)
    requires SumMarks(updateKeys) == 0
    ensures Marks(UpsertTail(UpdateAssignments(updateKeys))) == 0
  {
    var updates := UpdateAssignments(updateKeys);
    forall i | 0 <= i < |updates|
      ensures Marks(updates[i]) == 0
    {
      KeyMarks(updateKeys, i);
      AssignmentMarks(updateKeys[i]);
    }
    SumMarksZero(updates);
    MarksJoin(updates, ",");
    NoMarks(" ON DUPLICATE KEY UPDATE ");
    MarksConcat(" ON DUPLICATE KEY UPDATE ", Join(updates, ","));
  }

  lemma ValuesLiteral()
    ensures Marks(" = VALUES(") == 0
  {
    NoMarks(" = VALUES(");
  }

  lemma AssignmentMarks(key: string)
    requires Marks(key) == 0
    ensures Marks(key + " = VALUES(" + key + ")") == 0
  {
    ValuesLiteral();
    MarksConcat(key, " = VALUES(");
    MarksConcat(key + " = VALUES(", key);
    MarksConcat(key + " = VALUES(" + key, ")");
  }

  lemma {:induction false} KeyMarks(keys: seq<string>, i: nat)
    requires SumMarks(keys) == 0 && i < |keys|
    ensures Marks(keys[i]) == 0
  {
    if i > 0 {
      KeyMarks(keys[1..], i - 1);
    }
  }

  /** A well-formed batch is upserted completely, under the same bounds as
      insertBatch. */
  lemma InsertUpdateBatchDelivers(table: string, rows: seq<Row>, updateKeys: seq<string>)
    requires WellFormedBatch(rows) && Truthy(table)
    ensures var t := InsertUpdateBatch(table, rows, updateKeys);
            t.failure.None?
            && Concat(Params(t.emitted)) == Flatten(rows)
            && (forall i :: 0 <= i < |t.emitted| ==> |t.emitted[i].params| <= MaxPreparedStmtCount)
            && (Marks(table) == 0 && SumMarks(Keys(rows[0])) == 0 && SumMarks(updateKeys) == 0 ==>
                  forall i :: 0 <= i < |t.emitted| ==> Marks(t.emitted[i].sql) == |t.emitted[i].params|)
  {
    var keys, values := Keys(rows[0]), Flatten(rows);
    var tail := UpsertTail(UpdateAssignments(updateKeys));
    FlattenSize(rows, |keys|);
    FlattenScalars(rows);
    assert |values| % |keys| == 0 by {
      ModZero(|rows|, |keys|);
    }
    PlanBatchValues("INSERT ", table, keys, values, tail);
    if Marks(table) == 0 && SumMarks(keys) == 0 && SumMarks(updateKeys) == 0 {
      UpsertTailMarks(updateKeys);
      NoMarks("INSERT ");
      PlanBatchPlaceholders("INSERT ", table, keys, values, tail);
    }
  }
}
