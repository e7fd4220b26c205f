/** CreateTableBuilder: columns are recorded one call at a time and
    buildSql renders `CREATE TABLE name (def,def,...) ` followed by
    `ENGINE=...` when an engine is set. A column definition is the name, the
    type and the constraints that are switched on, in the fixed order
    AUTO_INCREMENT, PRIMARY KEY, NOT NULL, separated by single spaces. */
module CreateTable {
  import opened Strings
  import opened Common

  datatype ColumnSpec = ColumnSpec(name: string, sqlType: string, autoIncrement: bool, primaryKey: bool, notNull: bool)

  /** The builder's state. The column list is a typed property without a
      default: it exists only once column() has been called, so an empty
      list here stands for the uninitialised property. */
  datatype TableBuilder = TableBuilder(tableName: string, columns: seq<ColumnSpec>, engine: Option<string>,
                                       connected: bool)

  function New(tableName: string, connected: bool): (b: TableBuilder)
    ensures b.tableName == tableName && b.columns == [] && b.engine.None? && b.connected == connected
  {
    TableBuilder(tableName, [], None, connected)
  }

  /** CreateTableBuilder::column: appends one column. */
  function Column(b: TableBuilder, name: string, sqlType: string, autoIncrement: bool, primaryKey: bool,
                  notNull: bool): (r: TableBuilder)
    ensures r.columns == b.columns + [ColumnSpec(name, sqlType, autoIncrement, primaryKey, notNull)]
    ensures r.(columns := b.columns) == b
  {
    b.(columns := b.columns + [ColumnSpec(name, sqlType, autoIncrement, primaryKey, notNull)])
  }

  /** column() with its defaults: an `int` column without constraints. */
  function DefaultColumn(b: TableBuilder, name: string): TableBuilder
  {
    Column(b, name, "int", false, false, false)
  }

  /** The default of setEngine's argument. */
  const DefaultEngine: string := "INNODB"

  /** CreateTableBuilder::setEngine: records the engine and nothing else. */
  function SetEngine(b: TableBuilder, engine: string := DefaultEngine): (r: TableBuilder)
    ensures r.engine == Some(engine)
    ensures r.(engine := b.engine) == b
  {
    b.(engine := Some(engine))
  }

  /** The constraints a column switches on, in rendering order. */
  function Constraints(c: ColumnSpec): seq<string>
  {
    (if c.autoIncrement then ["AUTO_INCREMENT"] else [])
    + (if c.primaryKey then ["PRIMARY KEY"] else [])
    + (if c.notNull then ["NOT NULL"] else [])
  }

  /** One column definition: its parts joined with single spaces. */
  function ColumnDefinition(c: ColumnSpec): string
  {
    Join([c.name, c.sqlType] + Constraints(c), " ")
  }

  function Definitions(columns: seq<ColumnSpec>): (r: seq<string>)
    ensures |r| == |columns|
    ensures forall i :: 0 <= i < |columns| ==> r[i] == ColumnDefinition(columns[i])
  {
    seq(|columns|, i requires 0 <= i < |columns| => ColumnDefinition(columns[i]))
  }

  /** The column list between the parentheses. */
  function ColumnList(columns: seq<ColumnSpec>): string
  {
    Join(Definitions(columns), ",")
  }

  /** `ENGINE=...` for a truthy engine name, nothing otherwise. */
  function EngineSql(engine: Option<string>): string
  {
    if SomeTruthy(engine) then "ENGINE=" + engine.value else ""
  }

  /** CreateTableBuilder::buildSql; reading the column list before any
      column() call is an error. */
  function BuildSql(b: TableBuilder): (r: Result<string>)
    ensures r.Err? <==> |b.columns| == 0
    ensures r.Err? ==> r.error == ColumnsUninitialized
  {
    if |b.columns| == 0 then Err(ColumnsUninitialized)
    else Ok("CREATE TABLE " + b.tableName + " " + "(" + ColumnList(b.columns) + ") " + EngineSql(b.engine))
  }

  /** CreateTableBuilder::execute: the connection is checked first, then the
      statement is built and handed to exec(). */
  function Execute(b: TableBuilder): (r: Result<string>)
    ensures !b.connected ==> r == Err(NoConnection)
    ensures b.connected && |b.columns| == 0 ==> r == Err(ColumnsUninitialized)
    ensures b.connected && |b.columns| > 0 ==> r.Ok? && r == BuildSql(b)
  {
    if !b.connected then Err(NoConnection) else BuildSql(b)
  }

  // ---------------------------------------------------------------------
  // Reading a column list back: the rendering loses nothing when names and
  // types hold neither spaces nor commas.

  /** `sep` + each word, one after another. */
  function Prefixed(words: seq<string>, sep: string): string
  {
    if |words| == 0 then "" else sep + words[0] + Prefixed(words[1..], sep)
  }

  lemma {:induction false} JoinPrefixed(x: string, words: seq<string>, sep: string)
    ensures Join([x] + words, sep) == x + Prefixed(words, sep)
    decreases |words|
  {
    if |words| > 0 {
      assert ([x] + words)[1..] == words;
      JoinPrefixed(words[0], words[1..], sep);
      assert [words[0]] + words[1..] == words;
    }
  }

  /** A definition is its name, a space, its type and its constraints each
      after a space. */
  lemma DefinitionText(c: ColumnSpec)
    ensures ColumnDefinition(c) == c.name + " " + c.sqlType + Prefixed(Constraints(c), " ")
  {
    var cs := Constraints(c);
    assert [c.name, c.sqlType] + cs == [c.name] + ([c.sqlType] + cs);
    JoinPrefixed(c.name, [c.sqlType] + cs, " ");
    assert ([c.sqlType] + cs)[1..] == cs;
  }

  /** Takes `word` off the front of `s` if it is there. */
  function Take(s: string, word: string): (bool, string)
  {
    if |word| <= |s| && s[..|word|] == word then (true, s[|word|..]) else (false, s)
  }

  /** The constraints after the type, in rendering order, each at most once. */
  function ParseConstraints(s: string): Option<(bool, bool, bool)>
  {
    var (a, s1) := Take(s, " AUTO_INCREMENT");
    var (p, s2) := Take(s1, " PRIMARY KEY");
    var (n, s3) := Take(s2, " NOT NULL");
    if s3 == "" then Some((a, p, n)) else None
  }

  /** Reads a column definition back. */
  function DecodeColumn(def: string): Option<ColumnSpec>
  {
    var (name, r1) := SplitFirst(def, ' ');
    if |r1| == 0 then None
    else
      var (sqlType, r2) := SplitFirst(r1[1..], ' ');
      match ParseConstraints(r2)
      case None => None
      case Some(flags) => Some(ColumnSpec(name, sqlType, flags.0, flags.1, flags.2))
  }

  lemma TakeWord(word: string, rest: string)
    ensures Take(word + rest, word) == (true, rest)
  {
    assert (word + rest)[..|word|] == word;
    assert (word + rest)[|word|..] == rest;
  }

  lemma SkipWord(word: string, s: string)
    requires |s| > 1 && |word| > 1 && s[1] != word[1]
    ensures Take(s, word) == (false, s)
  {
  }

  lemma ConstraintsRoundTrip(c: ColumnSpec)
    ensures ParseConstraints(Prefixed(Constraints(c), " ")) == Some((c.autoIncrement, c.primaryKey, c.notNull))
  {
    var ai, pk, nn := " AUTO_INCREMENT", " PRIMARY KEY", " NOT NULL";
    var s3 := if c.notNull then nn else "";
    var s2 := (if c.primaryKey then pk else "") + s3;
    var s1 := (if c.autoIncrement then ai else "") + s2;
    ConstraintsText(c);
    if c.autoIncrement {
      TakeWord(ai, s2);
    } else if c.primaryKey || c.notNull {
      SkipWord(ai, s1);
    }
    if c.primaryKey {
      TakeWord(pk, s3);
    } else if c.notNull {
      SkipWord(pk, s2);
    }
    if c.notNull {
      TakeWord(nn, "");
      assert nn + "" == nn;
    }
  }

  lemma ConstraintsText(c: ColumnSpec)
    ensures Prefixed(Constraints(c), " ")
            == (if c.autoIncrement then " AUTO_INCREMENT" else "")
               + ((if c.primaryKey then " PRIMARY KEY" else "") + (if c.notNull then " NOT NULL" else ""))
  {
    OptionalWords("AUTO_INCREMENT", "PRIMARY KEY", "NOT NULL", c.autoIncrement, c.primaryKey, c.notNull);
    assert " " + "AUTO_INCREMENT" == " AUTO_INCREMENT";
    assert " " + "PRIMARY KEY" == " PRIMARY KEY";
    assert " " + "NOT NULL" == " NOT NULL";
  }

  /** Up to three words, each present or not, prefixed with spaces. */
  lemma OptionalWords(x: string, y: string, z: string, a: bool, p: bool, n: bool)
    ensures Prefixed((if a then [x] else []) + (if p then [y] else []) + (if n then [z] else []), " ")
            == (if a then " " + x else "") + ((if p then " " + y else "") + (if n then " " + z else ""))
  {
    var xs: seq<string> := if a then [x] else [];
    var ys: seq<string> := if p then [y] else [];
    var zs: seq<string> := if n then [z] else [];
    assert xs + ys + zs == xs + (ys + zs);
    PrefixedConcat(xs, ys + zs, " ");
    PrefixedConcat(ys, zs, " ");
    OneWord(x, a);
    OneWord(y, p);
    OneWord(z, n);
  }

  lemma OneWord(w: string, on: bool)
    ensures Prefixed(if on then [w] else [], " ") == (if on then " " + w else "")
  {
    if on {
      assert Prefixed([w], " ") == " " + w + Prefixed([], " ");
    }
  }

  lemma {:induction false} PrefixedConcat(a: seq<string>, b: seq<string>, sep: string)
    ensures Prefixed(a + b, sep) == Prefixed(a, sep) + Prefixed(b, sep)
  {
    if |a| > 0 {
      assert (a + b)[1..] == a[1..] + b;
      PrefixedConcat(a[1..], b, sep);
    } else {
      assert a + b == b;
    }
  }

  /** Text free of spaces and commas. */
  predicate Plain(s: string)
  {
    ' ' !in s && ',' !in s
  }

  /** A column whose name and type are plain is read back unchanged. */
  lemma DecodeColumnRoundTrip(c: ColumnSpec)
    requires Plain(c.name) && Plain(c.sqlType)
    ensures DecodeColumn(ColumnDefinition(c)) == Some(c)
  {
    var flags := Prefixed(Constraints(c), " ");
    DefinitionText(c);
    PrefixedStart(Constraints(c), " ");
    ConstraintsRoundTrip(c);
    DecodeText(c.name, c.sqlType, flags);
  }

  lemma PrefixedStart(words: seq<string>, sep: string)
    requires |sep| > 0
    ensures |Prefixed(words, sep)| == 0 || Prefixed(words, sep)[0] == sep[0]
  {
  }

  lemma DecodeText(name: string, sqlType: string, flags: string)
    requires ' ' !in name && ' ' !in sqlType && (|flags| == 0 || flags[0] == ' ')
    requires ParseConstraints(flags).Some?
    ensures var f := ParseConstraints(flags).value;
            DecodeColumn(name + " " + sqlType + flags) == Some(ColumnSpec(name, sqlType, f.0, f.1, f.2))
  {
    var tail := " " + sqlType + flags;
    assert name + " " + sqlType + flags == name + tail;
    SplitFirstOf(name, tail, ' ');
    assert tail[1..] == sqlType + flags;
    SplitFirstOf(sqlType, flags, ' ');
  }

  lemma DefinitionPlainOfCommas(c: ColumnSpec)
    requires Plain(c.name) && Plain(c.sqlType)
    ensures ',' !in ColumnDefinition(c)
  {
    DefinitionText(c);
    ConstraintsText(c);
  }

  /** Reads a column list back. */
  function DecodeColumns(list: string): Option<seq<ColumnSpec>>
  {
    DecodeAll(Split(list, ','))
  }

  function DecodeAll(defs: seq<string>): Option<seq<ColumnSpec>>
  {
    if |defs| == 0 then Some([])
    else match DecodeColumn(defs[0])
      case None => None
      case Some(c) =>
        match DecodeAll(defs[1..])
        case None => None
        case Some(cs) => Some([c] + cs)
  }

  lemma {:induction false} DecodeAllRoundTrip(columns: seq<ColumnSpec>)
    requires forall i :: 0 <= i < |columns| ==> Plain(columns[i].name) && Plain(columns[i].sqlType)
    ensures DecodeAll(Definitions(columns)) == Some(columns)
  {
    if |columns| > 0 {
      DecodeColumnRoundTrip(columns[0]);
      DecodeAllRoundTrip(columns[1..]);
      assert Definitions(columns)[1..] == Definitions(columns[1..]);
      assert columns == [columns[0]] + columns[1..];
    }
  }

  /** A built statement names the table, lists the columns between
      parentheses, and ends with the engine clause; when names and types are
      plain the column list reads back as exactly the columns added, in the
      order they were added. */
  lemma BuildSqlRoundTrip(b: TableBuilder)
    requires BuildSql(b).Ok?
    requires forall i :: 0 <= i < |b.columns| ==> Plain(b.columns[i].name) && Plain(b.columns[i].sqlType)
    ensures BuildSql(b).value == "CREATE TABLE " + b.tableName + " (" + ColumnList(b.columns) + ") " + EngineSql(b.engine)
    ensures DecodeColumns(ColumnList(b.columns)) == Some(b.columns)
  {
    BuildSqlShape(b);
    ColumnListRoundTrip(b.columns);
  }

  lemma BuildSqlShape(b: TableBuilder)
    requires |b.columns| > 0
    ensures BuildSql(b) == Ok("CREATE TABLE " + b.tableName + " (" + ColumnList(b.columns) + ") " + EngineSql(b.engine))
  {
    BuildSqlText(b.tableName, ColumnList(b.columns), EngineSql(b.engine));
  }

  /** A non-empty column list of plain names and types reads back as the
      columns it was built from. */
  lemma ColumnListRoundTrip(columns: seq<ColumnSpec>)
    requires |columns| > 0
    requires forall i :: 0 <= i < |columns| ==> Plain(columns[i].name) && Plain(columns[i].sqlType)
    ensures DecodeColumns(ColumnList(columns)) == Some(columns)
  {
    var defs := Definitions(columns);
    forall i | 0 <= i < |defs|
      ensures ',' !in defs[i]
    {
      DefinitionPlainOfCommas(columns[i]);
    }
    SplitJoin(defs, ',');
    DecodeAllRoundTrip(columns);
  }

  lemma BuildSqlText(table: string, list: string, engine: string)
    ensures "CREATE TABLE " + table + " " + "(" + list + ") " + engine == "CREATE TABLE " + table + " (" + list + ") " + engine
  {
    assert " " + "(" == " (";
    var front := "CREATE TABLE " + table;
    var back := list + ") " + engine;
    assert front + " " + "(" + list + ") " + engine == front + (" " + "(") + back;
    assert front + " (" + list + ") " + engine == front + " (" + back;
  }

  /** column() with its defaults appends an `int` column without
      constraints, rendered as `name int`. */
  lemma DefaultColumnText(b: TableBuilder, name: string)
    ensures DefaultColumn(b, name).columns == b.columns + [ColumnSpec(name, "int", false, false, false)]
    ensures ColumnDefinition(DefaultColumn(b, name).columns[|b.columns|]) == name + " int"
  {
    var c := ColumnSpec(name, "int", false, false, false);
    assert DefaultColumn(b, name).columns[|b.columns|] == c;
    assert Constraints(c) == [];
    assert [c.name, c.sqlType] + Constraints(c) == [name, "int"];
    assert [name, "int"][1..] == ["int"];
    assert Join([name, "int"], " ") == name + " " + "int";
  }

  /** The engine clause closes the statement: a truthy engine name appends
      `ENGINE=name` to the text built without an engine, a falsy one appends
      nothing, and the connection plays no part in the text. */
  lemma EngineSuffix(b: TableBuilder, engine: string)
    requires |b.columns| > 0
    ensures BuildSql(SetEngine(b, engine)).value
            == BuildSql(b.(engine := None)).value + (if Truthy(engine) then "ENGINE=" + engine else "")
    ensures BuildSql(b.(connected := !b.connected)) == BuildSql(b)
    ensures BuildSql(SetEngine(b)).value == BuildSql(b.(engine := None)).value + "ENGINE=INNODB"
  {
    var front := "CREATE TABLE " + b.tableName + " " + "(" + ColumnList(b.columns) + ") ";
    assert BuildSql(SetEngine(b)).value == front + EngineSql(Some(DefaultEngine));
    assert BuildSql(b.(engine := None)).value == front + "";
    assert BuildSql(SetEngine(b, engine)).value == front + EngineSql(Some(engine));
  }
}
