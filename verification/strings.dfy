/** Text helpers shared by the SQL compilers: PHP's implode(), counting of `?`
    placeholder characters, PHP's trim(), ASCII case mapping, PHP string
    truthiness and decimal rendering of integers. */
module Strings {

  /** PHP `implode($sep, $parts)`: the parts with `sep` between neighbours. */
  function Join(parts: seq<string>, sep: string): string
  {
    if |parts| == 0 then ""
    else if |parts| == 1 then parts[0]
    else parts[0] + sep + Join(parts[1..], sep)
  }

  /** `n` copies of `s`, as PHP's `array_fill(0, n, s)`. */
  function Repeat(n: nat, s: string): (r: seq<string>)
    ensures |r| == n
    ensures forall i :: 0 <= i < n ==> r[i] == s
  {
    seq(n, _ => s)
  }

  /** Number of `?` placeholder characters in `s`. */
  function Marks(s: string): nat
  {
    if |s| == 0 then 0 else (if s[0] == '?' then 1 else 0) + Marks(s[1..])
  }

  /** Total number of placeholder characters over a list of fragments. */
  function SumMarks(parts: seq<string>): nat
  {
    if |parts| == 0 then 0 else Marks(parts[0]) + SumMarks(parts[1..])
  }

  lemma {:induction false} MarksConcat(a: string, b: string)
    ensures Marks(a + b) == Marks(a) + Marks(b)
  {
    if |a| == 0 {
      assert a + b == b;
    } else {
      assert (a + b)[1..] == a[1..] + b;
      MarksConcat(a[1..], b);
    }
  }

  lemma {:induction false} NoMarks(s: string)
    requires forall i :: 0 <= i < |s| ==> s[i] != '?'
    ensures Marks(s) == 0
  {
    if |s| > 0 {
      NoMarks(s[1..]);
    }
  }

  /** A fragment with exactly one placeholder character. */
  lemma OneMark(s: string, k: nat)
    requires k < |s| && s[k] == '?'
    requires forall i :: 0 <= i < |s| && i != k ==> s[i] != '?'
    ensures Marks(s) == 1
  {
    assert s == s[..k] + s[k..];
    MarksConcat(s[..k], s[k..]);
    assert s[k..] == [s[k]] + s[k + 1..];
    MarksConcat([s[k]], s[k + 1..]);
    NoMarks(s[..k]);
    NoMarks(s[k + 1..]);
  }

  lemma {:induction false} SumMarksConcat(a: seq<string>, b: seq<string>)
    ensures SumMarks(a + b) == SumMarks(a) + SumMarks(b)
  {
    if |a| > 0 {
      assert (a + b)[1..] == a[1..] + b;
      SumMarksConcat(a[1..], b);
    } else {
      assert a + b == b;
    }
  }

  /** Joining with a separator that holds no placeholder adds none. */
  lemma {:induction false} MarksJoin(parts: seq<string>, sep: string)
    requires Marks(sep) == 0
    ensures Marks(Join(parts, sep)) == SumMarks(parts)
  {
    if |parts| == 1 {
      assert SumMarks(parts[1..]) == 0;
    } else if |parts| > 1 {
      MarksJoin(parts[1..], sep);
      MarksConcat(parts[0], sep);
      MarksConcat(parts[0] + sep, Join(parts[1..], sep));
    }
  }

  lemma {:induction false} SumMarksRepeat(n: nat, s: string)
    ensures SumMarks(Repeat(n, s)) == n * Marks(s)
  {
    if n > 0 {
      assert Repeat(n, s)[1..] == Repeat(n - 1, s);
      SumMarksRepeat(n - 1, s);
    }
  }

  /** A list of fragments none of which holds a placeholder. */
  lemma {:induction false} SumMarksZero(parts: seq<string>)
    requires forall i :: 0 <= i < |parts| ==> Marks(parts[i]) == 0
    ensures SumMarks(parts) == 0
  {
    if |parts| > 0 {
      SumMarksZero(parts[1..]);
    }
  }

  /** PHP's truthiness of a string: only "" and "0" are false. */
  predicate Truthy(s: string)
  {
    s != "" && s != "0"
  }

  /** The characters PHP's trim() removes by default: space, tab, newline,
      carriage return, NUL and vertical tab. */
  predicate IsBlank(ch: char)
  {
    ch == ' ' || ch == '\t' || ch == '\n' || ch == '\r' || ch == '\0' || ch as int == 11
  }

  function TrimLeft(s: string): (r: string)
    ensures |r| <= |s| && r == s[|s| - |r|..]
    ensures forall i :: 0 <= i < |s| - |r| ==> IsBlank(s[i])
    ensures |r| > 0 ==> !IsBlank(r[0])
  {
    if |s| > 0 && IsBlank(s[0]) then TrimLeft(s[1..]) else s
  }

  function TrimRight(s: string): (r: string)
    ensures |r| <= |s| && r == s[..|r|]
    ensures forall i :: |r| <= i < |s| ==> IsBlank(s[i])
    ensures |r| > 0 ==> !IsBlank(r[|r| - 1])
  {
    if |s| > 0 && IsBlank(s[|s| - 1]) then TrimRight(s[..|s| - 1]) else s
  }

  /** PHP `trim($s)`: the longest infix without blank characters at either end. */
  function Trim(s: string): string
  {
    TrimRight(TrimLeft(s))
  }

  /** Trimming only removes characters, so it never adds a placeholder. */
  lemma TrimMarks(s: string)
    ensures Marks(Trim(s)) <= Marks(s)
  {
    var l := TrimLeft(s);
    SplitMarks(s, |s| - |l|);
    var r := TrimRight(l);
    SplitMarks(l, |r|);
  }

  lemma SplitMarks(s: string, k: nat)
    requires k <= |s|
    ensures Marks(s[..k]) <= Marks(s) && Marks(s[k..]) <= Marks(s)
  {
    assert s == s[..k] + s[k..];
    MarksConcat(s[..k], s[k..]);
  }

  function UpperChar(ch: char): char
  {
    if 'a' <= ch <= 'z' then (ch as int - 32) as char else ch
  }

  function LowerChar(ch: char): char
  {
    if 'A' <= ch <= 'Z' then (ch as int + 32) as char else ch
  }

  /** PHP `strtoupper`, which maps only the ASCII letters. */
  function ToUpper(s: string): (r: string)
    ensures |r| == |s|
  {
    seq(|s|, i requires 0 <= i < |s| => UpperChar(s[i]))
  }

  /** PHP `strtolower`, which maps only the ASCII letters. */
  function ToLower(s: string): (r: string)
    ensures |r| == |s|
  {
    seq(|s|, i requires 0 <= i < |s| => LowerChar(s[i]))
  }

  function DigitChar(d: nat): (ch: char)
    requires d < 10
    ensures '0' <= ch <= '9'
  {
    "0123456789"[d]
  }

  predicate IsDigit(ch: char)
  {
    '0' <= ch <= '9'
  }

  /** Decimal digits of `n`, most significant first, without leading zeros. */
  function NatToString(n: nat): (r: string)
    ensures |r| > 0
    ensures forall i :: 0 <= i < |r| ==> IsDigit(r[i])
    ensures |r| > 1 ==> r[0] != '0'
  {
    if n < 10 then [DigitChar(n)] else NatToString(n / 10) + [DigitChar(n % 10)]
  }

  /** The value of a string of decimal digits. */
  function DigitsValue(s: string): nat
    requires forall i :: 0 <= i < |s| ==> IsDigit(s[i])
  {
    if |s| == 0 then 0
    else
      assert IsDigit(s[|s| - 1]);
      10 * DigitsValue(s[..|s| - 1]) + (s[|s| - 1] as int - '0' as int)
  }

  lemma {:induction false} NatToStringValue(n: nat)
    ensures DigitsValue(NatToString(n)) == n
  {
    if n >= 10 {
      var r := NatToString(n);
      assert r[..|r| - 1] == NatToString(n / 10);
      NatToStringValue(n / 10);
    }
  }

  /** PHP's string conversion of an int: an optional minus sign, then digits. */
  function IntToString(n: int): (r: string)
    ensures Marks(r) == 0
  {
    var digits := NatToString(if n < 0 then -n else n);
    NoMarks(digits);
    MarksConcat("-", digits);
    if n < 0 then "-" + digits else digits
  }

  /** The text before the first `sep`, and the rest from that `sep` on. */
  function SplitFirst(s: string, sep: char): (r: (string, string))
    ensures r.0 + r.1 == s
    ensures sep !in r.0
    ensures |r.1| > 0 ==> r.1[0] == sep
  {
    if |s| == 0 then ("", "")
    else if s[0] == sep then ("", s)
    else
      var rest := SplitFirst(s[1..], sep);
      var head := [s[0]] + rest.0;
      assert head + rest.1 == [s[0]] + (rest.0 + rest.1);
      assert s == [s[0]] + s[1..];
      assert forall i :: 0 <= i < |head| ==> head[i] != sep by {
        forall i | 0 <= i < |head|
          ensures head[i] != sep
        {
          if i > 0 {
            assert head[i] == rest.0[i - 1];
          }
        }
      }
      (head, rest.1)
  }

  lemma {:induction false} SplitFirstOf(a: string, b: string, sep: char)
    requires sep !in a && (|b| == 0 || b[0] == sep)
    ensures SplitFirst(a + b, sep) == (a, b)
  {
    if |a| == 0 {
      assert a + b == b;
    } else {
      assert (a + b)[0] == a[0];
      assert (a + b)[1..] == a[1..] + b;
      SplitFirstOf(a[1..], b, sep);
      assert [a[0]] + a[1..] == a;
    }
  }

  /** PHP `explode($sep, $s)` for a one-character separator. */
  function Split(s: string, sep: char): (r: seq<string>)
    ensures |r| >= 1
    decreases |s|
  {
    var (head, rest) := SplitFirst(s, sep);
    if |rest| == 0 then [head] else [head] + Split(rest[1..], sep)
  }

  /** Splitting undoes joining when no part holds the separator. */
  lemma {:induction false} SplitJoin(parts: seq<string>, sep: char)
    requires |parts| >= 1 && forall i :: 0 <= i < |parts| ==> sep !in parts[i]
    ensures Split(Join(parts, [sep]), sep) == parts
  {
    if |parts| == 1 {
      SplitFirstOf(parts[0], "", sep);
      assert parts[0] + "" == parts[0];
    } else {
      var rest := Join(parts[1..], [sep]);
      var tail := [sep] + rest;
      assert Join(parts, [sep]) == parts[0] + tail;
      SplitFirstOf(parts[0], tail, sep);
      assert tail[1..] == rest;
      assert Split(parts[0] + tail, sep) == [parts[0]] + Split(rest, sep);
      SplitJoin(parts[1..], sep);
      assert parts == [parts[0]] + parts[1..];
    }
  }
}
