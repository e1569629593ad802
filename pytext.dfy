/** The pieces of Python's `str` that the serial-line parser and the binding
    keys rely on: `split(sep)`, `strip()`, `isnumeric()` (on ASCII digits),
    and the conversion of a digit string to a number (`float(...)` of an
    integer literal, `int(...)` of a string). Strings are `seq<char>`. */
module PyText {
  import opened Wrappers

  // ---------------------------------------------------------------------
  // Whitespace and strip()
  // ---------------------------------------------------------------------

  /** The characters for which Python's `str.isspace()` holds, i.e. those
      that `str.strip()` with no argument removes. */
  predicate IsSpace(c: char) {
    c == ' ' || c == '\t' || c == '\n' || c == '\r'
    || c == '\U{0B}' || c == '\U{0C}'
    || ('\U{1C}' <= c <= '\U{1F}')
    || c == '\U{85}' || c == '\U{A0}' || c == '\U{1680}'
    || ('\U{2000}' <= c <= '\U{200A}')
    || c == '\U{2028}' || c == '\U{2029}' || c == '\U{202F}'
    || c == '\U{205F}' || c == '\U{3000}'
  }

  predicate AllSpace(s: string) {
    forall i :: 0 <= i < |s| ==> IsSpace(s[i])
  }

  /** Neither the first nor the last character is whitespace. */
  predicate Trimmed(s: string) {
    s == [] || (!IsSpace(s[0]) && !IsSpace(s[|s| - 1]))
  }

  /** `s.lstrip()`: the suffix of `s` left after its leading whitespace. */
  function TrimLeft(s: string): (r: string)
    ensures |r| <= |s|
  {
    if s != [] && IsSpace(s[0]) then TrimLeft(s[1..]) else s
  }

  /** `s.rstrip()`: the prefix of `s` left before its trailing whitespace. */
  function TrimRight(s: string): (r: string)
    ensures |r| <= |s|
  {
    if s != [] && IsSpace(s[|s| - 1]) then TrimRight(s[..|s| - 1]) else s
  }

  /** `s.strip()`. */
  function Strip(s: string): (r: string)
    ensures |r| <= |s|
  {
    TrimRight(TrimLeft(s))
  }

  /** `lstrip()` removes exactly the leading whitespace: what it drops is all
      whitespace and what it keeps does not start with whitespace. */
  lemma {:induction false} TrimLeftRemovesLeadingSpace(s: string)
    ensures var r := TrimLeft(s);
      r == s[|s| - |r|..] && (r != [] ==> !IsSpace(r[0])) && AllSpace(s[..|s| - |r|])
    decreases |s|
  {
    if s != [] && IsSpace(s[0]) {
      TrimLeftRemovesLeadingSpace(s[1..]);
      var r := TrimLeft(s);
      assert s[..|s| - |r|] == [s[0]] + s[1..][..|s| - 1 - |r|];
    }
  }

  /** `rstrip()` removes exactly the trailing whitespace. */
  lemma {:induction false} TrimRightRemovesTrailingSpace(s: string)
    ensures var r := TrimRight(s);
      r == s[..|r|] && (r != [] ==> !IsSpace(r[|r| - 1])) && AllSpace(s[|r|..])
    decreases |s|
  {
    if s != [] && IsSpace(s[|s| - 1]) {
      TrimRightRemovesTrailingSpace(s[..|s| - 1]);
      var r := TrimRight(s);
      assert s[|r|..] == s[..|s| - 1][|r|..] + [s[|s| - 1]];
    }
  }

  /** `strip()` leaves no whitespace at either end. */
  lemma StripTrimmed(s: string)
    ensures Trimmed(Strip(s))
  {
    TrimLeftRemovesLeadingSpace(s);
    TrimRightRemovesTrailingSpace(TrimLeft(s));
  }

  lemma {:induction false} TrimLeftSkips(a: string, u: string)
    requires AllSpace(a) && (u == [] || !IsSpace(u[0]))
    ensures TrimLeft(a + u) == u
    decreases |a|
  {
    if a != [] {
      assert (a + u)[1..] == a[1..] + u;
      TrimLeftSkips(a[1..], u);
    } else {
      assert a + u == u;
    }
  }

  lemma {:induction false} TrimRightSkips(u: string, b: string)
    requires AllSpace(b) && (u == [] || !IsSpace(u[|u| - 1]))
    ensures TrimRight(u + b) == u
    decreases |b|
  {
    if b != [] {
      assert (u + b)[..|u + b| - 1] == u + b[..|b| - 1];
      TrimRightSkips(u, b[..|b| - 1]);
    } else {
      assert u + b == u;
    }
  }

  /** A string with no whitespace at either end is what `strip()` gives
      back for it padded with whitespace on both sides. */
  lemma StripPadded(a: string, t: string, b: string)
    requires AllSpace(a) && AllSpace(b) && Trimmed(t)
    ensures Strip(a + t + b) == t
  {
    if t == [] {
      assert a + t + b == (a + b) + [];
      TrimLeftSkips(a + b, []);
    } else {
      assert a + t + b == a + (t + b);
      TrimLeftSkips(a, t + b);
      TrimRightSkips(t, b);
    }
  }

  // ---------------------------------------------------------------------
  // split(sep) and its inverse, sep.join(...)
  // ---------------------------------------------------------------------

  /** `s.count(c)` for a single character. */
  function CountChar(s: string, c: char): nat
    decreases |s|
  {
    if s == [] then 0 else (if s[0] == c then 1 else 0) + CountChar(s[1..], c)
  }

  /** `sep.join(ps)` for a non-empty list of pieces. */
  function Join(ps: seq<string>, sep: char): string
    requires |ps| >= 1
    decreases |ps|
  {
    if |ps| == 1 then ps[0] else ps[0] + [sep] + Join(ps[1..], sep)
  }

  /** `s.split(sep)` with a one-character separator: one piece more than
      there are separators, and no piece contains the separator. */
  function Split(s: string, sep: char): (r: seq<string>)
    ensures |r| == CountChar(s, sep) + 1
    ensures forall i :: 0 <= i < |r| ==> sep !in r[i]
    decreases |s|
  {
    if s == [] then [""]
    else
      var rest := Split(s[1..], sep);
      if s[0] == sep then [""] + rest
      else [[s[0]] + rest[0]] + rest[1..]
  }

  /** Joining the pieces back with the separator gives the string split. */
  lemma {:induction false} JoinSplit(s: string, sep: char)
    ensures Join(Split(s, sep), sep) == s
    decreases |s|
  {
    if s != [] {
      JoinSplit(s[1..], sep);
      var rest := Split(s[1..], sep);
      assert [s[0]] + s[1..] == s;
      if s[0] != sep {
        var r := Split(s, sep);
        assert r == [[s[0]] + rest[0]] + rest[1..];
        assert r[1..] == rest[1..];
        if |rest| > 1 {
          assert Join(rest, sep) == rest[0] + [sep] + Join(rest[1..], sep);
          assert Join(r, sep) == ([s[0]] + rest[0]) + [sep] + Join(rest[1..], sep);
        }
      }
    }
  }

  lemma {:induction false} SplitNoSeparator(x: string, sep: char)
    requires sep !in x
    ensures Split(x, sep) == [x]
    decreases |x|
  {
    if x != [] {
      SplitNoSeparator(x[1..], sep);
      assert [x[0]] + x[1..] == x;
    }
  }

  lemma {:induction false} SplitAfterPiece(x: string, y: string, sep: char)
    requires sep !in x
    ensures Split(x + [sep] + y, sep) == [x] + Split(y, sep)
    decreases |x|
  {
    var s := x + [sep] + y;
    if x == [] {
      assert s[1..] == y;
    } else {
      assert s[1..] == x[1..] + [sep] + y;
      SplitAfterPiece(x[1..], y, sep);
      assert [x[0]] + x[1..] == x;
    }
  }

  /** Splitting undoes joining, for pieces free of the separator. */
  lemma {:induction false} SplitJoin(ps: seq<string>, sep: char)
    requires |ps| >= 1
    requires forall i :: 0 <= i < |ps| ==> sep !in ps[i]
    ensures Split(Join(ps, sep), sep) == ps
    decreases |ps|
  {
    if |ps| == 1 {
      SplitNoSeparator(ps[0], sep);
    } else {
      SplitJoin(ps[1..], sep);
      SplitAfterPiece(ps[0], Join(ps[1..], sep), sep);
      assert [ps[0]] + ps[1..] == ps;
    }
  }

  /** `s.split(sep)` has exactly two pieces iff `s` holds exactly one
      separator, and then the pieces are what lies on either side of it. */
  lemma SplitTwoFields(s: string, a: string, b: string, sep: char)
    ensures Split(s, sep) == [a, b] <==> (s == a + [sep] + b && sep !in a && sep !in b)
  {
    if s == a + [sep] + b && sep !in a && sep !in b {
      assert Join([a, b], sep) == a + [sep] + Join([b], sep);
      SplitJoin([a, b], sep);
    }
    if Split(s, sep) == [a, b] {
      JoinSplit(s, sep);
      assert Join([a, b], sep) == a + [sep] + Join([b], sep);
    }
  }

  // ---------------------------------------------------------------------
  // Digit strings
  // ---------------------------------------------------------------------

  predicate IsDigit(c: char) {
    '0' <= c <= '9'
  }

  /** `s.isnumeric()`, restricted to the ASCII digits: non-empty and made
      of digits only. */
  predicate IsNumeric(s: string) {
    |s| > 0 && forall i :: 0 <= i < |s| ==> IsDigit(s[i])
  }

  /** The number a string of decimal digits denotes (leading zeros allowed);
      this is what `float(...)` and `int(...)` give for such a string. */
  function DigitsValue(s: string): nat
    requires forall i :: 0 <= i < |s| ==> IsDigit(s[i])
    decreases |s|
  {
    if s == [] then 0
    else
      assert IsDigit(s[|s| - 1]);
      DigitsValue(s[..|s| - 1]) * 10 + (s[|s| - 1] as int - '0' as int)
  }

  function DigitChar(d: nat): (c: char)
    requires d < 10
    ensures IsDigit(c) && c as int - '0' as int == d
  {
    ('0' as int + d) as char
  }

  /** `str(n)` for a natural number: its shortest decimal digit string,
      which denotes `n` again. */
  function ToDigits(n: nat): (r: string)
    ensures IsNumeric(r)
    ensures DigitsValue(r) == n
    ensures r[0] != '0' || n == 0
    decreases n
  {
    if n < 10 then [DigitChar(n)]
    else
      var r := ToDigits(n / 10) + [DigitChar(n % 10)];
      assert r[..|r| - 1] == ToDigits(n / 10);
      r
  }

  /** Python's `int(s)` for a string: optional surrounding whitespace, an
      optional sign, then decimal digits; anything else is a `ValueError`,
      here `None`. */
  function ParseInt(s: string): Option<int> {
    var t := Strip(s);
    if |t| > 0 && (t[0] == '+' || t[0] == '-') && IsNumeric(t[1..]) then
      var v: int := DigitsValue(t[1..]);
      Some(if t[0] == '-' then -v else v)
    else if IsNumeric(t) then Some(DigitsValue(t))
    else None
  }

  /** `str(n)` for any integer. */
  function FormatInt(n: int): string {
    if n < 0 then "-" + ToDigits(-n) else ToDigits(n)
  }

  /** `int(str(n)) == n`. */
  lemma ParseFormatInt(n: int)
    ensures ParseInt(FormatInt(n)) == Some(n)
  {
    var f := FormatInt(n);
    var d := ToDigits(if n < 0 then -n else n);
    assert IsDigit(d[|d| - 1]);
    assert Trimmed(f);
    StripPadded("", f, "");
    assert "" + f + "" == f;
    if n < 0 {
      assert f[1..] == d;
    } else {
      assert f == d && !(f[0] == '+' || f[0] == '-');
    }
  }
}
