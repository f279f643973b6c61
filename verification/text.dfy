/**
  The handful of Python `str` operations the harness relies on, written out
  exactly enough for the model: `s.split(sep)`, `s.split(sep, 1)`, `s.split()`,
  `s.splitlines()`, `s.strip(chars)`, `s.rstrip()` and `int(s, base)` on ASCII
  digits.  Each comes with the property that makes it usable: a round trip, or a
  statement of what the pieces may contain.
*/
module Text {
  import opened Wrappers

  /** Characters for which Python's `str.isspace()` is true. */
  const Whitespace: set<char> := {
    '\t', '\n', '\U{0B}', '\U{0C}', '\r', '\U{1C}', '\U{1D}', '\U{1E}', '\U{1F}', ' ',
    '\U{85}', '\U{A0}', '\U{1680}', '\U{2000}', '\U{2001}', '\U{2002}', '\U{2003}',
    '\U{2004}', '\U{2005}', '\U{2006}', '\U{2007}', '\U{2008}', '\U{2009}', '\U{200A}',
    '\U{2028}', '\U{2029}', '\U{202F}', '\U{205F}', '\U{3000}'
  }

  /** Printable ASCII characters other than the space are not whitespace. */
  lemma GraphicNotSpace(c: char)
    requires '!' <= c <= '~'
    ensures c !in Whitespace
  {
  }

  /** Characters that end a line for Python's `str.splitlines()` ("\r\n" counts once). */
  const LineBreaks: set<char> := {
    '\n', '\r', '\U{0B}', '\U{0C}', '\U{1C}', '\U{1D}', '\U{1E}', '\U{85}', '\U{2028}', '\U{2029}'
  }

  // ---------------------------------------------------------------- split(sep)

  /** Python `s.split(sep)` for a one-character separator: never empty, pieces never contain `sep`. */
  function Split(s: string, sep: char): (parts: seq<string>)
    ensures |parts| >= 1
    ensures forall i :: 0 <= i < |parts| ==> sep !in parts[i]
    decreases |s|
  {
    if s == [] then [""]
    else if s[0] == sep then [""] + Split(s[1..], sep)
    else
      var rest := Split(s[1..], sep);
      [[s[0]] + rest[0]] + rest[1..]
  }

  /** Python `sep.join(parts)`. */
  function Join(parts: seq<string>, sep: char): string
  {
    if parts == [] then ""
    else if |parts| == 1 then parts[0]
    else parts[0] + [sep] + Join(parts[1..], sep)
  }

  /** Joining the pieces of a split gives back the original string. */
  lemma {:induction false} JoinSplit(s: string, sep: char)
    ensures Join(Split(s, sep), sep) == s
    decreases |s|
  {
    if s == [] {
    } else if s[0] == sep {
      JoinSplit(s[1..], sep);
      assert s == [sep] + s[1..];
    } else {
      var rest := Split(s[1..], sep);
      JoinSplit(s[1..], sep);
      if |rest| == 1 {
        assert s == [s[0]] + s[1..];
      } else {
        assert Join(rest, sep) == rest[0] + [sep] + Join(rest[1..], sep);
        assert s == [s[0]] + s[1..];
      }
    }
  }

  /** A piece without the separator, followed by the separator, starts a new piece. */
  lemma {:induction false} SplitPrefix(p: string, t: string, sep: char)
    requires sep !in p
    ensures Split(p + [sep] + t, sep) == [p] + Split(t, sep)
    decreases |p|
  {
    if p == [] {
      assert p + [sep] + t == [sep] + t;
    } else {
      SplitPrefix(p[1..], t, sep);
      assert (p + [sep] + t)[0] == p[0] != sep;
      assert (p + [sep] + t)[1..] == p[1..] + [sep] + t;
      assert [p[0]] + p[1..] == p;
    }
  }

  /** A string without the separator splits into itself alone. */
  lemma {:induction false} SplitNoSep(p: string, sep: char)
    requires sep !in p
    ensures Split(p, sep) == [p]
    decreases |p|
  {
    if p != [] {
      assert p[0] != sep;
      SplitNoSep(p[1..], sep);
      assert [p[0]] + p[1..] == p;
    }
  }

  /** Splitting a join of separator-free pieces gives back the pieces. */
  lemma {:induction false} SplitJoin(parts: seq<string>, sep: char)
    requires |parts| >= 1
    requires forall i :: 0 <= i < |parts| ==> sep !in parts[i]
    ensures Split(Join(parts, sep), sep) == parts
    decreases |parts|
  {
    if |parts| == 1 {
      SplitNoSep(parts[0], sep);
    } else {
      SplitJoin(parts[1..], sep);
      SplitPrefix(parts[0], Join(parts[1..], sep), sep);
    }
  }

  // ---------------------------------------------------------------- split(sep, 1)

  /** Index of the first occurrence of `c` in `s`. */
  function IndexOf(s: string, c: char): (r: Option<nat>)
    ensures r.None? <==> c !in s
    ensures r.Some? ==> r.value < |s| && s[r.value] == c && c !in s[..r.value]
  {
    if s == [] then None
    else if s[0] == c then Some(0)
    else match IndexOf(s[1..], c)
      case None => None
      case Some(i) => assert s[..i + 1] == [s[0]] + s[1..][..i]; Some(i + 1)
  }

  /** Python `a, b = s.split(sep, 1)`: raises ValueError when `sep` does not occur. */
  function SplitOnce(s: string, sep: char): (r: Result<(string, string)>)
    ensures r.Ok? <==> sep in s
    ensures r.Ok? ==> sep !in r.value.0 && s == r.value.0 + [sep] + r.value.1
  {
    match IndexOf(s, sep)
    case None => Err("ValueError: not enough values to unpack")
    case Some(i) =>
      assert s == s[..i] + [sep] + s[i + 1..];
      Ok((s[..i], s[i + 1..]))
  }

  // ---------------------------------------------------------------- split()

  function WordsAcc(s: string, cur: string): seq<string>
    decreases |s|
  {
    if s == [] then (if cur == [] then [] else [cur])
    else if s[0] in Whitespace then (if cur == [] then [] else [cur]) + WordsAcc(s[1..], [])
    else WordsAcc(s[1..], cur + [s[0]])
  }

  /** Python `s.split()`: maximal runs of non-whitespace characters. */
  function Words(s: string): seq<string>
  {
    WordsAcc(s, [])
  }

  lemma {:induction false} WordsAccShape(s: string, cur: string)
    requires forall c :: c in cur ==> c !in Whitespace
    ensures forall i :: 0 <= i < |WordsAcc(s, cur)| ==>
              WordsAcc(s, cur)[i] != [] && forall c :: c in WordsAcc(s, cur)[i] ==> c !in Whitespace
    decreases |s|
  {
    if s == [] {
    } else if s[0] in Whitespace {
      WordsAccShape(s[1..], []);
    } else {
      WordsAccShape(s[1..], cur + [s[0]]);
    }
  }

  /** Every word of `s.split()` is non-empty and free of whitespace. */
  lemma WordsShape(s: string)
    ensures forall i :: 0 <= i < |Words(s)| ==>
              Words(s)[i] != [] && forall c :: c in Words(s)[i] ==> c !in Whitespace
  {
    WordsAccShape(s, []);
  }

  /** Words separated by single spaces are recovered by `split()`. */
  lemma {:induction false} WordsOfTwo(a: string, b: string)
    requires a != [] && b != []
    requires forall c :: c in a ==> c !in Whitespace
    requires forall c :: c in b ==> c !in Whitespace
    ensures Words(a + " " + b) == [a, b]
  {
    assert a + " " + b == a + (" " + b);
    WordsAccPlain(a, [], " " + b);
    assert [] + a == a;
    assert (" " + b)[0] == ' ' && (" " + b)[1..] == b;
    assert WordsAcc(" " + b, a) == [a] + WordsAcc(b, []);
    WordsAccPlain(b, [], []);
    assert b + [] == b;
    assert [] + b == b;
  }

  /** Consuming a run of non-whitespace characters only extends the current word. */
  lemma {:induction false} WordsAccPlain(w: string, cur: string, rest: string)
    requires forall c :: c in w ==> c !in Whitespace
    ensures WordsAcc(w + rest, cur) == WordsAcc(rest, cur + w)
    decreases |w|
  {
    if w != [] {
      assert (w + rest)[1..] == w[1..] + rest;
      WordsAccPlain(w[1..], cur + [w[0]], rest);
      assert cur + [w[0]] + w[1..] == cur + w;
    } else {
      assert w + rest == rest;
      assert cur + w == cur;
    }
  }

  // ---------------------------------------------------------------- splitlines()

  /** Length of the line break at the head of `s` ("\r\n" is one break of length 2). */
  function BreakLen(s: string): nat
    requires s != [] && s[0] in LineBreaks
  {
    if s[0] == '\r' && |s| > 1 && s[1] == '\n' then 2 else 1
  }

  /** Python `s.splitlines()`: a trailing line break does not start an empty last line. */
  function SplitLines(s: string): (lines: seq<string>)
    ensures s != [] <==> lines != []
    decreases |s|
  {
    if s == [] then []
    else if s[0] in LineBreaks then [""] + SplitLines(s[BreakLen(s)..])
    else
      var rest := SplitLines(s[1..]);
      if rest == [] then [[s[0]]] else [[s[0]] + rest[0]] + rest[1..]
  }

  /** No line of `splitlines()` holds a line break. */
  lemma {:induction false} SplitLinesShape(s: string)
    ensures forall i :: 0 <= i < |SplitLines(s)| ==> forall c :: c in SplitLines(s)[i] ==> c !in LineBreaks
    decreases |s|
  {
    if s == [] {
    } else if s[0] in LineBreaks {
      SplitLinesShape(s[BreakLen(s)..]);
    } else {
      SplitLinesShape(s[1..]);
    }
  }

  /** Lines joined with "\n" and a final "\n" split back into themselves. */
  lemma {:induction false} SplitLinesOfLines(lines: seq<string>)
    requires forall i :: 0 <= i < |lines| ==> forall c :: c in lines[i] ==> c !in LineBreaks
    ensures SplitLines(Unlines(lines)) == lines
    decreases |lines|
  {
    if lines != [] {
      SplitLinesOfLines(lines[1..]);
      SplitLinesHead(lines[0], Unlines(lines[1..]));
    }
  }

  /** One line followed by "\n" and more text. */
  lemma {:induction false} SplitLinesHead(line: string, rest: string)
    requires forall c :: c in line ==> c !in LineBreaks
    ensures SplitLines(line + "\n" + rest) == [line] + SplitLines(rest)
    decreases |line|
  {
    if line == [] {
      assert line + "\n" + rest == "\n" + rest;
      assert ("\n" + rest)[1..] == rest;
    } else {
      var whole := line + "\n" + rest;
      assert whole[0] == line[0] && whole[0] !in LineBreaks;
      assert whole[1..] == line[1..] + "\n" + rest;
      SplitLinesHead(line[1..], rest);
      assert [line[0]] + line[1..] == line;
    }
  }

  /** Lines each terminated by "\n" (the shape of command output). */
  function Unlines(lines: seq<string>): string
  {
    if lines == [] then "" else lines[0] + "\n" + Unlines(lines[1..])
  }

  // ---------------------------------------------------------------- strip

  /** Python `s.lstrip(chars)`. */
  function StripLeft(s: string, chars: set<char>): (r: string)
    ensures |r| <= |s|
  {
    if s != [] && s[0] in chars then StripLeft(s[1..], chars) else s
  }

  /** `lstrip` removes the longest prefix made of `chars`: what is left is a suffix that does not start with one. */
  lemma {:induction false} StripLeftShape(s: string, chars: set<char>)
    ensures var r := StripLeft(s, chars);
            && r == s[|s| - |r|..]
            && (r != [] ==> r[0] !in chars)
            && (forall i :: 0 <= i < |s| - |r| ==> s[i] in chars)
    decreases |s|
  {
    if s != [] && s[0] in chars {
      StripLeftShape(s[1..], chars);
    }
  }

  /** Python `s.rstrip(chars)`. */
  function StripRight(s: string, chars: set<char>): (r: string)
    ensures |r| <= |s|
  {
    if s != [] && s[|s| - 1] in chars then StripRight(s[..|s| - 1], chars) else s
  }

  /** `rstrip` of a string with one stripped character appended, whose own last character is kept. */
  lemma StripOneRight(s: string, c: char, chars: set<char>)
    requires c in chars && s != [] && s[|s| - 1] !in chars
    ensures StripRight(s + [c], chars) == s
  {
    assert (s + [c])[..|s|] == s;
  }

  /** `rstrip` removes the longest suffix made of `chars`: what is left is a prefix that does not end with one. */
  lemma {:induction false} StripRightShape(s: string, chars: set<char>)
    ensures var r := StripRight(s, chars);
            && r == s[..|r|]
            && (r != [] ==> r[|r| - 1] !in chars)
            && (forall i :: |r| <= i < |s| ==> s[i] in chars)
    decreases |s|
  {
    if s != [] && s[|s| - 1] in chars {
      StripRightShape(s[..|s| - 1], chars);
    }
  }

  /** Python `s.strip(chars)`. */
  function Strip(s: string, chars: set<char>): string
  {
    StripRight(StripLeft(s, chars), chars)
  }

  /** Text that neither starts nor ends with a stripped character is left as it is. */
  lemma StripKeeps(s: string, chars: set<char>)
    requires s != [] ==> s[0] !in chars && s[|s| - 1] !in chars
    ensures Strip(s, chars) == s
  {
  }

  /** Stripping `chars` from text wrapped in one of them returns the text. */
  lemma StripWrapped(s: string, q: char)
    requires s != [] ==> s[0] != q && s[|s| - 1] != q
    ensures Strip([q] + s + [q], {q}) == s
  {
    var w := [q] + s + [q];
    assert w[1..] == s + [q];
    assert StripLeft(w, {q}) == StripLeft(s + [q], {q});
    if s == [] {
      assert s + [q] == [q];
    } else {
      assert StripLeft(s + [q], {q}) == s + [q];
      assert (s + [q])[..|s|] == s;
      assert StripRight(s + [q], {q}) == StripRight(s, {q}) == s;
    }
  }

  // ---------------------------------------------------------------- int(s, base)

  /** Value of one ASCII digit in bases up to 16 (either letter case). */
  function DigitValue(c: char): (r: Option<nat>)
    ensures r.Some? ==> r.value < 16
  {
    if '0' <= c <= '9' then Some(c as int - '0' as int)
    else if 'a' <= c <= 'f' then Some(c as int - 'a' as int + 10)
    else if 'A' <= c <= 'F' then Some(c as int - 'A' as int + 10)
    else None
  }

  predicate IsDigitIn(c: char, base: nat)
  {
    DigitValue(c).Some? && DigitValue(c).value < base
  }

  /** Value of a run of digits, most significant first. */
  function DigitsValue(ds: string, base: nat): nat
    requires forall i :: 0 <= i < |ds| ==> IsDigitIn(ds[i], base)
  {
    if ds == [] then 0
    else
      var init := ds[..|ds| - 1];
      assert forall i :: 0 <= i < |init| ==> init[i] == ds[i];
      assert IsDigitIn(ds[|ds| - 1], base);
      var d: nat := DigitValue(ds[|ds| - 1]).value;
      Shifted(DigitsValue(init, base), base, d)
  }

  /** The value of digits worth `high` followed by one more digit `d`. */
  function Shifted(high: nat, base: nat, d: nat): nat
  {
    high * base + d
  }

  /** Python `int(s, base)` for base 10 or 16 on ASCII text: optional sign, then (base 16) an optional "0x", then digits. */
  function ParseInt(s: string, base: nat): (r: Option<int>)
    requires base == 10 || base == 16
  {
    var neg := s != [] && s[0] == '-';
    var unsigned := if s != [] && (s[0] == '-' || s[0] == '+') then s[1..] else s;
    var digits := if base == 16 && |unsigned| >= 2 && unsigned[0] == '0' && (unsigned[1] == 'x' || unsigned[1] == 'X')
                  then unsigned[2..] else unsigned;
    if digits != [] && forall i :: 0 <= i < |digits| ==> IsDigitIn(digits[i], base) then
      var v: int := DigitsValue(digits, base);
      Some(if neg then -v else v)
    else None
  }

  /** Lower-case digits of `n` in `base`, most significant first, without leading zeros. */
  function ToDigits(n: nat, base: nat): (ds: string)
    requires 2 <= base <= 16
    ensures ds != []
    ensures forall i :: 0 <= i < |ds| ==> IsDigitIn(ds[i], base)
    decreases n
  {
    if n < base then [DigitChar(n)]
    else
      DivMod(n, base);
      ToDigits(n / base, base) + [DigitChar(n % base)]
  }

  /** Euclidean division facts for a positive base. */
  lemma DivMod(n: nat, base: nat)
    requires 2 <= base <= n
    ensures n / base < n && n % base < base && n == (n / base) * base + n % base
  {
  }

  function DigitChar(d: nat): (c: char)
    requires d < 16
    ensures DigitValue(c) == Some(d)
  {
    if d < 10 then ('0' as int + d) as char else ('a' as int + d - 10) as char
  }

  /** Reading back the digits of a number gives the number. */
  lemma {:induction false} DigitsRoundTrip(n: nat, base: nat)
    requires 2 <= base <= 16
    ensures DigitsValue(ToDigits(n, base), base) == n
  {
    if n >= base {
      DivMod(n, base);
      var ds := ToDigits(n, base);
      DigitsRoundTrip(n / base, base);
      assert ds[..|ds| - 1] == ToDigits(n / base, base);
      assert ds[|ds| - 1] == DigitChar(n % base);
    }
  }

  /** Python `str(n)`. */
  function IntToString(n: int): string
  {
    if n < 0 then "-" + ToDigits(-n, 10) else ToDigits(n, 10)
  }

  /** `int(str(n)) == n`. */
  lemma IntRoundTrip(n: int)
    ensures ParseInt(IntToString(n), 10) == Some(n)
  {
    DigitsRoundTrip(if n < 0 then -n else n, 10);
    if n < 0 {
      assert ("-" + ToDigits(-n, 10))[1..] == ToDigits(-n, 10);
    }
  }

  /** `int("0x" + format(n, "x"), 16) == n`. */
  lemma HexRoundTrip(n: nat)
    ensures ParseInt("0x" + ToDigits(n, 16), 16) == Some(n)
  {
    DigitsRoundTrip(n, 16);
    assert ("0x" + ToDigits(n, 16))[2..] == ToDigits(n, 16);
  }

  // ---------------------------------------------------------------- repr(s)

  /** The quote Python's `repr` puts around `s`: double quotes only when `s` holds a single quote and no double quote. */
  function ReprQuote(s: string): char
  {
    if '\'' in s && '"' !in s then '"' else '\''
  }

  /** One character as it appears inside `repr(s)` quoted with `q` (ASCII control characters as `\\xhh`). */
  function ReprChar(c: char, q: char): string
  {
    if c == '\\' then "\\\\"
    else if c == q then ['\\', q]
    else if c == '\t' then "\\t"
    else if c == '\n' then "\\n"
    else if c == '\r' then "\\r"
    else if c < ' ' || c == '\U{7F}' then
      var d := ToDigits(c as int, 16);
      "\\x" + (if |d| < 2 then "0" + d else d)
    else [c]
  }

  function ReprBody(s: string, q: char): string
  {
    if s == [] then "" else ReprChar(s[0], q) + ReprBody(s[1..], q)
  }

  /** Python `repr(s)` (what `f"{s!r}"` renders) for text whose characters are ASCII. */
  function Repr(s: string): (r: string)
    ensures |r| >= 2 && r[0] == r[|r| - 1] == ReprQuote(s)
  {
    [ReprQuote(s)] + ReprBody(s, ReprQuote(s)) + [ReprQuote(s)]
  }

  /** Text without quotes, backslashes or control characters is rendered between single quotes as it is. */
  lemma {:induction false} ReprPlain(s: string)
    requires forall i :: 0 <= i < |s| ==> s[i] != '\'' && s[i] != '"' && s[i] != '\\' && ' ' <= s[i] && s[i] != '\U{7F}'
    ensures Repr(s) == "'" + s + "'"
  {
    ReprBodyPlain(s, '\'');
  }

  lemma {:induction false} ReprBodyPlain(s: string, q: char)
    requires forall i :: 0 <= i < |s| ==> s[i] != q && s[i] != '\\' && ' ' <= s[i] && s[i] != '\U{7F}'
    ensures ReprBody(s, q) == s
    decreases |s|
  {
    if s != [] {
      ReprBodyPlain(s[1..], q);
      assert [s[0]] + s[1..] == s;
    }
  }
}
