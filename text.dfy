/** The handful of Python `str` operations the model needs, over `seq<char>`. */
module Text {
  import opened Results

  /** ASCII lower-casing of one character (`str.lower` restricted to ASCII). */
  function LowerChar(c: char): (r: char)
    ensures 'A' <= c <= 'Z' ==> 'a' <= r <= 'z'
    ensures !('A' <= c <= 'Z') ==> r == c
  {
    if 'A' <= c <= 'Z' then (c as int + 32) as char else c
  }

  function Lower(s: string): (r: string)
    ensures |r| == |s|
    ensures forall i :: 0 <= i < |s| ==> r[i] == LowerChar(s[i])
  {
    if s == [] then [] else Lower(s[..|s| - 1]) + [LowerChar(s[|s| - 1])]
  }

  /** Lower-casing twice is lower-casing once. */
  lemma LowerIdempotent(s: string)
    ensures Lower(Lower(s)) == Lower(s)
  {
  }

  /** `s.split(sep)`: the pieces between occurrences of `sep`; never empty. */
  function Split(s: string, sep: char): (r: seq<string>)
    ensures |r| >= 1
    ensures forall k :: 0 <= k < |r| ==> sep !in r[k]
  {
    if s == [] then [[]]
    else
      var rest := Split(s[1..], sep);
      if s[0] == sep then [[]] + rest
      else [[s[0]] + rest[0]] + rest[1..]
  }

  /** `sep.join(parts)`. */
  function Join(parts: seq<string>, sep: char): (r: string)
    requires |parts| >= 1
    decreases |parts|
  {
    if |parts| == 1 then parts[0] else parts[0] + [sep] + Join(parts[1..], sep)
  }

  lemma {:induction false} SplitConsNonSep(c: char, s: string, sep: char)
    requires c != sep
    ensures Split([c] + s, sep) == [[c] + Split(s, sep)[0]] + Split(s, sep)[1..]
  {
    assert ([c] + s)[1..] == s;
  }

  lemma {:induction false} SplitConsSep(s: string, sep: char)
    ensures Split([sep] + s, sep) == [[]] + Split(s, sep)
  {
    assert ([sep] + s)[1..] == s;
  }

  /** Splitting a piece that holds no separator, glued in front of `s` by one
      separator, yields that piece followed by the pieces of `s`. */
  lemma {:induction false} SplitPrefix(p: string, s: string, sep: char)
    requires sep !in p
    ensures Split(p + [sep] + s, sep) == [p] + Split(s, sep)
    decreases |p|
  {
    if p == [] {
      assert p + [sep] + s == [sep] + s;
      SplitConsSep(s, sep);
    } else {
      assert p + [sep] + s == [p[0]] + (p[1..] + [sep] + s);
      SplitPrefix(p[1..], s, sep);
      SplitConsNonSep(p[0], p[1..] + [sep] + s, sep);
      assert [p[0]] + p[1..] == p;
    }
  }

  /** A piece without separator splits to itself. */
  lemma {:induction false} SplitNoSep(p: string, sep: char)
    requires sep !in p
    ensures Split(p, sep) == [p]
    decreases |p|
  {
    if p != [] {
      SplitNoSep(p[1..], sep);
      SplitConsNonSep(p[0], p[1..], sep);
      assert [p[0]] + p[1..] == p;
    }
  }

  /** `split` undoes `join` when no piece holds the separator. */
  lemma {:induction false} SplitJoin(parts: seq<string>, sep: char)
    requires |parts| >= 1
    requires forall k :: 0 <= k < |parts| ==> sep !in parts[k]
    ensures Split(Join(parts, sep), sep) == parts
    decreases |parts|
  {
    if |parts| == 1 {
      SplitNoSep(parts[0], sep);
    } else {
      SplitJoin(parts[1..], sep);
      SplitPrefix(parts[0], Join(parts[1..], sep), sep);
      assert [parts[0]] + parts[1..] == parts;
    }
  }

  /** Joined non-empty parts start with the first part's first character and
      end with the last part's last character. */
  lemma {:induction false} JoinEnds(parts: seq<string>, sep: char)
    requires |parts| >= 1 && forall k :: 0 <= k < |parts| ==> |parts[k]| > 0
    ensures |Join(parts, sep)| > 0
    ensures Join(parts, sep)[0] == parts[0][0]
    ensures Join(parts, sep)[|Join(parts, sep)| - 1] == parts[|parts| - 1][|parts[|parts| - 1]| - 1]
    decreases |parts|
  {
    if |parts| > 1 {
      JoinEnds(parts[1..], sep);
    }
  }

  /** Length of the leading run of `c` in `s`. */
  function LeadingRun(s: string, c: char): (n: nat)
    ensures n <= |s|
    ensures forall i :: 0 <= i < n ==> s[i] == c
    ensures n < |s| ==> s[n] != c
  {
    if s != [] && s[0] == c then 1 + LeadingRun(s[1..], c) else 0
  }

  /** Length of the trailing run of `c` in `s`. */
  function TrailingRun(s: string, c: char): (n: nat)
    ensures n <= |s|
    ensures forall i :: |s| - n <= i < |s| ==> s[i] == c
    ensures n < |s| ==> s[|s| - 1 - n] != c
  {
    if s != [] && s[|s| - 1] == c then 1 + TrailingRun(s[..|s| - 1], c) else 0
  }

  /** `s.strip(c)`: leading and trailing occurrences of `c` removed, nothing else. */
  function Strip(s: string, c: char): (r: string)
    ensures r == [] || (r[0] != c && r[|r| - 1] != c)
    ensures exists i, j :: 0 <= i <= j <= |s| && r == s[i..j]
  {
    var a := LeadingRun(s, c);
    var t := s[a..];
    var b := TrailingRun(t, c);
    assert t[..|t| - b] == s[a..|s| - b];
    t[..|t| - b]
  }

  /** Stripping leaves a string that neither starts nor ends with `c` unchanged. */
  lemma StripNoEdges(s: string, c: char)
    requires s == [] || (s[0] != c && s[|s| - 1] != c)
    ensures Strip(s, c) == s
  {
    assert LeadingRun(s, c) == 0;
    assert s[0..] == s;
    assert TrailingRun(s, c) == 0;
  }

  /** Stripping removes any number of `c` put around such a string. */
  lemma {:induction false} StripLeading(s: string, c: char)
    requires s == [] || (s[0] != c && s[|s| - 1] != c)
    ensures Strip([c] + s, c) == s
  {
    var t := [c] + s;
    assert t[1..] == s;
    if s == [] {
      assert LeadingRun(t, c) == 1;
    } else {
      assert LeadingRun(s, c) == 0;
      assert LeadingRun(t, c) == 1 + LeadingRun(s, c);
      assert TrailingRun(s, c) == 0;
      assert s[..|s|] == s;
    }
  }

  /** The split of `s` at its LAST occurrence of `sep` (`s.rsplit(sep, 1)` of
      length two), or None when `sep` does not occur. */
  function RSplitOnce(s: string, sep: char): (r: Option<(string, string)>)
    ensures r.None? <==> sep !in s
    ensures r.Some? ==> s == r.value.0 + [sep] + r.value.1 && sep !in r.value.1
    decreases |s|
  {
    if s == [] then None
    else if s[|s| - 1] == sep then
      assert s == s[..|s| - 1] + [sep] + [];
      Some((s[..|s| - 1], []))
    else
      match RSplitOnce(s[..|s| - 1], sep)
      case None =>
        assert s == s[..|s| - 1] + [s[|s| - 1]];
        None
      case Some(p) =>
        assert s == s[..|s| - 1] + [s[|s| - 1]];
        Some((p.0, p.1 + [s[|s| - 1]]))
  }

  /** `rsplit` splits at the last separator. */
  lemma {:induction false} RSplitLast(a: string, b: string, sep: char)
    requires sep !in b
    ensures RSplitOnce(a + [sep] + b, sep) == Some((a, b))
    decreases |b|
  {
    var s := a + [sep] + b;
    if b == [] {
      assert s[..|s| - 1] == a;
    } else {
      var n := |b| - 1;
      assert s[..|s| - 1] == a + [sep] + b[..n];
      assert s[|s| - 1] == b[n];
      RSplitLast(a, b[..n], sep);
      assert b[..n] + [b[n]] == b;
    }
  }

  predicate IsDigit(c: char) { '0' <= c <= '9' }

  function DigitValue(c: char): (d: nat)
    requires IsDigit(c)
    ensures d < 10
  {
    c as int - '0' as int
  }

  /** Value of a non-empty run of decimal digits. */
  function DigitsValue(s: string): (n: nat)
    requires forall i :: 0 <= i < |s| ==> IsDigit(s[i])
    decreases |s|
  {
    if s == [] then 0 else DigitsValue(s[..|s| - 1]) * 10 + DigitValue(s[|s| - 1])
  }

  predicate AllDigits(s: string) {
    |s| > 0 && forall i :: 0 <= i < |s| ==> IsDigit(s[i])
  }

  /** `int(s)` for an optional sign followed by ASCII digits; None where Python
      raises `ValueError`. */
  function ParseInt(s: string): (r: Option<int>)
    ensures r.Some? <==> AllDigits(s) || (|s| > 0 && s[0] in "+-" && AllDigits(s[1..]))
  {
    if AllDigits(s) then Some(DigitsValue(s))
    else if |s| > 0 && s[0] == '+' && AllDigits(s[1..]) then Some(DigitsValue(s[1..]))
    else if |s| > 0 && s[0] == '-' && AllDigits(s[1..]) then Some(-(DigitsValue(s[1..]) as int))
    else None
  }

  /** Decimal rendering of a natural number, without leading zeros. */
  function NatToString(n: nat): (r: string)
    ensures AllDigits(r)
    ensures DigitsValue(r) == n
    ensures r[0] == '0' ==> n == 0
    decreases n
  {
    var d := ['0' + (n % 10) as char];
    if n < 10 then d
    else
      var p := NatToString(n / 10);
      assert (p + d)[..|p + d| - 1] == p;
      p + d
  }

  /** Python's `str(i)` / `repr(i)` of an integer. */
  function IntToString(i: int): (r: string)
    ensures ParseInt(r) == Some(i)
  {
    if i >= 0 then NatToString(i)
    else
      var p := NatToString(-i);
      assert ("-" + p)[1..] == p;
      "-" + p
  }

  // ---------------------------------------------------------------------
  // `repr` of a string

  /** A lower-case hexadecimal digit. */
  function HexDigit(n: nat): (c: char)
    requires n < 16
    ensures IsHex(c) && HexValue(c) == n
  {
    if n < 10 then ('0' as int + n) as char else ('a' as int + n - 10) as char
  }

  predicate IsHex(c: char) { '0' <= c <= '9' || 'a' <= c <= 'f' }

  function HexValue(c: char): (n: nat)
    requires IsHex(c)
    ensures n < 16
  {
    if '0' <= c <= '9' then c as int - '0' as int else c as int - 'a' as int + 10
  }

  /** The quote `repr` puts around `s`: a double quote when `s` holds a single
      quote and no double quote, else a single quote. */
  function ReprQuote(s: string): (q: char)
    ensures q == '\'' || q == '"'
  {
    if '\'' in s && '"' !in s then '"' else '\''
  }

  /** The characters `repr` writes as `\xhh`: the ASCII controls, DEL and the
      Latin-1 characters that are not printable. */
  predicate HexEscaped(c: char) {
    c as int < 32 || 127 <= c as int <= 160 || c as int == 173
  }

  /** One character as `repr` writes it between quotes `q`. */
  function ReprChar(c: char, q: char): (r: string)
    ensures |r| > 0
  {
    if c == q || c == '\\' then ['\\', c]
    else if c == '\t' then "\\t"
    else if c == '\n' then "\\n"
    else if c == '\r' then "\\r"
    else if HexEscaped(c) then ['\\', 'x', HexDigit(c as int / 16), HexDigit(c as int % 16)]
    else [c]
  }

  function ReprBody(s: string, q: char): string
    decreases |s|
  {
    if s == [] then [] else ReprChar(s[0], q) + ReprBody(s[1..], q)
  }

  /** Python's `repr(s)` of a `str`. */
  function Repr(s: string): (r: string)
    ensures |r| >= |s| + 2
    ensures r[0] == r[|r| - 1] == ReprQuote(s)
  {
    ReprBodyLength(s, ReprQuote(s));
    [ReprQuote(s)] + ReprBody(s, ReprQuote(s)) + [ReprQuote(s)]
  }

  lemma {:induction false} ReprBodyLength(s: string, q: char)
    ensures |ReprBody(s, q)| >= |s|
    decreases |s|
  {
    if s != [] {
      ReprBodyLength(s[1..], q);
    }
  }

  /** A character `repr` writes as itself between quotes `q`. */
  predicate PlainChar(c: char, q: char) {
    ' ' <= c <= '~' && c != q && c != '\\'
  }

  /** Text made of plain characters is shown in single quotes as it is. */
  lemma ReprPlain(s: string)
    requires forall i :: 0 <= i < |s| ==> PlainChar(s[i], '\'')
    ensures Repr(s) == "'" + s + "'"
  {
    assert '\'' !in s;
    PlainBody(s, '\'');
  }

  lemma {:induction false} PlainBody(s: string, q: char)
    requires forall i :: 0 <= i < |s| ==> PlainChar(s[i], q)
    ensures ReprBody(s, q) == s
    decreases |s|
  {
    if s != [] {
      PlainBody(s[1..], q);
      assert [s[0]] + s[1..] == s;
    }
  }

  lemma {:induction false} ReprBodyAppend(x: string, y: string, q: char)
    ensures ReprBody(x + y, q) == ReprBody(x, q) + ReprBody(y, q)
    decreases |x|
  {
    if x != [] {
      assert (x + y)[1..] == x[1..] + y;
      ReprBodyAppend(x[1..], y, q);
    } else {
      assert x + y == y;
    }
  }

  /** Reading a `repr` body back: the escapes `\\`, `\'`, `\"`, `\t`, `\n`,
      `\r` and `\xhh`, and every other character as itself. */
  function Unescape(r: string): string
    decreases |r|
  {
    if r == [] then []
    else if r[0] == '\\' && |r| >= 2 then
      if r[1] == 't' then "\t" + Unescape(r[2..])
      else if r[1] == 'n' then "\n" + Unescape(r[2..])
      else if r[1] == 'r' then "\r" + Unescape(r[2..])
      else if r[1] == 'x' && |r| >= 4 && IsHex(r[2]) && IsHex(r[3]) then
        [(HexValue(r[2]) * 16 + HexValue(r[3])) as char] + Unescape(r[4..])
      else [r[1]] + Unescape(r[2..])
    else [r[0]] + Unescape(r[1..])
  }

  lemma ReprCharBack(c: char, q: char, rest: string)
    requires q == '\'' || q == '"'
    ensures Unescape(ReprChar(c, q) + rest) == [c] + Unescape(rest)
  {
    var t := ReprChar(c, q) + rest;
    if c == q || c == '\\' || c == '\t' || c == '\n' || c == '\r' {
      assert t[2..] == rest;
    } else if HexEscaped(c) {
      assert t[4..] == rest;
      var v := c as int;
      assert (HexValue(t[2]) * 16 + HexValue(t[3])) == v;
    } else {
      assert t[1..] == rest;
    }
  }

  lemma {:induction false} ReprBodyBack(s: string, q: char)
    requires q == '\'' || q == '"'
    ensures Unescape(ReprBody(s, q)) == s
    decreases |s|
  {
    if s != [] {
      ReprBodyBack(s[1..], q);
      ReprCharBack(s[0], q, ReprBody(s[1..], q));
      assert [s[0]] + s[1..] == s;
    }
  }

  /** `repr` loses nothing: what lies between its quotes reads back as the text. */
  lemma ReprRoundTrip(s: string)
    ensures Unescape(Repr(s)[1..|Repr(s)| - 1]) == s
  {
    var q := ReprQuote(s);
    assert Repr(s)[1..|Repr(s)| - 1] == ReprBody(s, q);
    ReprBodyBack(s, q);
  }

  /** Text holding a single quote and no double quote goes in double quotes. */
  lemma ReprQuoted()
    ensures Repr("it's") == "\"it's\""
  {
    assert "it's"[2] == '\'';
    PlainBody("it's", '"');
  }

  /** A backslash is doubled, and a tab and a control character are escaped. */
  lemma ReprEscapes()
    ensures Repr("a\\b") == "'a\\\\b'"
    ensures Repr("\t\U{1}") == "'\\t\\x01'"
  {
    ReprBackslash();
    ReprControl();
  }

  lemma ReprBodyOne(c: char, q: char)
    ensures ReprBody([c], q) == ReprChar(c, q)
  {
    assert [c][1..] == [];
  }

  lemma ReprBackslash()
    ensures Repr("a\\b") == "'a\\\\b'"
  {
    var s := "a\\b";
    assert s == ['a'] + ['\\'] + ['b'];
    assert '\'' !in s;
    ReprBodyAppend(['a'] + ['\\'], ['b'], '\'');
    ReprBodyAppend(['a'], ['\\'], '\'');
    ReprBodyOne('a', '\'');
    ReprBodyOne('\\', '\'');
    ReprBodyOne('b', '\'');
    assert ReprBody(s, '\'') == "a\\\\b";
  }

  lemma ReprControl()
    ensures Repr("\t\U{1}") == "'\\t\\x01'"
  {
    var s := "\t\U{1}";
    assert s == ['\t'] + ['\U{1}'];
    assert '\'' !in s;
    ReprBodyAppend(['\t'], ['\U{1}'], '\'');
    ReprBodyOne('\t', '\'');
    ReprBodyOne('\U{1}', '\'');
    assert HexDigit(0) == '0' && HexDigit(1) == '1';
    assert ReprBody(s, '\'') == "\\t\\x01";
  }
}
