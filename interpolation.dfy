/** The check `configparser.BasicInterpolation` makes of every value a
    `ConfigParser` is asked to `set`: `%%` stands for a percent sign and
    `%(name)s` for another option, and any other `%` is refused with
    `ValueError("invalid interpolation syntax in <value> at position <n>")`.
    The check first deletes the escapes (`value.replace('%%', '')`), then the
    references (`_KEYCRE.sub('', ...)` with `_KEYCRE` the pattern
    `%\(([^)]+)\)s`), and refuses the value when a `%` is left over. */
module Interpolation {

  /** `s.replace('%%', '')`, scanning from the left. */
  function DropEscapes(s: string): (r: string)
    ensures |r| <= |s|
    decreases |s|
  {
    if |s| >= 2 && s[0] == '%' && s[1] == '%' then DropEscapes(s[2..])
    else if s == [] then []
    else [s[0]] + DropEscapes(s[1..])
  }

  /** The number of leading characters of `s` other than `)`. */
  function NameRun(s: string): (n: nat)
    ensures n <= |s|
    ensures forall i :: 0 <= i < n ==> s[i] != ')'
    ensures n < |s| ==> s[n] == ')'
    decreases |s|
  {
    if s == [] || s[0] == ')' then 0 else 1 + NameRun(s[1..])
  }

  /** The length of the match of `%\(([^)]+)\)s` at the start of `s`, or 0
      when there is none: the name runs to the first `)`, is not empty, and
      the `)` is followed by `s`. */
  function ReferenceLength(s: string): (n: nat)
    ensures n == 0 || (4 < n <= |s| && s[0] == '%' && s[1] == '(' && s[n - 2] == ')' && s[n - 1] == 's')
    ensures n > 0 ==> forall i :: 2 <= i < n - 2 ==> s[i] != ')'
  {
    if |s| >= 2 && s[0] == '%' && s[1] == '(' then
      var k := NameRun(s[2..]);
      if k > 0 && 2 + k + 1 < |s| && s[2 + k + 1] == 's' then
        assert s[2 + k] == s[2..][k];
        assert forall i :: 2 <= i < 2 + k ==> s[i] == s[2..][i - 2];
        k + 4
      else 0
    else 0
  }

  /** `_KEYCRE.sub('', s)`: every reference deleted, the scan moving one
      character on wherever none starts. */
  function DropReferences(s: string): (r: string)
    ensures |r| <= |s|
    decreases |s|
  {
    if s == [] then []
    else if ReferenceLength(s) > 0 then DropReferences(s[ReferenceLength(s)..])
    else [s[0]] + DropReferences(s[1..])
  }

  /** What the check leaves of a value. */
  function Residue(v: string): string {
    DropReferences(DropEscapes(v))
  }

  /** `BasicInterpolation.before_set` accepts `v`. */
  predicate SyntaxOk(v: string) {
    '%' !in Residue(v)
  }

  /** The index of the first `c` in `s`. */
  function IndexOf(s: string, c: char): (i: nat)
    requires c in s
    ensures i < |s| && s[i] == c
    ensures forall j :: 0 <= j < i ==> s[j] != c
  {
    if s[0] == c then 0 else 1 + IndexOf(s[1..], c)
  }

  /** The position the `ValueError` reports: that of the first `%` left over. */
  function ErrorPosition(v: string): (n: nat)
    requires !SyntaxOk(v)
    ensures n < |v|
    ensures n < |Residue(v)| && Residue(v)[n] == '%' && '%' !in Residue(v)[..n]
  {
    var res := Residue(v);
    var i := IndexOf(res, '%');
    assert '%' !in res[..i] by {
      forall j | 0 <= j < i ensures res[..i][j] != '%' { assert res[..i][j] == res[j]; }
    }
    i
  }

  // ---------------------------------------------------------------------
  // Properties

  lemma {:induction false} EscapesOfPlain(s: string)
    requires '%' !in s
    ensures DropEscapes(s) == s
    decreases |s|
  {
    if s != [] {
      EscapesOfPlain(s[1..]);
      assert [s[0]] + s[1..] == s;
    }
  }

  lemma {:induction false} ReferencesOfPlain(s: string)
    requires '%' !in s
    ensures DropReferences(s) == s
    decreases |s|
  {
    if s != [] {
      ReferencesOfPlain(s[1..]);
      assert [s[0]] + s[1..] == s;
    }
  }

  /** A value without `%` passes the check. */
  lemma NoPercentOk(v: string)
    requires '%' !in v
    ensures SyntaxOk(v)
  {
    EscapesOfPlain(v);
    ReferencesOfPlain(v);
  }

  lemma Assoc(c: char, d: string, e: string)
    ensures [c] + (d + e) == ([c] + d) + e
  {
  }

  /** Escapes never straddle a boundary that is not followed by `%`. */
  lemma {:induction false} EscapesAppend(x: string, y: string)
    requires y == [] || y[0] != '%'
    ensures DropEscapes(x + y) == DropEscapes(x) + DropEscapes(y)
    decreases |x|
  {
    var xy := x + y;
    if x == [] {
      var e := DropEscapes(y);
      assert xy == y;
      assert DropEscapes(x) == [];
      assert [] + e == e;
    } else if |x| >= 2 && x[0] == '%' && x[1] == '%' {
      assert xy[0] == '%' && xy[1] == '%';
      assert xy[2..] == x[2..] + y;
      EscapesAppend(x[2..], y);
      assert DropEscapes(xy) == DropEscapes(xy[2..]);
      assert DropEscapes(x) == DropEscapes(x[2..]);
    } else {
      assert xy[0] == x[0];
      assert !(|xy| >= 2 && xy[0] == '%' && xy[1] == '%') by {
        if |xy| >= 2 {
          if |x| == 1 {
            assert xy[1] == y[0];
          } else {
            assert xy[1] == x[1];
          }
        }
      }
      assert xy[1..] == x[1..] + y;
      var d, e := DropEscapes(x[1..]), DropEscapes(y);
      EscapesAppend(x[1..], y);
      assert DropEscapes(xy) == [x[0]] + (d + e);
      assert DropEscapes(x) == [x[0]] + d;
      Assoc(x[0], d, e);
    }
  }

  lemma {:induction false} NameRunAppend(s: string, y: string)
    requires NameRun(s) < |s|
    ensures NameRun(s + y) == NameRun(s)
    decreases |s|
  {
    if s[0] != ')' {
      assert (s + y)[1..] == s[1..] + y;
      NameRunAppend(s[1..], y);
    }
  }

  lemma ReferenceAppend(x: string, y: string)
    requires ReferenceLength(x) > 0
    ensures ReferenceLength(x + y) == ReferenceLength(x)
  {
    var k := NameRun(x[2..]);
    assert (x + y)[2..] == x[2..] + y;
    NameRunAppend(x[2..], y);
  }

  /** One step of the scan over `x + y` when a reference starts `x`. */
  lemma ReferenceStep(x: string, y: string)
    requires ReferenceLength(x) > 0
    ensures DropReferences(x + y) == DropReferences(x[ReferenceLength(x)..] + y)
  {
    var n := ReferenceLength(x);
    ReferenceAppend(x, y);
    assert (x + y)[n..] == x[n..] + y;
  }

  /** One step of the scan over `x + y` when `x` starts with a plain
      character. */
  lemma PlainStep(x: string, y: string)
    requires x != [] && x[0] != '%'
    ensures DropReferences(x + y) == [x[0]] + DropReferences(x[1..] + y)
  {
    var xy := x + y;
    assert xy[0] == x[0];
    assert ReferenceLength(xy) == 0;
    assert xy[1..] == x[1..] + y;
  }

  /** The case of `ReferencesAppend` where a reference starts `x`. */
  lemma ReferenceCase(x: string, y: string)
    requires ReferenceLength(x) > 0
    requires DropReferences(x[ReferenceLength(x)..] + y)
          == DropReferences(x[ReferenceLength(x)..]) + DropReferences(y)
    ensures DropReferences(x + y) == DropReferences(x) + DropReferences(y)
  {
    var rest := x[ReferenceLength(x)..];
    var d, e := DropReferences(rest), DropReferences(y);
    ReferenceStep(x, y);
    assert DropReferences(x + y) == d + e;
    assert DropReferences(x) == d;
  }

  /** The case of `ReferencesAppend` where `x` starts with a plain
      character. */
  lemma PlainCase(x: string, y: string)
    requires x != [] && x[0] != '%'
    requires DropReferences(x[1..] + y) == DropReferences(x[1..]) + DropReferences(y)
    ensures DropReferences(x + y) == DropReferences(x) + DropReferences(y)
  {
    var d, e := DropReferences(x[1..]), DropReferences(y);
    PlainStep(x, y);
    assert DropReferences(x + y) == [x[0]] + (d + e);
    assert DropReferences(x) == [x[0]] + d;
    Assoc(x[0], d, e);
  }

  /** Once every `%` of `x` belongs to a reference, `x` and what follows it
      are cleaned apart. */
  lemma {:induction false} ReferencesAppend(x: string, y: string)
    requires '%' !in DropReferences(x)
    ensures DropReferences(x + y) == DropReferences(x) + DropReferences(y)
    decreases |x|
  {
    if x == [] {
      var e := DropReferences(y);
      assert x + y == y;
      assert DropReferences(x) == [];
      assert [] + e == e;
    } else if ReferenceLength(x) > 0 {
      var rest := x[ReferenceLength(x)..];
      assert DropReferences(x) == DropReferences(rest);
      ReferencesAppend(rest, y);
      ReferenceCase(x, y);
    } else {
      assert DropReferences(x) == [x[0]] + DropReferences(x[1..]);
      ReferencesAppend(x[1..], y);
      PlainCase(x, y);
    }
  }

  /** A value accepted by the check, a newline and more text are accepted
      exactly when the text is: the check makes of a line-by-line value a
      line-by-line decision. */
  lemma AfterLine(a: string, e: string)
    requires SyntaxOk(a)
    ensures SyntaxOk(a + "\n" + e) <==> SyntaxOk(e)
  {
    assert a + "\n" + e == a + ("\n" + e);
    EscapesAppend(a, "\n" + e);
    assert ("\n" + e)[1..] == e;
    ReferencesAppend(DropEscapes(a), "\n" + DropEscapes(e));
    assert ("\n" + DropEscapes(e))[1..] == DropEscapes(e);
    assert Residue(a + "\n" + e) == Residue(a) + ("\n" + Residue(e));
  }

  /** The same for the first line of a value. */
  lemma FirstLine(e: string)
    ensures SyntaxOk("\n" + e) <==> SyntaxOk(e)
  {
    assert ("\n" + e)[1..] == e;
    assert ("\n" + DropEscapes(e))[1..] == DropEscapes(e);
    assert Residue("\n" + e) == "\n" + Residue(e);
  }

  /** A percent sign at the end of a value is refused. */
  lemma TrailingPercent()
    ensures !SyntaxOk("50%") && ErrorPosition("50%") == 2
  {
    assert "50%"[1..] == "0%" && "50%"[2..] == "%";
    assert DropEscapes("%") == "%";
    assert DropEscapes("50%") == "50%";
    assert DropReferences("%") == "%";
    assert DropReferences("50%") == "50%";
  }

  /** An escaped percent sign is accepted. */
  lemma EscapedPercent()
    ensures SyntaxOk("50%%")
  {
    assert "50%%"[2..] == "%%";
    assert DropEscapes("50%%") == "50";
    NoPercentOk("50");
  }

  /** A reference with no name is refused. */
  lemma EmptyReference()
    ensures !SyntaxOk("%()s")
  {
    EscapesAppend("%", "()s");
    EscapesOfPlain("()s");
    assert "%" + "()s" == "%()s";
    assert "%()s"[2..] == "()s"[1..];
    assert ReferenceLength("%()s") == 0;
    assert Residue("%()s")[0] == '%';
  }

  /** The name of a reference runs up to its `)`. */
  lemma {:induction false} NameRunOf(name: string, rest: string)
    requires ')' !in name && rest != [] && rest[0] == ')'
    ensures NameRun(name + rest) == |name|
    decreases |name|
  {
    if name == [] {
      assert name + rest == rest;
    } else {
      assert (name + rest)[0] == name[0];
      assert (name + rest)[1..] == name[1..] + rest;
      NameRunOf(name[1..], rest);
    }
  }

  /** The escapes of `%(` followed by text without `%` leave it as it is. */
  lemma OpenedPlain(w: string)
    requires '%' !in w
    ensures DropEscapes("%(" + w) == "%(" + w
  {
    var v := "%(" + w;
    assert v == "%" + ("(" + w);
    EscapesAppend("%", "(" + w);
    EscapesOfPlain("(" + w);
    assert DropEscapes("%") == "%";
  }

  /** A reference is accepted, whatever its name, `%(rate)s` say. */
  lemma Reference(name: string)
    requires name != [] && ')' !in name && '%' !in name
    ensures SyntaxOk("%(" + name + ")s")
  {
    var v := "%(" + name + ")s";
    assert v == "%(" + (name + ")s");
    OpenedPlain(name + ")s");
    assert v[2..] == name + ")s";
    NameRunOf(name, ")s");
    assert v[|name| + 3] == 's';
    assert ReferenceLength(v) == |v|;
    assert DropReferences(v) == DropReferences(v[|v|..]);
    assert v[|v|..] == [];
  }

  /** A reference without its closing `s` is refused, whatever its name,
      `%(rate)` say. */
  lemma UnclosedReference(name: string)
    requires name != [] && ')' !in name && '%' !in name
    ensures !SyntaxOk("%(" + name + ")")
  {
    var v := "%(" + name + ")";
    assert v == "%(" + (name + ")");
    OpenedPlain(name + ")");
    assert v[2..] == name + ")";
    NameRunOf(name, ")");
    assert ReferenceLength(v) == 0;
    assert DropReferences(v) == [v[0]] + DropReferences(v[1..]);
    assert Residue(v)[0] == '%';
  }
}
