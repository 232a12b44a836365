/** One line of a Channel List File's `channels` option: the grammar the reader
    matches it with (pydischarge/detector/io/clf.py, `CHANNEL_DEFINITION`) and
    the text the writer produces for a channel.

    The pattern is `name [rate] [safe] [fidelity]`, every optional token preceded
    by whitespace, matched with Python's `re.match`: anchored at the start of the
    line but NOT at its end, greedy, and taking the first alternative of an
    alternation that matches. */
module ClfEntry {
  import opened Results
  import Text

  /** The character classes of the pattern. */
  datatype CharClass = NameChars | Spaces | RateChars

  /** `[a-zA-Z0-9:_-]`, `\s` (ASCII whitespace) and `[0-9.]`. */
  predicate InClass(c: char, cls: CharClass) {
    match cls
    case NameChars => 'a' <= c <= 'z' || 'A' <= c <= 'Z' || '0' <= c <= '9' || c == ':' || c == '_' || c == '-'
    case Spaces => c == ' ' || c == '\t' || c == '\n' || c == '\r' || c as int == 11 || c as int == 12
    case RateChars => '0' <= c <= '9' || c == '.'
  }

  /** The alternatives of the `safe` group, in the pattern's order. */
  const SafeTokens: seq<string> := ["safe", "unsafe", "unsafeabove2kHz", "unknown"]

  /** The alternatives of the `fidelity` group, in the pattern's order. */
  const FidelityTokens: seq<string> := ["clean", "flat", "glitchy", "unknown"]

  /** What `CHANNEL_DEFINITION.match(line).groupdict()` holds; `None` for a
      group that did not take part in the match. */
  datatype Match = Match(name: string, sampleRate: Option<string>,
                         safe: Option<string>, fidelity: Option<string>)

  /** Length of the longest run of characters of class `cls` at the start of
      `s` (a greedy `cls*`). */
  function Run(s: string, cls: CharClass): (n: nat)
    ensures n <= |s|
    ensures forall k :: 0 <= k < n ==> InClass(s[k], cls)
    ensures n < |s| ==> !InClass(s[n], cls)
  {
    if s != [] && InClass(s[0], cls) then 1 + Run(s[1..], cls) else 0
  }

  /** The run is exactly `p` when `p` is made of the class and what follows it is not. */
  lemma {:induction false} RunExact(p: string, q: string, cls: CharClass)
    requires forall k :: 0 <= k < |p| ==> InClass(p[k], cls)
    requires q != [] ==> !InClass(q[0], cls)
    ensures Run(p + q, cls) == |p|
  {
    if p != [] {
      assert (p + q)[1..] == p[1..] + q;
      RunExact(p[1..], q, cls);
    } else {
      assert p + q == q;
    }
  }

  /** The first alternative, in order, that is a prefix of `s`. */
  function FirstPrefix(s: string, alternatives: seq<string>): (r: Option<string>)
    ensures r.Some? ==> r.value in alternatives && r.value <= s
    ensures r.None? ==> forall a :: a in alternatives ==> !(a <= s)
    ensures r.Some? ==> exists i :: 0 <= i < |alternatives| && alternatives[i] == r.value
                           && forall j :: 0 <= j < i ==> !(alternatives[j] <= s)
  {
    if alternatives == [] then None
    else if alternatives[0] <= s then Some(alternatives[0])
    else
      assert forall a :: a in alternatives ==> a == alternatives[0] || a in alternatives[1..];
      var rest := alternatives[1..];
      var r := FirstPrefix(s, rest);
      assert r.Some? ==> exists i :: 0 <= i < |alternatives| && alternatives[i] == r.value
                            && forall j :: 0 <= j < i ==> !(alternatives[j] <= s) by {
        if r.Some? {
          var k :| 0 <= k < |rest| && rest[k] == r.value
                   && forall j :: 0 <= j < k ==> !(rest[j] <= s);
          assert alternatives[k + 1] == r.value;
          assert forall j :: 0 <= j < k + 1 ==> !(alternatives[j] <= s) by {
            forall j | 0 <= j < k + 1 ensures !(alternatives[j] <= s) {
              if j > 0 { assert alternatives[j] == rest[j - 1]; }
            }
          }
        }
      }
      r
  }

  /** The group `(?:\s+(?P<sample_rate>[0-9.]+))?` tried on the rest `s` of
      the line: the captured text and what is left after it, or None when the
      group is skipped. */
  function RateGroup(s: string): (r: Option<(string, string)>)
    ensures r.Some? ==> |r.value.1| < |s|
    ensures r.Some? ==> |r.value.0| > 0 && forall k :: 0 <= k < |r.value.0| ==> InClass(r.value.0[k], RateChars)
  {
    var w := Run(s, Spaces);
    if w == 0 then None
    else
      var rest := s[w..];
      var e := Run(rest, RateChars);
      if e == 0 then None else Some((rest[..e], rest[e..]))
  }

  /** A group `(?:\s+(?P<g>(a1|a2|...)))?` tried on the rest `s` of the line. */
  function TokenGroup(s: string, alternatives: seq<string>): (r: Option<(string, string)>)
    ensures r.Some? ==> |r.value.1| < |s| && r.value.0 in alternatives
  {
    var w := Run(s, Spaces);
    if w == 0 then None
    else
      match FirstPrefix(s[w..], alternatives)
      case None => None
      case Some(t) => Some((t, s[w + |t|..]))
  }

  function Captured(g: Option<(string, string)>): Option<string> {
    if g.Some? then Some(g.value.0) else None
  }

  /** What is left of `s` once group `g` was tried on it. */
  function Rest(g: Option<(string, string)>, s: string): string {
    if g.Some? then g.value.1 else s
  }

  /** `CHANNEL_DEFINITION.match(line)`; None where Python gets `None` back. */
  function MatchLine(line: string): (r: Option<Match>)
    ensures r.Some? <==> |line| > 0 && InClass(line[0], NameChars)
    ensures r.Some? ==> var n := |r.value.name|;
      0 < n <= |line| && r.value.name == line[..n] &&
      (forall k :: 0 <= k < n ==> InClass(line[k], NameChars)) &&
      (n < |line| ==> !InClass(line[n], NameChars))
    ensures r.Some? && r.value.sampleRate.Some? ==> var t := r.value.sampleRate.value;
      |t| > 0 && forall k :: 0 <= k < |t| ==> InClass(t[k], RateChars)
    ensures r.Some? && r.value.safe.Some? ==> r.value.safe.value in SafeTokens
    ensures r.Some? && r.value.fidelity.Some? ==> r.value.fidelity.value in FidelityTokens
  {
    var n := Run(line, NameChars);
    if n == 0 then None
    else
      var rate := RateGroup(line[n..]);
      var s1 := Rest(rate, line[n..]);
      var safe := TokenGroup(s1, SafeTokens);
      var s2 := Rest(safe, s1);
      var fidelity := TokenGroup(s2, FidelityTokens);
      Some(Match(line[..n], Captured(rate), Captured(safe), Captured(fidelity)))
  }

  /** Because the alternation tries `unsafe` before `unsafeabove2kHz`, the
      longer token can never be captured. */
  lemma {:induction false} NeverUnsafeAbove2kHz(s: string)
    ensures FirstPrefix(s, SafeTokens) != Some("unsafeabove2kHz")
  {
    if "unsafeabove2kHz" <= s {
      assert s[..6] == "unsafe";
      assert FirstPrefix(s, SafeTokens[1..]) == Some("unsafe");
    }
  }

  /** The safe group of any line: never `unsafeabove2kHz`. */
  lemma {:induction false} MatchNeverUnsafeAbove2kHz(line: string)
    requires MatchLine(line).Some?
    ensures MatchLine(line).value.safe != Some("unsafeabove2kHz")
  {
    var n := Run(line, NameChars);
    var s1 := Rest(RateGroup(line[n..]), line[n..]);
    var w := Run(s1, Spaces);
    if w != 0 {
      NeverUnsafeAbove2kHz(s1[w..]);
    }
  }

  /** A channel line after the defaults of clf.py:125-126 are applied. */
  datatype Entry = Entry(name: string, sampleRate: Option<string>, safe: string, fidelity: string)

  /** The message of the `AttributeError` raised for a line the pattern rejects
      (clf.py:121): the line as `repr` shows it, so that it can be read back. */
  function CannotParse(line: string): (m: string)
    ensures |m| >= |line| + 37
    ensures m[..13] == "Cannot parse " && m[|m| - 22..] == " as channel list entry"
    ensures Text.Unescape(m[14..|m| - 23]) == line
  {
    Text.ReprRoundTrip(line);
    var p, q, s := "Cannot parse ", Text.Repr(line), " as channel list entry";
    var m := p + q + s;
    assert |p| == 13 && |s| == 22;
    assert m[..13] == p && m[|m| - 22..] == s;
    assert m[13..|m| - 22] == q;
    assert m[14..|m| - 23] == q[1..|q| - 1];
    m
  }

  /** A line holding a single quote is shown in double quotes. The line is
      a parameter so that the message is reasoned about symbolically. */
  lemma CannotParseQuoted(line: string)
    requires line == "it's"
    ensures CannotParse(line) == "Cannot parse " + "\"it's\"" + " as channel list entry"
  {
    Text.ReprQuoted();
  }

  /** A match with `safe` defaulting to `'safe'` and `fidelity` to `'clean'`. */
  function WithDefaults(m: Match): (e: Entry)
    ensures e.name == m.name && e.sampleRate == m.sampleRate
    ensures m.safe.None? ==> e.safe == "safe"
    ensures m.safe.Some? ==> e.safe == m.safe.value
    ensures m.fidelity.None? ==> e.fidelity == "clean"
    ensures m.fidelity.Some? ==> e.fidelity == m.fidelity.value
  {
    Entry(m.name, m.sampleRate,
          if m.safe.Some? then m.safe.value else "safe",
          if m.fidelity.Some? then m.fidelity.value else "clean")
  }

  /** The line matched and defaulted, or the message clf.py raises. */
  function ParseEntry(line: string): (r: Result<Entry, string>)
    ensures r.Err? <==> !(|line| > 0 && InClass(line[0], NameChars))
    ensures r.Err? ==> r.error == CannotParse(line)
    ensures r.Ok? ==> r.value.safe in SafeTokens && r.value.safe != "unsafeabove2kHz"
    ensures r.Ok? ==> r.value.fidelity in FidelityTokens
  {
    match MatchLine(line)
    case None => Err(CannotParse(line))
    case Some(m) =>
      MatchNeverUnsafeAbove2kHz(line);
      Ok(WithDefaults(m))
  }

  /** The `safe` attribute of clf.py:128: only the token `unsafe` (in any case)
      marks a channel unsafe. */
  function IsSafe(token: string): (r: bool)
    ensures Text.Lower(token) in SafeTokens ==> (r <==> Text.Lower(token) != "unsafe")
    ensures token in SafeTokens ==> (r <==> token != "unsafe")
  {
    LowerTokens();
    Text.Lower(token) != "unsafe"
  }

  /** The safe tokens are lower case apart from the one `unsafe` never matches. */
  lemma LowerTokens()
    ensures Text.Lower("safe") == "safe" && Text.Lower("unsafe") == "unsafe" && Text.Lower("unknown") == "unknown"
    ensures Text.Lower("unsafeabove2kHz") != "unsafe"
  {
    assert |Text.Lower("unsafeabove2kHz")| == 15;
  }

  /** The entry line the writer produces (clf.py:152-157): the name, the rate
      when there is one, then the safe and fidelity tokens, space-separated. */
  function FormatEntry(e: Entry): (line: string)
    ensures |line| == |e.name| + |RateText(e.sampleRate)| + |e.safe| + |e.fidelity| + 2
    ensures line[..|e.name|] == e.name && line[|line| - |e.fidelity|..] == e.fidelity
  {
    e.name + RateText(e.sampleRate) + (" " + (e.safe + (" " + e.fidelity)))
  }

  function RateText(rate: Option<string>): string {
    if rate.Some? then " " + rate.value else ""
  }

  /** An entry the writer can produce and the reader gives back unchanged. */
  predicate Representable(e: Entry) {
    |e.name| > 0 && (forall k :: 0 <= k < |e.name| ==> InClass(e.name[k], NameChars)) &&
    (e.sampleRate.Some? ==>
       |e.sampleRate.value| > 0 &&
       forall k :: 0 <= k < |e.sampleRate.value| ==> InClass(e.sampleRate.value[k], RateChars)) &&
    e.safe in {"safe", "unsafe", "unknown"} &&
    e.fidelity in FidelityTokens
  }

  lemma SafeTokenFirst(tok: string, rest: string)
    requires tok in {"safe", "unsafe", "unknown"}
    ensures FirstPrefix(tok + rest, SafeTokens) == Some(tok)
    ensures |tok| > 0 && !InClass(tok[0], Spaces) && !InClass(tok[0], RateChars)
  {
    var s := tok + rest;
    assert s[..|tok|] == tok;
    if tok == "safe" {
      assert "safe" <= s;
    } else if tok == "unsafe" {
      assert !("safe" <= s) by { assert s[0] == 'u'; }
      assert "unsafe" <= s;
      assert SafeTokens[1..] == ["unsafe", "unsafeabove2kHz", "unknown"];
    } else {
      assert !("safe" <= s) by { assert s[0] == 'u'; }
      assert !("unsafe" <= s) by { assert s[2] == 'k'; }
      assert !("unsafeabove2kHz" <= s) by { assert s[2] == 'k'; }
      assert "unknown" <= s;
      assert SafeTokens[1..] == ["unsafe", "unsafeabove2kHz", "unknown"];
      assert SafeTokens[1..][1..] == ["unsafeabove2kHz", "unknown"];
      assert SafeTokens[1..][1..][1..] == ["unknown"];
      assert FirstPrefix(s, ["unknown"]) == Some("unknown");
      assert FirstPrefix(s, ["unsafeabove2kHz", "unknown"]) == Some("unknown");
      assert FirstPrefix(s, ["unsafe", "unsafeabove2kHz", "unknown"]) == Some("unknown");
    }
  }

  lemma FidelityTokenFirst(tok: string, rest: string)
    requires tok in FidelityTokens
    ensures FirstPrefix(tok + rest, FidelityTokens) == Some(tok)
    ensures |tok| > 0 && !InClass(tok[0], Spaces)
  {
    var s := tok + rest;
    assert s[..|tok|] == tok;
    assert FidelityTokens[1..] == ["flat", "glitchy", "unknown"];
    assert FidelityTokens[1..][1..] == ["glitchy", "unknown"];
    assert FidelityTokens[1..][1..][1..] == ["unknown"];
    if tok == "clean" {
      assert "clean" <= s;
    } else if tok == "flat" {
      assert !("clean" <= s) by { assert s[0] == 'f'; }
      assert "flat" <= s;
    } else if tok == "glitchy" {
      assert !("clean" <= s) by { assert s[0] == 'g'; }
      assert !("flat" <= s) by { assert s[0] == 'g'; }
      assert "glitchy" <= s;
    } else {
      assert !("clean" <= s) by { assert s[0] == 'u'; }
      assert !("flat" <= s) by { assert s[0] == 'u'; }
      assert !("glitchy" <= s) by { assert s[0] == 'u'; }
      assert "unknown" <= s;
    }
  }

  /** A token group finds `tok` after exactly one space. */
  lemma {:induction false} TokenAfterSpace(tok: string, rest: string, alternatives: seq<string>)
    requires FirstPrefix(tok + rest, alternatives) == Some(tok)
    requires |tok| > 0 && !InClass(tok[0], Spaces)
    ensures TokenGroup(" " + (tok + rest), alternatives) == Some((tok, rest))
  {
    RunExact(" ", tok + rest, Spaces);
    assert (" " + (tok + rest))[1..] == tok + rest;
    assert (" " + (tok + rest))[1 + |tok|..] == rest;
  }

  /** The rate group captures `r` when one space and `r` come next, followed by a space. */
  lemma {:induction false} RatePresent(r: string, rest: string)
    requires |r| > 0 && forall k :: 0 <= k < |r| ==> InClass(r[k], RateChars)
    requires |rest| > 0 && rest[0] == ' '
    ensures RateGroup(" " + (r + rest)) == Some((r, rest))
  {
    RunExact(" ", r + rest, Spaces);
    assert (" " + (r + rest))[1..] == r + rest;
    RunExact(r, rest, RateChars);
  }

  /** The rate group is skipped when one space and a non-rate character come next. */
  lemma {:induction false} RateAbsent(s: string)
    requires |s| > 0 && !InClass(s[0], Spaces) && !InClass(s[0], RateChars)
    ensures RateGroup(" " + s) == None
  {
    RunExact(" ", s, Spaces);
    assert (" " + s)[1..] == s;
  }

  /** Reading back what the writer wrote gives the entry back, whatever text
      follows it on the line: the pattern is not anchored at the end, so a
      trailing `t` is ignored. */
  lemma {:induction false} ParseFormat(e: Entry, t: string)
    requires Representable(e)
    ensures ParseEntry(FormatEntry(e) + t) == Ok(e)
  {
    MatchFormat(e, t);
  }

  /** The formatted line with trailing text, regrouped from the right. */
  lemma {:induction false} FormatAppend(e: Entry, t: string)
    ensures FormatEntry(e) + t ==
      e.name + (RateText(e.sampleRate) + (" " + (e.safe + (" " + (e.fidelity + t)))))
  {
    var f := " " + (e.fidelity + t);
    assert (" " + e.fidelity) + t == f;
    assert (e.safe + (" " + e.fidelity)) + t == e.safe + f;
    assert (" " + (e.safe + (" " + e.fidelity))) + t == " " + (e.safe + f);
  }

  lemma {:induction false} MatchFormat(e: Entry, t: string)
    requires Representable(e)
    ensures MatchLine(FormatEntry(e) + t) == Some(Match(e.name, e.sampleRate, Some(e.safe), Some(e.fidelity)))
  {
    var fidelityText := " " + (e.fidelity + t);
    var tail := " " + (e.safe + fidelityText);
    var afterName := RateText(e.sampleRate) + tail;
    var line := FormatEntry(e) + t;
    FormatAppend(e, t);
    assert line == e.name + afterName;
    RunExact(e.name, afterName, NameChars);
    var n := |e.name|;
    assert line[..n] == e.name && line[n..] == afterName;
    SafeTokenFirst(e.safe, fidelityText);
    RateField(e, tail);
    FidelityTokenFirst(e.fidelity, t);
    TokenAfterSpace(e.safe, fidelityText, SafeTokens);
    TokenAfterSpace(e.fidelity, t, FidelityTokens);
  }

  /** The rate group reads back the rate field the writer put before `tail`. */
  lemma {:induction false} RateField(e: Entry, tail: string)
    requires e.sampleRate.Some? ==>
      |e.sampleRate.value| > 0 &&
      forall k :: 0 <= k < |e.sampleRate.value| ==> InClass(e.sampleRate.value[k], RateChars)
    requires |tail| > 1 && tail[0] == ' ' && !InClass(tail[1], Spaces) && !InClass(tail[1], RateChars)
    ensures var rate := RateGroup(RateText(e.sampleRate) + tail);
      Captured(rate) == e.sampleRate && Rest(rate, RateText(e.sampleRate) + tail) == tail
  {
    if e.sampleRate.Some? {
      var v := e.sampleRate.value;
      assert (" " + v) + tail == " " + (v + tail);
      RatePresent(v, tail);
    } else {
      assert RateText(e.sampleRate) + tail == tail;
      assert tail == " " + tail[1..];
      RateAbsent(tail[1..]);
    }
  }

  /** No alternative matches when none starts with the first character of `s`. */
  lemma {:induction false} NoAlternativeStarts(s: string, alternatives: seq<string>)
    requires |s| > 0
    requires forall i :: 0 <= i < |alternatives| ==> |alternatives[i]| > 0 && alternatives[i][0] != s[0]
    ensures FirstPrefix(s, alternatives) == None
  {
    if alternatives != [] {
      NoAlternativeStarts(s, alternatives[1..]);
    }
  }

  /** A line holding only a name gets both defaults: `safe` and `clean`. */
  lemma {:induction false} BareNameDefaults(line: string)
    requires |line| > 0 && forall k :: 0 <= k < |line| ==> InClass(line[k], NameChars)
    ensures ParseEntry(line) == Ok(Entry(line, None, "safe", "clean"))
  {
    RunExact(line, [], NameChars);
    assert line + [] == line;
    assert line[|line|..] == [];
    assert line[..|line|] == line;
  }

  /** A token group is skipped when no whitespace comes next. */
  lemma {:induction false} TokenSkipped(s: string, alternatives: seq<string>)
    requires |s| > 0 && !InClass(s[0], Spaces)
    ensures TokenGroup(s, alternatives) == None
  {
  }

  /** A token group is skipped when the word after one space starts with no
      alternative's first letter. */
  lemma {:induction false} TokenNotListed(s: string, alternatives: seq<string>)
    requires |s| > 0 && !InClass(s[0], Spaces)
    requires forall i :: 0 <= i < |alternatives| ==> |alternatives[i]| > 0 && alternatives[i][0] != s[0]
    ensures TokenGroup(" " + s, alternatives) == None
  {
    RunExact(" ", s, Spaces);
    assert (" " + s)[1..] == s;
    NoAlternativeStarts(s, alternatives);
  }

  /** The safe group on `unsafeabove2kHz` stops after `unsafe`. */
  lemma {:induction false} SafeGroupOnUnsafeAbove2kHz(rest: string)
    ensures TokenGroup(" " + ("unsafeabove2kHz" + rest), SafeTokens) == Some(("unsafe", "above2kHz" + rest))
    ensures TokenGroup("above2kHz" + rest, FidelityTokens) == None
  {
    var r := "above2kHz" + rest;
    assert "unsafeabove2kHz" + rest == "unsafe" + r;
    var u := "unsafe" + r;
    assert u[..6] == "unsafe";
    assert !("safe" <= u) by { assert u[0] == 'u'; }
    assert SafeTokens[1..] == ["unsafe", "unsafeabove2kHz", "unknown"];
    TokenAfterSpace("unsafe", r, SafeTokens);
    assert r[0] == 'a';
    TokenSkipped(r, FidelityTokens);
  }

  /** `unsafeabove2kHz` is read as `unsafe`, and the fidelity token after it is
      lost because no whitespace follows the captured `unsafe`: a channel whose
      safe token is `unsafeabove2kHz` does not survive being written and read. */
  lemma {:induction false} UnsafeAbove2kHzReadAsUnsafe(e: Entry, t: string)
    requires e.safe == "unsafeabove2kHz"
    requires Representable(e.(safe := "unsafe"))
    ensures MatchLine(FormatEntry(e) + t) == Some(Match(e.name, e.sampleRate, Some("unsafe"), None))
  {
    var fidelityText := " " + (e.fidelity + t);
    var tail := " " + ("unsafeabove2kHz" + fidelityText);
    var afterName := RateText(e.sampleRate) + tail;
    var line := FormatEntry(e) + t;
    FormatAppend(e, t);
    assert line == e.name + afterName;
    RunExact(e.name, afterName, NameChars);
    var n := |e.name|;
    assert line[..n] == e.name && line[n..] == afterName;
    assert tail[1] == 'u';
    RateField(e, tail);
    SafeGroupOnUnsafeAbove2kHz(fidelityText);
  }

  /** The optional tokens are recognised only in the order rate, safe,
      fidelity: a rate written after the safe token is ignored, and so is
      anything after it. */
  lemma {:induction false} RateAfterSafeIgnored(name: string, tok: string, rate: string)
    requires |name| > 0 && forall k :: 0 <= k < |name| ==> InClass(name[k], NameChars)
    requires tok in {"safe", "unsafe", "unknown"}
    requires |rate| > 0 && forall k :: 0 <= k < |rate| ==> InClass(rate[k], RateChars)
    ensures MatchLine(name + (" " + (tok + (" " + rate)))) == Some(Match(name, None, Some(tok), None))
  {
    var afterName := " " + (tok + (" " + rate));
    var line := name + afterName;
    RunExact(name, afterName, NameChars);
    assert line[..|name|] == name && line[|name|..] == afterName;
    SafeTokenFirst(tok, " " + rate);
    RateAbsent(tok + (" " + rate));
    TokenAfterSpace(tok, " " + rate, SafeTokens);
    FidelityNotARate(rate);
  }

  lemma {:induction false} FidelityNotARate(rate: string)
    requires |rate| > 0 && InClass(rate[0], RateChars)
    ensures TokenGroup(" " + rate, FidelityTokens) == None
  {
    TokenNotListed(rate, FidelityTokens);
  }
}
