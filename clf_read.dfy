/** Reading a Channel List File (pydischarge/detector/io/clf.py,
    `read_channel_list_file`).

    The INI file is taken as configparser hands it over: an ordered list of
    sections, each with its options in file order. Every section is one group
    of channels: its `channels` option lists one channel per line, its other
    options become every channel's parameters. */
module ClfRead {
  import opened Results
  import opened OrderedDict
  import opened ClfEntry
  import opened Outcomes
  import Text

  datatype Section = Section(name: string, options: Dict)

  type Ini = seq<Section>

  /** A frequency bound: the option's text (its `float` conversion is not
      modelled) or infinity. */
  datatype Bound = Finite(text: string) | Infinite

  datatype FrequencyRange = FrequencyRange(low: Bound, high: Bound)

  /** A `Channel` as the reader builds it. */
  datatype Channel = Channel(
    name: string,
    sampleRate: Option<string>,
    safe: bool,
    frequencyRange: Option<FrequencyRange>,
    params: Dict,
    group: string,
    frametype: Option<string>)

  /** The exceptions the reader raises: the rewritten `AttributeError` for a
      line the pattern rejects, and `KeyError` for a missing key. */
  datatype ReadError = CannotParseEntry(message: string) | MissingKey(key: string)

  /** The upper bound: absent or `nyquist` (in any case) is infinity (clf.py:111-113). */
  function HighBound(fhigh: Option<string>): (b: Bound)
    ensures b.Infinite? <==> fhigh.None? || Text.Lower(fhigh.value) == "nyquist"
    ensures b.Finite? ==> b.text == fhigh.value
  {
    if fhigh.None? || Text.Lower(fhigh.value) == "nyquist" then Infinite else Finite(fhigh.value)
  }

  /** The lower bound: absent is zero (clf.py:110). */
  function LowBound(flow: Option<string>): (b: Bound)
    ensures b.Finite?
    ensures b.text == if flow.Some? then flow.value else "0"
  {
    Finite(if flow.Some? then flow.value else "0")
  }

  /** The section's frequency range (clf.py:109-116): none unless `flow` or
      `fhigh` is set; then `flow` or zero below, and `fhigh` above unless it
      is absent or `nyquist`, which stand for infinity. */
  function SectionFrequencyRange(options: Dict): (r: Option<FrequencyRange>)
    ensures r.None? <==> !Contains(options, "flow") && !Contains(options, "fhigh")
    ensures r.Some? ==> r.value.low.Finite? && Some(r.value.low.text) == if Contains(options, "flow") then Get(options, "flow") else Some("0")
    ensures r.Some? ==> (r.value.high.Infinite? <==>
      !Contains(options, "fhigh") || Text.Lower(Get(options, "fhigh").value) == "nyquist")
    ensures r.Some? && r.value.high.Finite? ==> Get(options, "fhigh") == Some(r.value.high.text)
  {
    var flow, fhigh := Get(options, "flow"), Get(options, "fhigh");
    if flow.Some? || fhigh.Some? then
      var high := HighBound(fhigh);
      assert high.Infinite? <==> !Contains(options, "fhigh") || Text.Lower(fhigh.value) == "nyquist";
      Some(FrequencyRange(LowBound(flow), high))
    else
      assert !Contains(options, "flow") && !Contains(options, "fhigh");
      None
  }

  /** The section's options without the keys the reader consumes (clf.py:108-111). */
  function GroupParams(options: Dict): (r: Dict)
    ensures forall k :: Contains(r, k) <==> Contains(options, k) && k != "channels" && k != "flow" && k != "fhigh"
  {
    Pop(Pop(Pop(options, "channels"), "flow"), "fhigh")
  }

  /** The lines of a `channels` value: newlines stripped at both ends only,
      then split on newline (clf.py:108). */
  function ChannelLines(value: string): (lines: seq<string>)
    ensures |lines| >= 1
  {
    Text.Split(Text.Strip(value, '\n'), '\n')
  }

  /** The lines of a section's `channels` option. */
  function SectionLines(s: Section): (lines: seq<string>)
    requires Contains(s.options, "channels")
    ensures |lines| >= 1
  {
    ChannelLines(Get(s.options, "channels").value)
  }

  /** The match fields left once `name` and `sample_rate` are popped
      (clf.py:124-130): `safe` and `fidelity` with their defaults, in the order
      the match dictionary holds them (a default is appended after the
      captured fields). */
  function MatchFields(m: Match): (d: Dict)
    ensures Valid(d)
  {
    var e := WithDefaults(m);
    if m.safe.None? && m.fidelity.Some? then [("fidelity", e.fidelity), ("safe", e.safe)]
    else [("safe", e.safe), ("fidelity", e.fidelity)]
  }

  /** The channel clf.py:117-137 builds from one line. With `asWritten`, a line
      without a rate fails as the unconditional `pop('sample_rate')` does. */
  function NewChannel(group: string, params: Dict, frange: Option<FrequencyRange>,
                      line: string, asWritten: bool): (r: Result<Channel, ReadError>)
    ensures r.Ok? <==> MatchLine(line).Some? && !(asWritten && MatchLine(line).value.sampleRate.None?)
    ensures MatchLine(line).None? ==> r == Err(CannotParseEntry(CannotParse(line)))
    ensures r.Ok? ==> r.value.group == group && r.value.frequencyRange == frange
    ensures r.Ok? ==> 0 < |r.value.name| <= |line| && r.value.name == line[..|r.value.name|]
  {
    match MatchLine(line)
    case None => Err(CannotParseEntry(CannotParse(line)))
    case Some(m) =>
      if asWritten && m.sampleRate.None? then Err(MissingKey("sample_rate"))
      else
        var e := WithDefaults(m);
        var p := Update(params, MatchFields(m));
        Ok(Channel(e.name, e.sampleRate, IsSafe(e.safe), frange,
                   Pop(p, "frametype"), group, Get(p, "frametype")))
  }

  /** Every line's channel, or its error. */
  function LineResults(group: string, params: Dict, frange: Option<FrequencyRange>,
                       lines: seq<string>, asWritten: bool): (rs: seq<Result<Channel, ReadError>>)
    ensures |rs| == |lines|
    ensures forall i :: 0 <= i < |lines| ==> rs[i] == NewChannel(group, params, frange, lines[i], asWritten)
  {
    seq(|lines|, i requires 0 <= i < |lines| => NewChannel(group, params, frange, lines[i], asWritten))
  }

  /** The channels of one section (clf.py:107-137), one per line in order;
      the first failing line decides the error. */
  function ReadSection(s: Section, asWritten: bool): (r: Result<seq<Channel>, ReadError>)
    ensures !Contains(s.options, "channels") ==> r == Err(MissingKey("channels"))
    ensures r.Ok? ==> Contains(s.options, "channels") && |r.value| == |SectionLines(s)|
    ensures r.Ok? ==> forall i :: 0 <= i < |r.value| ==>
      r.value[i].group == s.name && r.value[i].frequencyRange == SectionFrequencyRange(s.options)
  {
    match Get(s.options, "channels")
    case None => Err(MissingKey("channels"))
    case Some(v) =>
      var fr := SectionFrequencyRange(s.options);
      var rs := LineResults(s.name, GroupParams(s.options), fr, ChannelLines(v), asWritten);
      AllOk(rs);
      var r := All(rs);
      assert r.Ok? ==> forall i :: 0 <= i < |r.value| ==>
        r.value[i].group == s.name && r.value[i].frequencyRange == fr by {
        if r.Ok? {
          forall i | 0 <= i < |r.value|
            ensures r.value[i].group == s.name && r.value[i].frequencyRange == fr
          {
            assert rs[i] == Ok(r.value[i]);
          }
        }
      }
      r
  }

  function SectionResults(ini: Ini, asWritten: bool): (rs: seq<Result<seq<Channel>, ReadError>>)
    ensures |rs| == |ini|
    ensures forall i :: 0 <= i < |ini| ==> rs[i] == ReadSection(ini[i], asWritten)
  {
    seq(|ini|, i requires 0 <= i < |ini| => ReadSection(ini[i], asWritten))
  }

  /** The channels of all sections (clf.py:106), sections in order. */
  function ReadSections(ini: Ini, asWritten: bool): (r: Result<seq<Channel>, ReadError>)
    ensures r.Ok? <==> forall i :: 0 <= i < |ini| ==> ReadSection(ini[i], asWritten).Ok?
  {
    ConcatOk(SectionResults(ini, asWritten));
    Concat(SectionResults(ini, asWritten))
  }

  /** A failed read reports the error of the first section that fails. */
  lemma SectionsError(ini: Ini, asWritten: bool)
    requires ReadSections(ini, asWritten).Err?
    ensures exists i :: 0 <= i < |ini| && ReadSection(ini[i], asWritten) == Err(ReadSections(ini, asWritten).error) &&
                        forall j :: 0 <= j < i ==> ReadSection(ini[j], asWritten).Ok?
  {
    ConcatFirstError(SectionResults(ini, asWritten));
  }

  /** `read_channel_list_file`, with the rate optional as the module's
      documentation says (clf.py:37-45): the loop over sections of
      clf.py:106-137. */
  method ReadChannelListFile(ini: Ini) returns (r: Result<seq<Channel>, ReadError>)
    ensures r == ReadSections(ini, false)
  {
    ghost var rs := SectionResults(ini, false);
    var out: seq<Channel> := [];
    var i := 0;
    while i < |ini|
      invariant 0 <= i <= |ini|
      invariant Concat(rs[..i]) == Ok(out)
    {
      var cs := SectionChannels(ini[i]);
      ConcatStep(rs, i, out);
      if cs.Err? {
        return Err(cs.error);
      }
      out := out + cs.value;
      i := i + 1;
    }
    assert rs[..i] == rs;
    return Ok(out);
  }

  /** One pass of the section loop (clf.py:107-137): `channels` and the
      frequency bounds are popped from a copy of the options, then every line
      becomes a channel. */
  method SectionChannels(section: Section) returns (r: Result<seq<Channel>, ReadError>)
    ensures r == ReadSection(section, false)
  {
    var value := Get(section.options, "channels");
    if value.None? {
      return Err(MissingKey("channels"));
    }
    var lines := ChannelLines(value.value);
    var params, frange := GroupOptions(section.options);
    r := LinesChannels(section.name, params, frange, lines);
  }

  /** The loop over a section's lines (clf.py:118-137): a channel per line,
      in order, until the first line that fails. */
  method LinesChannels(group: string, params: Dict, frange: Option<FrequencyRange>, lines: seq<string>)
    returns (r: Result<seq<Channel>, ReadError>)
    ensures r == All(LineResults(group, params, frange, lines, false))
  {
    ghost var rs := LineResults(group, params, frange, lines, false);
    var out: seq<Channel> := [];
    var j := 0;
    while j < |lines|
      invariant 0 <= j <= |lines|
      invariant All(rs[..j]) == Ok(out)
    {
      var c := ChannelFromLine(group, params, frange, lines[j]);
      AllStep(rs, j, out);
      if c.Err? {
        return Err(c.error);
      }
      out := out + [c.value];
      j := j + 1;
    }
    assert rs[..j] == rs;
    return Ok(out);
  }

  /** The frequency range may be read before or after `channels` is popped. */
  lemma FrequencyRangeAfterPop(options: Dict)
    ensures SectionFrequencyRange(Pop(options, "channels")) == SectionFrequencyRange(options)
  {
    PopGet(options, "channels", "flow");
    PopGet(options, "channels", "fhigh");
  }

  /** The group's parameters and frequency range (clf.py:108-116): a copy of
      the options with `channels`, `flow` and `fhigh` popped. */
  method GroupOptions(options: Dict) returns (params: Dict, frange: Option<FrequencyRange>)
    ensures params == GroupParams(options)
    ensures frange == SectionFrequencyRange(options)
  {
    params := Pop(options, "channels");
    FrequencyRangeAfterPop(options);
    if Contains(params, "flow") || Contains(params, "fhigh") {
      var low := Get(params, "flow");
      params := Pop(params, "flow");
      var high := Get(params, "fhigh");
      PopGet(Pop(options, "channels"), "flow", "fhigh");
      params := Pop(params, "fhigh");
      frange := Some(FrequencyRange(LowBound(low), HighBound(high)));
    } else {
      frange := None;
      PopAbsent(params, "flow");
      PopAbsent(params, "fhigh");
    }
  }

  /** One line made into a channel (clf.py:118-136): what is left of the
      match dictionary overrides the group's parameters, and `frametype` is
      lifted out of them. */
  method ChannelFromLine(group: string, params: Dict, frange: Option<FrequencyRange>, line: string)
    returns (r: Result<Channel, ReadError>)
    ensures r == NewChannel(group, params, frange, line, false)
  {
    var found := MatchLine(line);
    if found.None? {
      return Err(CannotParseEntry(CannotParse(line)));
    }
    var m := found.value;
    var fields := FieldsOf(m);
    FieldsSafe(m);
    var safe := IsSafe(GetOr(fields, "safe", "safe"));
    var p := Update(params, fields);
    var frametype := Get(p, "frametype");
    p := Pop(p, "frametype");
    return Ok(Channel(m.name, m.sampleRate, safe, frange, p, group, frametype));
  }

  lemma FieldsSafe(m: Match)
    ensures GetOr(MatchFields(m), "safe", "safe") == WithDefaults(m).safe
  {
    var e := WithDefaults(m);
    SmallDicts("safe", e.safe, "fidelity", e.fidelity, "safe", "");
    SmallDicts("fidelity", e.fidelity, "safe", e.safe, "safe", "");
  }

  /** The match dictionary (clf.py:120-130) with its `None`s dropped, the
      `safe` and `fidelity` defaults set, and `name` and `sample_rate`
      popped. */
  method FieldsOf(m: Match) returns (fields: Dict)
    ensures fields == MatchFields(m)
  {
    fields := [];
    var e := WithDefaults(m);
    SmallDicts("safe", e.safe, "", "", "fidelity", e.fidelity);
    SmallDicts("fidelity", e.fidelity, "", "", "safe", e.safe);
    if m.safe.Some? {
      fields := Set(fields, "safe", m.safe.value);
    }
    if m.fidelity.Some? {
      fields := Set(fields, "fidelity", m.fidelity.value);
    }
    if !Contains(fields, "safe") {
      fields := Set(fields, "safe", "safe");
    }
    if !Contains(fields, "fidelity") {
      fields := Set(fields, "fidelity", "clean");
    }
  }

  // ---------------------------------------------------------------------
  // What a read returns

  /** The value the reader gives parameter `k` of a channel of a section
      with the given options whose line parsed to `e`. */
  function ParamValue(options: Dict, e: Entry, k: string): Option<string> {
    if k == "frametype" || k == "channels" || k == "flow" || k == "fhigh" then None
    else if k == "safe" then Some(e.safe)
    else if k == "fidelity" then Some(e.fidelity)
    else Get(options, k)
  }

  /** `c` is the channel the reader owes line `line` of section `s`: the
      entry's name and rate, safety from its flag, the section's name and
      frequency range, a `frametype` taken from the section, and as
      parameters the section's options overridden by the entry's flags. */
  ghost predicate ChannelOfLine(c: Channel, s: Section, line: string) {
    MatchLine(line).Some? &&
    var e := WithDefaults(MatchLine(line).value);
    c.name == e.name && c.sampleRate == e.sampleRate && c.safe == IsSafe(e.safe) &&
    c.group == s.name && c.frequencyRange == SectionFrequencyRange(s.options) &&
    c.frametype == Get(s.options, "frametype") && Valid(c.params) &&
    forall k :: Get(c.params, k) == ParamValue(s.options, e, k)
  }

  lemma GroupParamsGet(options: Dict, k: string)
    ensures Get(GroupParams(options), k) ==
      if k == "channels" || k == "flow" || k == "fhigh" then None else Get(options, k)
  {
    PopGet(options, "channels", k);
    PopGet(Pop(options, "channels"), "flow", k);
    PopGet(Pop(Pop(options, "channels"), "flow"), "fhigh", k);
  }

  lemma GroupParamsValid(options: Dict)
    requires Valid(options)
    ensures Valid(GroupParams(options))
  {
    PopValid(options, "channels");
    PopValid(Pop(options, "channels"), "flow");
    PopValid(Pop(Pop(options, "channels"), "flow"), "fhigh");
  }

  lemma MatchFieldsGet(m: Match, k: string)
    ensures Contains(MatchFields(m), k) <==> k == "safe" || k == "fidelity"
    ensures Get(MatchFields(m), k) ==
      if k == "safe" then Some(WithDefaults(m).safe)
      else if k == "fidelity" then Some(WithDefaults(m).fidelity) else None
  {
    var e := WithDefaults(m);
    SmallDicts("safe", e.safe, "fidelity", e.fidelity, k, "");
    SmallDicts("fidelity", e.fidelity, "safe", e.safe, k, "");
  }

  /** A channel's parameters: the group's, overridden by the entry's flags,
      without `frametype`, which becomes the channel's own attribute. */
  lemma NewChannelParams(group: string, params: Dict, frange: Option<FrequencyRange>, line: string, k: string)
    requires Valid(params)
    requires NewChannel(group, params, frange, line, false).Ok?
    ensures var c := NewChannel(group, params, frange, line, false).value;
      var e := WithDefaults(MatchLine(line).value);
      && c.frametype == Get(params, "frametype")
      && Valid(c.params)
      && Get(c.params, k) ==
           if k == "frametype" then None
           else if k == "safe" then Some(e.safe)
           else if k == "fidelity" then Some(e.fidelity)
           else Get(params, k)
  {
    var m := MatchLine(line).value;
    var fields := MatchFields(m);
    var p := Update(params, fields);
    UpdateValid(params, fields);
    PopValid(p, "frametype");
    UpdateGet(params, fields, "frametype");
    MatchFieldsGet(m, "frametype");
    UpdateGet(params, fields, k);
    MatchFieldsGet(m, k);
    PopGet(p, "frametype", k);
  }

  lemma ChannelOfLineHolds(s: Section, line: string)
    requires Valid(s.options)
    requires NewChannel(s.name, GroupParams(s.options), SectionFrequencyRange(s.options), line, false).Ok?
    ensures ChannelOfLine(NewChannel(s.name, GroupParams(s.options), SectionFrequencyRange(s.options),
                                     line, false).value, s, line)
  {
    var params := GroupParams(s.options);
    var frange := SectionFrequencyRange(s.options);
    var c := NewChannel(s.name, params, frange, line, false).value;
    var e := WithDefaults(MatchLine(line).value);
    GroupParamsValid(s.options);
    GroupParamsGet(s.options, "frametype");
    NewChannelParams(s.name, params, frange, line, "frametype");
    forall k ensures Get(c.params, k) == ParamValue(s.options, e, k) {
      NewChannelParams(s.name, params, frange, line, k);
      GroupParamsGet(s.options, k);
    }
  }

  /** A section without `channels` fails with `KeyError('channels')`. */
  lemma SectionWithoutChannels(s: Section, asWritten: bool)
    requires !Contains(s.options, "channels")
    ensures ReadSection(s, asWritten) == Err(MissingKey("channels"))
  {
  }

  /** The channels of a section: one per line of `channels`, in order, each
      the channel `ChannelOfLine` describes; the read succeeds exactly when
      the pattern accepts every line. */
  lemma SectionChannelsRead(s: Section)
    requires Valid(s.options) && Contains(s.options, "channels")
    ensures ReadSection(s, false).Ok? <==>
      forall i :: 0 <= i < |SectionLines(s)| ==> MatchLine(SectionLines(s)[i]).Some?
    ensures ReadSection(s, false).Ok? ==>
      |ReadSection(s, false).value| == |SectionLines(s)| &&
      forall i :: 0 <= i < |SectionLines(s)| ==>
        ChannelOfLine(ReadSection(s, false).value[i], s, SectionLines(s)[i])
  {
    var lines := SectionLines(s);
    var params := GroupParams(s.options);
    var frange := SectionFrequencyRange(s.options);
    var rs := LineResults(s.name, params, frange, lines, false);
    assert ReadSection(s, false) == All(rs);
    AllOk(rs);
    if All(rs).Ok? {
      forall i | 0 <= i < |lines| ensures ChannelOfLine(All(rs).value[i], s, lines[i]) {
        assert rs[i] == NewChannel(s.name, params, frange, lines[i], false);
        ChannelOfLineHolds(s, lines[i]);
      }
    }
  }

  /** A failed read of a section's lines names the first line the pattern
      rejects. */
  lemma SectionParseError(s: Section)
    requires Contains(s.options, "channels") && ReadSection(s, false).Err?
    ensures exists i :: 0 <= i < |SectionLines(s)| && MatchLine(SectionLines(s)[i]).None? &&
                        ReadSection(s, false).error == CannotParseEntry(CannotParse(SectionLines(s)[i])) &&
                        forall j :: 0 <= j < i ==> MatchLine(SectionLines(s)[j]).Some?
  {
    var lines := SectionLines(s);
    var params := GroupParams(s.options);
    var frange := SectionFrequencyRange(s.options);
    var rs := LineResults(s.name, params, frange, lines, false);
    assert ReadSection(s, false) == All(rs);
    AllFirstError(rs);
    var i :| 0 <= i < |rs| && rs[i] == Err(All(rs).error) && forall j :: 0 <= j < i ==> rs[j].Ok?;
    NewChannelOutcome(s.name, params, frange, lines[i]);
    forall j | 0 <= j < i ensures MatchLine(lines[j]).Some? {
      NewChannelOutcome(s.name, params, frange, lines[j]);
    }
  }

  /** A line yields a channel exactly when the pattern accepts it, and else
      fails with the reader's message. */
  lemma NewChannelOutcome(group: string, params: Dict, frange: Option<FrequencyRange>, line: string)
    ensures NewChannel(group, params, frange, line, false).Ok? <==> MatchLine(line).Some?
    ensures NewChannel(group, params, frange, line, false).Err? ==>
      NewChannel(group, params, frange, line, false).error == CannotParseEntry(CannotParse(line))
  {
  }

  /** Reading two runs of sections reads each run: the result succeeds
      exactly when both do, and lists the first run's channels first. */
  lemma SectionsAppend(a: Ini, b: Ini, asWritten: bool)
    ensures ReadSections(a + b, asWritten).Ok? <==>
      ReadSections(a, asWritten).Ok? && ReadSections(b, asWritten).Ok?
    ensures ReadSections(a + b, asWritten).Ok? ==>
      ReadSections(a + b, asWritten).value ==
        ReadSections(a, asWritten).value + ReadSections(b, asWritten).value
  {
    var ra, rb := SectionResults(a, asWritten), SectionResults(b, asWritten);
    forall i | 0 <= i < |a + b| ensures SectionResults(a + b, asWritten)[i] == (ra + rb)[i] {
      if i < |a| {
        assert (a + b)[i] == a[i];
      } else {
        assert (a + b)[i] == b[i - |a|];
      }
    }
    assert SectionResults(a + b, asWritten) == ra + rb;
    ConcatAppend(SectionResults(a, asWritten), SectionResults(b, asWritten));
  }

  /** A file of one section reads as that section. */
  lemma SingleSection(s: Section, asWritten: bool)
    ensures ReadSections([s], asWritten) == ReadSection(s, asWritten)
  {
    assert SectionResults([s], asWritten) == [ReadSection(s, asWritten)];
    ConcatSingle(ReadSection(s, asWritten));
  }

  /** An empty `channels` option is not an empty group: it holds one empty
      line, which the pattern rejects. */
  lemma EmptyChannelsRejected(s: Section)
    requires Get(s.options, "channels") == Some("")
    ensures ReadSection(s, false) == Err(CannotParseEntry(CannotParse("")))
  {
    assert ChannelLines("") == [""] by {
      Text.StripNoEdges("", '\n');
    }
    var rs := LineResults(s.name, GroupParams(s.options), SectionFrequencyRange(s.options), [""], false);
    AllStep(rs, 0, []);
  }

  // ---------------------------------------------------------------------
  // The unconditional `pop('sample_rate')`

  /** As written, a line without a rate fails where the corrected reader
      builds a rate-less channel; any other line reads the same. */
  lemma NewChannelAsWritten(group: string, params: Dict, frange: Option<FrequencyRange>, line: string)
    ensures var c := NewChannel(group, params, frange, line, false);
      NewChannel(group, params, frange, line, true) ==
        if c.Ok? && c.value.sampleRate.None? then Err(MissingKey("sample_rate")) else c
  {
  }

  /** Steps that differ only where a rate-less channel becomes an error:
      the second run succeeds exactly when the first does with every channel
      rated, and then agrees with it. */
  lemma {:induction false} AllRated(fixed: seq<Result<Channel, ReadError>>, written: seq<Result<Channel, ReadError>>)
    requires |written| == |fixed|
    requires forall i :: 0 <= i < |fixed| ==>
      written[i] == if fixed[i].Ok? && fixed[i].value.sampleRate.None? then Err(MissingKey("sample_rate")) else fixed[i]
    ensures All(written).Ok? <==>
      All(fixed).Ok? && forall i :: 0 <= i < |All(fixed).value| ==> All(fixed).value[i].sampleRate.Some?
    ensures All(written).Ok? ==> All(written) == All(fixed)
  {
    AllOk(fixed);
    AllOk(written);
    if All(written).Ok? {
      assert written == fixed;
    } else if All(fixed).Ok? {
      var i :| 0 <= i < |written| && written[i].Err?;
      assert fixed[i] == Ok(All(fixed).value[i]);
    }
  }

  lemma {:induction false} ConcatRated(fixed: seq<Result<seq<Channel>, ReadError>>, written: seq<Result<seq<Channel>, ReadError>>)
    requires |written| == |fixed|
    requires forall i :: 0 <= i < |fixed| ==>
      (written[i].Ok? <==> fixed[i].Ok? && forall k :: 0 <= k < |fixed[i].value| ==> fixed[i].value[k].sampleRate.Some?) &&
      (written[i].Ok? ==> written[i] == fixed[i])
    ensures Concat(written).Ok? <==>
      Concat(fixed).Ok? && forall i :: 0 <= i < |Concat(fixed).value| ==> Concat(fixed).value[i].sampleRate.Some?
    ensures Concat(written).Ok? ==> Concat(written) == Concat(fixed)
    decreases |fixed|
  {
    if fixed != [] {
      var n := |fixed| - 1;
      var fp, wp := fixed[..n], written[..n];
      assert forall i :: 0 <= i < n ==> fp[i] == fixed[i] && wp[i] == written[i];
      ConcatRated(fp, wp);
      if Concat(fp).Ok? && fixed[n].Ok? {
        var init := Concat(fp).value;
        var last := fixed[n].value;
        var v := Concat(fixed).value;
        assert v == init + last;
        assert forall k :: 0 <= k < |init| ==> v[k] == init[k];
        assert forall k :: 0 <= k < |last| ==> v[|init| + k] == last[k];
        if forall i :: 0 <= i < |v| ==> v[i].sampleRate.Some? {
          forall k | 0 <= k < |last| ensures last[k].sampleRate.Some? {
            assert v[|init| + k] == last[k];
          }
        }
      }
    }
  }

  /** The reader as written succeeds exactly when the corrected reader does
      and every channel it reads has a sample rate; then both read the same. */
  lemma SectionsAsWritten(ini: Ini)
    ensures var fixed := ReadSections(ini, false);
      && (ReadSections(ini, true).Ok? <==>
            fixed.Ok? && forall i :: 0 <= i < |fixed.value| ==> fixed.value[i].sampleRate.Some?)
      && (ReadSections(ini, true).Ok? ==> ReadSections(ini, true) == fixed)
  {
    var fixed := SectionResults(ini, false);
    var written := SectionResults(ini, true);
    forall i | 0 <= i < |ini|
      ensures (written[i].Ok? <==> fixed[i].Ok? && forall k :: 0 <= k < |fixed[i].value| ==> fixed[i].value[k].sampleRate.Some?)
      ensures written[i].Ok? ==> written[i] == fixed[i]
    {
      var s := ini[i];
      if Contains(s.options, "channels") {
        var lines := ChannelLines(Get(s.options, "channels").value);
        var params := GroupParams(s.options);
        var frange := SectionFrequencyRange(s.options);
        forall j | 0 <= j < |lines| {
          NewChannelAsWritten(s.name, params, frange, lines[j]);
        }
        AllRated(LineResults(s.name, params, frange, lines, false), LineResults(s.name, params, frange, lines, true));
      }
    }
    ConcatRated(fixed, written);
  }

  /** The fields of an entry that gives neither flag. */
  lemma DefaultFields()
    ensures var fields := [("safe", "safe"), ("fidelity", "clean")];
      Update([], fields) == fields && Pop(fields, "frametype") == fields && Get(fields, "frametype") == None
  {
    var fields := [("safe", "safe"), ("fidelity", "clean")];
    SmallDicts("safe", "safe", "", "", "fidelity", "clean");
    assert fields[1..] == [("fidelity", "clean")];
    assert fields[1..][1..] == [];
    assert Keys(fields) == ["safe", "fidelity"];
    PopAbsent(fields, "frametype");
    SmallDicts("safe", "safe", "fidelity", "clean", "frametype", "");
  }

  /** A bare channel name, which the file format allows, yields a channel
      without a rate; as written it fails with `KeyError('sample_rate')`. */
  lemma BareNameChannel(group: string, name: string)
    requires |name| > 0 && forall k :: 0 <= k < |name| ==> InClass(name[k], NameChars)
    ensures NewChannel(group, [], None, name, false) ==
      Ok(Channel(name, None, true, None, [("safe", "safe"), ("fidelity", "clean")], group, None))
    ensures NewChannel(group, [], None, name, true) == Err(MissingKey("sample_rate"))
  {
    BareNameDefaults(name);
    assert MatchFields(MatchLine(name).value) == [("safe", "safe"), ("fidelity", "clean")];
    DefaultFields();
  }

  /** The one line of a group listing a bare name. */
  lemma BareNameLines(group: string, name: string)
    requires |name| > 0 && forall k :: 0 <= k < |name| ==> InClass(name[k], NameChars)
    ensures forall asWritten ::
              ReadSection(Section(group, [("channels", name)]), asWritten) ==
              All(LineResults(group, [], None, [name], asWritten))
  {
    var options := [("channels", name)];
    assert ChannelLines(name) == [name] by {
      assert InClass(name[0], NameChars) && InClass(name[|name| - 1], NameChars);
      Text.StripNoEdges(name, '\n');
      Text.SplitNoSep(name, '\n');
    }
    assert Keys(options) == ["channels"];
    assert GroupParams(options) == [];
    assert SectionFrequencyRange(options) == None;
  }

  lemma BareNameSection(group: string, name: string)
    requires |name| > 0 && forall k :: 0 <= k < |name| ==> InClass(name[k], NameChars)
    ensures ReadSection(Section(group, [("channels", name)]), false) ==
      Ok([Channel(name, None, true, None, [("safe", "safe"), ("fidelity", "clean")], group, None)])
    ensures ReadSection(Section(group, [("channels", name)]), true) == Err(MissingKey("sample_rate"))
  {
    BareNameLines(group, name);
    BareNameRead(group, name);
    BareNameReadAsWritten(group, name);
  }

  lemma BareNameRead(group: string, name: string)
    requires |name| > 0 && forall k :: 0 <= k < |name| ==> InClass(name[k], NameChars)
    ensures All(LineResults(group, [], None, [name], false)) ==
      Ok([Channel(name, None, true, None, [("safe", "safe"), ("fidelity", "clean")], group, None)])
  {
    BareNameChannel(group, name);
    var c := Channel(name, None, true, None, [("safe", "safe"), ("fidelity", "clean")], group, None);
    var fixed := LineResults(group, [], None, [name], false);
    assert fixed[0] == Ok(c);
    assert fixed[..1] == fixed;
    assert fixed[..0] == [];
    AllStep(fixed, 0, []);
    assert [] + [c] == [c];
  }

  lemma BareNameReadAsWritten(group: string, name: string)
    requires |name| > 0 && forall k :: 0 <= k < |name| ==> InClass(name[k], NameChars)
    ensures All(LineResults(group, [], None, [name], true)) == Err(MissingKey("sample_rate"))
  {
    BareNameChannel(group, name);
    var written := LineResults(group, [], None, [name], true);
    assert written[0] == Err(MissingKey("sample_rate"));
    assert written[..0] == [];
    AllStep(written, 0, []);
  }

  /** A file holding one group that lists one bare channel name reads as one
      channel without a rate; as written the reader fails on it with
      `KeyError('sample_rate')`. */
  lemma BareNameWithoutRate(group: string, name: string)
    requires |name| > 0 && forall k :: 0 <= k < |name| ==> InClass(name[k], NameChars)
    ensures ReadSections([Section(group, [("channels", name)])], false) ==
      Ok([Channel(name, None, true, None, [("safe", "safe"), ("fidelity", "clean")], group, None)])
    ensures ReadSections([Section(group, [("channels", name)])], true) == Err(MissingKey("sample_rate"))
  {
    BareNameSection(group, name);
    SingleSection(Section(group, [("channels", name)]), false);
    SingleSection(Section(group, [("channels", name)]), true);
  }
}
