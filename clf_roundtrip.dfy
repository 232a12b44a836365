/** Reading back a written Channel List File: what `read_channel_list_file`
    gives for the configuration `write_channel_list_file` builds
    (pydischarge/detector/io/clf.py). */
module ClfRoundTrip {
  import opened Results
  import opened OrderedDict
  import opened ClfEntry
  import opened ClfRead
  import opened ClfWrite
  import opened Outcomes
  import opened Seqs
  import opened Interpolation
  import Text

  /** A channel the writer accepts, whose entry line the reader gives back,
      and none of whose parameters configparser would store as `channels`.
      Its group is not `""`, whose options configparser would store among its
      defaults, and no parameter value holds a `%`, which configparser would
      interpolate when the file is read. */
  predicate Writable(c: Channel) {
    && c.group != DefaultSection && c.group != ""
    && Representable(EntryFields(c))
    && LoweredGet(c.params, "channels").None?
    && forall j :: 0 <= j < |c.params| ==> '%' !in c.params[j].1
  }

  /** The characters of a representable entry line are names, rates, spaces
      and token letters, never `%`. */
  lemma EntryWithoutPercent(e: Entry)
    requires Representable(e)
    ensures '%' !in FormatEntry(e)
  {
    assert '%' !in e.name by {
      forall k | 0 <= k < |e.name| ensures e.name[k] != '%' {
        assert InClass(e.name[k], NameChars);
      }
    }
    assert '%' !in RateText(e.sampleRate) by {
      if e.sampleRate.Some? {
        var t := e.sampleRate.value;
        forall k | 0 <= k < |t| ensures t[k] != '%' {
          assert InClass(t[k], RateChars);
        }
        assert '%' !in " " + t;
      }
    }
    assert '%' !in e.safe;
    assert '%' !in e.fidelity by {
      assert e.fidelity in FidelityTokens;
    }
  }

  /** configparser takes every channel the round trip is stated for. */
  lemma WritableAccepted(c: Channel)
    requires Writable(c)
    ensures Accepted(c)
  {
    EntryWithoutPercent(EntryFields(c));
    NoPercentOk(EntryOf(c));
    forall j | 0 <= j < |c.params| ensures SyntaxOk(c.params[j].1) {
      NoPercentOk(c.params[j].1);
    }
  }

  predicate AllWritable(cs: seq<Channel>) {
    forall i :: 0 <= i < |cs| ==> Writable(cs[i])
  }

  /** What an entry line carries about a channel: its group (the section),
      its name, its rate and whether it is safe. */
  datatype Summary = Summary(group: string, name: string, sampleRate: Option<string>, safe: bool)

  /** The summary of a channel as the reader builds it. */
  function ReadSummary(c: Channel): Summary {
    Summary(c.group, c.name, c.sampleRate, c.safe)
  }

  /** The summary of a channel as the writer puts it on its line: the safe
      flag comes from the `safe` parameter, not from the channel's attribute. */
  function WrittenSummary(c: Channel): Summary {
    Summary(c.group, c.name, c.sampleRate, IsSafe(EntryFields(c).safe))
  }

  function ReadSummaries(cs: seq<Channel>): (r: seq<Summary>)
    ensures |r| == |cs| && forall i :: 0 <= i < |cs| ==> r[i] == ReadSummary(cs[i])
  {
    seq(|cs|, i requires 0 <= i < |cs| => ReadSummary(cs[i]))
  }

  function WrittenSummaries(cs: seq<Channel>): (r: seq<Summary>)
    ensures |r| == |cs| && forall i :: 0 <= i < |cs| ==> r[i] == WrittenSummary(cs[i])
  {
    seq(|cs|, i requires 0 <= i < |cs| => WrittenSummary(cs[i]))
  }

  /** The channels gathered group by group, in the order of `gs`. */
  function Grouped(cs: seq<Channel>, gs: seq<string>): seq<Channel>
    decreases |gs|
  {
    if gs == [] then [] else Grouped(cs, gs[..|gs| - 1]) + Filter(cs, gs[|gs| - 1])
  }

  lemma SummariesAppend(a: seq<Channel>, b: seq<Channel>)
    ensures ReadSummaries(a + b) == ReadSummaries(a) + ReadSummaries(b)
    ensures WrittenSummaries(a + b) == WrittenSummaries(a) + WrittenSummaries(b)
  {
    assert forall i :: 0 <= i < |a| ==> (a + b)[i] == a[i];
    assert forall i :: |a| <= i < |a| + |b| ==> (a + b)[i] == b[i - |a|];
  }

  /** An entry line is one non-empty line. */
  lemma EntryLineShape(c: Channel)
    requires Representable(EntryFields(c))
    ensures |EntryOf(c)| > 0 && '\n' !in EntryOf(c)
  {
    FormatOneLine(EntryFields(c));
  }

  lemma FormatOneLine(e: Entry)
    requires Representable(e)
    ensures |FormatEntry(e)| > 0 && '\n' !in FormatEntry(e)
  {
    assert '\n' !in e.name by {
      forall k | 0 <= k < |e.name| ensures e.name[k] != '\n' {
        assert InClass(e.name[k], NameChars);
      }
    }
    assert '\n' !in RateText(e.sampleRate) by {
      if e.sampleRate.Some? {
        var t := e.sampleRate.value;
        forall k | 0 <= k < |t| ensures t[k] != '\n' {
          assert InClass(t[k], RateChars);
        }
        assert RateText(e.sampleRate) == " " + t;
      }
    }
    assert '\n' !in e.safe;
    assert '\n' !in e.fidelity;
  }

  lemma {:induction false} PrefixedJoin(es: seq<string>)
    requires |es| >= 1
    ensures Prefixed(es) == "\n" + Text.Join(es, '\n')
    decreases |es|
  {
    if |es| == 1 {
      assert es[1..] == [];
    } else {
      PrefixedJoin(es[1..]);
    }
  }

  /** A group has channels exactly when it is one of the groups. */
  lemma {:induction false} FilterNonEmpty(cs: seq<Channel>, g: string)
    requires g in Groups(cs)
    ensures |Filter(cs, g)| > 0
    decreases |cs|
  {
    var n := |cs| - 1;
    if cs[n].group != g {
      assert g in Groups(cs[..n]) by {
        var j :| 0 <= j < |cs| && Groups(cs)[j] == g;
        assert j < n && Groups(cs[..n])[j] == g;
      }
      FilterNonEmpty(cs[..n], g);
    }
  }

  lemma FilterWritable(cs: seq<Channel>, g: string)
    requires AllWritable(cs)
    ensures AllWritable(Filter(cs, g))
  {
    var f := Filter(cs, g);
    forall i | 0 <= i < |f| ensures Writable(f[i]) {
      assert f[i] in cs;
      var j :| 0 <= j < |cs| && cs[j] == f[i];
    }
  }

  /** The reader splits the written `channels` option back into the entry lines. */
  lemma EntriesLines(cs: seq<Channel>, g: string)
    requires AllWritable(cs) && |Filter(cs, g)| > 0
    ensures ChannelLines(Entries(cs, g)) == EntryTexts(Filter(cs, g))
  {
    var f := Filter(cs, g);
    var es := EntryTexts(f);
    FilterWritable(cs, g);
    forall k | 0 <= k < |es| ensures |es[k]| > 0 && '\n' !in es[k] {
      EntryLineShape(f[k]);
    }
    PrefixedJoin(es);
    var joined := Text.Join(es, '\n');
    Text.JoinEnds(es, '\n');
    assert joined[0] != '\n' && joined[|joined| - 1] != '\n';
    Text.StripLeading(joined, '\n');
    assert "\n" + joined == ['\n'] + joined;
    Text.SplitJoin(es, '\n');
  }

  /** Every written entry line is read back as a channel of the section with
      the name, rate and safe flag of the entry. */
  lemma LineReadBack(g: string, params: Dict, frange: Option<FrequencyRange>, c: Channel)
    requires Representable(EntryFields(c))
    ensures NewChannel(g, params, frange, EntryOf(c), false).Ok?
    ensures ReadSummary(NewChannel(g, params, frange, EntryOf(c), false).value) ==
      Summary(g, c.name, c.sampleRate, IsSafe(EntryFields(c).safe))
  {
    var e := EntryFields(c);
    ParseFormat(e, []);
    assert FormatEntry(e) + [] == FormatEntry(e);
  }

  /** The entry lines of a group's channels read back as those channels. */
  lemma LinesReadBack(g: string, params: Dict, frange: Option<FrequencyRange>, xs: seq<Channel>)
    requires forall i :: 0 <= i < |xs| ==> xs[i].group == g && Representable(EntryFields(xs[i]))
    ensures var rs := LineResults(g, params, frange, EntryTexts(xs), false);
      forall i :: 0 <= i < |xs| ==> rs[i].Ok? && ReadSummary(rs[i].value) == WrittenSummary(xs[i])
  {
    forall i | 0 <= i < |xs|
      ensures LineResults(g, params, frange, EntryTexts(xs), false)[i].Ok?
      ensures ReadSummary(LineResults(g, params, frange, EntryTexts(xs), false)[i].value) == WrittenSummary(xs[i])
    {
      LineReadBack(g, params, frange, xs[i]);
    }
  }

  /** Lines that all read back give the channels they summarise, in order. */
  lemma AllReadBack(rs: seq<Result<Channel, ReadError>>, xs: seq<Channel>)
    requires |rs| == |xs|
    requires forall i :: 0 <= i < |xs| ==> rs[i].Ok? && ReadSummary(rs[i].value) == WrittenSummary(xs[i])
    ensures All(rs).Ok? && ReadSummaries(All(rs).value) == WrittenSummaries(xs)
  {
    AllOk(rs);
  }

  /** A written section reads back as its group's channels, in order. */
  lemma SectionReadBack(cs: seq<Channel>, s: Section)
    requires AllWritable(cs) && s.name in Groups(cs)
    requires Get(s.options, "channels") == Some(Entries(cs, s.name))
    ensures ReadSection(s, false).Ok?
    ensures ReadSummaries(ReadSection(s, false).value) == WrittenSummaries(Filter(cs, s.name))
  {
    var f := Filter(cs, s.name);
    var params, frange := GroupParams(s.options), SectionFrequencyRange(s.options);
    var rs := LineResults(s.name, params, frange, EntryTexts(f), false);
    assert ReadSection(s, false) == All(rs) by {
      FilterNonEmpty(cs, s.name);
      EntriesLines(cs, s.name);
    }
    FilterWritable(cs, s.name);
    LinesReadBack(s.name, params, frange, f);
    AllReadBack(rs, f);
  }

  /** Sections that all read back as their groups' channels give the
      channels gathered group by group, in the order of the sections. */
  lemma {:induction false} ConcatReadBack(rs: seq<Result<seq<Channel>, ReadError>>, cs: seq<Channel>, ns: seq<string>)
    requires |rs| == |ns|
    requires forall i :: 0 <= i < |rs| ==> rs[i].Ok? && ReadSummaries(rs[i].value) == WrittenSummaries(Filter(cs, ns[i]))
    ensures Concat(rs).Ok? && ReadSummaries(Concat(rs).value) == WrittenSummaries(Grouped(cs, ns))
    decreases |rs|
  {
    if rs != [] {
      var n := |rs| - 1;
      assert forall i :: 0 <= i < n ==> rs[..n][i] == rs[i] && ns[..n][i] == ns[i];
      ConcatReadBack(rs[..n], cs, ns[..n]);
      SummariesAppend(Concat(rs[..n]).value, rs[n].value);
      SummariesAppend(Grouped(cs, ns[..n]), Filter(cs, ns[n]));
    }
  }

  /** Gathering by distinct groups after one more channel gathers that
      channel too, exactly when its group is one of them. */
  lemma {:induction false} GroupedSnoc(cs: seq<Channel>, p: seq<Channel>, c: Channel, ns: seq<string>)
    requires Last(cs, p, c) && Distinct(ns)
    ensures multiset(Grouped(cs, ns)) == multiset(Grouped(p, ns)) + if c.group in ns then multiset{c} else multiset{}
    decreases |ns|
  {
    if ns == [] {
      assert Grouped(cs, ns) == [] && Grouped(p, ns) == [];
    } else {
      var m := |ns| - 1;
      var q, g := ns[..m], ns[m];
      assert ns == q + [g];
      assert Distinct(q) && g !in q;
      GroupedSnoc(cs, p, c, q);
      GroupedSnocStep(cs, p, c, q, g);
    }
  }

  /** The induction step of `GroupedSnoc`: one more group `g`, not yet among `q`. */
  lemma GroupedSnocStep(cs: seq<Channel>, p: seq<Channel>, c: Channel, q: seq<string>, g: string)
    requires Last(cs, p, c) && g !in q
    requires multiset(Grouped(cs, q)) == multiset(Grouped(p, q)) + if c.group in q then multiset{c} else multiset{}
    ensures multiset(Grouped(cs, q + [g])) == multiset(Grouped(p, q + [g])) + if c.group in q + [g] then multiset{c} else multiset{}
  {
    assert (q + [g])[..|q|] == q;
    assert Grouped(cs, q + [g]) == Grouped(cs, q) + Filter(cs, g);
    assert Grouped(p, q + [g]) == Grouped(p, q) + Filter(p, g);
    Snoc(cs, p, c, g, "");
  }

  /** Gathering the channels by their groups loses none and repeats none. */
  lemma {:induction false} GroupedPermutes(cs: seq<Channel>)
    ensures multiset(Grouped(cs, Dedup(Groups(cs)))) == multiset(cs)
    decreases |cs|
  {
    if cs == [] {
      assert Dedup(Groups(cs)) == [];
    } else {
      var n := |cs| - 1;
      var p, c := cs[..n], cs[n];
      assert cs == p + [c];
      GroupedPermutes(p);
      if c.group in Groups(p) {
        GroupedOldGroup(cs, p, c);
      } else {
        GroupedNewGroup(cs, p, c);
      }
    }
  }

  /** One more channel of a group already seen joins that group. */
  lemma GroupedOldGroup(cs: seq<Channel>, p: seq<Channel>, c: Channel)
    requires Last(cs, p, c) && c.group in Groups(p)
    ensures Dedup(Groups(cs)) == Dedup(Groups(p))
    ensures multiset(Grouped(cs, Dedup(Groups(cs)))) == multiset(Grouped(p, Dedup(Groups(p)))) + multiset{c}
  {
    Snoc(cs, p, c, c.group, "");
    DedupSnoc(Groups(p), c.group);
    DedupSpec(Groups(p));
    InDedup(Groups(p), c.group);
    GroupedSnoc(cs, p, c, Dedup(Groups(p)));
  }

  /** One more channel of a new group opens a group of its own, last. */
  lemma GroupedNewGroup(cs: seq<Channel>, p: seq<Channel>, c: Channel)
    requires Last(cs, p, c) && c.group !in Groups(p)
    ensures Dedup(Groups(cs)) == Dedup(Groups(p)) + [c.group]
    ensures multiset(Grouped(cs, Dedup(Groups(cs)))) == multiset(Grouped(p, Dedup(Groups(p)))) + multiset{c}
  {
    var d := Dedup(Groups(p));
    Snoc(cs, p, c, c.group, "");
    DedupSnoc(Groups(p), c.group);
    DedupSpec(Groups(p));
    InDedup(Groups(p), c.group);
    GroupedSnoc(cs, p, c, d);
    assert (d + [c.group])[..|d|] == d;
    AbsentGroup(p, c.group, "");
    assert Filter(cs, c.group) == [c];
  }

  /** Writing channels and reading the file back succeeds, and gives every
      channel back, gathered group by group in the order the groups first
      show up, with its group, name, rate and the safe flag its `safe`
      parameter spells. */
  lemma ReadAfterWrite(cs: seq<Channel>)
    requires AllWritable(cs)
    ensures WriteChannels(cs).Ok?
    ensures ReadSections(WriteChannels(cs).value, false).Ok?
    ensures ReadSummaries(ReadSections(WriteChannels(cs).value, false).value) ==
      WrittenSummaries(Grouped(cs, Dedup(Groups(cs))))
  {
    forall i | 0 <= i < |cs| ensures Accepted(cs[i]) {
      WritableAccepted(cs[i]);
    }
    WriteFails(cs);
    var ini := WriteChannels(cs).value;
    WriteNames(cs);
    assert NoChannelsParam(cs);
    WriteEntries(cs);
    var rs := SectionResults(ini, false);
    forall i | 0 <= i < |ini|
      ensures rs[i].Ok? && ReadSummaries(rs[i].value) == WrittenSummaries(Filter(cs, SectionNames(ini)[i]))
    {
      assert SectionNames(ini)[i] == ini[i].name;
      InDedup(Groups(cs), ini[i].name);
      SectionReadBack(cs, ini[i]);
    }
    ConcatReadBack(rs, cs, SectionNames(ini));
  }
}
