/** Writing a Channel List File (pydischarge/detector/io/clf.py,
    `write_channel_list_file`).

    The writer fills a configparser object channel by channel: a section per
    group, created the first time the group shows up; every parameter of the
    channel set as an option of its section; and the channel's entry line
    appended to the section's `channels` option. The result is the
    configuration the writer hands to `ConfigParser.write`. */
module ClfWrite {
  import opened Results
  import opened OrderedDict
  import opened ClfEntry
  import opened ClfRead
  import opened Outcomes
  import opened Seqs
  import opened Interpolation
  import Text

  /** configparser refuses a section named after its defaults section. */
  const DefaultSection := "DEFAULT"

  /** The `ValueError`s of the writer's calls into configparser: that of
      `add_section('DEFAULT')`, and that of a `set` whose value the
      interpolation check refuses, with the value and the position of its
      first stray `%`. */
  datatype WriteError =
    | InvalidSectionName(name: string)
    | InvalidInterpolation(value: string, position: nat)

  function Groups(cs: seq<Channel>): (gs: seq<string>)
    ensures |gs| == |cs| && forall i :: 0 <= i < |cs| ==> gs[i] == cs[i].group
  {
    seq(|cs|, i requires 0 <= i < |cs| => cs[i].group)
  }

  function SectionNames(ini: Ini): (ns: seq<string>)
    ensures |ns| == |ini| && forall i :: 0 <= i < |ini| ==> ns[i] == ini[i].name
  {
    seq(|ini|, i requires 0 <= i < |ini| => ini[i].name)
  }

  /** The position of section `name` (`has_section`), or `|ini|` when there is none. */
  function SectionIndex(ini: Ini, name: string): (i: nat)
    ensures i <= |ini|
    ensures i < |ini| ==> ini[i].name == name
    ensures forall j :: 0 <= j < i ==> ini[j].name != name
  {
    if ini == [] then 0 else if ini[0].name == name then 0 else 1 + SectionIndex(ini[1..], name)
  }

  /** The fields of a channel's entry line (clf.py:152-157): name, rate, and
      the `safe` and `fidelity` parameters with their defaults. */
  function EntryFields(c: Channel): Entry {
    Entry(c.name, c.sampleRate, GetOr(c.params, "safe", "safe"), GetOr(c.params, "fidelity", "clean"))
  }

  /** The entry line of a channel; the reader parses it back into the
      fields it was written from. */
  function EntryOf(c: Channel): (line: string)
    ensures Representable(EntryFields(c)) ==> ParseEntry(line) == Ok(EntryFields(c))
  {
    EntryReadsBack(EntryFields(c));
    FormatEntry(EntryFields(c))
  }

  lemma EntryReadsBack(e: Entry)
    ensures Representable(e) ==> ParseEntry(FormatEntry(e)) == Ok(e)
  {
    if Representable(e) {
      ParseFormat(e, "");
      assert FormatEntry(e) + "" == FormatEntry(e);
    }
  }

  /** `out.set(group, param, value)` for every parameter, in order;
      configparser stores option names lower-cased. */
  function SetParams(d: Dict, params: Dict): (r: Dict)
    ensures Valid(d) ==> Valid(r)
    ensures forall k :: Contains(d, k) ==> Contains(r, k)
    decreases |params|
  {
    if params == [] then d
    else
      var d' := Set(d, Text.Lower(params[0].0), params[0].1);
      SetParamsStep(d, Text.Lower(params[0].0), params[0].1);
      SetParams(d', params[1..])
  }

  lemma SetParamsStep(d: Dict, k: string, v: string)
    ensures Valid(d) ==> Valid(Set(d, k, v))
    ensures forall k' :: Contains(d, k') ==> Contains(Set(d, k, v), k')
  {
    SetKeys(d, k, v);
    if Valid(d) {
      SetValid(d, k, v);
    }
  }

  /** Every value passes configparser's interpolation check. */
  predicate ValuesOk(d: Dict) {
    forall i :: 0 <= i < |d| ==> SyntaxOk(d[i].1)
  }

  /** `out.set(group, k, v)`: the interpolation check, then the assignment. */
  function CheckedSet(d: Dict, k: string, v: string): Result<Dict, WriteError> {
    if SyntaxOk(v) then Ok(Set(d, k, v)) else Err(InvalidInterpolation(v, ErrorPosition(v)))
  }

  /** The loop of clf.py:150-151 with every `set` checked: it stops at the
      first value the check refuses. */
  function SetParamsChecked(d: Dict, params: Dict): Result<Dict, WriteError>
    decreases |params|
  {
    if params == [] then Ok(d)
    else
      var d' :- CheckedSet(d, Text.Lower(params[0].0), params[0].1);
      SetParamsChecked(d', params[1..])
  }

  /** The `channels` option grown by one entry line (clf.py:158-163). */
  function GrownChannels(options: Dict, entry: string): string {
    match Get(options, "channels")
    case None => "\n" + entry
    case Some(v) => v + "\n" + entry
  }

  /** `channels` set to its grown value, in one pass over the options. */
  function WithEntry(options: Dict, entry: string): Dict
    decreases |options|
  {
    if options == [] then [("channels", "\n" + entry)]
    else if options[0].0 == "channels" then [("channels", options[0].1 + "\n" + entry)] + options[1..]
    else [options[0]] + WithEntry(options[1..], entry)
  }

  lemma {:induction false} WithEntryIsSet(options: Dict, entry: string)
    ensures WithEntry(options, entry) == Set(options, "channels", GrownChannels(options, entry))
    decreases |options|
  {
    if options != [] && options[0].0 != "channels" {
      WithEntryIsSet(options[1..], entry);
    }
  }

  /** The options of the channel's section after the channel was added. */
  function Added(options: Dict, c: Channel): Dict {
    WithEntry(SetParams(options, c.params), EntryOf(c))
  }

  /** The sections after channel `c` was added to the section of its group,
      which is appended when there is none yet. */
  function Placed(ini: Ini, c: Channel): (r: Ini)
    ensures |r| == if SectionIndex(ini, c.group) < |ini| then |ini| else |ini| + 1
    ensures r[SectionIndex(ini, c.group)].name == c.group
    decreases |ini|
  {
    if ini == [] then [Section(c.group, Added([], c))]
    else if ini[0].name == c.group then [Section(c.group, Added(ini[0].options, c))] + ini[1..]
    else [ini[0]] + Placed(ini[1..], c)
  }

  /** One pass of the writer's loop (clf.py:146-163): `add_section` refuses
      `DEFAULT` (for which `has_section` is always false), then each `set`
      is checked, the parameters' in order and then the grown `channels`. */
  function AddChannel(ini: Ini, c: Channel): (r: Result<Ini, WriteError>)
    ensures c.group == DefaultSection ==> r == Err(InvalidSectionName(DefaultSection))
    ensures r.Ok? ==> r.value == Placed(ini, c)
  {
    if c.group == DefaultSection then Err(InvalidSectionName(c.group))
    else
      var i := SectionIndex(ini, c.group);
      var options :- SetParamsChecked(if i < |ini| then ini[i].options else [], c.params);
      var grown := GrownChannels(options, EntryOf(c));
      if SyntaxOk(grown) then Ok(Placed(ini, c))
      else Err(InvalidInterpolation(grown, ErrorPosition(grown)))
  }

  /** The configuration after every channel was added, in order. */
  function WriteChannels(cs: seq<Channel>): (r: Result<Ini, WriteError>)
    ensures r.Ok? ==> |r.value| <= |cs|
    decreases |cs|
  {
    if cs == [] then Ok([])
    else
      var ini :- WriteChannels(cs[..|cs| - 1]);
      AddChannel(ini, cs[|cs| - 1])
  }

  lemma {:induction false} WriteErrorPersists(cs: seq<Channel>, k: nat)
    requires k <= |cs| && WriteChannels(cs[..k]).Err?
    ensures WriteChannels(cs) == WriteChannels(cs[..k])
    decreases |cs| - k
  {
    if k < |cs| {
      assert cs[..k + 1][..k] == cs[..k];
      WriteErrorPersists(cs, k + 1);
    } else {
      assert cs[..k] == cs;
    }
  }

  /** `write_channel_list_file` up to `out.write` (clf.py:141-163). */
  method WriteChannelListFile(cs: seq<Channel>) returns (r: Result<Ini, WriteError>)
    ensures r == WriteChannels(cs)
  {
    var ini: Ini := [];
    var k := 0;
    while k < |cs|
      invariant 0 <= k <= |cs|
      invariant WriteChannels(cs[..k]) == Ok(ini)
    {
      assert cs[..k + 1][..k] == cs[..k];
      var added := AddToConfig(ini, cs[k]);
      if added.Err? {
        WriteErrorPersists(cs, k + 1);
        return added;
      }
      ini := added.value;
      k := k + 1;
    }
    assert cs[..k] == cs;
    return Ok(ini);
  }

  /** The body of the writer's loop (clf.py:146-163). */
  method AddToConfig(ini: Ini, c: Channel) returns (r: Result<Ini, WriteError>)
    ensures r == AddChannel(ini, c)
  {
    if c.group == DefaultSection {
      return Err(InvalidSectionName(c.group));
    }
    var sections := ini;
    var i := SectionIndex(sections, c.group);
    if i == |sections| {
      sections := sections + [Section(c.group, [])];
    }
    var params := SetChannelParams(sections[i].options, c.params);
    if params.Err? {
      return Err(params.error);
    }
    var options := params.value;
    var entry := EntryLine(c);
    var clist := Get(options, "channels");
    var grown := if clist.None? then "\n" + entry else clist.value + "\n" + entry;
    if !SyntaxOk(grown) {
      return Err(InvalidInterpolation(grown, ErrorPosition(grown)));
    }
    options := Set(options, "channels", grown);
    sections := sections[i := Section(c.group, options)];
    PlacedShape(ini, c);
    WithEntryIsSet(params.value, entry);
    ParamsChecked(if i < |ini| then ini[i].options else [], c.params);
    assert Placed(ini, c) == sections;
    return Ok(sections);
  }

  /** The loop over a channel's parameters (clf.py:150-151). */
  method SetChannelParams(options: Dict, params: Dict) returns (r: Result<Dict, WriteError>)
    ensures r == SetParamsChecked(options, params)
  {
    var d := options;
    var j := 0;
    while j < |params|
      invariant 0 <= j <= |params|
      invariant SetParamsChecked(d, params[j..]) == SetParamsChecked(options, params)
    {
      assert params[j..][1..] == params[j + 1..];
      var v := params[j].1;
      if !SyntaxOk(v) {
        return Err(InvalidInterpolation(v, ErrorPosition(v)));
      }
      d := Set(d, Text.Lower(params[j].0), v);
      j := j + 1;
    }
    assert params[j..] == [];
    return Ok(d);
  }

  /** The entry line, built as clf.py:152-157 builds it. */
  method EntryLine(c: Channel) returns (entry: string)
    ensures entry == EntryOf(c)
  {
    entry := c.name;
    if c.sampleRate.Some? {
      entry := entry + " " + c.sampleRate.value;
    }
    entry := entry + " " + GetOr(c.params, "safe", "safe");
    entry := entry + " " + GetOr(c.params, "fidelity", "clean");
  }

  // ---------------------------------------------------------------------
  // Where a channel lands

  /** `Placed` touches the section of the channel's group, found by
      `has_section` or appended, and leaves every other section alone. */
  lemma {:induction false} PlacedShape(ini: Ini, c: Channel)
    ensures var i := SectionIndex(ini, c.group);
      var r := Placed(ini, c);
      && |r| == (if i < |ini| then |ini| else |ini| + 1)
      && r[i] == Section(c.group, Added(if i < |ini| then ini[i].options else [], c))
      && (forall j :: 0 <= j < |ini| && j != i ==> r[j] == ini[j])
    decreases |ini|
  {
    if ini != [] && ini[0].name != c.group {
      PlacedShape(ini[1..], c);
      var r := Placed(ini, c);
      assert r == [ini[0]] + Placed(ini[1..], c);
    }
  }

  // ---------------------------------------------------------------------
  // When configparser refuses

  /** configparser takes channel `c`: its group is not `DEFAULT`, and the
      interpolation check accepts its parameter values and its entry line. */
  predicate Accepted(c: Channel) {
    c.group != DefaultSection && ValuesOk(c.params) && SyntaxOk(EntryOf(c))
  }

  /** Every option value stored so far passed the check. */
  predicate StoredOk(ini: Ini) {
    forall i :: 0 <= i < |ini| ==> ValuesOk(ini[i].options)
  }

  /** The error a refused channel raises. */
  predicate Refusal(c: Channel, e: WriteError) {
    if c.group == DefaultSection then e == InvalidSectionName(DefaultSection) else e.InvalidInterpolation?
  }

  /** `params[i]` holds the first value the check refuses. */
  predicate FirstRefusedValue(params: Dict, i: int) {
    0 <= i < |params| && !SyntaxOk(params[i].1) && forall j :: 0 <= j < i ==> SyntaxOk(params[j].1)
  }

  function ValueRefusal(v: string): WriteError
    requires !SyntaxOk(v)
  {
    InvalidInterpolation(v, ErrorPosition(v))
  }

  /** `cs[i]` is the first channel configparser refuses, and `e` its error. */
  predicate FirstRefused(cs: seq<Channel>, i: int, e: WriteError) {
    0 <= i < |cs| && !Accepted(cs[i]) && (forall j :: 0 <= j < i ==> Accepted(cs[j])) && Refusal(cs[i], e)
  }

  lemma {:induction false} SetValuesOk(d: Dict, k: string, v: string)
    requires ValuesOk(d) && SyntaxOk(v)
    ensures ValuesOk(Set(d, k, v))
    decreases |d|
  {
    if d != [] && d[0].0 != k {
      assert ValuesOk(d[1..]) by {
        forall i | 0 <= i < |d| - 1 ensures SyntaxOk(d[1..][i].1) {
          assert d[1..][i] == d[i + 1];
        }
      }
      SetValuesOk(d[1..], k, v);
      var r := Set(d, k, v);
      assert r == [d[0]] + Set(d[1..], k, v);
      forall i | 0 <= i < |r| ensures SyntaxOk(r[i].1) {
        if i > 0 {
          assert r[i] == Set(d[1..], k, v)[i - 1];
        }
      }
    } else if d != [] {
      var r := Set(d, k, v);
      forall i | 0 <= i < |r| ensures SyntaxOk(r[i].1) {
        if i > 0 {
          assert r[i] == d[i];
        }
      }
    }
  }

  lemma {:induction false} GetValuesOk(d: Dict, k: string)
    requires ValuesOk(d) && Get(d, k).Some?
    ensures SyntaxOk(Get(d, k).value)
    decreases |d|
  {
    if d[0].0 != k {
      assert ValuesOk(d[1..]) by {
        forall i | 0 <= i < |d| - 1 ensures SyntaxOk(d[1..][i].1) {
          assert d[1..][i] == d[i + 1];
        }
      }
      GetValuesOk(d[1..], k);
    }
  }

  /** The checked loop over the parameters succeeds exactly when every value
      passes, and then sets them all; otherwise it raises for the first
      value refused. */
  lemma {:induction false} ParamsChecked(d: Dict, params: Dict)
    ensures SetParamsChecked(d, params).Ok? <==> ValuesOk(params)
    ensures SetParamsChecked(d, params).Ok? ==> SetParamsChecked(d, params).value == SetParams(d, params)
    ensures ValuesOk(d) && ValuesOk(params) ==> ValuesOk(SetParams(d, params))
    ensures SetParamsChecked(d, params).Err? ==>
      exists i :: FirstRefusedValue(params, i) && SetParamsChecked(d, params).error == ValueRefusal(params[i].1)
    decreases |params|
  {
    if params != [] {
      var v := params[0].1;
      var d' := Set(d, Text.Lower(params[0].0), v);
      var tail := params[1..];
      assert forall i :: 0 <= i < |tail| ==> tail[i] == params[i + 1];
      assert ValuesOk(params) <==> SyntaxOk(v) && ValuesOk(tail) by {
        if SyntaxOk(v) && ValuesOk(tail) {
          forall i | 0 <= i < |params| ensures SyntaxOk(params[i].1) {
            if i > 0 {
              assert params[i] == tail[i - 1];
            }
          }
        }
      }
      if SyntaxOk(v) {
        ParamsChecked(d', tail);
        if ValuesOk(d) {
          SetValuesOk(d, Text.Lower(params[0].0), v);
        }
        if SetParamsChecked(d', tail).Err? {
          var i :| FirstRefusedValue(tail, i) && SetParamsChecked(d', tail).error == ValueRefusal(tail[i].1);
          assert params[i + 1] == tail[i];
          forall j | 0 <= j < i + 1 ensures SyntaxOk(params[j].1) {
            if j > 0 {
              assert params[j] == tail[j - 1];
            }
          }
          assert FirstRefusedValue(params, i + 1);
        }
      } else {
        assert FirstRefusedValue(params, 0);
      }
    }
  }

  /** The value the check decides on when the group's `channels` grows: the
      stored lines passed already, so only the new entry line counts. */
  lemma GrownOk(options: Dict, entry: string)
    requires ValuesOk(options)
    ensures SyntaxOk(GrownChannels(options, entry)) <==> SyntaxOk(entry)
  {
    match Get(options, "channels")
    case None => FirstLine(entry);
    case Some(v) =>
      GetValuesOk(options, "channels");
      AfterLine(v, entry);
  }

  /** A pass of the writer's loop succeeds exactly when configparser takes
      the channel, and then keeps every stored value one the check passed. */
  lemma AddChannelOutcome(ini: Ini, c: Channel)
    requires StoredOk(ini)
    ensures AddChannel(ini, c).Ok? <==> Accepted(c)
    ensures AddChannel(ini, c).Ok? ==> AddChannel(ini, c).value == Placed(ini, c) && StoredOk(Placed(ini, c))
    ensures AddChannel(ini, c).Err? ==> Refusal(c, AddChannel(ini, c).error)
  {
    if c.group != DefaultSection {
      var i := SectionIndex(ini, c.group);
      var base := if i < |ini| then ini[i].options else [];
      assert ValuesOk(base);
      ParamsChecked(base, c.params);
      if ValuesOk(c.params) {
        var options := SetParams(base, c.params);
        GrownOk(options, EntryOf(c));
        if SyntaxOk(EntryOf(c)) {
          PlacedShape(ini, c);
          WithEntryIsSet(options, EntryOf(c));
          SetValuesOk(options, "channels", GrownChannels(options, EntryOf(c)));
        }
      }
    }
  }

  /** One more channel: the write so far, then one more pass unless it failed. */
  lemma WriteStep(cs: seq<Channel>)
    requires cs != []
    ensures WriteChannels(cs) ==
      if WriteChannels(cs[..|cs| - 1]).Ok? then AddChannel(WriteChannels(cs[..|cs| - 1]).value, cs[|cs| - 1])
      else WriteChannels(cs[..|cs| - 1])
  {
  }

  /** Writing succeeds exactly when configparser takes every channel; when
      it fails, the first channel refused decides the error. */
  lemma {:induction false} WriteFails(cs: seq<Channel>)
    ensures WriteChannels(cs).Ok? <==> forall i :: 0 <= i < |cs| ==> Accepted(cs[i])
    ensures WriteChannels(cs).Ok? ==> StoredOk(WriteChannels(cs).value)
    ensures WriteChannels(cs).Err? ==> exists i :: FirstRefused(cs, i, WriteChannels(cs).error)
    decreases |cs|
  {
    if cs != [] {
      var n := |cs| - 1;
      var p := cs[..n];
      WriteFails(p);
      WriteStep(cs);
      if WriteChannels(p).Ok? {
        WriteAccepted(cs, p, WriteChannels(p).value);
      } else {
        var i :| FirstRefused(p, i, WriteChannels(p).error);
        WriteRefusedBefore(cs, p, i, WriteChannels(p).error);
      }
    }
  }

  lemma WriteAccepted(cs: seq<Channel>, p: seq<Channel>, ini: Ini)
    requires cs != [] && p == cs[..|cs| - 1]
    requires StoredOk(ini) && forall i :: 0 <= i < |p| ==> Accepted(p[i])
    ensures var r := AddChannel(ini, cs[|cs| - 1]);
      && (r.Ok? <==> forall i :: 0 <= i < |cs| ==> Accepted(cs[i]))
      && (r.Ok? ==> StoredOk(r.value))
      && (r.Err? ==> FirstRefused(cs, |cs| - 1, r.error))
  {
    var c := cs[|cs| - 1];
    AddChannelOutcome(ini, c);
    AcceptedSnoc(cs, p);
    var r := AddChannel(ini, c);
    if r.Err? {
      RefusedLast(cs, p, r.error);
    }
  }

  /** After accepted channels, all are accepted exactly when the last is. */
  lemma AcceptedSnoc(cs: seq<Channel>, p: seq<Channel>)
    requires cs != [] && p == cs[..|cs| - 1]
    requires forall i :: 0 <= i < |p| ==> Accepted(p[i])
    ensures (forall i :: 0 <= i < |cs| ==> Accepted(cs[i])) <==> Accepted(cs[|cs| - 1])
  {
    HoldsSnoc(cs, p, Accepted);
  }

  /** The same for any property of the elements. */
  lemma HoldsSnoc<T>(cs: seq<T>, p: seq<T>, f: T -> bool)
    requires cs != [] && p == cs[..|cs| - 1]
    requires forall i :: 0 <= i < |p| ==> f(p[i])
    ensures (forall i :: 0 <= i < |cs| ==> f(cs[i])) <==> f(cs[|cs| - 1])
  {
    var n := |cs| - 1;
    if f(cs[n]) {
      forall i | 0 <= i < |cs|
        ensures f(cs[i])
      {
        if i < n {
          assert cs[i] == p[i];
        }
      }
    }
  }

  /** After accepted channels, a refused last channel is the first refused. */
  lemma RefusedLast(cs: seq<Channel>, p: seq<Channel>, e: WriteError)
    requires cs != [] && p == cs[..|cs| - 1]
    requires forall i :: 0 <= i < |p| ==> Accepted(p[i])
    requires !Accepted(cs[|cs| - 1]) && Refusal(cs[|cs| - 1], e)
    ensures FirstRefused(cs, |cs| - 1, e)
  {
    assert forall j :: 0 <= j < |cs| - 1 ==> cs[j] == p[j];
  }

  lemma WriteRefusedBefore(cs: seq<Channel>, p: seq<Channel>, i: int, e: WriteError)
    requires cs != [] && p == cs[..|cs| - 1]
    requires FirstRefused(p, i, e)
    ensures FirstRefused(cs, i, e)
    ensures !(forall j :: 0 <= j < |cs| ==> Accepted(cs[j]))
  {
    assert forall j :: 0 <= j <= i ==> cs[j] == p[j];
  }

  /** Without a `%` in any parameter value or entry line, the check never
      objects, and writing fails exactly when a group is `DEFAULT`. */
  lemma WriteWithoutPercent(cs: seq<Channel>)
    requires forall i, j :: 0 <= i < |cs| && 0 <= j < |cs[i].params| ==> '%' !in cs[i].params[j].1
    requires forall i :: 0 <= i < |cs| ==> '%' !in EntryOf(cs[i])
    ensures WriteChannels(cs).Ok? <==> forall i :: 0 <= i < |cs| ==> cs[i].group != DefaultSection
  {
    WriteFails(cs);
    forall i | 0 <= i < |cs| ensures ValuesOk(cs[i].params) && SyntaxOk(EntryOf(cs[i])) {
      NoPercentOk(EntryOf(cs[i]));
      forall j | 0 <= j < |cs[i].params| ensures SyntaxOk(cs[i].params[j].1) {
        NoPercentOk(cs[i].params[j].1);
      }
    }
  }

  // ---------------------------------------------------------------------
  // What the written configuration holds

  /** The value the last of a channel's parameters whose lower-cased name is
      `k` gives it. */
  function LoweredGet(params: Dict, k: string): Option<string>
    decreases |params|
  {
    if params == [] then None
    else
      var later := LoweredGet(params[1..], k);
      if later.Some? then later
      else if Text.Lower(params[0].0) == k then Some(params[0].1) else None
  }

  lemma {:induction false} SetParamsGet(d: Dict, params: Dict, k: string)
    ensures Get(SetParams(d, params), k) == if LoweredGet(params, k).Some? then LoweredGet(params, k) else Get(d, k)
    decreases |params|
  {
    if params != [] {
      SetGet(d, Text.Lower(params[0].0), params[0].1, k);
      SetParamsGet(Set(d, Text.Lower(params[0].0), params[0].1), params[1..], k);
    }
  }

  /** Every option of the channel's section after it was added. */
  lemma AddedGet(options: Dict, c: Channel, k: string)
    ensures Get(Added(options, c), k) ==
      if k == "channels" then Some(GrownChannels(SetParams(options, c.params), EntryOf(c)))
      else if LoweredGet(c.params, k).Some? then LoweredGet(c.params, k)
      else Get(options, k)
  {
    var o := SetParams(options, c.params);
    WithEntryIsSet(o, EntryOf(c));
    SetGet(o, "channels", GrownChannels(o, EntryOf(c)), k);
    SetParamsGet(options, c.params, k);
  }

  /** The channels of group `g`, in order. */
  function Filter(cs: seq<Channel>, g: string): (r: seq<Channel>)
    ensures forall i :: 0 <= i < |r| ==> r[i] in cs && r[i].group == g
    decreases |cs|
  {
    if cs == [] then []
    else Filter(cs[..|cs| - 1], g) + (if cs[|cs| - 1].group == g then [cs[|cs| - 1]] else [])
  }

  /** The option `k` of section `g` after the channels were written: the
      last value a channel of the group gave it. */
  function LastParam(cs: seq<Channel>, g: string, k: string): Option<string>
    decreases |cs|
  {
    if cs == [] then None
    else
      var c := cs[|cs| - 1];
      if c.group == g && LoweredGet(c.params, k).Some? then LoweredGet(c.params, k)
      else LastParam(cs[..|cs| - 1], g, k)
  }

  function EntryTexts(cs: seq<Channel>): (es: seq<string>)
    ensures |es| == |cs| && forall i :: 0 <= i < |cs| ==> es[i] == EntryOf(cs[i])
  {
    seq(|cs|, i requires 0 <= i < |cs| => EntryOf(cs[i]))
  }

  /** Every entry on a line of its own, each preceded by a newline. */
  function Prefixed(es: seq<string>): string
    decreases |es|
  {
    if es == [] then "" else "\n" + es[0] + Prefixed(es[1..])
  }

  /** The `channels` option of group `g`: the entry lines of its channels, in order. */
  function Entries(cs: seq<Channel>, g: string): string {
    Prefixed(EntryTexts(Filter(cs, g)))
  }

  /** No channel has a parameter that configparser would store as `channels`. */
  predicate NoChannelsParam(cs: seq<Channel>) {
    forall i :: 0 <= i < |cs| ==> LoweredGet(cs[i].params, "channels").None?
  }

  /** The sections are the groups, in the order they first show up. */
  ghost predicate NamesShape(cs: seq<Channel>, ini: Ini) {
    SectionNames(ini) == Dedup(Groups(cs))
  }

  /** Every option other than `channels` holds the last value given to it. */
  ghost predicate OptionsShape(cs: seq<Channel>, ini: Ini) {
    forall i, k :: 0 <= i < |ini| && k != "channels" ==> Get(ini[i].options, k) == LastParam(cs, ini[i].name, k)
  }

  /** `channels` holds the entry lines of the section's group. */
  ghost predicate ChannelsShape(cs: seq<Channel>, ini: Ini) {
    forall i :: 0 <= i < |ini| ==> Get(ini[i].options, "channels") == Some(Entries(cs, ini[i].name))
  }

  /** `cs` is `p` followed by `c`. */
  predicate Last(cs: seq<Channel>, p: seq<Channel>, c: Channel) {
    cs != [] && cs[..|cs| - 1] == p && cs[|cs| - 1] == c
  }

  lemma Snoc(cs: seq<Channel>, p: seq<Channel>, c: Channel, g: string, k: string)
    requires Last(cs, p, c)
    ensures Groups(cs) == Groups(p) + [c.group]
    ensures Filter(cs, g) == Filter(p, g) + (if c.group == g then [c] else [])
    ensures LastParam(cs, g, k) ==
      if c.group == g && LoweredGet(c.params, k).Some? then LoweredGet(c.params, k) else LastParam(p, g, k)
  {
    assert forall i :: 0 <= i < |p| ==> cs[i] == p[i];
  }

  /** A group without channels has no entries and no options. */
  lemma {:induction false} AbsentGroup(cs: seq<Channel>, g: string, k: string)
    requires g !in Groups(cs)
    ensures Filter(cs, g) == [] && LastParam(cs, g, k) == None
    decreases |cs|
  {
    if cs != [] {
      var n := |cs| - 1;
      assert Groups(cs[..n]) == Groups(cs)[..n];
      AbsentGroup(cs[..n], g, k);
      assert Groups(cs)[n] == cs[n].group;
    }
  }

  lemma {:induction false} PrefixedSnoc(es: seq<string>, e: string)
    ensures Prefixed(es + [e]) == Prefixed(es) + ("\n" + e)
    decreases |es|
  {
    if es == [] {
      assert [e][1..] == [];
    } else {
      assert (es + [e])[1..] == es[1..] + [e];
      PrefixedSnoc(es[1..], e);
    }
  }

  lemma EntriesSnoc(cs: seq<Channel>, p: seq<Channel>, c: Channel)
    requires Last(cs, p, c)
    ensures Entries(cs, c.group) == Entries(p, c.group) + ("\n" + EntryOf(c))
  {
    Snoc(cs, p, c, c.group, "");
    assert EntryTexts(Filter(p, c.group) + [c]) == EntryTexts(Filter(p, c.group)) + [EntryOf(c)];
    PrefixedSnoc(EntryTexts(Filter(p, c.group)), EntryOf(c));
  }

  /** Adding a channel leaves the entries of the other groups alone. */
  lemma EntriesOther(cs: seq<Channel>, p: seq<Channel>, c: Channel, g: string)
    requires Last(cs, p, c)
    requires g != c.group
    ensures Entries(cs, g) == Entries(p, g)
  {
    Snoc(cs, p, c, g, "");
    assert Filter(p, g) + [] == Filter(p, g);
  }

  /** Where the channel `c` lands when the sections so far are the groups of `p`. */
  lemma AddChannelTarget(p: seq<Channel>, ini: Ini, c: Channel)
    requires NamesShape(p, ini)
    ensures var i := SectionIndex(ini, c.group);
      var r := Placed(ini, c);
      && (i < |ini| <==> c.group in Groups(p))
      && |r| == (if i < |ini| then |ini| else |ini| + 1)
      && r[i] == Section(c.group, Added(if i < |ini| then ini[i].options else [], c))
      && (forall j :: 0 <= j < |ini| && j != i ==> r[j] == ini[j] && ini[j].name != c.group)
  {
    var i := SectionIndex(ini, c.group);
    PlacedShape(ini, c);
    InDedup(Groups(p), c.group);
    if i < |ini| {
      assert SectionNames(ini)[i] == c.group;
      forall j | 0 <= j < |ini| && j != i ensures ini[j].name != c.group {
        DedupSpec(Groups(p));
        assert SectionNames(ini)[j] == ini[j].name;
      }
    } else {
      assert c.group !in SectionNames(ini);
    }
  }

  lemma NamesPreserved(cs: seq<Channel>, p: seq<Channel>, ini: Ini, c: Channel)
    requires Last(cs, p, c)
    requires NamesShape(p, ini)
    ensures NamesShape(cs, Placed(ini, c))
  {
    GroupsSnoc(cs, p, c);
    PlacedNames(p, ini, c);
  }

  /** The distinct groups after one more channel. */
  lemma GroupsSnoc(cs: seq<Channel>, p: seq<Channel>, c: Channel)
    requires Last(cs, p, c)
    ensures Dedup(Groups(cs)) == if c.group in Groups(p) then Dedup(Groups(p)) else Dedup(Groups(p)) + [c.group]
  {
    Snoc(cs, p, c, "", "");
    DedupSnoc(Groups(p), c.group);
  }

  /** Placing a channel keeps the section names, or appends its group's. */
  lemma PlacedNames(p: seq<Channel>, ini: Ini, c: Channel)
    requires NamesShape(p, ini)
    ensures SectionNames(Placed(ini, c)) == if c.group in Groups(p) then SectionNames(ini) else SectionNames(ini) + [c.group]
  {
    var i := SectionIndex(ini, c.group);
    var r := Placed(ini, c);
    AddChannelTarget(p, ini, c);
    var ns, rn := SectionNames(ini), SectionNames(r);
    if i < |ini| {
      forall j | 0 <= j < |r| ensures rn[j] == ns[j] {
        if j != i {
          assert r[j] == ini[j];
        }
      }
      assert rn == ns;
    } else {
      var grown := ns + [c.group];
      forall j | 0 <= j < |r| ensures rn[j] == grown[j] {
        if j < |ini| {
          assert r[j] == ini[j];
        }
      }
      assert rn == grown;
    }
  }

  lemma OptionsPreserved(cs: seq<Channel>, p: seq<Channel>, ini: Ini, c: Channel)
    requires Last(cs, p, c)
    requires NamesShape(p, ini) && OptionsShape(p, ini)
    ensures OptionsShape(cs, Placed(ini, c))
  {
    var i := SectionIndex(ini, c.group);
    var r := Placed(ini, c);
    AddChannelTarget(p, ini, c);
    forall j, k | 0 <= j < |r| && k != "channels"
      ensures Get(r[j].options, k) == LastParam(cs, r[j].name, k)
    {
      Snoc(cs, p, c, r[j].name, k);
      if j == i {
        AddedGet(if i < |ini| then ini[i].options else [], c, k);
        if i == |ini| {
          AbsentGroup(p, c.group, k);
        }
      }
    }
  }

  lemma Assoc(a: string, b: string, c: string)
    ensures a + b + c == a + (b + c)
  {
  }

  /** The grown `channels` option is the group's entry lines once `c` is added. */
  lemma GrownEntries(cs: seq<Channel>, p: seq<Channel>, options: Dict, c: Channel)
    requires Last(cs, p, c)
    requires Get(options, "channels") == if c.group in Groups(p) then Some(Entries(p, c.group)) else None
    ensures GrownChannels(options, EntryOf(c)) == Entries(cs, c.group)
  {
    EntriesSnoc(cs, p, c);
    if c.group in Groups(p) {
      Assoc(Entries(p, c.group), "\n", EntryOf(c));
    } else {
      AbsentGroup(p, c.group, "");
      assert EntryTexts([]) == [];
    }
  }

  lemma ChannelsPreserved(cs: seq<Channel>, p: seq<Channel>, ini: Ini, c: Channel)
    requires Last(cs, p, c)
    requires NamesShape(p, ini) && ChannelsShape(p, ini)
    requires LoweredGet(c.params, "channels").None?
    ensures ChannelsShape(cs, Placed(ini, c))
  {
    var i := SectionIndex(ini, c.group);
    var r := Placed(ini, c);
    AddChannelTarget(p, ini, c);
    var base := if i < |ini| then ini[i].options else [];
    assert Get(r[i].options, "channels") == Some(Entries(cs, c.group)) by {
      AddedGet(base, c, "channels");
      SetParamsGet(base, c.params, "channels");
      GrownEntries(cs, p, SetParams(base, c.params), c);
    }
    forall j | 0 <= j < |r| ensures Get(r[j].options, "channels") == Some(Entries(cs, r[j].name)) {
      if j != i {
        EntriesOther(cs, p, c, r[j].name);
      }
    }
  }

  /** The last pass of the writer's loop. */
  lemma WriteLast(cs: seq<Channel>)
    requires cs != [] && WriteChannels(cs).Ok?
    ensures WriteChannels(cs[..|cs| - 1]).Ok?
    ensures WriteChannels(cs).value == Placed(WriteChannels(cs[..|cs| - 1]).value, cs[|cs| - 1])
  {
  }

  /** The written configuration has one section per group, in the order the
      groups first show up. */
  lemma {:induction false} WriteNames(cs: seq<Channel>)
    requires WriteChannels(cs).Ok?
    ensures NamesShape(cs, WriteChannels(cs).value)
    decreases |cs|
  {
    if cs != [] {
      var n := |cs| - 1;
      WriteLast(cs);
      WriteNames(cs[..n]);
      NamesPreserved(cs, cs[..n], WriteChannels(cs[..n]).value, cs[n]);
    }
  }

  /** Every option of a written section other than `channels` holds the last
      value a channel of the group gave it. */
  lemma {:induction false} WriteOptions(cs: seq<Channel>)
    requires WriteChannels(cs).Ok?
    ensures OptionsShape(cs, WriteChannels(cs).value)
    decreases |cs|
  {
    if cs != [] {
      var n := |cs| - 1;
      WriteLast(cs);
      WriteNames(cs[..n]);
      WriteOptions(cs[..n]);
      OptionsPreserved(cs, cs[..n], WriteChannels(cs[..n]).value, cs[n]);
    }
  }

  /** Unless a parameter is itself named `channels`, the `channels` option
      of every written section lists the entry lines of its group, in order. */
  lemma {:induction false} WriteEntries(cs: seq<Channel>)
    requires WriteChannels(cs).Ok? && NoChannelsParam(cs)
    ensures ChannelsShape(cs, WriteChannels(cs).value)
    decreases |cs|
  {
    if cs != [] {
      var n := |cs| - 1;
      WriteLast(cs);
      assert NoChannelsParam(cs[..n]) by {
        assert forall i :: 0 <= i < n ==> cs[..n][i] == cs[i];
      }
      WriteNames(cs[..n]);
      WriteEntries(cs[..n]);
      ChannelsPreserved(cs, cs[..n], WriteChannels(cs[..n]).value, cs[n]);
    }
  }
}
