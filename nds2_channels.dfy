/** Minute-trend alignment of a GPS interval. */
module MinuteTrend {
  /** `minute_trend_times(start, end)`: the start moved back and the end moved
      forward to whole minutes; a value already on a minute stays. */
  function MinuteTrendTimes(start: int, end: int): (r: (int, int))
    ensures r.0 % 60 == 0 && r.0 <= start < r.0 + 60
    ensures r.1 % 60 == 0 && r.1 - 60 < end <= r.1
  {
    var s := if start % 60 != 0 then start / 60 * 60 else start;
    var e := if end % 60 != 0 then end / 60 * 60 + 60 else end;
    (s, e)
  }

  /** The result is the tightest whole-minute interval holding the input:
      no later minute mark is at or before `start`, no earlier one is at or
      after `end`. */
  lemma {:induction false} MinuteTrendTightest(start: int, end: int, a: int, b: int)
    requires a % 60 == 0 && a <= start
    requires b % 60 == 0 && end <= b
    ensures a <= MinuteTrendTimes(start, end).0
    ensures MinuteTrendTimes(start, end).1 <= b
  {
    var r := MinuteTrendTimes(start, end);
    if a > r.0 {
      MultiplesApart(a, r.0);
    }
    if r.1 > b {
      MultiplesApart(r.1, b);
    }
  }

  /** Two distinct multiples of 60 are at least 60 apart. */
  lemma MultiplesApart(x: int, y: int)
    requires x % 60 == 0 && y % 60 == 0 && x > y
    ensures x >= y + 60
  {
    assert x == x / 60 * 60 && y == y / 60 * 60;
    assert x / 60 > y / 60;
  }

  /** Aligned input comes back unchanged. */
  lemma MinuteTrendAligned(start: int, end: int)
    requires start % 60 == 0 && end % 60 == 0
    ensures MinuteTrendTimes(start, end) == (start, end)
  {
  }

  /** The values the minute-trend tests expect. */
  lemma MinuteTrendExamples()
    ensures MinuteTrendTimes(0, 60) == (0, 60)
    ensures MinuteTrendTimes(1, 60) == (0, 60)
    ensures MinuteTrendTimes(0, 61) == (0, 120)
    ensures MinuteTrendTimes(59, 61) == (0, 120)
    ensures MinuteTrendTimes(1167264018, 1198800018) == (1167264000, 1198800060)
  {
  }
}

/** How channels are named to an NDS2 server, and the channel search with
    its `unique` rule. */
module Nds2Channels {
  import opened Results
  import opened Text
  import opened Outcomes
  import CT = Nds2ChannelType
  import DT = Nds2DataType
  import NumpyTypeEnum

  /** What `_get_nds2_name` can be given: a pydischarge `Channel` (name and
      optional type string), a native `nds2.channel` (name and channel type),
      or anything else, named by its `str`. */
  datatype ChannelRef =
    | Plain(text: string)
    | Channel(name: string, kind: Option<string>)
    | Native(name: string, channelType: CT.ChannelType)

  /** The types a `Channel.ndsname` leaves unwritten. */
  predicate Bare(kind: Option<string>) {
    kind.None? || kind.value in ["raw", "reduced", "online"]
  }

  /** `_get_nds2_name(c)`. */
  function NameOf(c: ChannelRef): (r: string)
    ensures c.Plain? ==> r == c.text
    ensures c.Channel? && Bare(c.kind) ==> r == c.name
    ensures c.Channel? && !Bare(c.kind) ==> r == c.name + "," + c.kind.value
    ensures c.Native? ==> r == c.name + "," + CT.Nds2Name(c.channelType)
  {
    match c
    case Plain(s) => s
    case Channel(n, k) => if Bare(k) then n else n + "," + k.value
    case Native(n, t) => n + "," + CT.Nds2Name(t)
  }

  /** `_get_nds2_names(cs)`: each name in turn. */
  function NamesOf(cs: seq<ChannelRef>): (r: seq<string>)
    ensures |r| == |cs| && forall i :: 0 <= i < |cs| ==> r[i] == NameOf(cs[i])
  {
    seq(|cs|, i requires 0 <= i < |cs| => NameOf(cs[i]))
  }

  lemma NameExamples()
    ensures NamesOf([Plain("test"), Channel("X1:TEST", Some("m-trend")), Native("X1:TEST", CT.Raw)])
      == ["test", "X1:TEST,m-trend", "X1:TEST,raw"]
  {
    var cs := [Plain("test"), Channel("X1:TEST", Some("m-trend")), Native("X1:TEST", CT.Raw)];
    assert NameOf(cs[1]) == "X1:TEST,m-trend";
    assert NameOf(cs[2]) == "X1:TEST,raw";
  }

  /** `_strip_ctype(name, ctype, protocol)`: a `,type` suffix after the last
      comma is looked up and replaces `ctype`; under protocol 1 a trend
      suffix stays on the name, as NDS1 stores trend channels that way. */
  function StripType(name: string, ctype: int, protocol: int): (r: Result<(string, int), NumpyTypeEnum.NotValid>)
    ensures ',' !in name ==> r == Ok((name, ctype))
    ensures r.Ok? && ',' in name ==> exists t :: t in CT.Members && r.value.1 == CT.Value(t)
    ensures r.Err? ==> ',' in name
  {
    match RSplitOnce(name, ',')
    case None => Ok((name, ctype))
    case Some((base, suffix)) =>
      var t :- CT.Find(CT.ByText(suffix));
      CT.InMembers(t);
      if protocol == 1 && IsTrend(t)
      then Ok((base + "," + suffix, CT.Value(t)))
      else Ok((base, CT.Value(t)))
  }

  /** Second or minute trend, compared by value as the suffix rule does. */
  predicate IsTrend(t: CT.ChannelType) {
    CT.Value(t) == CT.Value(CT.STrend) || CT.Value(t) == CT.Value(CT.MTrend)
  }

  /** A name ending in `,` and a type name loses the suffix and gets the
      type's value; a trend suffix stays under protocol 1. */
  lemma StripSuffix(base: string, suffix: string, ctype: int, protocol: int, t: CT.ChannelType)
    requires ',' !in suffix && CT.Find(CT.ByText(suffix)) == Ok(t)
    ensures StripType(base + "," + suffix, ctype, protocol) ==
      if protocol == 1 && IsTrend(t) then Ok((base + "," + suffix, CT.Value(t)))
      else Ok((base, CT.Value(t)))
  {
    var name := base + "," + suffix;
    assert name == base + [','] + suffix;
    RSplitLast(base, suffix, ',');
    assert RSplitOnce(name, ',') == Some((base, suffix));
  }

  /** Stripping the NDS2 name of a native channel gives back its name and
      the value of its type (protocol 2, or a type that is no trend). */
  lemma {:induction false} NativeRoundTrip(name: string, t: CT.ChannelType, ctype: int, protocol: int)
    requires protocol != 1 || !IsTrend(t)
    ensures StripType(NameOf(Native(name, t)), ctype, protocol) == Ok((name, CT.Value(t)))
  {
    CT.KeysOfMember(t);
    CT.FindMember(t, CT.Nds2Name(t));
    NoComma(t);
    StripSuffix(name, CT.Nds2Name(t), ctype, protocol, t);
  }

  /** A written-out type the suffix rule takes off again: comma-free, known
      to the lookup, and no trend under protocol 1. */
  predicate Stripped(kind: Option<string>, protocol: int) {
    && !Bare(kind) && ',' !in kind.value
    && CT.Find(CT.ByText(kind.value)).Ok?
    && (protocol != 1 || !IsTrend(CT.Find(CT.ByText(kind.value)).value))
  }

  /** Stripping the NDS2 name of a pydischarge `Channel` gives back its
      name: with the type given when the type was written out and the lookup
      knows it (protocol 2, or a type that is no trend), and with the type
      asked for when the type was left unwritten and the name has no comma. */
  lemma ChannelRoundTrip(name: string, kind: Option<string>, ctype: int, protocol: int)
    ensures Bare(kind) && ',' !in name ==>
      StripType(NameOf(Channel(name, kind)), ctype, protocol) == Ok((name, ctype))
    ensures Stripped(kind, protocol) ==>
      StripType(NameOf(Channel(name, kind)), ctype, protocol) == Ok((name, CT.Value(CT.Find(CT.ByText(kind.value)).value)))
  {
    if Stripped(kind, protocol) {
      StripSuffix(name, kind.value, ctype, protocol, CT.Find(CT.ByText(kind.value)).value);
    }
  }

  lemma NoComma(t: CT.ChannelType)
    ensures ',' !in CT.Nds2Name(t)
  {
  }

  /** A descriptor as the server returns it. */
  datatype Descriptor = Descriptor(name: string, channelType: int, sampleRate: int, dataType: int)

  /** The arguments of one server-side `find_channels` call. */
  datatype Request = Request(name: string, channelType: int, dataType: int, rates: seq<int>)

  /** An open connection: its protocol version and what its
      `find_channels` answers. */
  datatype Connection = Connection(protocol: int, server: Request -> seq<Descriptor>)

  /** `sample_rate`: none, one rate, or a range. */
  datatype RateFilter = NoRate | Exact(rate: int) | Between(low: int, high: int)

  /** The rate arguments passed on: a single rate as a range of one. */
  function RateArgs(f: RateFilter): (r: seq<int>)
    ensures f.NoRate? <==> r == []
    ensures f.Exact? ==> r == [f.rate, f.rate]
    ensures f.Between? ==> r == [f.low, f.high]
  {
    match f
    case NoRate => []
    case Exact(x) => [x, x]
    case Between(lo, hi) => [lo, hi]
  }

  datatype FindError =
    | BadType(notValid: NumpyTypeEnum.NotValid)  // an unknown type, from `find`
    | NotUnique(query: string)                  // `unique` and not exactly one match

  /** The exception text: an unknown type's own message, or the query
      shown as Python's `repr` shows it. */
  function Message(e: FindError): (r: string)
    ensures e.BadType? ==> r == NumpyTypeEnum.Message(e.notValid)
    ensures e.NotUnique? ==> |r| >= 42 && r[..40] == "unique NDS2 channel match not found for "
    ensures e.NotUnique? ==> Unescape(r[41..|r| - 1]) == e.query
  {
    match e
    case BadType(n) => NumpyTypeEnum.Message(n)
    case NotUnique(q) =>
      ReprRoundTrip(q);
      var p, s := "unique NDS2 channel match not found for ", Repr(q);
      var r := p + s;
      assert |p| == 40 && r[..40] == p;
      assert r[41..|r| - 1] == s[1..|s| - 1];
      r
  }

  /** The channel-type mask: every type when none is named. */
  function TypeMask(q: Option<CT.Query>): (r: Result<int, NumpyTypeEnum.NotValid>)
    ensures q.None? ==> r == Ok(CT.Any())
    ensures q.Some? ==> (r.Ok? <==> CT.Find(q.value).Ok?)
    ensures q.Some? && r.Ok? ==> r.value == CT.Value(CT.Find(q.value).value)
  {
    match q
    case None => Ok(CT.Any())
    case Some(k) =>
      var t :- CT.Find(k);
      Ok(CT.Value(t))
  }

  /** The data-type mask: every type when none is named. */
  function DataTypeMask(k: Option<NumpyTypeEnum.Key>): (r: Result<int, NumpyTypeEnum.NotValid>)
    ensures k.None? ==> r == Ok(DT.Any())
    ensures k.Some? ==> (r.Ok? <==> NumpyTypeEnum.Find(DT.DataTypes, k.value).Ok?)
    ensures k.Some? && r.Ok? ==> r.value == NumpyTypeEnum.Find(DT.DataTypes, k.value).value.value
  {
    match k
    case None => Ok(DT.Any())
    case Some(key) =>
      var m :- NumpyTypeEnum.Find(DT.DataTypes, key);
      Ok(m.value)
  }

  /** The matches that are not online copies. */
  function Offline(found: seq<Descriptor>): (r: seq<Descriptor>)
    ensures forall d :: d in r ==> d in found && d.channelType != CT.Value(CT.Online)
    ensures forall d :: d in found && d.channelType != CT.Value(CT.Online) ==> d in r
    ensures |r| <= |found|
    decreases |found|
  {
    if found == [] then []
    else
      var n := |found| - 1;
      var p := Offline(found[..n]);
      assert forall d :: d in found ==> d in found[..n] || d == found[n];
      if found[n].channelType != CT.Value(CT.Online) then p + [found[n]] else p
  }

  /** The `unique` rule: of two matches the online copy is dropped; then
      exactly one match must remain. */
  function UniqueMatch(found: seq<Descriptor>, name: string): (r: Result<seq<Descriptor>, FindError>)
    ensures r.Ok? ==> |r.value| == 1 && r.value[0] in found
    ensures |found| == 1 ==> r == Ok(found)
    ensures r.Err? ==> r.error == NotUnique(name)
  {
    var kept := if |found| == 2 then Offline(found) else found;
    if |kept| == 1 then Ok(kept) else Err(NotUnique(name))
  }

  /** `unique` succeeds exactly on one match, or on two of which exactly one
      is online; the other one is then the result. */
  lemma {:induction false} UniqueMatchSpec(found: seq<Descriptor>, name: string)
    ensures UniqueMatch(found, name).Ok? <==>
      |found| == 1 ||
      (|found| == 2 && (found[0].channelType == CT.Value(CT.Online)) != (found[1].channelType == CT.Value(CT.Online)))
    ensures |found| == 2 && UniqueMatch(found, name).Ok? ==>
      UniqueMatch(found, name).value[0].channelType != CT.Value(CT.Online)
  {
    if |found| == 2 {
      var online := CT.Value(CT.Online);
      assert found[..1][..0] == [] && found[..1] == [found[0]];
      var first := Offline(found[..1]);
      assert first == if found[0].channelType != online then [found[0]] else [];
    }
  }

  /** `_find_channel` for one name: strip the type suffix, ask the server,
      and apply the `unique` rule if asked. */
  function FindOne(conn: Connection, name: string, ctype: int, dtype: int, rates: seq<int>, unique: bool): (r: Result<seq<Descriptor>, FindError>)
    ensures r.Err? && r.error.BadType? ==> ',' in name
    ensures r.Err? && r.error.NotUnique? ==> unique
    ensures unique && r.Ok? ==> |r.value| == 1
    ensures !unique && ',' !in name ==> r == Ok(conn.server(Request(name, ctype, dtype, rates)))
  {
    match StripType(name, ctype, conn.protocol)
    case Err(e) => Err(BadType(e))
    case Ok((n, t)) =>
      var found := conn.server(Request(n, t, dtype, rates));
      if unique then UniqueMatch(found, n) else Ok(found)
  }

  /** Each name's search, in order. */
  function Searches(conn: Connection, names: seq<string>, ctype: int, dtype: int, rates: seq<int>, unique: bool): (rs: seq<Result<seq<Descriptor>, FindError>>)
    ensures |rs| == |names|
    ensures forall i :: 0 <= i < |names| ==> rs[i] == FindOne(conn, names[i], ctype, dtype, rates, unique)
  {
    seq(|names|, i requires 0 <= i < |names| => FindOne(conn, names[i], ctype, dtype, rates, unique))
  }

  /** `find_channels(channels, ...)`: the matches of every channel, one
      channel after another, or the first error. */
  function FindAll(channels: seq<ChannelRef>, conn: Connection, rate: RateFilter,
                   ctype: Option<CT.Query>, dtype: Option<NumpyTypeEnum.Key>, unique: bool): (r: Result<seq<Descriptor>, FindError>)
    ensures ctype.Some? && CT.Find(ctype.value).Err? ==> r == Err(BadType(CT.Find(ctype.value).error))
    ensures r.Err? && r.error.NotUnique? ==> unique
    ensures r.Ok? ==> TypeMask(ctype).Ok? && DataTypeMask(dtype).Ok?
    ensures channels == [] && TypeMask(ctype).Ok? && DataTypeMask(dtype).Ok? ==> r == Ok([])
  {
    match (TypeMask(ctype), DataTypeMask(dtype))
    case (Err(e), _) => Err(BadType(e))
    case (_, Err(e)) => Err(BadType(e))
    case (Ok(t), Ok(d)) =>
      var rs := Searches(conn, NamesOf(channels), t, d, RateArgs(rate), unique);
      assert Concat(rs).Err? && Concat(rs).error.NotUnique? ==> unique by {
        if Concat(rs).Err? {
          ConcatFirstError(rs);
        }
      }
      Concat(rs)
  }

  method FindChannels(channels: seq<ChannelRef>, conn: Connection, rate: RateFilter,
                      ctype: Option<CT.Query>, dtype: Option<NumpyTypeEnum.Key>, unique: bool)
    returns (r: Result<seq<Descriptor>, FindError>)
    ensures r == FindAll(channels, conn, rate, ctype, dtype, unique)
  {
    var t := TypeMask(ctype);
    if t.Err? {
      return Err(BadType(t.error));
    }
    var d := DataTypeMask(dtype);
    if d.Err? {
      return Err(BadType(d.error));
    }
    var rates := RateArgs(rate);
    var names := NamesOf(channels);
    ghost var rs := Searches(conn, names, t.value, d.value, rates, unique);
    var out: seq<Descriptor> := [];
    for i := 0 to |names|
      invariant Concat(rs[..i]) == Ok(out)
    {
      var found := FindOne(conn, names[i], t.value, d.value, rates, unique);
      ConcatStep(rs, i, out);
      if found.Err? {
        return Err(found.error);
      }
      out := out + found.value;
    }
    assert rs[..|names|] == rs;
    return Ok(out);
  }

  /** With `unique`, a search that succeeds gives one descriptor per
      channel, in channel order: the one match its own search kept. */
  lemma FindAllUnique(channels: seq<ChannelRef>, conn: Connection, rate: RateFilter,
                      ctype: Option<CT.Query>, dtype: Option<NumpyTypeEnum.Key>)
    requires FindAll(channels, conn, rate, ctype, dtype, true).Ok?
    ensures TypeMask(ctype).Ok? && DataTypeMask(dtype).Ok?
    ensures var r := FindAll(channels, conn, rate, ctype, dtype, true).value;
      && |r| == |channels|
      && forall i :: 0 <= i < |channels| ==>
           FindOne(conn, NameOf(channels[i]), TypeMask(ctype).value, DataTypeMask(dtype).value, RateArgs(rate), true)
             == Ok([r[i]])
  {
    var t := TypeMask(ctype).value;
    var d := DataTypeMask(dtype).value;
    var rs := Searches(conn, NamesOf(channels), t, d, RateArgs(rate), true);
    forall i | 0 <= i < |rs| && rs[i].Ok? ensures |rs[i].value| == 1 {
      var name := NamesOf(channels)[i];
      match StripType(name, t, conn.protocol)
      case Err(_) =>
      case Ok((n, c)) =>
    }
    ConcatSingletons(rs);
    var r := Concat(rs).value;
    forall i | 0 <= i < |channels| ensures rs[i] == Ok([r[i]]) {
      assert rs[i].value == [rs[i].value[0]];
    }
  }

  /** Without `unique`, a channel's search returns what the server
      returned for it. */
  lemma FindOnePassesThrough(conn: Connection, name: string, ctype: int, dtype: int, rates: seq<int>)
    requires StripType(name, ctype, conn.protocol).Ok?
    ensures var (n, t) := StripType(name, ctype, conn.protocol).value;
      FindOne(conn, name, ctype, dtype, rates, false) == Ok(conn.server(Request(n, t, dtype, rates)))
  {
  }

  /** A search for one channel is that channel's search. */
  lemma FindAllOne(c: ChannelRef, conn: Connection, rate: RateFilter, ctype: Option<CT.Query>,
                   dtype: Option<NumpyTypeEnum.Key>, unique: bool, t: int, d: int)
    requires TypeMask(ctype) == Ok(t) && DataTypeMask(dtype) == Ok(d)
    ensures FindAll([c], conn, rate, ctype, dtype, unique) == FindOne(conn, NameOf(c), t, d, RateArgs(rate), unique)
  {
    var rs := Searches(conn, NamesOf([c]), t, d, RateArgs(rate), unique);
    ConcatSingle(rs[0]);
    assert rs == [rs[0]];
  }

  /** A channel named without a type suffix is searched as named. */
  lemma FindOneBare(conn: Connection, name: string, ctype: int, dtype: int, rates: seq<int>, unique: bool)
    requires ',' !in name
    ensures var found := conn.server(Request(name, ctype, dtype, rates));
      FindOne(conn, name, ctype, dtype, rates, unique) == if unique then UniqueMatch(found, name) else Ok(found)
  {
  }

  /** One plain name, with no type, data type or rate given. */
  lemma FindPlain(conn: Connection, name: string, unique: bool)
    requires ',' !in name
    ensures var found := conn.server(Request(name, CT.Any(), DT.Any(), []));
      FindAll([Plain(name)], conn, NoRate, None, None, unique) == if unique then UniqueMatch(found, name) else Ok(found)
  {
    var t, d := CT.Any(), DT.Any();
    FindAllOne(Plain(name), conn, NoRate, None, None, unique, t, d);
    FindOneBare(conn, name, t, d, [], unique);
  }

  /** The request of a channel given without a type, and no type or data
      type named: every type and every data type. */
  lemma FindDefaults(conn: Connection)
    ensures FindAll([Plain("X1:test")], conn, NoRate, None, None, false)
      == Ok(conn.server(Request("X1:test", CT.Any(), DT.Any(), [])))
  {
    assert ',' !in "X1:test";
    FindPlain(conn, "X1:test", false);
  }

  lemma StripTrendName()
    ensures StripType("X1:test,m-trend", CT.Any(), 1) == Ok(("X1:test,m-trend", CT.Value(CT.MTrend)))
  {
    MTrendByName();
    TrendSplit();
  }

  lemma MTrendByName()
    ensures CT.Find(CT.ByText("m-trend")) == Ok(CT.MTrend)
  {
    CT.KeysMTrend();
    CT.FindMember(CT.MTrend, "m-trend");
  }

  lemma TrendSplit()
    ensures RSplitOnce("X1:test,m-trend", ',') == Some(("X1:test", "m-trend"))
  {
    assert "X1:test" + [','] + "m-trend" == "X1:test,m-trend";
    RSplitLast("X1:test", "m-trend", ',');
  }

  lemma Float64Mask()
    ensures DataTypeMask(Some(NumpyTypeEnum.ByType("float64"))) == Ok(DT.Float64.value)
  {
    DT.FindFloat();
  }

  /** Under protocol 1, `,m-trend` stays on the name and sets the type;
      `float` is `FLOAT64`; one rate becomes a range of one. */
  lemma FindKeywords(conn: Connection)
    requires conn.protocol == 1
    ensures FindAll([Plain("X1:test,m-trend")], conn, Exact(16), None, Some(NumpyTypeEnum.ByType("float64")), false)
      == Ok(conn.server(Request("X1:test,m-trend", CT.Value(CT.MTrend), DT.Float64.value, [16, 16])))
  {
    StripTrendName();
    Float64Mask();
    FindAllOne(Plain("X1:test,m-trend"), conn, Exact(16), None, Some(NumpyTypeEnum.ByType("float64")), false,
               CT.Any(), DT.Float64.value);
  }

  /** The descriptors of the unique tests: a raw channel of 16 Hz and its
      online copy. */
  const Chan := Descriptor("X1:test", 2, 16, 8)
  const OnlineChan := Descriptor("X1:test", 1, 16, 8)

  lemma UniqueOfPair()
    ensures UniqueMatch([Chan, OnlineChan], "X1:test") == Ok([Chan])
    ensures UniqueMatch([Chan, Chan], "X1:test") == Err(NotUnique("X1:test"))
  {
    assert CT.Value(CT.Online) == 1;
    UniqueMatchSpec([Chan, OnlineChan], "X1:test");
    var r := UniqueMatch([Chan, OnlineChan], "X1:test").value;
    assert r == [r[0]] && r[0] == Chan;
    UniqueMatchSpec([Chan, Chan], "X1:test");
  }

  /** A raw match and its online copy: the raw one is kept. */
  lemma FindUniqueOfCopies(conn: Connection)
    requires conn.server(Request("X1:test", CT.Any(), DT.Any(), [])) == [Chan, OnlineChan]
    ensures FindAll([Plain("X1:test")], conn, NoRate, None, None, true) == Ok([Chan])
  {
    assert ',' !in "X1:test";
    FindPlain(conn, "X1:test", true);
    UniqueOfPair();
  }

  /** Two raw matches: the search fails, naming the query. */
  lemma FindUniqueOfTwins(conn: Connection)
    requires conn.server(Request("X1:test", CT.Any(), DT.Any(), [])) == [Chan, Chan]
    ensures FindAll([Plain("X1:test")], conn, NoRate, None, None, true) == Err(NotUnique("X1:test"))
  {
    assert ',' !in "X1:test";
    FindPlain(conn, "X1:test", true);
    UniqueOfPair();
  }

  /** The query is a parameter so that the message is reasoned about
      symbolically. */
  lemma NotUniqueMessage(q: string)
    requires q == "X1:test"
    ensures Message(NotUnique(q)) == "unique NDS2 channel match not found for " + "'X1:test'"
  {
    ShownTestChannel();
  }

  lemma ShownTestChannel()
    ensures Repr("X1:test") == "'X1:test'"
  {
    ReprPlain("X1:test");
  }
}
