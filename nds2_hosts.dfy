/** Where to look for an NDS2 server: the `host[:port]` list of an
    environment variable, then the hosts a static table gives for the
    detector site and for no site at all. */
module Nds2Hosts {
  import opened Results
  import opened Text
  import opened Outcomes
  import opened Seqs

  /** A server candidate: host name and port, `None` when none was given. */
  type Host = (string, Option<int>)

  datatype EnvError =
    | Unset(name: string)        // the variable is not set, so there is nothing to split
    | InvalidPort(text: string)  // `int(port)` raised `ValueError`

  /** The variable read when no other is named. */
  const DefaultEnv := "NDSSERVER"

  /** One `host[:port]` token, split at its last colon. */
  function ParseHost(token: string): (r: Result<Host, EnvError>)
    ensures ':' !in token ==> r == Ok((token, None))
    ensures r.Ok? && r.value.1.Some? ==> ':' in token
    ensures r.Err? ==> ':' in token && r.error.InvalidPort?
  {
    match RSplitOnce(token, ':')
    case None => Ok((token, None))
    case Some((host, port)) =>
      match ParseInt(port)
      case None => Err(InvalidPort(port))
      case Some(n) => Ok((host, Some(n)))
  }

  /** Every comma-separated token of a server list, parsed. */
  function ParsedTokens(value: string): (rs: seq<Result<Host, EnvError>>)
    ensures |rs| == |Split(value, ',')|
  {
    var tokens := Split(value, ',');
    seq(|tokens|, i requires 0 <= i < |tokens| => ParseHost(tokens[i]))
  }

  /** The hosts a server list names, in order, each kept at its first
      occurrence; or the first token's error. */
  function ServerList(value: string): (r: Result<seq<Host>, EnvError>)
    ensures r.Ok? ==> Distinct(r.value) && 1 <= |r.value| <= |Split(value, ',')|
    ensures r.Err? ==> r.error.InvalidPort?
  {
    var rs := ParsedTokens(value);
    if All(rs).Err? then
      AllFirstError(rs);
      Err(All(rs).error)
    else
      DedupSpec(All(rs).value);
      assert All(rs).value[0] in Dedup(All(rs).value);
      Ok(Dedup(All(rs).value))
  }

  /** `parse_nds_env(env)` over the process environment `environ`. */
  function EnvHosts(environ: map<string, string>, name: string): (r: Result<seq<Host>, EnvError>)
    ensures r.Err? && r.error.Unset? <==> name !in environ
  {
    if name in environ then ServerList(environ[name]) else Err(Unset(name))
  }

  /** The loop of `parse_nds_env`: each token is parsed and appended unless
      an equal pair is already there. */
  method ParseNdsEnv(environ: map<string, string>, name: string) returns (r: Result<seq<Host>, EnvError>)
    ensures r == EnvHosts(environ, name)
  {
    if name !in environ {
      return Err(Unset(name));
    }
    var tokens := Split(environ[name], ',');
    ghost var rs := ParsedTokens(environ[name]);
    ghost var parsed: seq<Host> := [];
    var hosts: seq<Host> := [];
    for i := 0 to |tokens|
      invariant All(rs[..i]) == Ok(parsed)
      invariant hosts == Dedup(parsed)
    {
      var h := ParseHost(tokens[i]);
      AllStep(rs, i, parsed);
      if h.Err? {
        return Err(h.error);
      }
      DedupSnoc(parsed, h.value);
      if h.value !in hosts {
        InDedup(parsed, h.value);
        hosts := hosts + [h.value];
      } else {
        InDedup(parsed, h.value);
      }
      parsed := parsed + [h.value];
    }
    assert rs[..|tokens|] == rs;
    return Ok(hosts);
  }

  /** A parsed server list names each host once, keeps every host of every
      token, and keeps the hosts in the order of their first occurrence. */
  lemma ServerListSpec(value: string)
    requires ServerList(value).Ok?
    ensures Distinct(ServerList(value).value)
    ensures forall i :: 0 <= i < |ParsedTokens(value)| ==>
      ParsedTokens(value)[i].Ok? && ParsedTokens(value)[i].value in ServerList(value).value
    ensures forall h :: h in ServerList(value).value ==>
      exists i :: 0 <= i < |ParsedTokens(value)| && ParsedTokens(value)[i] == Ok(h)
  {
    DedupAll(ParsedTokens(value));
  }

  lemma DedupAll<T, E>(rs: seq<Result<T, E>>)
    requires All(rs).Ok?
    ensures Distinct(Dedup(All(rs).value))
    ensures forall i :: 0 <= i < |rs| ==> rs[i].Ok? && rs[i].value in Dedup(All(rs).value)
    ensures forall h :: h in Dedup(All(rs).value) ==> exists i :: 0 <= i < |rs| && rs[i] == Ok(h)
  {
    AllOk(rs);
    var hosts := All(rs).value;
    DedupSpec(hosts);
    forall i | 0 <= i < |rs| ensures rs[i].value in Dedup(hosts) {
      assert rs[i].value == hosts[i];
    }
    forall h | h in Dedup(hosts)
      ensures exists i :: 0 <= i < |rs| && rs[i] == Ok(h)
    {
      InDedup(hosts, h);
      var i :| 0 <= i < |hosts| && hosts[i] == h;
      assert rs[i] == Ok(h);
    }
  }

  /** A host the writer side can render: no separator in the name and a
      non-negative port. */
  predicate Renderable(h: Host) {
    ':' !in h.0 && ',' !in h.0 && (h.1.Some? ==> h.1.value >= 0)
  }

  /** `host` or `host:port`. */
  function FormatHost(h: Host): (s: string)
    requires Renderable(h)
    ensures ',' !in s
  {
    if h.1.None? then h.0
    else
      var p := NatToString(h.1.value);
      assert forall i :: 0 <= i < |p| ==> IsDigit(p[i]);
      h.0 + ":" + p
  }

  function FormatList(hs: seq<Host>): (ts: seq<string>)
    requires forall i :: 0 <= i < |hs| ==> Renderable(hs[i])
    ensures |ts| == |hs| && forall i :: 0 <= i < |ts| ==> ',' !in ts[i]
  {
    seq(|hs|, i requires 0 <= i < |hs| => FormatHost(hs[i]))
  }

  /** Parsing a rendered host gives the host back. */
  lemma ParseFormat(h: Host)
    requires Renderable(h)
    ensures ParseHost(FormatHost(h)) == Ok(h)
  {
    if h.1.Some? {
      var p := NatToString(h.1.value);
      assert forall i :: 0 <= i < |p| ==> IsDigit(p[i]);
      var s := FormatHost(h);
      assert s == h.0 + [':'] + p;
      RSplitLast(h.0, p, ':');
    }
  }

  /** A server list rendered from hosts parses back to those hosts, each
      kept at its first occurrence. */
  lemma {:induction false} ServerListRoundTrip(hs: seq<Host>)
    requires |hs| >= 1 && forall i :: 0 <= i < |hs| ==> Renderable(hs[i])
    ensures ServerList(Join(FormatList(hs), ',')) == Ok(Dedup(hs))
  {
    var ts := FormatList(hs);
    var value := Join(ts, ',');
    SplitJoin(ts, ',');
    var rs := ParsedTokens(value);
    forall i | 0 <= i < |rs| ensures rs[i] == Ok(hs[i]) {
      ParseFormat(hs[i]);
    }
    AllOk(rs);
    assert All(rs).value == hs;
  }

  /** Known hosts for each looked-up site, in lookup order. */
  function Known(keys: seq<Option<string>>, table: map<Option<string>, Host>): (r: seq<Host>)
    ensures forall h :: h in r ==> exists k :: k in keys && k in table && table[k] == h
    ensures forall k :: k in keys && k in table ==> table[k] in r
    decreases |keys|
  {
    if keys == [] then []
    else
      var n := |keys| - 1;
      var p := Known(keys[..n], table);
      assert forall k :: k in keys[..n] ==> k in keys;
      assert forall k :: k in keys ==> k in keys[..n] || k == keys[n];
      if keys[n] in table then p + [table[keys[n]]] else p
  }

  /** A candidate list and the number of `UserWarning`s emitted. */
  datatype Resolution = Resolution(hosts: seq<Host>, warnings: nat)

  /** The sites looked up: the default host first for an old epoch, the
      site's host first otherwise. `None` stands for no site. */
  function Lookups(site: Option<string>, oldEpoch: bool): (keys: seq<Option<string>>)
    ensures |keys| == 2 && site in keys && None in keys
    ensures keys[0] == None <==> oldEpoch || site == None
  {
    if oldEpoch then [None, site] else [site, None]
  }

  /** One lookup: a known host is appended unless already listed; an
      unknown site warns only while the list is still empty. */
  function Step(r: Resolution, k: Option<string>, table: map<Option<string>, Host>): Resolution {
    if k in table then
      Resolution(if table[k] in r.hosts then r.hosts else r.hosts + [table[k]], r.warnings)
    else
      Resolution(r.hosts, if r.hosts == [] then r.warnings + 1 else r.warnings)
  }

  /** A lookup only appends, at most one host, and only one not yet listed;
      a known site's host is listed afterwards; it warns at most once. */
  lemma StepGrows(r: Resolution, k: Option<string>, table: map<Option<string>, Host>)
    ensures var r' := Step(r, k, table);
      && |r.hosts| <= |r'.hosts| <= |r.hosts| + 1 && r'.hosts[..|r.hosts|] == r.hosts
      && (Distinct(r.hosts) ==> Distinct(r'.hosts))
      && (k in table ==> table[k] in r'.hosts)
      && r.warnings <= r'.warnings <= r.warnings + 1
      && (r'.warnings > r.warnings <==> k !in table && r.hosts == [])
  {
    var r' := Step(r, k, table);
    if k in table && table[k] !in r.hosts {
      assert r'.hosts[..|r.hosts|] == r.hosts;
      if Distinct(r.hosts) {
        forall i, j | 0 <= i < j < |r'.hosts| ensures r'.hosts[i] != r'.hosts[j] {
          if j == |r.hosts| {
            assert r'.hosts[i] == r.hosts[i];
          }
        }
      }
    }
  }

  /** The table lookups, in order, after the environment hosts `start`. */
  function Resolve(start: seq<Host>, keys: seq<Option<string>>, table: map<Option<string>, Host>): Resolution
    decreases |keys|
  {
    if keys == [] then Resolution(start, 0)
    else Step(Resolve(start, keys[..|keys| - 1], table), keys[|keys| - 1], table)
  }

  /** Whether `env` names a variable that is set to something non-empty. */
  predicate EnvGiven(env: Option<string>, environ: map<string, string>) {
    env.Some? && env.value != "" && env.value in environ && environ[env.value] != ""
  }

  /** The hosts of the environment list, if there is one to read. */
  function EnvList(env: Option<string>, environ: map<string, string>): (r: Result<seq<Host>, EnvError>)
    ensures !EnvGiven(env, environ) ==> r == Ok([])
    ensures r.Err? ==> r.error.InvalidPort?
  {
    if EnvGiven(env, environ) then EnvHosts(environ, env.value) else Ok([])
  }

  /** `host_resolution_order(site, env, epoch)`, with `old` telling whether
      the epoch is further back than the look-back window. */
  function ResolutionOrder(site: Option<string>, env: Option<string>, environ: map<string, string>,
                           oldEpoch: bool, table: map<Option<string>, Host>): (r: Result<Resolution, EnvError>)
    ensures r.Err? <==> EnvList(env, environ).Err?
    ensures r.Ok? ==> var start := EnvList(env, environ).value;
      |start| <= |r.value.hosts| <= |start| + 2 && r.value.hosts[..|start|] == start
  {
    var start :- EnvList(env, environ);
    ResolveExtends(start, Lookups(site, oldEpoch), table);
    Ok(Resolve(start, Lookups(site, oldEpoch), table))
  }

  method HostResolutionOrder(site: Option<string>, env: Option<string>, environ: map<string, string>,
                             oldEpoch: bool, table: map<Option<string>, Host>) returns (r: Result<Resolution, EnvError>)
    ensures r == ResolutionOrder(site, env, environ, oldEpoch, table)
  {
    var hosts: seq<Host> := [];
    if EnvGiven(env, environ) {
      var parsed := ParseNdsEnv(environ, env.value);
      if parsed.Err? {
        return Err(parsed.error);
      }
      hosts := parsed.value;
    }
    ghost var start := hosts;
    var warnings := 0;
    var keys := Lookups(site, oldEpoch);
    for i := 0 to |keys|
      invariant Resolve(start, keys[..i], table) == Resolution(hosts, warnings)
    {
      assert keys[..i + 1][..i] == keys[..i];
      var k := keys[i];
      if k in table {
        var h := table[k];
        if h !in hosts {
          hosts := hosts + [h];
        }
      } else if hosts == [] {
        warnings := warnings + 1;
      }
    }
    assert keys[..|keys|] == keys;
    return Ok(Resolution(hosts, warnings));
  }

  /** The table lookups only ever append: the environment hosts stay in
      front, and each lookup adds one host at most. */
  lemma {:induction false} ResolveExtends(start: seq<Host>, keys: seq<Option<string>>, table: map<Option<string>, Host>)
    ensures |start| <= |Resolve(start, keys, table).hosts| <= |start| + |keys|
    ensures Resolve(start, keys, table).hosts[..|start|] == start
    decreases |keys|
  {
    if keys != [] {
      var n := |keys| - 1;
      ResolveExtends(start, keys[..n], table);
      var p := Resolve(start, keys[..n], table).hosts;
      if keys[n] in table {
        var h := table[keys[n]];
        assert (p + [h])[..|start|] == p[..|start|];
      }
    }
  }

  /** After distinct environment hosts, the result is the de-duplicated
      list of the environment hosts followed by the known table hosts. */
  lemma {:induction false} ResolveDedup(start: seq<Host>, keys: seq<Option<string>>, table: map<Option<string>, Host>)
    requires Distinct(start)
    ensures Resolve(start, keys, table).hosts == Dedup(start + Known(keys, table))
    decreases |keys|
  {
    if keys == [] {
      assert start + [] == start;
      DedupDistinct(start);
    } else {
      var n := |keys| - 1;
      var u := start + Known(keys[..n], table);
      ResolveDedup(start, keys[..n], table);
      var p := Resolve(start, keys[..n], table);
      assert Resolve(start, keys, table) == Step(p, keys[n], table);
      if keys[n] in table {
        var h := table[keys[n]];
        assert Known(keys, table) == Known(keys[..n], table) + [h];
        assert start + Known(keys, table) == u + [h];
        DedupSnoc(u, h);
        InDedup(u, h);
      } else {
        assert Known(keys, table) == Known(keys[..n], table);
      }
    }
  }

  /** A server list that parses names at least one host. */
  lemma ServerListNonEmpty(value: string)
    requires ServerList(value).Ok?
    ensures ServerList(value).value != []
  {
    var rs := ParsedTokens(value);
    AllOk(rs);
    DedupSpec(All(rs).value);
    assert All(rs).value[0] in ServerList(value).value;
  }

  /** The candidates: the environment hosts first, in their order; then the
      known hosts of the looked-up sites, each once. */
  lemma ResolutionOrderHosts(site: Option<string>, env: Option<string>, environ: map<string, string>,
                             oldEpoch: bool, table: map<Option<string>, Host>)
    requires ResolutionOrder(site, env, environ, oldEpoch, table).Ok?
    ensures var hosts := ResolutionOrder(site, env, environ, oldEpoch, table).value.hosts;
      var start := EnvList(env, environ).value;
      && hosts == Dedup(start + Known(Lookups(site, oldEpoch), table))
      && |start| <= |hosts| && hosts[..|start|] == start
      && Distinct(hosts)
      && (None in table ==> table[None] in hosts)
      && (site in table ==> table[site] in hosts)
  {
    var start := EnvList(env, environ).value;
    var keys := Lookups(site, oldEpoch);
    if EnvGiven(env, environ) {
      ServerListSpec(environ[env.value]);
    }
    assert ResolutionOrder(site, env, environ, oldEpoch, table).value == Resolve(start, keys, table);
    ResolveHosts(start, keys, table);
  }

  /** The hosts of a resolution after distinct environment hosts. */
  lemma ResolveHosts(start: seq<Host>, keys: seq<Option<string>>, table: map<Option<string>, Host>)
    requires Distinct(start)
    ensures var hosts := Resolve(start, keys, table).hosts;
      && hosts == Dedup(start + Known(keys, table))
      && |start| <= |hosts| && hosts[..|start|] == start
      && Distinct(hosts)
      && forall k :: k in keys && k in table ==> table[k] in hosts
  {
    ResolveDedup(start, keys, table);
    ResolveExtends(start, keys, table);
    var known := Known(keys, table);
    DedupSpec(start + known);
    forall k | k in keys && k in table ensures table[k] in Dedup(start + known) {
      InDedup(start + known, table[k]);
    }
  }

  /** With the site and the default both in the table, neither among the
      environment hosts and the two distinct: the site's host comes before
      the default one, except for an old epoch, which swaps them. */
  lemma SiteOrder(start: seq<Host>, site: Option<string>, oldEpoch: bool, table: map<Option<string>, Host>)
    requires site in table && None in table && table[site] != table[None]
    requires table[site] !in start && table[None] !in start
    ensures Resolve(start, Lookups(site, oldEpoch), table).hosts ==
      start + if oldEpoch then [table[None], table[site]] else [table[site], table[None]]
  {
    var keys := Lookups(site, oldEpoch);
    ResolveTwo(start, keys, table);
  }

  /** `Resolve` over two lookups, step by step. */
  lemma ResolveTwo(start: seq<Host>, keys: seq<Option<string>>, table: map<Option<string>, Host>)
    requires |keys| == 2
    ensures Resolve(start, keys, table) == Step(Step(Resolution(start, 0), keys[0], table), keys[1], table)
  {
    var first := keys[..1];
    assert first[..0] == [] && first[0] == keys[0];
    assert Resolve(start, first, table) == Step(Resolution(start, 0), keys[0], table);
  }

  /** One warning exactly when the epoch is current, the site is not in the
      table and no environment list was read; none otherwise. */
  lemma Warning(site: Option<string>, env: Option<string>, environ: map<string, string>,
                oldEpoch: bool, table: map<Option<string>, Host>)
    requires None in table
    requires ResolutionOrder(site, env, environ, oldEpoch, table).Ok?
    ensures ResolutionOrder(site, env, environ, oldEpoch, table).value.warnings ==
      if !oldEpoch && site !in table && !EnvGiven(env, environ) then 1 else 0
  {
    var start := EnvList(env, environ).value;
    if EnvGiven(env, environ) {
      ServerListNonEmpty(environ[env.value]);
    }
    var keys := Lookups(site, oldEpoch);
    ResolveTwo(start, keys, table);
  }

  const Test1: Host := ("test1.ligo.org", Some(80))
  const Test2: Host := ("test2.ligo.org", Some(43))
  const Test: Host := ("test.ligo.org", None)

  lemma RenderTest1()
    ensures Renderable(Test1) && FormatHost(Test1) == "test1.ligo.org:80"
  {
    assert NatToString(80) == "80";
  }

  lemma RenderTest2()
    ensures Renderable(Test2) && FormatHost(Test2) == "test2.ligo.org:43"
  {
    assert NatToString(43) == "43";
  }

  lemma RenderTest()
    ensures Renderable(Test) && FormatHost(Test) == "test.ligo.org"
  {
  }

  lemma JoinTwo()
    ensures Renderable(Test1) && Renderable(Test2) &&
      Join(FormatList([Test1, Test2]), ',') == "test1.ligo.org:80,test2.ligo.org:43"
  {
    RenderTest1();
    RenderTest2();
    var hs := [Test1, Test2];
    assert FormatList(hs) == ["test1.ligo.org:80", "test2.ligo.org:43"];
  }

  /** The two-host list of the tests. */
  lemma TwoHostList()
    ensures ServerList("test1.ligo.org:80,test2.ligo.org:43") == Ok([Test1, Test2])
  {
    RenderTest1();
    RenderTest2();
    var hs := [Test1, Test2];
    ServerListRoundTrip(hs);
    JoinTwo();
    assert Dedup(hs) == hs;
  }

  lemma JoinFour()
    ensures Renderable(Test1) && Renderable(Test2) && Renderable(Test) &&
      Join(FormatList([Test1, Test2, Test, Test2]), ',') ==
      "test1.ligo.org:80,test2.ligo.org:43,test.ligo.org,test2.ligo.org:43"
  {
    RenderTest1();
    RenderTest2();
    RenderTest();
    var hs := [Test1, Test2, Test, Test2];
    var ts := FormatList(hs);
    assert ts == ["test1.ligo.org:80", "test2.ligo.org:43", "test.ligo.org", "test2.ligo.org:43"];
    JoinFourParts(ts[0], ts[1], ts[2], ts[3], ',');
    FourTokens();
  }

  lemma FourTokens()
    ensures "test1.ligo.org:80" + [','] + "test2.ligo.org:43" + [','] + "test.ligo.org" + [','] + "test2.ligo.org:43"
      == "test1.ligo.org:80,test2.ligo.org:43,test.ligo.org,test2.ligo.org:43"
  {
    TokensFront();
    TokensBack();
    TokensJoined();
  }

  lemma TokensFront()
    ensures "test1.ligo.org:80" + [','] + "test2.ligo.org:43" == "test1.ligo.org:80,test2.ligo.org:43"
  {
  }

  lemma TokensBack()
    ensures "test.ligo.org" + [','] + "test2.ligo.org:43" == "test.ligo.org,test2.ligo.org:43"
  {
  }

  lemma TokensJoined()
    ensures "test1.ligo.org:80,test2.ligo.org:43" + [','] + "test.ligo.org,test2.ligo.org:43"
      == "test1.ligo.org:80,test2.ligo.org:43,test.ligo.org,test2.ligo.org:43"
  {
  }

  lemma JoinFourParts(a: string, b: string, c: string, d: string, sep: char)
    ensures Join([a, b, c, d], sep) == a + [sep] + b + [sep] + c + [sep] + d
  {
    var ts := [a, b, c, d];
    assert ts[1..][1..] == [c, d] && ts[1..] == [b, c, d];
    assert Join([c, d], sep) == c + [sep] + d by {
      assert [c, d][1..] == [d];
    }
  }

  /** The repeated `test2.ligo.org:43` of the tests is kept once, at its
      first place. */
  lemma RepeatedHostList()
    ensures ServerList("test1.ligo.org:80,test2.ligo.org:43,test.ligo.org,test2.ligo.org:43")
      == Ok([Test1, Test2, Test])
  {
    var hs := [Test1, Test2, Test, Test2];
    JoinFour();
    ServerListRoundTrip(hs);
    var kept := [Test1, Test2, Test];
    assert Distinct(kept);
    DedupDistinct(kept);
    assert hs == kept + [Test2];
    DedupSnoc(kept, Test2);
  }

  /** `parse_nds_env` as the tests patch the environment: one variable set,
      the default one or another. */
  lemma ParseNdsEnvExamples()
    ensures EnvHosts(map[DefaultEnv := "test1.ligo.org:80,test2.ligo.org:43"], DefaultEnv)
      == Ok([Test1, Test2])
    ensures EnvHosts(map[DefaultEnv := "test1.ligo.org:80,test2.ligo.org:43,test.ligo.org,test2.ligo.org:43"], DefaultEnv)
      == Ok([Test1, Test2, Test])
    ensures EnvHosts(map["TESTENV" := "test1.ligo.org:80,test2.ligo.org:43"], "TESTENV")
      == Ok([Test1, Test2])
  {
    TwoHostList();
    RepeatedHostList();
  }

  /** The table entries the tests pin: the default host, and the host of
      the Livingston site `L1`. */
  const DefaultHost: Host := ("nds.ligo.caltech.edu", Some(31200))
  const LivingstonHost: Host := ("nds.ligo-la.caltech.edu", Some(31200))
  const PinnedTable: map<Option<string>, Host> := map[None := DefaultHost, Some("L1") := LivingstonHost]

  const TwoHosts := "test1.ligo.org:80,test2.ligo.org:43"

  lemma PinnedEntries()
    ensures None in PinnedTable && PinnedTable[None] == DefaultHost
    ensures Some("L1") in PinnedTable && PinnedTable[Some("L1")] == LivingstonHost
    ensures Some("X1") !in PinnedTable
  {
  }

  /** The environment list, once it is known, is what the lookups extend. */
  lemma ResolutionFrom(site: Option<string>, env: Option<string>, environ: map<string, string>,
                       oldEpoch: bool, table: map<Option<string>, Host>, start: seq<Host>)
    requires EnvList(env, environ) == Ok(start)
    ensures ResolutionOrder(site, env, environ, oldEpoch, table) == Ok(Resolve(start, Lookups(site, oldEpoch), table))
  {
  }

  /** A variable set to the two test hosts. */
  lemma EnvTwoHosts(environ: map<string, string>, name: string)
    requires name != "" && name in environ && environ[name] == TwoHosts
    ensures EnvList(Some(name), environ) == Ok([Test1, Test2])
  {
    TwoHostList();
  }

  lemma ResolveWithoutSite()
    ensures Resolve([], Lookups(None, false), PinnedTable) == Resolution([DefaultHost], 0)
    ensures Resolve([Test1, Test2], Lookups(None, false), PinnedTable) == Resolution([Test1, Test2, DefaultHost], 0)
  {
    PinnedEntries();
    ResolveTwo([], Lookups(None, false), PinnedTable);
    ResolveTwo([Test1, Test2], Lookups(None, false), PinnedTable);
  }

  lemma ResolveLivingston()
    ensures Resolve([], Lookups(Some("L1"), false), PinnedTable) == Resolution([LivingstonHost, DefaultHost], 0)
    ensures Resolve([], Lookups(Some("L1"), true), PinnedTable) == Resolution([DefaultHost, LivingstonHost], 0)
    ensures Resolve([Test1, Test2], Lookups(Some("L1"), false), PinnedTable)
      == Resolution([Test1, Test2, LivingstonHost, DefaultHost], 0)
  {
    PinnedEntries();
    ResolveTwo([], Lookups(Some("L1"), false), PinnedTable);
    ResolveTwo([], Lookups(Some("L1"), true), PinnedTable);
    ResolveTwo([Test1, Test2], Lookups(Some("L1"), false), PinnedTable);
  }

  lemma ResolveUnknownSite()
    ensures Resolve([], Lookups(Some("X1"), false), PinnedTable) == Resolution([DefaultHost], 1)
    ensures Resolve([Test1, Test2], Lookups(Some("X1"), false), PinnedTable).warnings == 0
  {
    PinnedEntries();
    ResolveTwo([], Lookups(Some("X1"), false), PinnedTable);
    ResolveTwo([Test1, Test2], Lookups(Some("X1"), false), PinnedTable);
  }

  /** Without an environment list: the default host alone, or after the
      site's host. */
  lemma ResolutionWithoutEnv(environ: map<string, string>)
    ensures ResolutionOrder(None, None, environ, false, PinnedTable) == Ok(Resolution([DefaultHost], 0))
    ensures ResolutionOrder(Some("L1"), None, environ, false, PinnedTable)
      == Ok(Resolution([LivingstonHost, DefaultHost], 0))
  {
    ResolveWithoutSite();
    ResolveLivingston();
  }

  /** The default variable holds the two test hosts: they come first. */
  lemma ResolutionWithDefaultEnv(environ: map<string, string>)
    requires DefaultEnv in environ && environ[DefaultEnv] == TwoHosts
    ensures ResolutionOrder(None, Some(DefaultEnv), environ, false, PinnedTable)
      == Ok(Resolution([Test1, Test2, DefaultHost], 0))
    ensures ResolutionOrder(Some("L1"), Some(DefaultEnv), environ, false, PinnedTable)
      == Ok(Resolution([Test1, Test2, LivingstonHost, DefaultHost], 0))
  {
    EnvTwoHosts(environ, DefaultEnv);
    ResolveWithoutSite();
    ResolveLivingston();
    ResolutionFrom(None, Some(DefaultEnv), environ, false, PinnedTable, [Test1, Test2]);
    ResolutionFrom(Some("L1"), Some(DefaultEnv), environ, false, PinnedTable, [Test1, Test2]);
  }

  /** A variable named by the caller is read instead. */
  lemma ResolutionWithNamedEnv(environ: map<string, string>)
    requires "TESTENV" in environ && environ["TESTENV"] == TwoHosts
    ensures ResolutionOrder(None, Some("TESTENV"), environ, false, PinnedTable)
      == Ok(Resolution([Test1, Test2, DefaultHost], 0))
  {
    EnvTwoHosts(environ, "TESTENV");
    ResolveWithoutSite();
    ResolutionFrom(None, Some("TESTENV"), environ, false, PinnedTable, [Test1, Test2]);
  }

  /** An old epoch puts the default host before the site's; a current one
      keeps the environment hosts, then the site's, then the default. */
  lemma ResolutionByEpoch(environ: map<string, string>)
    requires "TESTENV" in environ && environ["TESTENV"] == TwoHosts
    ensures ResolutionOrder(Some("L1"), None, environ, true, PinnedTable)
      == Ok(Resolution([DefaultHost, LivingstonHost], 0))
    ensures ResolutionOrder(Some("L1"), Some("TESTENV"), environ, false, PinnedTable)
      == Ok(Resolution([Test1, Test2, LivingstonHost, DefaultHost], 0))
  {
    EnvTwoHosts(environ, "TESTENV");
    ResolveLivingston();
    ResolutionFrom(Some("L1"), Some("TESTENV"), environ, false, PinnedTable, [Test1, Test2]);
  }

  /** An unknown site warns once without an environment list, and not at
      all with one. */
  lemma ResolutionWarning(environ: map<string, string>)
    requires "TESTENV" in environ && environ["TESTENV"] == TwoHosts
    ensures ResolutionOrder(Some("X1"), None, environ, false, PinnedTable) == Ok(Resolution([DefaultHost], 1))
    ensures ResolutionOrder(Some("X1"), Some("TESTENV"), environ, false, PinnedTable).Ok?
    ensures ResolutionOrder(Some("X1"), Some("TESTENV"), environ, false, PinnedTable).value.warnings == 0
  {
    EnvTwoHosts(environ, "TESTENV");
    ResolveUnknownSite();
    ResolutionFrom(Some("X1"), Some("TESTENV"), environ, false, PinnedTable, [Test1, Test2]);
  }
}
