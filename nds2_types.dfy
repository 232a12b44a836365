/** `Nds2ChannelType`: the NDS2 channel kinds as bit flags. Each member has a
    Python name (`MTREND`), a flag value (16) and the name the NDS2 protocol
    uses for it (`m-trend`). */
module Nds2ChannelType {
  import opened Results
  import opened Text
  import Flags
  import NumpyTypeEnum
  import Seqs

  datatype ChannelType = Unknown | Online | Raw | Rds | STrend | MTrend | TestPoint | Static

  /** The members in definition order. */
  const Members: seq<ChannelType> := [Unknown, Online, Raw, Rds, STrend, MTrend, TestPoint, Static]

  const ClassName := "Nds2ChannelType"

  function Name(t: ChannelType): string {
    match t
    case Unknown => "UNKNOWN"
    case Online => "ONLINE"
    case Raw => "RAW"
    case Rds => "RDS"
    case STrend => "STREND"
    case MTrend => "MTREND"
    case TestPoint => "TEST_POINT"
    case Static => "STATIC"
  }

  function Value(t: ChannelType): nat {
    match t
    case Unknown => 0
    case Online => 1
    case Raw => 2
    case Rds => 4
    case STrend => 8
    case MTrend => 16
    case TestPoint => 32
    case Static => 64
  }

  /** `.nds2name`. */
  function Nds2Name(t: ChannelType): string {
    match t
    case Unknown => "unknown"
    case Online => "online"
    case Raw => "raw"
    case Rds => "reduced"
    case STrend => "s-trend"
    case MTrend => "m-trend"
    case TestPoint => "test-pt"
    case Static => "static"
  }

  function Values(ts: seq<ChannelType>): (vs: seq<nat>)
    ensures |vs| == |ts|
    ensures forall i :: 0 <= i < |ts| ==> vs[i] == Value(ts[i])
  {
    if ts == [] then [] else Values(ts[..|ts| - 1]) + [Value(ts[|ts| - 1])]
  }

  /** `Nds2ChannelType.any()`. */
  function Any(): int {
    Flags.AnyMask(Values(Members))
  }

  /** The member values are zero followed by the flags 1 .. 64, so `any()`
      is the bitwise union of every member value, 127. */
  lemma AnyIsUnion()
    ensures Values(Members) == [0] + Flags.FlagValues(7)
    ensures Any() == Flags.Union(Values(Members))
  {
    assert Values(Members) == [0] + Flags.FlagValues(7) by {
      Flags.FlagValuesTo64();
    }
    Flags.AnyIsUnion(7);
  }

  lemma AnyValue()
    ensures Any() == 127
  {
    assert Values(Members) == [0, 1, 2, 4, 8, 16, 32, 64];
  }

  /** What `find` can be given: an integer value or a string. */
  datatype Query = ByValue(value: int) | ByText(text: string)

  /** The lower-case strings that name a member: its name lower-cased, its
      NDS2 name, and that NDS2 name without its hyphen (`mtrend`). */
  function TextKeys(t: ChannelType): seq<string> {
    match t
    case Unknown => ["unknown"]
    case Online => ["online"]
    case Raw => ["raw"]
    case Rds => ["rds", "reduced"]
    case STrend => ["strend", "s-trend"]
    case MTrend => ["mtrend", "m-trend"]
    case TestPoint => ["test_point", "test-pt", "testpt"]
    case Static => ["static"]
  }

  /** `s.replace('-', '')`. */
  function WithoutHyphens(s: string): (r: string)
    ensures '-' !in r && |r| <= |s|
  {
    if s == [] then [] else (if s[0] == '-' then [] else [s[0]]) + WithoutHyphens(s[1..])
  }

  /** The keys of a member are its name lower-cased, its NDS2 name and that
      NDS2 name with the hyphen dropped, in that order, repeats left out. */
  predicate KeyRule(t: ChannelType) {
    TextKeys(t) == Seqs.Dedup([Lower(Name(t)), Nds2Name(t), WithoutHyphens(Nds2Name(t))])
  }

  /** Every member's keys follow that rule. */
  lemma KeysRule(t: ChannelType)
    ensures KeyRule(t)
  {
    match t
    case Unknown => RuleUnknown();
    case Online => RuleOnline();
    case Raw => RuleRaw();
    case Rds => RuleRds();
    case STrend => RuleSTrend();
    case MTrend => RuleMTrend();
    case TestPoint => RuleTestPoint();
    case Static => RuleStatic();
  }

  lemma RuleUnknown()
    ensures KeyRule(Unknown)
  {
    var n := Nds2Name(Unknown);
    KeysUnknown();
    HyphenFree(n);
    DedupSame(n);
  }

  lemma RuleOnline()
    ensures KeyRule(Online)
  {
    var n := Nds2Name(Online);
    KeysOnline();
    HyphenFree(n);
    DedupSame(n);
  }

  lemma RuleRaw()
    ensures KeyRule(Raw)
  {
    var n := Nds2Name(Raw);
    KeysRaw();
    HyphenFree(n);
    DedupSame(n);
  }

  lemma RuleRds()
    ensures KeyRule(Rds)
  {
    var l, n := Lower(Name(Rds)), Nds2Name(Rds);
    KeysRds();
    HyphenFree(n);
    assert l[1] != n[1];
    DedupLastTwo(l, n);
  }

  lemma RuleSTrend()
    ensures KeyRule(STrend)
  {
    var l, n := Lower(Name(STrend)), Nds2Name(STrend);
    KeysSTrend();
    assert n == "s" + "-" + "trend" && l == "s" + "trend";
    HyphenOnce("s", "trend");
    assert l[1] != n[1];
    DedupOuterTwo(l, n);
  }

  lemma RuleMTrend()
    ensures KeyRule(MTrend)
  {
    var l, n := Lower(Name(MTrend)), Nds2Name(MTrend);
    KeysMTrend();
    assert n == "m" + "-" + "trend" && l == "m" + "trend";
    HyphenOnce("m", "trend");
    assert l[1] != n[1];
    DedupOuterTwo(l, n);
  }

  lemma RuleTestPoint()
    ensures KeyRule(TestPoint)
  {
    var l, n := Lower(Name(TestPoint)), Nds2Name(TestPoint);
    KeysTestPoint();
    assert n == "test" + "-" + "pt";
    HyphenOnce("test", "pt");
    var w := "test" + "pt";
    assert w == "testpt";
    assert l[4] != n[4] && l[4] != w[4] && n[4] != w[4];
    DedupNone(l, n, w);
  }

  lemma RuleStatic()
    ensures KeyRule(Static)
  {
    var n := Nds2Name(Static);
    KeysStatic();
    HyphenFree(n);
    DedupSame(n);
  }

  /** Three keys, all the same. */
  lemma DedupSame(a: string)
    ensures Seqs.Dedup([a, a, a]) == [a]
  {
    var s1: seq<string> := [a];
    assert s1 + [a] == [a, a];
    assert [a, a] + [a] == [a, a, a];
    assert s1[0] == a;
    Seqs.DedupSnoc(s1, a);
    Seqs.DedupSnoc([a, a], a);
    Seqs.DedupDistinct(s1);
  }

  /** Three keys, the last two the same. */
  lemma DedupLastTwo(a: string, b: string)
    requires a != b
    ensures Seqs.Dedup([a, b, b]) == [a, b]
  {
    var s2: seq<string> := [a, b];
    assert s2 + [b] == [a, b, b];
    assert s2[1] == b;
    Seqs.DedupSnoc(s2, b);
    Seqs.DedupDistinct(s2);
  }

  /** Three keys, the first and the last the same. */
  lemma DedupOuterTwo(a: string, b: string)
    requires a != b
    ensures Seqs.Dedup([a, b, a]) == [a, b]
  {
    var s2: seq<string> := [a, b];
    assert s2 + [a] == [a, b, a];
    assert s2[0] == a;
    Seqs.DedupSnoc(s2, a);
    Seqs.DedupDistinct(s2);
  }

  /** Three different keys. */
  lemma DedupNone(a: string, b: string, c: string)
    requires a != b && a != c && b != c
    ensures Seqs.Dedup([a, b, c]) == [a, b, c]
  {
    Seqs.DedupDistinct([a, b, c]);
  }

  lemma {:induction false} HyphenFree(s: string)
    requires '-' !in s
    ensures WithoutHyphens(s) == s
    decreases |s|
  {
    if s != [] {
      HyphenFree(s[1..]);
      assert [s[0]] + s[1..] == s;
    }
  }

  lemma {:induction false} HyphenOnce(a: string, b: string)
    requires '-' !in a && '-' !in b
    ensures WithoutHyphens(a + "-" + b) == a + b
    decreases |a|
  {
    if a == [] {
      assert ([] + "-" + b)[1..] == b;
      HyphenFree(b);
    } else {
      assert (a + "-" + b)[1..] == a[1..] + "-" + b;
      HyphenOnce(a[1..], b);
      assert [a[0]] + a[1..] + b == a + b;
    }
  }

  /** Every member but `UNKNOWN` is a single flag, and no two members share
      a value. */
  lemma MemberFlags(t: ChannelType)
    ensures Value(t) == 0 <==> t == Unknown
    ensures t != Unknown ==> Value(t) in Flags.FlagValues(7)
    ensures forall u :: Value(u) == Value(t) ==> u == t
  {
    Flags.FlagValuesTo64();
  }

  /** A string names a member when, lower-cased, it is one of the member's keys. */
  predicate Matches(t: ChannelType, q: Query) {
    match q
    case ByValue(v) => v == Value(t)
    case ByText(s) => Lower(s) in TextKeys(t)
  }

  /** The first member of `ts` that `q` names. */
  function Search(ts: seq<ChannelType>, q: Query): (r: Option<ChannelType>)
    ensures r.Some? ==> r.value in ts && Matches(r.value, q)
    ensures r.None? <==> forall i :: 0 <= i < |ts| ==> !Matches(ts[i], q)
  {
    if ts == [] then None
    else
      var n := |ts| - 1;
      var r := Search(ts[..n], q);
      assert forall i :: 0 <= i < n ==> ts[i] == ts[..n][i];
      assert r.Some? ==> r.value in ts by {
        if r.Some? {
          var j :| 0 <= j < n && ts[..n][j] == r.value;
          assert ts[j] == r.value;
        }
      }
      assert r.None? <==> forall i :: 0 <= i < n ==> !Matches(ts[i], q);
      if r.Some? then r else if Matches(ts[n], q) then Some(ts[n]) else None
  }

  lemma InMembers(t: ChannelType)
    ensures t in Members
  {
    match t
    case _ => {}
  }

  /** `repr` of the query. */
  function Shown(q: Query): (r: string)
    ensures q.ByValue? ==> ParseInt(r) == Some(q.value)
    ensures q.ByText? ==> |r| >= 2 && Unescape(r[1..|r| - 1]) == q.text
  {
    match q
    case ByValue(v) => IntToString(v)
    case ByText(s) =>
      ReprRoundTrip(s);
      Repr(s)
  }

  /** `Nds2ChannelType.find(q)`: the member `q` names, or the `ValueError`
      that names `q` and the class. */
  function Find(q: Query): (r: Result<ChannelType, NumpyTypeEnum.NotValid>)
    ensures r.Ok? ==> Matches(r.value, q)
    ensures r.Err? <==> forall t :: !Matches(t, q)
    ensures r.Err? ==> r.error == NumpyTypeEnum.NotValid(Shown(q), ClassName)
  {
    match Search(Members, q)
    case Some(t) => Ok(t)
    case None =>
      forall t ensures !Matches(t, q) {
        InMembers(t);
      }
      Err(NumpyTypeEnum.NotValid(Shown(q), ClassName))
  }

  /** The first key of every member is its name lower-cased; its NDS2 name,
      already lower case, is a key too. */
  lemma KeysOfMember(t: ChannelType)
    ensures Lower(Name(t)) == TextKeys(t)[0]
    ensures Lower(Nds2Name(t)) == Nds2Name(t) && Nds2Name(t) in TextKeys(t)
  {
    match t
    case Unknown => KeysUnknown();
    case Online => KeysOnline();
    case Raw => KeysRaw();
    case Rds => KeysRds();
    case STrend => KeysSTrend();
    case MTrend => KeysMTrend();
    case TestPoint => KeysTestPoint();
    case Static => KeysStatic();
  }

  lemma KeysUnknown()
    ensures Lower("UNKNOWN") == "unknown" && Lower("unknown") == "unknown"
  {
  }

  lemma KeysOnline()
    ensures Lower("ONLINE") == "online" && Lower("online") == "online"
  {
  }

  lemma KeysRaw()
    ensures Lower("RAW") == "raw" && Lower("raw") == "raw"
  {
  }

  lemma KeysRds()
    ensures Lower("RDS") == "rds" && Lower("reduced") == "reduced"
  {
  }

  lemma KeysSTrend()
    ensures Lower("STREND") == "strend" && Lower("s-trend") == "s-trend"
  {
  }

  lemma KeysMTrend()
    ensures Lower("MTREND") == "mtrend" && Lower("m-trend") == "m-trend"
  {
  }

  lemma KeysTestPoint()
    ensures Lower("TEST_POINT") == "test_point" && Lower("test-pt") == "test-pt"
  {
  }

  lemma KeysStatic()
    ensures Lower("STATIC") == "static" && Lower("static") == "static"
  {
  }

  /** No string names two members, and no value does. */
  lemma {:induction false} KeysUnique(t: ChannelType, u: ChannelType, q: Query)
    requires Matches(t, q) && Matches(u, q)
    ensures t == u
  {
  }

  /** Every member is found back from its value and from any string whose
      lower-case form is one of its keys. */
  lemma {:induction false} FindMember(t: ChannelType, s: string)
    ensures Find(ByValue(Value(t))) == Ok(t)
    ensures Lower(s) in TextKeys(t) ==> Find(ByText(s)) == Ok(t)
  {
    InMembers(t);
    assert Find(ByValue(Value(t))) == Ok(t) by {
      KeysUnique(t, Find(ByValue(Value(t))).value, ByValue(Value(t)));
    }
    if Lower(s) in TextKeys(t) {
      KeysUnique(t, Find(ByText(s)).value, ByText(s));
    }
  }

  /** The lookups the channel-type tests make. */
  lemma FindExamples()
    ensures Nds2Name(MTrend) == "m-trend"
    ensures Find(ByValue(16)) == Ok(MTrend)
    ensures Find(ByText("MTREND")) == Ok(MTrend)
    ensures Find(ByText("m-trend")) == Ok(MTrend)
    ensures Find(ByText("mtrend")) == Ok(MTrend)
  {
    KeysMTrend();
    FindMember(MTrend, "MTREND");
    FindMember(MTrend, "m-trend");
    assert Lower("mtrend") == "mtrend";
    FindMember(MTrend, "mtrend");
  }

  lemma FindSynonyms()
    ensures Find(ByText("rds")) == Ok(Rds)
    ensures Find(ByText("RDS")) == Ok(Rds)
    ensures Find(ByText("reduced")) == Ok(Rds)
    ensures Find(ByText("REDUCED")) == Ok(Rds)
  {
    KeysRds();
    assert Lower("rds") == "rds" && Lower("REDUCED") == "reduced";
    FindMember(Rds, "rds");
    FindMember(Rds, "RDS");
    FindMember(Rds, "reduced");
    FindMember(Rds, "REDUCED");
  }

  lemma NoMemberBlah()
    ensures forall t :: !Matches(t, ByText("blah"))
  {
    assert Lower("blah") == "blah";
  }

  /** The error the tests expect for an unknown name. */
  lemma FindError()
    ensures Find(ByText("blah")).Err?
    ensures NumpyTypeEnum.Message(Find(ByText("blah")).error) == "'blah'" + " is not a valid " + "Nds2ChannelType"
  {
    BlahNotFound();
    BlahShown();
    BlahMessage();
  }

  lemma BlahNotFound()
    ensures Find(ByText("blah")).Err?
  {
    NoMemberBlah();
  }

  lemma BlahShown()
    ensures Shown(ByText("blah")) == "'blah'"
  {
  }

  lemma BlahMessage()
    ensures NumpyTypeEnum.Message(NumpyTypeEnum.NotValid("'blah'", ClassName)) == "'blah'" + " is not a valid " + "Nds2ChannelType"
  {
  }
}

/** `Nds2DataType`: the NDS2 sample encodings as bit flags, a `NumpyTypeEnum`
    whose members stand for the numpy types of the same lower-cased name. */
module Nds2DataType {
  import opened Results
  import opened NumpyTypeEnum
  import Flags

  const Int16 := Member("INT16", 1)
  const Int32 := Member("INT32", 2)
  const Int64 := Member("INT64", 4)
  const Float32 := Member("FLOAT32", 8)
  const Float64 := Member("FLOAT64", 16)
  const Complex64 := Member("COMPLEX64", 32)
  const UInt32 := Member("UINT32", 64)

  const DataTypes := TypeEnum("Nds2DataType", [Int16, Int32, Int64, Float32, Float64, Complex64, UInt32])

  function Values(ms: seq<Member>): (vs: seq<int>)
    ensures |vs| == |ms|
    ensures forall i :: 0 <= i < |ms| ==> vs[i] == ms[i].value
  {
    if ms == [] then [] else Values(ms[..|ms| - 1]) + [ms[|ms| - 1].value]
  }

  /** `Nds2DataType.any()`. */
  function Any(): int {
    Flags.AnyMask(Values(DataTypes.members))
  }

  /** The member values are the flags 1 .. 64, so `any()` is their bitwise
      union, 127. */
  lemma AnyIsUnion()
    ensures Values(DataTypes.members) == Flags.FlagValues(7)
    ensures Any() == Flags.Union(Flags.FlagValues(7))
  {
    assert Values(DataTypes.members) == Flags.FlagValues(7) by {
      Flags.FlagValuesTo64();
    }
    Flags.AnyIsUnion(7);
  }

  lemma AnyValue()
    ensures Any() == 127
  {
    assert Values(DataTypes.members) == [1, 2, 4, 8, 16, 32, 64];
  }

  lemma NamesOfInts()
    ensures TypeName(Int16) == "int16" && TypeName(Int32) == "int32" && TypeName(Int64) == "int64"
  {
  }

  lemma NamesOfFloats()
    ensures TypeName(Float32) == "float32" && TypeName(Float64) == "float64"
  {
  }

  lemma NamesOfOthers()
    ensures TypeName(Complex64) == "complex64" && TypeName(UInt32) == "uint32"
  {
  }

  lemma {:induction false} WellFormedDataTypes()
    ensures WellFormed(DataTypes)
  {
    var ms := DataTypes.members;
    forall i, j | 0 <= i < j < |ms|
      ensures ms[i].value != ms[j].value && TypeName(ms[i]) != TypeName(ms[j])
    {
      DistinctPair(i, j);
    }
  }

  /** Members `i` and `j` differ in value and in type name. */
  lemma DistinctPair(i: nat, j: nat)
    requires i < j < |DataTypes.members|
    ensures DataTypes.members[i].value != DataTypes.members[j].value
    ensures TypeName(DataTypes.members[i]) != TypeName(DataTypes.members[j])
  {
    NamesOfInts();
    NamesOfFloats();
    NamesOfOthers();
    if j == 1 {
    } else if j == 2 {
    } else if j == 3 {
    } else if j == 4 {
    } else if j == 5 {
    } else {
    }
  }

  /** The lookups the shared type-enum tests make on `Nds2DataType`. */
  lemma FindExamples()
    ensures Find(DataTypes, ByText("INT16")) == Ok(Int16)
    ensures Find(DataTypes, ByText("int16")) == Ok(Int16)
    ensures Find(DataTypes, ByType("int16")) == Ok(Int16)
    ensures Find(DataTypes, ByValue(1)) == Ok(Int16)
  {
    NamesOfInts();
    WellFormedDataTypes();
    FindMember(DataTypes, 0);
  }

  /** Python's `float`, whose dtype is `float64`, finds `FLOAT64`. */
  lemma FindFloat()
    ensures Find(DataTypes, ByType("float64")) == Ok(Float64)
  {
    NamesOfFloats();
    WellFormedDataTypes();
    FindMatching(DataTypes, 4, ByType("float64"));
  }
}
