/** `NumpyTypeEnum`: an enumeration whose members each stand for the numpy
    scalar type named by the member's name in lower case (`INT16` stands for
    `numpy.int16`). Its `find` accepts a member's integer value, its name in
    any case, or a numpy type / dtype, identified here by its type name. */
module NumpyTypeEnum {
  import opened Results
  import opened Text

  datatype Member = Member(name: string, value: int)

  /** An enumeration class: its `__name__` and its members in definition order. */
  datatype TypeEnum = TypeEnum(className: string, members: seq<Member>)

  /** What `find` can be given. `ByType(t)` is a numpy scalar type, a dtype or
      a Python type whose dtype name is `t` (`numpy.int16`, `dtype("int16")`,
      and `float` as `ByType("float64")`). */
  datatype Key = ByValue(value: int) | ByText(text: string) | ByType(typeName: string)

  /** The `ValueError` raised when nothing matches: the argument as `repr`
      shows it, and the class name. */
  datatype NotValid = NotValid(shown: string, className: string)

  /** `.type` / `.dtype` of a member: the numpy type named by its lower-cased name. */
  function TypeName(m: Member): (t: string)
    ensures |t| == |m.name|
    ensures Lower(t) == t
  {
    LowerIdempotent(m.name);
    Lower(m.name)
  }

  predicate Matches(m: Member, k: Key) {
    match k
    case ByValue(v) => m.value == v
    case ByText(s) => Lower(s) == TypeName(m)
    case ByType(t) => t == TypeName(m)
  }

  /** `repr` of the argument: an integer bare, a string in single quotes,
      a dtype as `dtype('<name>')`. */
  function Shown(k: Key): (r: string)
    ensures k.ByValue? ==> ParseInt(r) == Some(k.value)
    ensures k.ByText? ==> |r| >= 2 && Unescape(r[1..|r| - 1]) == k.text
    ensures k.ByType? ==> |r| >= 9 && r[..6] == "dtype(" && r[|r| - 1] == ')' && Unescape(r[7..|r| - 2]) == k.typeName
  {
    match k
    case ByValue(v) => IntToString(v)
    case ByText(s) =>
      ReprRoundTrip(s);
      Repr(s)
    case ByType(t) =>
      ReprRoundTrip(t);
      var r := "dtype(" + Repr(t) + ")";
      assert r[7..|r| - 2] == Repr(t)[1..|Repr(t)| - 1];
      r
  }

  /** The exception text of a failed lookup: the key as shown, then the
      class it is not a member of. */
  function Message(e: NotValid): (r: string)
    ensures |r| == |e.shown| + 16 + |e.className|
    ensures r[..|e.shown|] == e.shown && r[|r| - |e.className|..] == e.className
  {
    var r := e.shown + " is not a valid " + e.className;
    assert r[..|e.shown|] == e.shown;
    assert r[|r| - |e.className|..] == e.className;
    r
  }

  /** Names are distinct even after lower-casing, and values are distinct, so
      every key names at most one member. */
  predicate WellFormed(e: TypeEnum) {
    forall i, j :: 0 <= i < j < |e.members| ==>
      e.members[i].value != e.members[j].value && TypeName(e.members[i]) != TypeName(e.members[j])
  }

  /** The first member of `ms` matching `k`. */
  function Search(ms: seq<Member>, k: Key): (r: Option<Member>)
    ensures r.Some? ==> r.value in ms && Matches(r.value, k)
    ensures r.None? <==> forall i :: 0 <= i < |ms| ==> !Matches(ms[i], k)
  {
    if ms == [] then None
    else
      var n := |ms| - 1;
      var r := Search(ms[..n], k);
      assert forall i :: 0 <= i < n ==> ms[i] == ms[..n][i];
      if r.Some? then r else if Matches(ms[n], k) then Some(ms[n]) else None
  }

  /** `cls.find(k)`: the member `k` names, or the `ValueError` that names `k`
      and the class. */
  function Find(e: TypeEnum, k: Key): (r: Result<Member, NotValid>)
    ensures r.Ok? ==> r.value in e.members && Matches(r.value, k)
    ensures r.Err? <==> forall i :: 0 <= i < |e.members| ==> !Matches(e.members[i], k)
    ensures r.Err? ==> r.error == NotValid(Shown(k), e.className)
  {
    match Search(e.members, k)
    case Some(m) => Ok(m)
    case None => Err(NotValid(Shown(k), e.className))
  }

  /** In a well-formed enumeration a key names one member at most. */
  lemma KeyUnique(e: TypeEnum, i: nat, j: nat, k: Key)
    requires WellFormed(e) && i < |e.members| && j < |e.members|
    requires Matches(e.members[i], k) && Matches(e.members[j], k)
    ensures i == j
  {
  }

  /** A key that matches a member of a well-formed enumeration finds it. */
  lemma FindMatching(e: TypeEnum, i: nat, k: Key)
    requires WellFormed(e) && i < |e.members| && Matches(e.members[i], k)
    ensures Find(e, k) == Ok(e.members[i])
  {
    var r := Find(e, k);
    var j :| 0 <= j < |e.members| && e.members[j] == r.value;
    KeyUnique(e, i, j, k);
  }

  /** Every member is found back from its value, its name as written, its
      name lower-cased and its numpy type name. */
  lemma {:induction false} FindMember(e: TypeEnum, i: nat)
    requires WellFormed(e) && i < |e.members|
    ensures Find(e, ByValue(e.members[i].value)) == Ok(e.members[i])
    ensures Find(e, ByText(e.members[i].name)) == Ok(e.members[i])
    ensures Find(e, ByText(TypeName(e.members[i]))) == Ok(e.members[i])
    ensures Find(e, ByType(TypeName(e.members[i]))) == Ok(e.members[i])
  {
    var m := e.members[i];
    FindMatching(e, i, ByValue(m.value));
    FindMatching(e, i, ByText(m.name));
    FindMatching(e, i, ByText(TypeName(m)));
    FindMatching(e, i, ByType(TypeName(m)));
  }

  /** The test enumeration: `INT16 = 100`, `FLOAT32 = 200`. */
  const MyInt16 := Member("INT16", 100)
  const MyFloat32 := Member("FLOAT32", 200)
  const MyEnum := TypeEnum("_MyEnum", [MyInt16, MyFloat32])

  lemma MyEnumNames()
    ensures TypeName(MyInt16) == "int16" && TypeName(MyFloat32) == "float32"
  {
    assert Lower("INT16") == "int16";
    assert Lower("FLOAT32") == "float32";
  }

  lemma MyEnumFacts()
    ensures WellFormed(MyEnum)
    ensures TypeName(MyInt16) == "int16"
    ensures Find(MyEnum, ByText("INT16")) == Ok(MyInt16)
    ensures Find(MyEnum, ByText("int16")) == Ok(MyInt16)
    ensures Find(MyEnum, ByType("int16")) == Ok(MyInt16)
    ensures Find(MyEnum, ByValue(100)) == Ok(MyInt16)
  {
    MyEnumNames();
    FindMember(MyEnum, 0);
  }

  /** The key `"blah"` names no member, and the error says so. The key is
      a parameter so that the lookup is reasoned about symbolically. */
  lemma MyEnumError(k: Key)
    requires k == ByText("blah")
    ensures Find(MyEnum, k).Err?
    ensures Message(Find(MyEnum, k).error) == "'blah'" + " is not a valid " + "_MyEnum"
  {
    NoMemberBlah(k);
    BlahMessage();
  }

  lemma NoMemberBlah(k: Key)
    requires k == ByText("blah")
    ensures Find(MyEnum, k) == Err(NotValid("'blah'", "_MyEnum"))
  {
    NoMatchBlah(k);
    ShownBlah();
  }

  lemma NoMatchBlah(k: Key)
    requires k == ByText("blah")
    ensures forall i :: 0 <= i < |MyEnum.members| ==> !Matches(MyEnum.members[i], k)
  {
    MyEnumNames();
    assert |Lower(k.text)| == 4;
    assert MyEnum.members == [MyInt16, MyFloat32];
    assert !Matches(MyInt16, k) && !Matches(MyFloat32, k);
  }

  lemma ShownBlah()
    ensures Shown(ByText("blah")) == "'blah'"
  {
  }

  lemma BlahMessage()
    ensures Message(NotValid("'blah'", "_MyEnum")) == "'blah'" + " is not a valid " + "_MyEnum"
  {
  }
}
