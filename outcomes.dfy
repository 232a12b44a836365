/** Running a sequence of steps that may each fail, the way a Python loop
    runs until its first exception: the first failure is the outcome, or
    else every step's value, in order. */
module Outcomes {
  import opened Results

  /** The values of all steps, or the first step's error. */
  function All<T, E>(rs: seq<Result<T, E>>): (r: Result<seq<T>, E>)
    ensures r.Ok? ==> |r.value| == |rs|
    decreases |rs|
  {
    if rs == [] then Ok([])
    else
      var init :- All(rs[..|rs| - 1]);
      var x :- rs[|rs| - 1];
      Ok(init + [x])
  }

  /** The values of all steps, each a run of values, one after another, or
      the first step's error. */
  function Concat<T, E>(rs: seq<Result<seq<T>, E>>): Result<seq<T>, E>
    decreases |rs|
  {
    if rs == [] then Ok([])
    else
      var init :- Concat(rs[..|rs| - 1]);
      var xs :- rs[|rs| - 1];
      Ok(init + xs)
  }

  /** One more step of `All`: its value is appended, or its error ends the run. */
  lemma {:induction false} AllStep<T, E>(rs: seq<Result<T, E>>, j: nat, acc: seq<T>)
    requires j < |rs| && All(rs[..j]) == Ok(acc)
    ensures rs[j].Ok? ==> All(rs[..j + 1]) == Ok(acc + [rs[j].value])
    ensures rs[j].Err? ==> All(rs) == Err(rs[j].error)
  {
    assert rs[..j + 1][..j] == rs[..j];
    if rs[j].Err? {
      AllErrorPersists(rs, j + 1);
    }
  }

  lemma {:induction false} AllErrorPersists<T, E>(rs: seq<Result<T, E>>, j: nat)
    requires j <= |rs| && All(rs[..j]).Err?
    ensures All(rs) == All(rs[..j])
    decreases |rs| - j
  {
    if j < |rs| {
      assert rs[..j + 1][..j] == rs[..j];
      AllErrorPersists(rs, j + 1);
    } else {
      assert rs[..j] == rs;
    }
  }

  /** `All` succeeds exactly when every step does, and then holds every
      step's value at its position. */
  lemma {:induction false} AllOk<T, E>(rs: seq<Result<T, E>>)
    ensures All(rs).Ok? <==> forall i :: 0 <= i < |rs| ==> rs[i].Ok?
    ensures All(rs).Ok? ==> forall i :: 0 <= i < |rs| ==> rs[i] == Ok(All(rs).value[i])
    decreases |rs|
  {
    if rs != [] {
      var n := |rs| - 1;
      AllOk(rs[..n]);
      assert forall i :: 0 <= i < n ==> rs[..n][i] == rs[i];
    }
  }

  /** A failed `All` reports the first failing step. */
  lemma {:induction false} AllFirstError<T, E>(rs: seq<Result<T, E>>)
    requires All(rs).Err?
    ensures exists i :: 0 <= i < |rs| && rs[i] == Err(All(rs).error) &&
                        forall j :: 0 <= j < i ==> rs[j].Ok?
    decreases |rs|
  {
    var n := |rs| - 1;
    assert forall i :: 0 <= i < n ==> rs[..n][i] == rs[i];
    if All(rs[..n]).Err? {
      AllFirstError(rs[..n]);
      var i :| 0 <= i < n && rs[..n][i] == Err(All(rs[..n]).error) &&
        forall j :: 0 <= j < i ==> rs[..n][j].Ok?;
      assert rs[i] == rs[..n][i];
    } else {
      AllOk(rs[..n]);
    }
  }

  /** One more step of `Concat`. */
  lemma {:induction false} ConcatStep<T, E>(rs: seq<Result<seq<T>, E>>, j: nat, acc: seq<T>)
    requires j < |rs| && Concat(rs[..j]) == Ok(acc)
    ensures rs[j].Ok? ==> Concat(rs[..j + 1]) == Ok(acc + rs[j].value)
    ensures rs[j].Err? ==> Concat(rs) == Err(rs[j].error)
  {
    assert rs[..j + 1][..j] == rs[..j];
    if rs[j].Err? {
      ConcatErrorPersists(rs, j + 1);
    }
  }

  lemma {:induction false} ConcatErrorPersists<T, E>(rs: seq<Result<seq<T>, E>>, j: nat)
    requires j <= |rs| && Concat(rs[..j]).Err?
    ensures Concat(rs) == Concat(rs[..j])
    decreases |rs| - j
  {
    if j < |rs| {
      assert rs[..j + 1][..j] == rs[..j];
      ConcatErrorPersists(rs, j + 1);
    } else {
      assert rs[..j] == rs;
    }
  }

  /** `Concat` of two runs: it succeeds exactly when both do, the first
      run's values first. */
  lemma {:induction false} ConcatAppend<T, E>(a: seq<Result<seq<T>, E>>, b: seq<Result<seq<T>, E>>)
    ensures Concat(a + b).Ok? <==> Concat(a).Ok? && Concat(b).Ok?
    ensures Concat(a + b).Ok? ==> Concat(a + b).value == Concat(a).value + Concat(b).value
    decreases |b|
  {
    if b == [] {
      assert a + b == a;
    } else {
      var n := |b| - 1;
      assert (a + b)[..|a + b| - 1] == a + b[..n];
      assert (a + b)[|a + b| - 1] == b[n];
      ConcatAppend(a, b[..n]);
    }
  }

  lemma ConcatSingle<T, E>(r: Result<seq<T>, E>)
    ensures Concat([r]) == r
  {
    assert [r][..0] == [];
    if r.Ok? {
      assert [] + r.value == r.value;
    }
  }

  /** Steps that each give one value: `Concat` gives one value per step. */
  lemma {:induction false} ConcatSingletons<T, E>(rs: seq<Result<seq<T>, E>>)
    requires Concat(rs).Ok?
    requires forall i :: 0 <= i < |rs| && rs[i].Ok? ==> |rs[i].value| == 1
    ensures |Concat(rs).value| == |rs|
    ensures forall i :: 0 <= i < |rs| ==> rs[i].Ok? && Concat(rs).value[i] == rs[i].value[0]
    decreases |rs|
  {
    if rs != [] {
      var n := |rs| - 1;
      var p := rs[..n];
      assert forall i :: 0 <= i < n ==> p[i] == rs[i];
      ConcatSingletons(p);
    }
  }

  /** `Concat` succeeds exactly when every step does. */
  lemma {:induction false} ConcatOk<T, E>(rs: seq<Result<seq<T>, E>>)
    ensures Concat(rs).Ok? <==> forall i :: 0 <= i < |rs| ==> rs[i].Ok?
    decreases |rs|
  {
    if rs != [] {
      var n := |rs| - 1;
      ConcatOk(rs[..n]);
      assert forall i :: 0 <= i < n ==> rs[..n][i] == rs[i];
    }
  }

  /** A failed `Concat` reports the first failing step. */
  lemma {:induction false} ConcatFirstError<T, E>(rs: seq<Result<seq<T>, E>>)
    requires Concat(rs).Err?
    ensures exists i :: 0 <= i < |rs| && rs[i] == Err(Concat(rs).error) &&
                        forall j :: 0 <= j < i ==> rs[j].Ok?
    decreases |rs|
  {
    var n := |rs| - 1;
    assert forall i :: 0 <= i < n ==> rs[..n][i] == rs[i];
    if Concat(rs[..n]).Err? {
      ConcatFirstError(rs[..n]);
      var i :| 0 <= i < n && rs[..n][i] == Err(Concat(rs[..n]).error) &&
        forall j :: 0 <= j < i ==> rs[..n][j].Ok?;
      assert rs[i] == rs[..n][i];
    } else {
      ConcatOk(rs[..n]);
    }
  }
}
