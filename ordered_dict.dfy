/** An insertion-ordered dictionary from option names to string values, as
    Python's `OrderedDict`/`dict` behaves: assigning an existing key keeps its
    position, assigning a new key appends it, popping removes it. */
module OrderedDict {
  import opened Results

  type Dict = seq<(string, string)>

  function Keys(d: Dict): (r: seq<string>)
    ensures |r| == |d|
    ensures forall i :: 0 <= i < |d| ==> r[i] == d[i].0
  {
    if d == [] then [] else [d[0].0] + Keys(d[1..])
  }

  /** No key occurs twice. */
  predicate Valid(d: Dict) {
    forall i, j :: 0 <= i < j < |d| ==> d[i].0 != d[j].0
  }

  predicate Contains(d: Dict, k: string) {
    k in Keys(d)
  }

  /** `d.get(k)`: the value of the first entry with key `k`. */
  function Get(d: Dict, k: string): (r: Option<string>)
    ensures r.None? <==> !Contains(d, k)
  {
    if d == [] then None
    else if d[0].0 == k then Some(d[0].1)
    else Get(d[1..], k)
  }

  /** In a valid dictionary, `Get` returns the value stored beside the key. */
  lemma {:induction false} GetAt(d: Dict, i: nat)
    requires Valid(d) && i < |d|
    ensures Get(d, d[i].0) == Some(d[i].1)
  {
    if i > 0 {
      assert Valid(d[1..]);
      GetAt(d[1..], i - 1);
    }
  }

  /** `d.get(k, default)`. */
  function GetOr(d: Dict, k: string, default: string): (r: string)
    ensures Contains(d, k) ==> Some(r) == Get(d, k)
    ensures !Contains(d, k) ==> r == default
  {
    match Get(d, k)
    case Some(v) => v
    case None => default
  }

  /** `d[k] = v`. */
  function Set(d: Dict, k: string, v: string): (r: Dict)
  {
    if d == [] then [(k, v)]
    else if d[0].0 == k then [(k, v)] + d[1..]
    else [d[0]] + Set(d[1..], k, v)
  }

  lemma {:induction false} SetKeys(d: Dict, k: string, v: string)
    ensures Keys(Set(d, k, v)) == if Contains(d, k) then Keys(d) else Keys(d) + [k]
  {
    if d != [] && d[0].0 != k {
      SetKeys(d[1..], k, v);
    }
  }

  lemma {:induction false} SetGet(d: Dict, k: string, v: string, k': string)
    ensures Get(Set(d, k, v), k') == if k' == k then Some(v) else Get(d, k')
  {
    if d != [] && d[0].0 != k {
      SetGet(d[1..], k, v, k');
    }
  }

  lemma {:induction false} SetValid(d: Dict, k: string, v: string)
    requires Valid(d)
    ensures Valid(Set(d, k, v))
  {
    var r := Set(d, k, v);
    SetKeys(d, k, v);
    forall i, j | 0 <= i < j < |r| ensures r[i].0 != r[j].0 {
      assert Keys(r)[i] == r[i].0 && Keys(r)[j] == r[j].0;
      if j < |d| {
        assert Keys(d)[i] == d[i].0 && Keys(d)[j] == d[j].0;
      } else {
        assert Keys(d)[i] == d[i].0;
      }
    }
  }

  /** `Get`, `Contains` and `Set` on dictionaries of at most two entries. */
  lemma SmallDicts(a: string, x: string, b: string, y: string, k: string, v: string)
    ensures Set([], k, v) == [(k, v)]
    ensures Contains([(a, x)], k) <==> a == k
    ensures Set([(a, x)], k, v) == if a == k then [(k, v)] else [(a, x), (k, v)]
    ensures Get([(a, x), (b, y)], k) == if a == k then Some(x) else if b == k then Some(y) else None
  {
    assert Keys([(a, x)]) == [a];
    assert [(a, x)][1..] == [];
    assert [(a, x), (b, y)][1..] == [(b, y)];
    assert [(b, y)][1..] == [];
  }

  /** `d.pop(k, None)` with the popped value discarded. */
  function Pop(d: Dict, k: string): (r: Dict)
    ensures Keys(r) == FilterOut(Keys(d), k)
  {
    if d == [] then []
    else if d[0].0 == k then Pop(d[1..], k)
    else [d[0]] + Pop(d[1..], k)
  }

  /** The keys with every occurrence of `k` removed. */
  function FilterOut(ks: seq<string>, k: string): (r: seq<string>)
    ensures k !in r
    ensures forall x :: x in r <==> x in ks && x != k
    ensures k !in ks ==> r == ks
  {
    if ks == [] then [] else (if ks[0] == k then [] else [ks[0]]) + FilterOut(ks[1..], k)
  }

  lemma {:induction false} PopGet(d: Dict, k: string, k': string)
    ensures Get(Pop(d, k), k') == if k' == k then None else Get(d, k')
  {
    if d != [] {
      PopGet(d[1..], k, k');
    }
  }

  /** Popping a missing key changes nothing. */
  lemma {:induction false} PopAbsent(d: Dict, k: string)
    requires !Contains(d, k)
    ensures Pop(d, k) == d
  {
    if d != [] {
      assert Keys(d) == [d[0].0] + Keys(d[1..]);
      PopAbsent(d[1..], k);
    }
  }

  lemma {:induction false} PopValid(d: Dict, k: string)
    requires Valid(d)
    ensures Valid(Pop(d, k))
  {
    if d != [] {
      assert Valid(d[1..]);
      PopValid(d[1..], k);
      var r := Pop(d, k);
      if d[0].0 != k {
        assert Keys(r) == [d[0].0] + FilterOut(Keys(d[1..]), k);
        assert d[0].0 !in Keys(d[1..]);
        forall j | 1 <= j < |r| ensures r[0].0 != r[j].0 {
          assert Keys(r)[j] == r[j].0;
          assert Keys(r)[j] in FilterOut(Keys(d[1..]), k);
        }
      }
    }
  }

  /** `d.update(e)`: every entry of `e`, in order, assigned into `d`. */
  function Update(d: Dict, e: Dict): (r: Dict)
    decreases |e|
  {
    if e == [] then d else Update(Set(d, e[0].0, e[0].1), e[1..])
  }

  /** After an update every key holds the value the update gave it, else its old one. */
  lemma {:induction false} UpdateGet(d: Dict, e: Dict, k: string)
    requires Valid(e)
    ensures Get(Update(d, e), k) == if Contains(e, k) then Get(e, k) else Get(d, k)
    decreases |e|
  {
    if e != [] {
      var d' := Set(d, e[0].0, e[0].1);
      assert Valid(e[1..]);
      UpdateGet(d', e[1..], k);
      SetGet(d, e[0].0, e[0].1, k);
      assert Keys(e) == [e[0].0] + Keys(e[1..]);
      if k == e[0].0 {
        assert k !in Keys(e[1..]);
      }
    }
  }

  lemma {:induction false} UpdateValid(d: Dict, e: Dict)
    requires Valid(d)
    ensures Valid(Update(d, e))
    decreases |e|
  {
    if e != [] {
      SetValid(d, e[0].0, e[0].1);
      UpdateValid(Set(d, e[0].0, e[0].1), e[1..]);
    }
  }
}
