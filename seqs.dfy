/** Order-preserving de-duplication: the first occurrence of every element
    is kept, later ones are dropped. */
module Seqs {
  predicate Distinct<T(==)>(s: seq<T>) {
    forall i, j :: 0 <= i < j < |s| ==> s[i] != s[j]
  }

  function Dedup<T(==)>(s: seq<T>): (r: seq<T>)
    ensures forall i :: 0 <= i < |r| ==> r[i] in s
    ensures |r| <= |s|
    decreases |s|
  {
    if s == [] then []
    else
      var r := Dedup(s[..|s| - 1]);
      if s[|s| - 1] in r then r else r + [s[|s| - 1]]
  }

  /** Nothing is lost and nothing is repeated. */
  lemma {:induction false} DedupSpec<T>(s: seq<T>)
    ensures forall i :: 0 <= i < |s| ==> s[i] in Dedup(s)
    ensures Distinct(Dedup(s))
    decreases |s|
  {
    if s != [] {
      var n := |s| - 1;
      var p := s[..n];
      DedupSpec(p);
      var r := Dedup(p);
      forall i | 0 <= i < |s| ensures s[i] in Dedup(s) {
        if i < n {
          assert s[i] == p[i];
        }
      }
    }
  }

  /** Membership survives de-duplication, in both directions. */
  lemma InDedup<T>(s: seq<T>, x: T)
    ensures x in Dedup(s) <==> x in s
  {
    DedupSpec(s);
    var r := Dedup(s);
    if x in s {
      var j :| 0 <= j < |s| && s[j] == x;
      assert s[j] in r;
    }
    if x in r {
      var j :| 0 <= j < |r| && r[j] == x;
      assert r[j] in s;
    }
  }

  /** The position of the first occurrence of `x` in `s`. */
  function FirstIndex<T(==)>(s: seq<T>, x: T): (i: nat)
    requires x in s
    ensures i < |s| && s[i] == x
    ensures forall j :: 0 <= j < i ==> s[j] != x
  {
    if s[0] == x then 0 else 1 + FirstIndex(s[1..], x)
  }

  lemma FirstIndexPrefix<T>(s: seq<T>, n: nat, x: T)
    requires n <= |s| && x in s[..n]
    ensures x in s && FirstIndex(s, x) == FirstIndex(s[..n], x)
  {
    var k := FirstIndex(s[..n], x);
    assert s[k] == x;
    assert forall j :: 0 <= j < k ==> s[j] == s[..n][j];
  }

  /** The kept elements appear in the order of their first occurrences. */
  lemma {:induction false} DedupOrder<T>(s: seq<T>, i: nat, j: nat)
    requires i < j < |Dedup(s)|
    ensures FirstIndex(s, Dedup(s)[i]) < FirstIndex(s, Dedup(s)[j])
    decreases |s|
  {
    var n := |s| - 1;
    var p := s[..n];
    var r := Dedup(p);
    FirstIndexPrefix(s, n, Dedup(s)[i]);
    if j < |r| {
      DedupOrder(p, i, j);
      FirstIndexPrefix(s, n, Dedup(s)[j]);
    } else {
      InDedup(p, s[n]);
      assert Dedup(s)[j] == s[n] && s[n] !in p;
      assert FirstIndex(s, s[n]) == n by {
        forall k | 0 <= k < n ensures s[k] != s[n] {
          assert s[k] == p[k];
        }
      }
    }
  }

  /** De-duplicating an extended sequence extends the de-duplicated one. */
  lemma DedupSnoc<T>(s: seq<T>, x: T)
    ensures Dedup(s + [x]) == if x in s then Dedup(s) else Dedup(s) + [x]
  {
    assert (s + [x])[..|s|] == s;
    InDedup(s, x);
  }

  /** A sequence without repeats is its own de-duplication. */
  lemma {:induction false} DedupDistinct<T>(s: seq<T>)
    requires Distinct(s)
    ensures Dedup(s) == s
    decreases |s|
  {
    if s != [] {
      var n := |s| - 1;
      DedupDistinct(s[..n]);
      assert s[n] !in s[..n];
      assert s[..n] + [s[n]] == s;
    }
  }

  /** De-duplicating a prefix first changes nothing about the whole. */
  lemma {:induction false} DedupAppend<T>(a: seq<T>, b: seq<T>)
    ensures Dedup(Dedup(a) + b) == Dedup(a + b)
    decreases |b|
  {
    if b == [] {
      DedupTwice(a);
      assert Dedup(a) + b == Dedup(a) && a + b == a;
    } else {
      var n := |b| - 1;
      DedupAppend(a, b[..n]);
      DedupAppendStep(a, b[..n], b[n]);
      assert b[..n] + [b[n]] == b;
    }
  }

  /** De-duplicating twice is de-duplicating once. */
  lemma DedupTwice<T>(a: seq<T>)
    ensures Dedup(Dedup(a)) == Dedup(a)
  {
    DedupSpec(a);
    DedupDistinct(Dedup(a));
  }

  /** One more element after the prefix keeps the two sides equal. */
  lemma DedupAppendStep<T>(a: seq<T>, p: seq<T>, x: T)
    requires Dedup(Dedup(a) + p) == Dedup(a + p)
    ensures Dedup(Dedup(a) + (p + [x])) == Dedup(a + (p + [x]))
  {
    var u, v := Dedup(a) + p, a + p;
    assert Dedup(a) + (p + [x]) == u + [x] && a + (p + [x]) == v + [x];
    DedupSnoc(u, x);
    DedupSnoc(v, x);
    InDedup(a, x);
    assert x in u <==> x in v;
  }
}
