/** Sums, concatenation, distinctness and permutation of sequences. */
module Seqs {

  function Map<A, B>(f: A -> B, s: seq<A>): (r: seq<B>)
    ensures |r| == |s| && forall i :: 0 <= i < |s| ==> r[i] == f(s[i])
  {
    seq(|s|, i requires 0 <= i < |s| => f(s[i]))
  }

  function Sum<T>(f: T -> int, s: seq<T>): int {
    if s == [] then 0 else f(s[0]) + Sum(f, s[1..])
  }

  function Concat<T>(ls: seq<seq<T>>): seq<T> {
    if ls == [] then [] else ls[0] + Concat(ls[1..])
  }

  ghost predicate DistinctBy<T, K(!new)>(f: T -> K, s: seq<T>) {
    forall i, j :: 0 <= i < j < |s| ==> f(s[i]) != f(s[j])
  }

  function Remove<T>(s: seq<T>, k: nat): seq<T>
    requires k < |s|
  {
    s[..k] + s[k + 1..]
  }

  lemma RemoveMultiset<T>(s: seq<T>, k: nat)
    requires k < |s|
    ensures multiset(s) == multiset(Remove(s, k)) + multiset{s[k]}
  {
    assert s == s[..k] + [s[k]] + s[k + 1..];
  }

  lemma {:induction false} SumAppend<T>(f: T -> int, a: seq<T>, b: seq<T>)
    ensures Sum(f, a + b) == Sum(f, a) + Sum(f, b)
  {
    if a == [] {
      assert a + b == b;
    } else {
      assert (a + b)[1..] == a[1..] + b;
      SumAppend(f, a[1..], b);
    }
  }

  lemma SumRemove<T>(f: T -> int, s: seq<T>, k: nat)
    requires k < |s|
    ensures Sum(f, s) == Sum(f, Remove(s, k)) + f(s[k])
  {
    assert s == s[..k] + ([s[k]] + s[k + 1..]);
    SumAppend(f, s[..k], [s[k]] + s[k + 1..]);
    SumAppend(f, [s[k]], s[k + 1..]);
    SumAppend(f, s[..k], s[k + 1..]);
  }

  lemma SumUpdate<T>(f: T -> int, s: seq<T>, k: nat, x: T)
    requires k < |s|
    ensures Sum(f, s[k := x]) == Sum(f, s) - f(s[k]) + f(x)
  {
    SumRemove(f, s, k);
    SumRemove(f, s[k := x], k);
    assert Remove(s[k := x], k) == Remove(s, k);
  }

  lemma {:induction false} SumPerm<T>(f: T -> int, a: seq<T>, b: seq<T>)
    requires multiset(a) == multiset(b)
    ensures Sum(f, a) == Sum(f, b)
  {
    if a == [] {
      assert |multiset(b)| == 0;
    } else {
      assert a == [a[0]] + a[1..];
      assert a[0] in multiset(b);
      var k :| 0 <= k < |b| && b[k] == a[0];
      RemoveMultiset(b, k);
      assert multiset(a[1..]) == multiset(a) - multiset{a[0]} == multiset(Remove(b, k));
      SumPerm(f, a[1..], Remove(b, k));
      SumRemove(f, b, k);
    }
  }

  lemma MapAppend<A, B>(f: A -> B, s: seq<A>, x: A)
    ensures Map(f, s + [x]) == Map(f, s) + [f(x)]
  {
  }

  lemma MapUpdate<A, B>(f: A -> B, s: seq<A>, k: nat, x: A)
    requires k < |s|
    ensures Map(f, s[k := x]) == Map(f, s)[k := f(x)]
  {
  }

  lemma SameMembers<T>(a: seq<T>, b: seq<T>)
    requires multiset(a) == multiset(b)
    ensures forall x :: x in a <==> x in b
  {
    assert forall x :: x in a <==> x in multiset(a);
    assert forall x :: x in b <==> x in multiset(b);
  }

  lemma MapMap<A, B, C>(f: A -> B, g: B -> C, h: A -> C, s: seq<A>)
    requires forall i :: 0 <= i < |s| ==> h(s[i]) == g(f(s[i]))
    ensures Map(h, s) == Map(g, Map(f, s))
  {
  }

  lemma MapIn<A, B>(f: A -> B, s: seq<A>, y: B)
    ensures y in Map(f, s) <==> exists x :: x in s && f(x) == y
  {
    if y in Map(f, s) {
      var i :| 0 <= i < |s| && Map(f, s)[i] == y;
      assert s[i] in s;
    }
    if x :| x in s && f(x) == y {
      var i :| 0 <= i < |s| && s[i] == x;
      assert Map(f, s)[i] == y;
    }
  }

  lemma HeadMultiset<T>(s: seq<T>)
    requires s != []
    ensures multiset(s) == multiset{s[0]} + multiset(s[1..])
  {
    assert s == [s[0]] + s[1..];
  }

  lemma MapRemove<A, B>(f: A -> B, s: seq<A>, k: nat)
    requires k < |s|
    ensures multiset(Map(f, s)) == multiset(Map(f, Remove(s, k))) + multiset{f(s[k])}
  {
    RemoveMultiset(Map(f, s), k);
    assert Remove(Map(f, s), k) == Map(f, Remove(s, k));
  }

  lemma {:induction false} MapPerm<A, B>(f: A -> B, a: seq<A>, b: seq<A>)
    requires multiset(a) == multiset(b)
    ensures multiset(Map(f, a)) == multiset(Map(f, b))
  {
    if a == [] {
      assert |multiset(b)| == 0;
    } else {
      RemoveMultiset(a, 0);
      assert a[0] in multiset(b);
      var k :| 0 <= k < |b| && b[k] == a[0];
      RemoveMultiset(b, k);
      assert multiset(Remove(a, 0)) == multiset(a) - multiset{a[0]} == multiset(Remove(b, k));
      MapPerm(f, Remove(a, 0), Remove(b, k));
      MapRemove(f, a, 0);
      MapRemove(f, b, k);
    }
  }

  lemma {:induction false} ConcatAppend<T>(a: seq<seq<T>>, b: seq<seq<T>>)
    ensures Concat(a + b) == Concat(a) + Concat(b)
  {
    if a == [] {
      assert a + b == b;
    } else {
      assert (a + b)[1..] == a[1..] + b;
      ConcatAppend(a[1..], b);
    }
  }

  lemma {:induction false} ConcatIn<T>(ls: seq<seq<T>>, x: T)
    ensures x in Concat(ls) <==> exists p :: 0 <= p < |ls| && x in ls[p]
  {
    if ls != [] {
      ConcatIn(ls[1..], x);
      if p :| 0 <= p < |ls| && x in ls[p] {
        assert p > 0 ==> x in ls[1..][p - 1];
      }
      if p :| 0 <= p < |ls| - 1 && x in ls[1..][p] {
        assert x in ls[p + 1];
      }
    }
  }

  lemma {:induction false} ConcatOfEmpty<T>(ls: seq<seq<T>>)
    requires forall p :: 0 <= p < |ls| ==> ls[p] == []
    ensures Concat(ls) == []
  {
    if ls != [] {
      ConcatOfEmpty(ls[1..]);
    }
  }

  lemma {:induction false} MapConcat<A, B>(f: A -> B, ls: seq<seq<A>>, ms: seq<seq<B>>)
    requires |ms| == |ls| && forall i :: 0 <= i < |ls| ==> ms[i] == Map(f, ls[i])
    ensures Map(f, Concat(ls)) == Concat(ms)
  {
    if ls != [] {
      MapConcat(f, ls[1..], ms[1..]);
      assert Map(f, ls[0] + Concat(ls[1..])) == Map(f, ls[0]) + Map(f, Concat(ls[1..]));
    }
  }

  lemma ConcatAt<T>(ls: seq<seq<T>>, p: nat)
    requires p < |ls|
    ensures Concat(ls) == Concat(ls[..p]) + ls[p] + Concat(ls[p + 1..])
  {
    assert ls == ls[..p] + ls[p..];
    ConcatAppend(ls[..p], ls[p..]);
    assert ls[p..][1..] == ls[p + 1..];
  }

  /** Replacing one list changes the concatenation by exactly that list, as multisets. */
  lemma ConcatUpdate<T>(ls: seq<seq<T>>, p: nat, x: seq<T>)
    requires p < |ls|
    ensures multiset(Concat(ls[p := x])) + multiset(ls[p]) == multiset(Concat(ls)) + multiset(x)
  {
    ConcatAt(ls, p);
    ConcatAt(ls[p := x], p);
    assert ls[p := x][..p] == ls[..p] && ls[p := x][p + 1..] == ls[p + 1..];
  }

  lemma ConcatExtend<T>(ls: seq<seq<T>>, p: nat, more: seq<T>)
    requires p < |ls|
    ensures multiset(Concat(ls[p := ls[p] + more])) == multiset(Concat(ls)) + multiset(more)
  {
    var longer := ls[p := ls[p] + more];
    ConcatAt(ls, p);
    ConcatAt(longer, p);
    assert longer[..p] == ls[..p] && longer[p + 1..] == ls[p + 1..];
  }

  lemma ConcatRemove<T>(ls: seq<seq<T>>, p: nat)
    requires p < |ls|
    ensures multiset(Concat(Remove(ls, p))) + multiset(ls[p]) == multiset(Concat(ls))
  {
    ConcatAt(ls, p);
    ConcatAppend(ls[..p], ls[p + 1..]);
  }

  lemma ConcatSnoc<T>(ls: seq<seq<T>>, l: seq<T>)
    ensures Concat(ls + [l]) == Concat(ls) + l
  {
    ConcatAppend(ls, [l]);
    assert Concat([l]) == l;
  }

  lemma {:induction false} ConcatDistinct<T, K(!new)>(f: T -> K, ls: seq<seq<T>>)
    requires forall p :: 0 <= p < |ls| ==> DistinctBy(f, ls[p])
    requires forall p, q, x, y :: 0 <= p < q < |ls| && x in ls[p] && y in ls[q] ==> f(x) != f(y)
    ensures DistinctBy(f, Concat(ls))
  {
    if ls != [] {
      ConcatDistinct(f, ls[1..]);
      forall x, y | x in ls[0] && y in Concat(ls[1..])
        ensures f(x) != f(y)
      {
        ConcatIn(ls[1..], y);
        var q :| 0 <= q < |ls| - 1 && y in ls[1..][q];
        assert y in ls[q + 1];
      }
    }
  }

  lemma {:induction false} DistinctCount<T, K(!new)>(f: T -> K, s: seq<T>, x: T)
    requires DistinctBy(f, s)
    ensures multiset(s)[x] <= 1
  {
    if s != [] {
      assert s == [s[0]] + s[1..];
      DistinctCount(f, s[1..], x);
      if x in s[1..] {
        var i :| 0 <= i < |s| - 1 && s[1..][i] == x;
        assert f(s[0]) != f(s[i + 1]);
      }
    }
  }

  lemma DistinctPerm<T, K(!new)>(f: T -> K, a: seq<T>, b: seq<T>)
    requires multiset(a) == multiset(b) && DistinctBy(f, a)
    ensures DistinctBy(f, b)
  {
    forall i, j | 0 <= i < j < |b|
      ensures f(b[i]) != f(b[j])
    {
      DistinctCount(f, a, b[i]);
      RemoveMultiset(b, j);
      assert Remove(b, j)[i] == b[i];
      assert b[i] in multiset(Remove(b, j));
      assert b[i] != b[j];
      assert b[i] in multiset(a) && b[j] in multiset(a);
      var k, l :| 0 <= k < |a| && 0 <= l < |a| && a[k] == b[i] && a[l] == b[j];
    }
  }

  lemma DistinctSameMembers<T, K(!new)>(f: T -> K, a: seq<T>, b: seq<T>)
    requires DistinctBy(f, a) && DistinctBy(f, b) && forall x :: x in a <==> x in b
    ensures multiset(a) == multiset(b)
  {
    forall x
      ensures multiset(a)[x] == multiset(b)[x]
    {
      DistinctCount(f, a, x);
      DistinctCount(f, b, x);
      assert x in a <==> x in multiset(a);
      assert x in b <==> x in multiset(b);
    }
  }
}
