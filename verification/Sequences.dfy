// A function along a sequence, and what it does to permutations.
module Sequences {

  function Mapped<A, B>(f: A -> B, xs: seq<A>): (ys: seq<B>)
    ensures |ys| == |xs|
    ensures forall i :: 0 <= i < |xs| ==> ys[i] == f(xs[i])
  {
    seq(|xs|, i requires 0 <= i < |xs| => f(xs[i]))
  }

  lemma MappedConcat<A, B>(f: A -> B, xs: seq<A>, ys: seq<A>)
    ensures Mapped(f, xs + ys) == Mapped(f, xs) + Mapped(f, ys)
  {
  }

  lemma {:induction false} MappedPermutes<A, B>(f: A -> B, xs: seq<A>, ys: seq<A>)
    requires multiset(xs) == multiset(ys)
    ensures multiset(Mapped(f, xs)) == multiset(Mapped(f, ys))
  {
    hide Mapped;
    if xs == [] {
      assert |multiset(ys)| == 0;
      assert ys == [];
    } else {
      var j := IndexOf(ys, xs[0]);
      TakeBoth(xs, ys, j);
      MappedPermutes(f, xs[1..], ys[..j] + ys[j + 1..]);
      MappedTake(f, xs, 0);
      MappedTake(f, ys, j);
      assert xs[..0] + xs[1..] == xs[1..];
    }
  }

  lemma IndexOf<A>(xs: seq<A>, x: A) returns (j: nat)
    requires x in multiset(xs)
    ensures j < |xs| && xs[j] == x
  {
    j :| j < |xs| && xs[j] == x;
  }

  lemma Take<A>(xs: seq<A>, j: nat)
    requires j < |xs|
    ensures multiset(xs) == multiset(xs[..j] + xs[j + 1..]) + multiset{xs[j]}
  {
    assert xs == xs[..j] + [xs[j]] + xs[j + 1..];
  }

  lemma TakeBoth<A>(xs: seq<A>, ys: seq<A>, j: nat)
    requires xs != [] && j < |ys| && ys[j] == xs[0] && multiset(xs) == multiset(ys)
    ensures multiset(xs[1..]) == multiset(ys[..j] + ys[j + 1..])
  {
    Take(xs, 0);
    Take(ys, j);
    assert xs[..0] + xs[1..] == xs[1..];
    SameRest(multiset(xs[1..]), multiset(ys[..j] + ys[j + 1..]), xs[0]);
  }

  lemma SameRest<A>(xs: multiset<A>, ys: multiset<A>, x: A)
    requires xs + multiset{x} == ys + multiset{x}
    ensures xs == ys
  {
    assert xs == xs + multiset{x} - multiset{x};
    assert ys == ys + multiset{x} - multiset{x};
  }

  lemma MappedTake<A, B>(f: A -> B, xs: seq<A>, j: nat)
    requires j < |xs|
    ensures multiset(Mapped(f, xs)) == multiset(Mapped(f, xs[..j] + xs[j + 1..])) + multiset{f(xs[j])}
  {
    var ys := Mapped(f, xs);
    Take(ys, j);
    assert Mapped(f, xs[..j] + xs[j + 1..]) == ys[..j] + ys[j + 1..];
  }
}
