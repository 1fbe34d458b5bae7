/**
 Sizes of sets: subsets, images under one-to-one maps, and elements of lists.
 */
module Sets {

  function Upto(n: nat): (r: set<nat>)
    ensures |r| == n && forall i :: i in r <==> 0 <= i < n
  {
    if n == 0 then {} else Upto(n - 1) + {n - 1}
  }

  lemma {:induction false} SubsetSize(a: set<nat>, b: set<nat>)
    requires a <= b
    ensures |a| <= |b|
    decreases |a|
  {
    if a != {} {
      var x :| x in a;
      SubsetSize(a - {x}, b - {x});
    }
  }

  predicate OneToOne(f: map<nat, nat>) {
    forall x, y :: x in f && y in f && x != y ==> f[x] != f[y]
  }

  function Image(a: set<nat>, f: map<nat, nat>): set<nat>
    requires a <= f.Keys
  {
    set x | x in a :: f[x]
  }

  lemma {:induction false} ImageSize(a: set<nat>, f: map<nat, nat>)
    requires a <= f.Keys && OneToOne(f)
    ensures |Image(a, f)| == |a|
    decreases |a|
  {
    if a != {} {
      var x :| x in a;
      ImageSize(a - {x}, f);
      assert Image(a, f) == Image(a - {x}, f) + {f[x]};
    }
  }

  /** Distinct numbers below `n` for the elements of a set: there are at most `n` of them. */
  lemma Pigeonhole(f: map<nat, nat>, n: nat)
    requires OneToOne(f) && forall x :: x in f ==> f[x] < n
    ensures |f.Keys| <= n
  {
    ImageSize(f.Keys, f);
    SubsetSize(Image(f.Keys, f), Upto(n));
  }

  predicate Distinct(xs: seq<nat>) {
    forall i, j :: 0 <= i < j < |xs| ==> xs[i] != xs[j]
  }

  function Elements(xs: seq<nat>): set<nat> {
    set x | x in xs
  }

  lemma {:induction false} ListSize(xs: seq<nat>)
    requires Distinct(xs)
    ensures |Elements(xs)| == |xs|
    decreases |xs|
  {
    if xs != [] {
      ListSize(xs[1..]);
      assert xs[0] !in xs[1..];
      assert Elements(xs) == Elements(xs[1..]) + {xs[0]};
    }
  }
}
