/** Folds over sequences shared by the parsers' line loops. */
module Seqs {
  import opened Types

  /** The present values of a sequence of options, in order: what a loop that
      pushes only the matches builds. */
  function Somes<T>(xs: seq<Option<T>>): seq<T>
  {
    if xs == [] then []
    else
      var ys := Somes(xs[..|xs| - 1]);
      match xs[|xs| - 1]
      case None => ys
      case Some(y) => ys + [y]
  }

  lemma SomesStep<T>(xs: seq<Option<T>>, i: nat)
    requires i < |xs|
    ensures xs[i].None? ==> Somes(xs[..i + 1]) == Somes(xs[..i])
    ensures xs[i].Some? ==> Somes(xs[..i + 1]) == Somes(xs[..i]) + [xs[i].value]
  {
    assert xs[..i + 1][..i] == xs[..i];
  }

  lemma SomesWhole<T>(xs: seq<Option<T>>)
    ensures Somes(xs[..|xs|]) == Somes(xs)
  {
    assert xs[..|xs|] == xs;
  }

  lemma {:induction false} SomesAppend<T>(a: seq<Option<T>>, b: seq<Option<T>>)
    ensures Somes(a + b) == Somes(a) + Somes(b)
  {
    if b == [] {
      assert a + b == a;
    } else {
      var b' := b[..|b| - 1];
      assert (a + b)[..|a + b| - 1] == a + b';
      SomesAppend(a, b');
    }
  }

  /** Every value kept is one of the options. */
  lemma {:induction false} SomesFrom<T>(xs: seq<Option<T>>, y: T)
    requires y in Somes(xs)
    ensures exists i :: 0 <= i < |xs| && xs[i] == Some(y)
  {
    var n := |xs| - 1;
    SomesStep(xs, n);
    assert xs[..n + 1] == xs;
    if y in Somes(xs[..n]) {
      SomesFrom(xs[..n], y);
      var i :| 0 <= i < n && xs[..n][i] == Some(y);
      assert xs[i] == Some(y);
    }
  }

  /** When every option is present, all values are kept. */
  lemma {:induction false} SomesAll<T>(xs: seq<Option<T>>)
    requires forall i :: 0 <= i < |xs| ==> xs[i].Some?
    ensures |Somes(xs)| == |xs| && forall i :: 0 <= i < |xs| ==> Somes(xs)[i] == xs[i].value
  {
    if xs != [] {
      SomesAll(xs[..|xs| - 1]);
    }
  }

  /** `xs.map(f)`. */
  function Map<A, B>(f: A -> B, xs: seq<A>): (r: seq<B>)
    ensures |r| == |xs| && forall i :: 0 <= i < |xs| ==> r[i] == f(xs[i])
  {
    seq(|xs|, i requires 0 <= i < |xs| => f(xs[i]))
  }

  lemma MapPrepend<A, B>(f: A -> B, x: A, xs: seq<A>)
    ensures Map(f, [x] + xs) == [f(x)] + Map(f, xs)
  {
    var a := Map(f, [x] + xs);
    var b := [f(x)] + Map(f, xs);
    forall i | 0 <= i < |a|
      ensures a[i] == b[i]
    {
      if i > 0 {
        assert ([x] + xs)[i] == xs[i - 1];
      }
    }
  }

  /** A first element that maps to nothing adds nothing. */
  lemma SomesLeadingNone<A, T>(f: A -> Option<T>, x: A, xs: seq<A>)
    requires f(x).None?
    ensures Somes(Map(f, [x] + xs)) == Somes(Map(f, xs))
  {
    MapPrepend(f, x, xs);
    var none: seq<Option<T>> := [f(x)];
    SomesAppend(none, Map(f, xs));
    assert Somes(none) == [];
  }

  /** The first position at or after `i` that holds true: where a lazy
      quantifier stops. */
  function FirstTrue(bs: seq<bool>, i: nat): (r: Option<nat>)
    ensures r.Some? ==> i <= r.value < |bs| && bs[r.value]
                        && forall j :: i <= j < r.value ==> !bs[j]
    ensures r.None? ==> forall j :: i <= j < |bs| ==> !bs[j]
    decreases |bs| - i
  {
    if i >= |bs| then None
    else if bs[i] then Some(i)
    else FirstTrue(bs, i + 1)
  }

  /** The first true entry is at `k` when `k` is true and none before is. */
  lemma FirstTrueAt(bs: seq<bool>, k: nat)
    requires k < |bs| && bs[k] && forall j :: 0 <= j < k ==> !bs[j]
    ensures FirstTrue(bs, 0) == Some(k)
  {
  }

  lemma FirstTrueNone(bs: seq<bool>)
    requires forall j :: 0 <= j < |bs| ==> !bs[j]
    ensures FirstTrue(bs, 0) == None
  {
  }
}
