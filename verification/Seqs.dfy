/** Filtering and repetition-free lists. */
module Seqs {

  function Filter<T>(keep: T --> bool, xs: seq<T>): (ys: seq<T>)
    requires forall x | x in xs :: keep.requires(x)
    ensures forall x | x in xs :: keep(x) ==> x in ys
    ensures forall x | x in ys :: x in xs && keep(x)
  {
    if xs == [] then [] else
      var rest := Filter(keep, xs[1..]);
      if keep(xs[0]) then [xs[0]] + rest else rest
  }

  ghost predicate NoDup<T>(xs: seq<T>) {
    forall i, j | 0 <= i < j < |xs| :: xs[i] != xs[j]
  }

  lemma NoDupParts<T>(xs: seq<T>, ys: seq<T>)
    ensures NoDup(xs + ys) <==> NoDup(xs) && NoDup(ys) && forall x | x in xs :: x !in ys
  {
    var all := xs + ys;
    if NoDup(all) {
      assert forall i | 0 <= i < |xs| :: all[i] == xs[i];
      assert forall i | 0 <= i < |ys| :: all[|xs| + i] == ys[i];
    }
    if NoDup(xs) && NoDup(ys) && forall x | x in xs :: x !in ys {
      forall i, j | 0 <= i < j < |all| ensures all[i] != all[j] {
        if i < |xs| <= j { assert all[i] in xs && all[j] in ys; }
      }
    }
  }

  lemma {:induction false} FilterNoDup<T>(keep: T --> bool, xs: seq<T>)
    requires forall x | x in xs :: keep.requires(x)
    requires NoDup(xs)
    ensures NoDup(Filter(keep, xs))
  {
    if xs != [] {
      assert forall i | 0 <= i < |xs[1..]| :: xs[1..][i] == xs[i + 1];
      FilterNoDup(keep, xs[1..]);
      assert xs[0] !in xs[1..];
    }
  }

  /** A filtered list keeps the order of the list it came from. */
  lemma {:induction false} FilterOrder<T>(keep: T --> bool, xs: seq<T>, i: nat, j: nat) returns (m: nat, n: nat)
    requires forall x | x in xs :: keep.requires(x)
    requires i < j < |Filter(keep, xs)|
    ensures m < n < |xs| && xs[m] == Filter(keep, xs)[i] && xs[n] == Filter(keep, xs)[j]
  {
    var rest := Filter(keep, xs[1..]);
    if keep(xs[0]) {
      if i == 0 {
        assert rest[j - 1] in xs[1..];
        var k :| 0 <= k < |xs[1..]| && xs[1..][k] == rest[j - 1];
        m, n := 0, k + 1;
      } else {
        m, n := FilterOrder(keep, xs[1..], i - 1, j - 1);
        m, n := m + 1, n + 1;
      }
    } else {
      m, n := FilterOrder(keep, xs[1..], i, j);
      m, n := m + 1, n + 1;
    }
  }

  lemma {:induction false} FilterAppend<T>(keep: T -> bool, xs: seq<T>, x: T)
    ensures Filter(keep, xs + [x]) == Filter(keep, xs) + if keep(x) then [x] else []
  {
    if xs == [] {
      assert xs + [x] == [x];
    } else {
      assert (xs + [x])[1..] == xs[1..] + [x];
      FilterAppend(keep, xs[1..], x);
    }
  }

  /** Filtering in a loop: keep or drop one element after another. */
  method Retain<T>(keep: T -> bool, xs: seq<T>) returns (ys: seq<T>)
    ensures ys == Filter(keep, xs)
  {
    ys := [];
    var i := 0;
    while i < |xs|
      invariant 0 <= i <= |xs|
      invariant ys == Filter(keep, xs[..i])
    {
      assert xs[..i + 1] == xs[..i] + [xs[i]];
      FilterAppend(keep, xs[..i], xs[i]);
      if keep(xs[i]) {
        ys := ys + [xs[i]];
      }
      i := i + 1;
    }
    assert xs[..i] == xs;
  }
}
