/** Coverage holes between the declared ranges of the archive servers. */
module Holes {
  import opened Options

  /** The blocks from `begin` up to but not including `end`. */
  datatype Range = Range(begin: nat, end: nat)

  datatype Server = Server(enabled: bool, frozen: bool, range: Option<Range>)

  predicate In(r: Range, b: nat) { r.begin <= b < r.end }

  ghost predicate Covers(rs: seq<Range>, b: nat) {
    exists r | r in rs :: In(r, b)
  }

  /** An enabled archive server with a range that holds some block. */
  predicate Declares(s: Server) {
    s.enabled && s.frozen && s.range.Some? && s.range.value.begin < s.range.value.end
  }

  /** At or after the lowest begin and before the highest end that is declared, and in no
      declared range. */
  ghost predicate Missing(servers: seq<Server>, b: nat) {
    && (exists s | s in servers :: Declares(s) && s.range.value.begin <= b)
    && (exists s | s in servers :: Declares(s) && b < s.range.value.end)
    && !exists s | s in servers :: Declares(s) && In(s.range.value, b)
  }

  /** At or after the lowest begin and before the highest end of the ranges. */
  ghost predicate Spanned(rs: seq<Range>, b: nat) {
    (exists r | r in rs :: r.begin <= b) && (exists r | r in rs :: b < r.end)
  }

  ghost predicate NonEmpty(rs: seq<Range>) {
    forall r | r in rs :: r.begin < r.end
  }

  /** Non-empty ranges in ascending order with a gap between any two. */
  ghost predicate Apart(rs: seq<Range>) {
    NonEmpty(rs) && forall i, j | 0 <= i < j < |rs| :: rs[i].end < rs[j].begin
  }

  // ------------------------------------------------------------- the collection

  ghost predicate IsDeclared(servers: seq<Server>, rs: seq<Range>) {
    && (forall r | r in rs :: exists s | s in servers :: Declares(s) && s.range.value == r)
    && (forall s | s in servers :: Declares(s) ==> s.range.value in rs)
  }

  method Collect(servers: seq<Server>) returns (declared: seq<Range>)
    ensures NonEmpty(declared) && IsDeclared(servers, declared)
  {
    declared := [];
    var i := 0;
    while i < |servers|
      invariant 0 <= i <= |servers|
      invariant NonEmpty(declared) && IsDeclared(servers[..i], declared)
    {
      var s := servers[i];
      assert servers[..i + 1] == servers[..i] + [s];
      CollectOne(servers[..i], declared, s);
      if s.enabled && s.frozen && s.range.Some? && s.range.value.begin < s.range.value.end {
        declared := declared + [s.range.value];
      }
      i := i + 1;
    }
    assert servers[..i] == servers;
  }

  lemma CollectOne(servers: seq<Server>, rs: seq<Range>, s: Server)
    requires IsDeclared(servers, rs)
    ensures IsDeclared(servers + [s], if Declares(s) then rs + [s.range.value] else rs)
  {
  }

  /** A block is missing exactly when the collected ranges span it and none covers it. */
  lemma MissingExactly(servers: seq<Server>, rs: seq<Range>, b: nat)
    requires IsDeclared(servers, rs)
    ensures Missing(servers, b) <==> Spanned(rs, b) && !Covers(rs, b)
  {
  }

  // ----------------------------------------------------------------- the sort

  predicate KeyLe(a: Range, b: Range) {
    a.begin < b.begin || (a.begin == b.begin && a.end <= b.end)
  }

  ghost predicate Sorted(rs: seq<Range>) {
    forall i, j | 0 <= i < j < |rs| :: KeyLe(rs[i], rs[j])
  }

  /** Sort by begin, then end. */
  method SortByKey(rs: seq<Range>) returns (sorted: seq<Range>)
    ensures Sorted(sorted) && multiset(sorted) == multiset(rs)
  {
    sorted := [];
    var i := 0;
    while i < |rs|
      invariant 0 <= i <= |rs|
      invariant Sorted(sorted) && multiset(sorted) == multiset(rs[..i])
    {
      assert rs[..i + 1] == rs[..i] + [rs[i]];
      var k := 0;
      while k < |sorted| && KeyLe(sorted[k], rs[i])
        invariant 0 <= k <= |sorted|
        invariant forall j | 0 <= j < k :: KeyLe(sorted[j], rs[i])
      {
        k := k + 1;
      }
      Inserted(sorted, k, rs[i]);
      sorted := sorted[..k] + [rs[i]] + sorted[k..];
      i := i + 1;
    }
    assert rs[..i] == rs;
  }

  lemma Inserted(rs: seq<Range>, k: nat, r: Range)
    requires Sorted(rs) && k <= |rs| && (forall j | 0 <= j < k :: KeyLe(rs[j], r))
    requires k < |rs| ==> !KeyLe(rs[k], r)
    ensures Sorted(rs[..k] + [r] + rs[k..])
    ensures multiset(rs[..k] + [r] + rs[k..]) == multiset(rs) + multiset{r}
  {
    assert rs == rs[..k] + rs[k..];
    var out := rs[..k] + [r] + rs[k..];
    forall i, j | 0 <= i < j < |out| ensures KeyLe(out[i], out[j]) {
      if i == k { assert KeyLe(rs[k], rs[j - 1]) || j - 1 == k; }
    }
  }

  // ---------------------------------------------------------------- the merge

  ghost predicate SameCover(xs: seq<Range>, ys: seq<Range>) {
    forall b: nat :: Covers(xs, b) <==> Covers(ys, b)
  }

  /** `merged` covers what the sorted `done` covers, and nothing in `done` begins later than
      its last range does. */
  ghost predicate Merges(done: seq<Range>, merged: seq<Range>) {
    && Apart(merged) && SameCover(done, merged)
    && (done != [] ==> merged != [] && merged[|merged| - 1].begin <= done[|done| - 1].begin)
  }

  function Absorbed(merged: seq<Range>, r: Range): seq<Range>
    requires merged != []
  {
    var last := merged[|merged| - 1];
    merged[..|merged| - 1] + [Range(last.begin, if r.end > last.end then r.end else last.end)]
  }

  lemma CoversLast(rs: seq<Range>, r: Range, b: nat)
    ensures Covers(rs + [r], b) <==> Covers(rs, b) || In(r, b)
  {
  }

  lemma AbsorbMerges(done: seq<Range>, merged: seq<Range>, r: Range)
    requires Merges(done, merged) && done != [] && r.begin < r.end
    requires done[|done| - 1].begin <= r.begin <= merged[|merged| - 1].end
    ensures Merges(done + [r], Absorbed(merged, r))
  {
    var front, last := merged[..|merged| - 1], merged[|merged| - 1];
    var wide := Absorbed(merged, r)[|front|];
    assert merged == front + [last] && Absorbed(merged, r) == front + [wide];
    forall b: nat ensures Covers(done + [r], b) <==> Covers(Absorbed(merged, r), b) {
      CoversLast(done, r, b);
      CoversLast(front, last, b);
      CoversLast(front, wide, b);
      assert In(wide, b) <==> In(last, b) || In(r, b);
    }
    assert forall i | 0 <= i < |front| :: front[i] == merged[i];
  }

  lemma AppendMerges(done: seq<Range>, merged: seq<Range>, r: Range)
    requires Merges(done, merged) && r.begin < r.end
    requires merged != [] ==> merged[|merged| - 1].end < r.begin
    ensures Merges(done + [r], merged + [r])
  {
    forall b: nat ensures Covers(done + [r], b) <==> Covers(merged + [r], b) {
      CoversLast(done, r, b);
      CoversLast(merged, r, b);
    }
  }

  /** Merge overlapping and adjacent ranges, in one pass over the sorted list. */
  method Merge(sorted: seq<Range>) returns (merged: seq<Range>)
    requires Sorted(sorted) && NonEmpty(sorted)
    ensures Apart(merged) && SameCover(sorted, merged)
  {
    hide Apart, SameCover;
    merged := [];
    var i := 0;
    NothingMerges();
    assert sorted[..0] == [];
    while i < |sorted|
      invariant 0 <= i <= |sorted|
      invariant Merges(sorted[..i], merged)
    {
      var r := sorted[i];
      assert sorted[..i + 1] == sorted[..i] + [r];
      assert i > 0 ==> KeyLe(sorted[i - 1], r);
      if merged != [] && r.begin <= merged[|merged| - 1].end {
        NotNothing(sorted[..i], merged);
        AbsorbMerges(sorted[..i], merged, r);
        var last := merged[|merged| - 1];
        merged := merged[|merged| - 1 := last.(end := if last.end >= r.end then last.end else r.end)];
        assert merged == Absorbed(merged[|merged| - 1 := last], r);
      } else {
        AppendMerges(sorted[..i], merged, r);
        merged := merged + [r];
      }
      i := i + 1;
    }
    assert sorted[..i] == sorted;
  }

  lemma NothingMerges()
    ensures Merges([], [])
  {
  }

  lemma NotNothing(done: seq<Range>, merged: seq<Range>)
    requires Merges(done, merged) && merged != []
    ensures done != []
  {
    var last := merged[|merged| - 1];
    assert In(last, last.begin) && Covers(merged, last.begin);
  }

  // ---------------------------------------------------------------- the holes

  /** The holes are the gaps between neighbours. */
  ghost predicate Gaps(merged: seq<Range>, holes: seq<Range>) {
    && |holes| == (if merged == [] then 0 else |merged| - 1)
    && forall i | 0 <= i < |holes| :: holes[i] == Range(merged[i].end, merged[i + 1].begin)
  }

  /** The neighbours around a block between two ranges of the list. */
  lemma {:induction false} Neighbours(merged: seq<Range>, b: nat, i: nat, j: nat) returns (k: nat)
    requires i < j < |merged| && merged[i].begin <= b < merged[j].begin
    ensures k + 1 < |merged| && merged[k].begin <= b < merged[k + 1].begin
    decreases j - i
  {
    if merged[i + 1].begin <= b { k := Neighbours(merged, b, i + 1, j); } else { k := i; }
  }

  lemma GapUncovered(merged: seq<Range>, holes: seq<Range>, b: nat)
    requires Apart(merged) && Gaps(merged, holes) && Covers(holes, b)
    ensures Spanned(merged, b) && !Covers(merged, b)
  {
    var h :| h in holes && In(h, b);
    var k :| 0 <= k < |holes| && holes[k] == h;
    GapAt(merged, holes, k);
    hide Apart, Gaps;
    forall r | r in merged ensures !In(r, b) {
      var i :| 0 <= i < |merged| && merged[i] == r;
    }
  }

  lemma UncoveredInGap(merged: seq<Range>, holes: seq<Range>, b: nat)
    requires Apart(merged) && Gaps(merged, holes) && Spanned(merged, b) && !Covers(merged, b)
    ensures Covers(holes, b)
  {
    hide Apart;
    var low :| low in merged && low.begin <= b;
    var high :| high in merged && b < high.end;
    var i :| 0 <= i < |merged| && merged[i] == low;
    var j :| 0 <= j < |merged| && merged[j] == high;
    assert !In(low, b) && !In(high, b);
    Earlier(merged, i, j);
    var k := Neighbours(merged, b, i, j);
    assert merged[k] in merged && !In(merged[k], b);
    assert holes[k] in holes && In(holes[k], b);
  }

  lemma Earlier(rs: seq<Range>, i: nat, j: nat)
    requires Apart(rs) && i < |rs| && j < |rs| && rs[i].begin < rs[j].begin
    ensures i < j
  {
    assert rs[i] in rs && rs[j] in rs;
  }

  /** What non-empty ranges span depends only on what they cover. */
  lemma SpanFollowsCover(xs: seq<Range>, ys: seq<Range>, b: nat)
    requires NonEmpty(xs) && SameCover(xs, ys) && Spanned(xs, b)
    ensures Spanned(ys, b)
  {
    var low :| low in xs && low.begin <= b;
    assert In(low, low.begin) && Covers(xs, low.begin) && Covers(ys, low.begin);
    var m :| m in ys && In(m, low.begin);
    var high :| high in xs && b < high.end;
    assert In(high, high.end - 1) && Covers(xs, high.end - 1) && Covers(ys, high.end - 1);
    var n :| n in ys && In(n, high.end - 1);
    assert m.begin <= b && b < n.end;
  }

  /** The holes to report, for any order and overlap of the declared ranges: a block lies in
      one exactly when it is at or after the lowest begin and before the highest end of the
      enabled archive servers' ranges and in none of them. The holes are non-empty, disjoint
      and ascending. */
  method CoverageHoles(servers: seq<Server>) returns (holes: seq<Range>)
    ensures forall b: nat :: Covers(holes, b) <==> Missing(servers, b)
    ensures Apart(holes)
  {
    var collected := Collect(servers);
    var sorted := SortByKey(collected);
    SameRanges(collected, sorted);
    var merged := Merge(sorted);
    holes := [];
    var i := 0;
    while i + 1 < |merged|
      invariant 0 <= i && (merged == [] ==> i == 0) && (merged != [] ==> i < |merged|)
      invariant |holes| == i && forall k | 0 <= k < i :: holes[k] == Range(merged[k].end, merged[k + 1].begin)
    {
      holes := holes + [Range(merged[i].end, merged[i + 1].begin)];
      i := i + 1;
    }
    assert Gaps(merged, holes);
    forall b: nat ensures Covers(holes, b) <==> Missing(servers, b) {
      HolesExactly(collected, merged, holes, b);
      MissingExactly(servers, collected, b);
    }
    HolesApart(merged, holes);
  }

  lemma SameRanges(xs: seq<Range>, ys: seq<Range>)
    requires multiset(xs) == multiset(ys) && NonEmpty(xs)
    ensures NonEmpty(ys) && SameCover(xs, ys)
  {
    forall r ensures r in xs <==> r in ys {
      assert r in xs <==> r in multiset(xs);
      assert r in ys <==> r in multiset(ys);
    }
  }

  lemma HolesExactly(declared: seq<Range>, merged: seq<Range>, holes: seq<Range>, b: nat)
    requires NonEmpty(declared) && SameCover(declared, merged) && Apart(merged) && Gaps(merged, holes)
    ensures Covers(holes, b) <==> Spanned(declared, b) && !Covers(declared, b)
  {
    if Covers(holes, b) { GapUncovered(merged, holes, b); }
    if Spanned(merged, b) && !Covers(merged, b) { UncoveredInGap(merged, holes, b); }
    if Spanned(declared, b) { SpanFollowsCover(declared, merged, b); }
    if Spanned(merged, b) { SpanFollowsCover(merged, declared, b); }
  }

  lemma HolesApart(merged: seq<Range>, holes: seq<Range>)
    requires Apart(merged) && Gaps(merged, holes)
    ensures Apart(holes)
  {
    forall i | 0 <= i < |holes| ensures holes[i].begin < holes[i].end && holes[i].end < merged[i + 1].end {
      GapAt(merged, holes, i);
    }
    forall i, j | 0 <= i < j < |holes| ensures holes[i].end < holes[j].begin {
      GapAt(merged, holes, i);
      GapAt(merged, holes, j);
    }
  }

  lemma GapAt(merged: seq<Range>, holes: seq<Range>, k: nat)
    requires Apart(merged) && Gaps(merged, holes) && k < |holes|
    ensures holes[k] == Range(merged[k].end, merged[k + 1].begin) && holes[k].begin < holes[k].end
    ensures merged[k] in merged && merged[k].begin < merged[k].end
    ensures merged[k + 1] in merged && merged[k + 1].begin < merged[k + 1].end
    ensures forall i | 0 <= i < k :: merged[i].end < merged[k].begin
    ensures forall i | k + 1 < i < |merged| :: merged[k + 1].end < merged[i].begin
  {
  }
}
