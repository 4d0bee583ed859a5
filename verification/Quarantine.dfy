/** Block-failure quarantine: pruned lists of strikes and exclusions against the full
    history of drops.

    The history side never forgets: whether a drop arms an exclusion, and whether a block
    is excluded, are defined by looking back over every event. */
module Quarantine {
  import opened Options
  import opened Seqs

  /** Instants and durations in nanoseconds. */
  type Time = nat
  type Block = nat

  /** The window and the time to live are in seconds. */
  datatype Policy = Policy(strikes: nat, window: nat, ttl: nat, range: nat)

  datatype Strike = Strike(block: Block, at: Time)

  datatype Exclusion = Exclusion(block: Block, range: nat, until: Time)

  const U32_MAX: nat := 4_294_967_295
  const U64_MAX: nat := 18_446_744_073_709_551_615

  /** A policy with the end of the clock: the last instant that can be represented. */
  datatype Rules = Rules(policy: Policy, lastInstant: Time)

  const SECOND: nat := 1_000_000_000
  const YEAR: nat := 86_400 * 365 * SECOND

  function Window(r: Rules): nat { r.policy.window * SECOND }

  function Ttl(r: Rules): nat { r.policy.ttl * SECOND }

  /** The time to live after `now`, or a year after, or `now` itself, whichever the clock can hold. */
  function Deadline(r: Rules, now: Time): Time {
    if now + Ttl(r) <= r.lastInstant then now + Ttl(r)
    else if now + YEAR <= r.lastInstant then now + YEAR
    else now
  }

  /** Whether an exclusion of `range` blocks from `start` holds `b`. */
  predicate Covers(start: Block, range: nat, b: Block) {
    if start + range <= U32_MAX then start <= b < start + range else b >= start
  }

  function Since(now: Time, at: Time): nat {
    if at <= now then now - at else 0
  }

  // ------------------------------------------------- the pruned lists

  function ActiveAt(now: Time): Exclusion -> bool { (q: Exclusion) => now < q.until }

  function StartsElsewhere(b: Block): Exclusion -> bool { (q: Exclusion) => q.block != b }

  function InWindow(r: Rules, now: Time): Strike -> bool { (s: Strike) => Since(now, s.at) <= Window(r) }

  function AtBlock(b: Block): Strike -> bool { (s: Strike) => s.block == b }

  function AtOther(b: Block): Strike -> bool { (s: Strike) => s.block != b }

  datatype Lists = Lists(strikes: seq<Strike>, exclusions: seq<Exclusion>)

  function Pruned(l: Lists, now: Time): Lists {
    l.(exclusions := Filter(ActiveAt(now), l.exclusions))
  }

  predicate AnyCovers(qs: seq<Exclusion>, b: Block) {
    exists q | q in qs :: Covers(q.block, q.range, b)
  }

  /** Whether `b` is excluded at `now`. */
  predicate Quarantined(l: Lists, b: Block, now: Time) {
    AnyCovers(Pruned(l, now).exclusions, b)
  }

  /** A drop that no exclusion covers: the strikes in the window, with this one. */
  function Struck(r: Rules, strikes: seq<Strike>, b: Block, now: Time): seq<Strike> {
    Filter(InWindow(r, now), strikes + [Strike(b, now)])
  }

  function OfBlock(strikes: seq<Strike>, b: Block): seq<Strike> {
    Filter(AtBlock(b), strikes)
  }

  function AfterDrop(r: Rules, l: Lists, b: Block, now: Time): Lists {
    var l1 := Pruned(l, now);
    if AnyCovers(l1.exclusions, b) then l1 else
      var strikes := Struck(r, l.strikes, b, now);
      if |OfBlock(strikes, b)| < r.policy.strikes then Lists(strikes, l1.exclusions)
      else Lists(Filter(AtOther(b), strikes),
                 Filter(StartsElsewhere(b), l1.exclusions)
                 + [Exclusion(b, r.policy.range, Deadline(r, now))])
  }

  predicate Arms(r: Rules, l: Lists, b: Block, now: Time) {
    && !Quarantined(l, b, now)
    && |OfBlock(Struck(r, l.strikes, b, now), b)| >= r.policy.strikes
  }

  datatype Event = Drop(block: Block, at: Time) | Look(at: Time) | Clear(at: Time)

  function AfterEvent(r: Rules, l: Lists, e: Event): Lists {
    match e
    case Drop(b, at) => AfterDrop(r, l, b, at)
    case Look(at) => Pruned(l, at)
    case Clear(_) => Lists([], [])
  }

  function AfterAll(r: Rules, h: seq<Event>): Lists {
    if h == [] then Lists([], []) else AfterEvent(r, AfterAll(r, h[..|h| - 1]), h[|h| - 1])
  }

  // ------------------------------------------------- the full history

  /** The drop at `i` arms an exclusion: its block is not excluded, and with it the counted
      drops at that block reach the limit. */
  ghost predicate Armed(r: Rules, h: seq<Event>, i: nat)
    requires i < |h|
    decreases i, 3
  {
    && h[i].Drop?
    && !Excluded(r, h, i, h[i].block, h[i].at)
    && Pending(r, h, i, h[i].block, h[i].at) + 1 >= r.policy.strikes
  }

  /** An exclusion armed before `i`, not cleared since and not over, holds `b`. */
  ghost predicate Excluded(r: Rules, h: seq<Event>, i: nat, b: Block, now: Time)
    requires i <= |h|
    decreases i, 1
  {
    exists j | 0 <= j < i :: Excludes(r, h, i, j, b, now)
  }

  ghost predicate Excludes(r: Rules, h: seq<Event>, i: nat, j: nat, b: Block, now: Time)
    requires j < i <= |h|
    decreases i, 0
  {
    && Armed(r, h, j)
    && (forall k | j < k < i :: !h[k].Clear?)
    && Covers(h[j].block, r.policy.range, b)
    && now < Deadline(r, h[j].at)
  }

  /** The drop at `j` still counts for `b` before `i`: it was not excluded, and nothing
      cleared or armed that block since. */
  ghost predicate Counts(r: Rules, h: seq<Event>, i: nat, j: nat, b: Block)
    requires j < i <= |h|
    decreases i, 0
  {
    && h[j].Drop? && h[j].block == b
    && !Excluded(r, h, j, b, h[j].at)
    && (forall k | j <= k < i :: !h[k].Clear? && !(Armed(r, h, k) && h[k].block == b))
  }

  /** Counted drops at `b` in the window, among the first `n` events before `i`. */
  ghost function Tally(r: Rules, h: seq<Event>, i: nat, n: nat, b: Block, now: Time): nat
    requires n <= i <= |h|
    decreases i, 1, n
  {
    if n == 0 then 0 else
      Tally(r, h, i, n - 1, b, now)
      + if Counts(r, h, i, n - 1, b) && Since(now, h[n - 1].at) <= Window(r) then 1 else 0
  }

  ghost function Pending(r: Rules, h: seq<Event>, i: nat, b: Block, now: Time): nat
    requires i <= |h|
    decreases i, 2
  {
    Tally(r, h, i, i, b, now)
  }

  /** The clock never runs backwards. */
  ghost predicate Ordered(h: seq<Event>) {
    forall i, j | 0 <= i < j < |h| :: h[i].at <= h[j].at
  }

  // ------------------------------------------------- counting in the lists

  /** Strikes at `b` inside the window that ends at `now`. */
  function CountIn(r: Rules, xs: seq<Strike>, b: Block, now: Time): nat {
    if xs == [] then 0 else
      (if xs[0].block == b && InWindow(r, now)(xs[0]) then 1 else 0) + CountIn(r, xs[1..], b, now)
  }

  lemma {:induction false} CountAppend(r: Rules, xs: seq<Strike>, x: Strike, b: Block, now: Time)
    ensures CountIn(r, xs + [x], b, now)
         == CountIn(r, xs, b, now) + if x.block == b && InWindow(r, now)(x) then 1 else 0
  {
    if xs == [] {
      assert xs + [x] == [x];
    } else {
      assert (xs + [x])[1..] == xs[1..] + [x];
      CountAppend(r, xs[1..], x, b, now);
    }
  }

  /** Strikes that left the window earlier do not come back. */
  lemma {:induction false} CountWindowed(r: Rules, xs: seq<Strike>, t: Time, b: Block, now: Time)
    requires t <= now
    ensures CountIn(r, Filter(InWindow(r, t), xs), b, now) == CountIn(r, xs, b, now)
  {
    if xs != [] {
      CountWindowed(r, xs[1..], t, b, now);
      var rest := Filter(InWindow(r, t), xs[1..]);
      assert ([xs[0]] + rest)[1..] == rest;
    }
  }

  lemma {:induction false} CountOthers(r: Rules, xs: seq<Strike>, c: Block, b: Block, now: Time)
    ensures CountIn(r, Filter(AtOther(c), xs), b, now) == if b == c then 0 else CountIn(r, xs, b, now)
  {
    if xs != [] {
      CountOthers(r, xs[1..], c, b, now);
      var rest := Filter(AtOther(c), xs[1..]);
      assert ([xs[0]] + rest)[1..] == rest;
    }
  }

  lemma {:induction false} CountIsLength(r: Rules, xs: seq<Strike>, b: Block, now: Time)
    ensures |OfBlock(Filter(InWindow(r, now), xs), b)| == CountIn(r, xs, b, now)
  {
    if xs != [] {
      CountIsLength(r, xs[1..], b, now);
      var rest := Filter(InWindow(r, now), xs[1..]);
      assert ([xs[0]] + rest)[1..] == rest;
    }
  }

  lemma StruckCount(r: Rules, strikes: seq<Strike>, b: Block, now: Time)
    ensures |OfBlock(Struck(r, strikes, b, now), b)| == CountIn(r, strikes, b, now) + 1
  {
    CountIsLength(r, strikes + [Strike(b, now)], b, now);
    CountAppend(r, strikes, Strike(b, now), b, now);
  }

  // ------------------------------------------------- one event of history

  lemma ExcludedBy(r: Rules, h: seq<Event>, i: nat, b: Block, now: Time) returns (j: nat)
    requires i <= |h| && Excluded(r, h, i, b, now)
    ensures j < i && Excludes(r, h, i, j, b, now)
  {
    j :| 0 <= j < i && Excludes(r, h, i, j, b, now);
  }

  lemma ExcludedStep(r: Rules, h: seq<Event>, i: nat, b: Block, now: Time)
    requires i < |h|
    ensures Excluded(r, h, i + 1, b, now) <==>
              || (!h[i].Clear? && Excluded(r, h, i, b, now))
              || (Armed(r, h, i) && Covers(h[i].block, r.policy.range, b) && now < Deadline(r, h[i].at))
  {
    hide Covers, Deadline;
    forall j | 0 <= j < i
      ensures Excludes(r, h, i + 1, j, b, now) <==> Excludes(r, h, i, j, b, now) && !h[i].Clear?
    {
    }
    if Excluded(r, h, i + 1, b, now) {
      var j := ExcludedBy(r, h, i + 1, b, now);
      if j < i { assert Excludes(r, h, i, j, b, now); }
    }
    if !h[i].Clear? && Excluded(r, h, i, b, now) {
      var j := ExcludedBy(r, h, i, b, now);
      assert Excludes(r, h, i + 1, j, b, now);
    }
    if Armed(r, h, i) && Covers(h[i].block, r.policy.range, b) && now < Deadline(r, h[i].at) {
      assert Excludes(r, h, i + 1, i, b, now);
    }
  }

  /** Event `i` ends the count for `b`. */
  ghost predicate Resets(r: Rules, h: seq<Event>, i: nat, b: Block)
    requires i < |h|
  {
    h[i].Clear? || (Armed(r, h, i) && h[i].block == b)
  }

  lemma {:induction false} TallyStep(r: Rules, h: seq<Event>, i: nat, n: nat, b: Block, now: Time)
    requires n <= i < |h|
    ensures Tally(r, h, i + 1, n, b, now) == if Resets(r, h, i, b) then 0 else Tally(r, h, i, n, b, now)
    decreases n
  {
    hide Armed, Excluded;
    if n > 0 {
      TallyStep(r, h, i, n - 1, b, now);
      assert Counts(r, h, i + 1, n - 1, b) <==> Counts(r, h, i, n - 1, b) && !Resets(r, h, i, b);
    }
  }

  lemma PendingStep(r: Rules, h: seq<Event>, i: nat, b: Block, now: Time)
    requires i < |h|
    ensures Pending(r, h, i + 1, b, now)
         == if Resets(r, h, i, b) then 0
            else Pending(r, h, i, b, now)
                 + if h[i].Drop? && h[i].block == b && !Excluded(r, h, i, b, h[i].at)
                      && Since(now, h[i].at) <= Window(r) then 1 else 0
  {
    TallyStep(r, h, i, i, b, now);
    assert Tally(r, h, i + 1, i + 1, b, now)
        == Tally(r, h, i + 1, i, b, now)
           + if Counts(r, h, i + 1, i, b) && Since(now, h[i].at) <= Window(r) then 1 else 0;
  }

  // ------------------------------------------------- lists and history agree

  predicate CoversAt(qs: seq<Exclusion>, b: Block, now: Time) {
    exists q | q in qs :: now < q.until && Covers(q.block, q.range, b)
  }

  ghost predicate NotBefore(h: seq<Event>, i: nat, now: Time)
    requires i <= |h|
  {
    forall k | 0 <= k < i :: h[k].at <= now
  }

  ghost predicate ExclusionsAgree(r: Rules, h: seq<Event>, i: nat, qs: seq<Exclusion>)
    requires i <= |h|
  {
    && (forall q | q in qs :: q.range == r.policy.range)
    && forall b: Block, now: Time | NotBefore(h, i, now) :: CoversAt(qs, b, now) <==> Excluded(r, h, i, b, now)
  }

  ghost predicate StrikesAgree(r: Rules, h: seq<Event>, i: nat, xs: seq<Strike>)
    requires i <= |h|
  {
    forall b: Block, now: Time | NotBefore(h, i, now) :: CountIn(r, xs, b, now) == Pending(r, h, i, b, now)
  }

  lemma PrunedCovers(qs: seq<Exclusion>, t: Time, b: Block, now: Time)
    requires t <= now
    ensures CoversAt(Filter(ActiveAt(t), qs), b, now) <==> CoversAt(qs, b, now)
  {
  }

  lemma QuarantinedIs(l: Lists, b: Block, now: Time)
    ensures Quarantined(l, b, now) <==> CoversAt(l.exclusions, b, now)
  {
  }

  lemma PruneKeepsAnswers(l: Lists, now: Time)
    ensures forall b: Block, t: Time | now <= t :: Quarantined(Pruned(l, now), b, t) <==> Quarantined(l, b, t)
  {
    forall b: Block, t: Time | now <= t ensures Quarantined(Pruned(l, now), b, t) <==> Quarantined(l, b, t) {
      PrunedCovers(l.exclusions, now, b, t);
      QuarantinedIs(Pruned(l, now), b, t);
      QuarantinedIs(l, b, t);
    }
  }

  /** An exclusion list after the event at `i`, from one that agreed before it. */
  lemma ExclusionsNext(r: Rules, h: seq<Event>, i: nat, l: Lists)
    requires i < |h| && Ordered(h) && ExclusionsAgree(r, h, i, l.exclusions)
    requires h[i].Drop? ==> (Arms(r, l, h[i].block, h[i].at) <==> Armed(r, h, i))
    ensures ExclusionsAgree(r, h, i + 1, AfterEvent(r, l, h[i]).exclusions)
  {
    var qs, e := AfterEvent(r, l, h[i]).exclusions, h[i];
    forall b: Block, now: Time | NotBefore(h, i + 1, now)
      ensures CoversAt(qs, b, now) <==> Excluded(r, h, i + 1, b, now)
    {
      assert NotBefore(h, i, now) && e.at <= now;
      ExcludedStep(r, h, i, b, now);
      PrunedCovers(l.exclusions, e.at, b, now);
      if e.Drop? && Armed(r, h, i) {
        ArmedCovers(r, l, e.block, e.at, b, now);
      }
    }
  }

  /** Arming adds the new exclusion and loses no coverage. */
  lemma ArmedCovers(r: Rules, l: Lists, c: Block, at: Time, b: Block, now: Time)
    requires Arms(r, l, c, at) && at <= now && forall q | q in l.exclusions :: q.range == r.policy.range
    ensures CoversAt(AfterDrop(r, l, c, at).exclusions, b, now) <==>
              CoversAt(l.exclusions, b, now) || (now < Deadline(r, at) && Covers(c, r.policy.range, b))
  {
  }

  lemma StrikesNext(r: Rules, h: seq<Event>, i: nat, l: Lists)
    requires i < |h| && Ordered(h) && StrikesAgree(r, h, i, l.strikes)
    requires h[i].Drop? ==> (Quarantined(l, h[i].block, h[i].at) <==> Excluded(r, h, i, h[i].block, h[i].at))
    requires h[i].Drop? ==> (Arms(r, l, h[i].block, h[i].at) <==> Armed(r, h, i))
    ensures StrikesAgree(r, h, i + 1, AfterEvent(r, l, h[i]).strikes)
  {
    hide Filter, Excluded, Pending;
    var xs, e := AfterEvent(r, l, h[i]).strikes, h[i];
    forall b: Block, now: Time | NotBefore(h, i + 1, now)
      ensures CountIn(r, xs, b, now) == Pending(r, h, i + 1, b, now)
    {
      assert NotBefore(h, i, now) && e.at <= now;
      PendingStep(r, h, i, b, now);
      if e.Drop? && !Quarantined(l, e.block, e.at) {
        var added := l.strikes + [Strike(e.block, e.at)];
        CountAppend(r, l.strikes, Strike(e.block, e.at), b, now);
        CountWindowed(r, added, e.at, b, now);
        CountOthers(r, Filter(InWindow(r, e.at), added), e.block, b, now);
      }
    }
  }

  /** The verdict on a drop, from lists that agreed before it. */
  lemma VerdictAgrees(r: Rules, h: seq<Event>, i: nat, l: Lists)
    requires i < |h| && Ordered(h) && h[i].Drop?
    requires ExclusionsAgree(r, h, i, l.exclusions) && StrikesAgree(r, h, i, l.strikes)
    ensures Quarantined(l, h[i].block, h[i].at) <==> Excluded(r, h, i, h[i].block, h[i].at)
    ensures Arms(r, l, h[i].block, h[i].at) <==> Armed(r, h, i)
  {
    var b, now := h[i].block, h[i].at;
    assert NotBefore(h, i, now);
    QuarantinedIs(l, b, now);
    StruckCount(r, l.strikes, b, now);
  }

  lemma {:induction false} ListsAgree(r: Rules, h: seq<Event>, i: nat)
    requires Ordered(h) && i <= |h|
    ensures ExclusionsAgree(r, h, i, AfterAll(r, h[..i]).exclusions)
    ensures StrikesAgree(r, h, i, AfterAll(r, h[..i]).strikes)
  {
    if i == 0 {
      assert h[..0] == [];
    } else {
      ListsAgree(r, h, i - 1);
      assert h[..i][..i - 1] == h[..i - 1];
      var l := AfterAll(r, h[..i - 1]);
      if h[i - 1].Drop? { VerdictAgrees(r, h, i - 1, l); }
      hide ExclusionsAgree, StrikesAgree, AfterEvent;
      ExclusionsNext(r, h, i - 1, l);
      StrikesNext(r, h, i - 1, l);
    }
  }

  /** The pruned lists answer every question as the full history would: over every history
      with a clock that never runs backwards, a drop arms exactly when the history says so,
      and a block is excluded, at any later time, exactly when the history says so. */
  lemma AnswersAsHistory(r: Rules, h: seq<Event>, i: nat, b: Block, now: Time)
    requires Ordered(h) && i <= |h| && NotBefore(h, i, now)
    ensures Quarantined(AfterAll(r, h[..i]), b, now) <==> Excluded(r, h, i, b, now)
    ensures i < |h| && h[i].Drop? ==> (Arms(r, AfterAll(r, h[..i]), h[i].block, h[i].at) <==> Armed(r, h, i))
  {
    ListsAgree(r, h, i);
    QuarantinedIs(AfterAll(r, h[..i]), b, now);
    if i < |h| && h[i].Drop? { VerdictAgrees(r, h, i, AfterAll(r, h[..i])); }
  }

  // ------------------------------------------------- reads are unobservable

  /** Lists that no later event can tell apart. */
  ghost predicate Indistinct(r: Rules, l: Lists, m: Lists, t: Time) {
    && (forall q | q in l.exclusions + m.exclusions :: q.range == r.policy.range)
    && (forall b: Block, now: Time | t <= now :: CoversAt(l.exclusions, b, now) <==> CoversAt(m.exclusions, b, now))
    && (forall b: Block, now: Time | t <= now :: CountIn(r, l.strikes, b, now) == CountIn(r, m.strikes, b, now))
  }

  lemma AfterDropCovers(r: Rules, l: Lists, c: Block, at: Time, b: Block, now: Time)
    requires at <= now && forall q | q in l.exclusions :: q.range == r.policy.range
    ensures CoversAt(AfterDrop(r, l, c, at).exclusions, b, now) <==>
              || CoversAt(l.exclusions, b, now)
              || (Arms(r, l, c, at) && now < Deadline(r, at) && Covers(c, r.policy.range, b))
  {
  }

  lemma AfterDropCount(r: Rules, l: Lists, c: Block, at: Time, b: Block, now: Time)
    requires at <= now
    ensures CountIn(r, AfterDrop(r, l, c, at).strikes, b, now)
         == if Quarantined(l, c, at) then CountIn(r, l.strikes, b, now)
            else if Arms(r, l, c, at) && b == c then 0
            else CountIn(r, l.strikes, b, now) + if b == c && Since(now, at) <= Window(r) then 1 else 0
  {
    hide Filter;
    if !Quarantined(l, c, at) {
      var added := l.strikes + [Strike(c, at)];
      CountAppend(r, l.strikes, Strike(c, at), b, now);
      CountWindowed(r, added, at, b, now);
      CountOthers(r, Filter(InWindow(r, at), added), c, b, now);
    }
  }

  lemma SameVerdict(r: Rules, l: Lists, m: Lists, t: Time, b: Block, now: Time)
    requires Indistinct(r, l, m, t) && t <= now
    ensures Quarantined(l, b, now) <==> Quarantined(m, b, now)
    ensures Arms(r, l, b, now) <==> Arms(r, m, b, now)
  {
    QuarantinedIs(l, b, now);
    QuarantinedIs(m, b, now);
    StruckCount(r, l.strikes, b, now);
    StruckCount(r, m.strikes, b, now);
  }

  lemma IndistinctStep(r: Rules, l: Lists, m: Lists, t: Time, e: Event)
    requires Indistinct(r, l, m, t) && t <= e.at
    ensures Indistinct(r, AfterEvent(r, l, e), AfterEvent(r, m, e), e.at)
  {
    var l', m' := AfterEvent(r, l, e), AfterEvent(r, m, e);
    if e.Drop? { SameVerdict(r, l, m, t, e.block, e.at); }
    forall b: Block, now: Time | e.at <= now
      ensures CoversAt(l'.exclusions, b, now) <==> CoversAt(m'.exclusions, b, now)
      ensures CountIn(r, l'.strikes, b, now) == CountIn(r, m'.strikes, b, now)
    {
      match e
      case Drop(c, at) =>
        AfterDropCovers(r, l, c, at, b, now);
        AfterDropCovers(r, m, c, at, b, now);
        AfterDropCount(r, l, c, at, b, now);
        AfterDropCount(r, m, c, at, b, now);
      case Look(at) =>
        PrunedCovers(l.exclusions, at, b, now);
        PrunedCovers(m.exclusions, at, b, now);
      case Clear(_) =>
    }
  }

  /** Which drops of a history arm an exclusion, from given lists. */
  ghost function Verdicts(r: Rules, l: Lists, h: seq<Event>): seq<bool>
    decreases |h|
  {
    if h == [] then [] else
      [h[0].Drop? && Arms(r, l, h[0].block, h[0].at)] + Verdicts(r, AfterEvent(r, l, h[0]), h[1..])
  }

  lemma {:induction false} SameVerdicts(r: Rules, l: Lists, m: Lists, t: Time, h: seq<Event>)
    requires Indistinct(r, l, m, t) && Ordered(h) && (h != [] ==> t <= h[0].at)
    ensures Verdicts(r, l, h) == Verdicts(r, m, h)
    decreases |h|
  {
    if h != [] {
      IndistinctStep(r, l, m, t, h[0]);
      if h[0].Drop? { SameVerdict(r, l, m, t, h[0].block, h[0].at); }
      assert forall i | 0 <= i < |h| - 1 :: h[1..][i] == h[i + 1];
      SameVerdicts(r, AfterEvent(r, l, h[0]), AfterEvent(r, m, h[0]), h[0].at, h[1..]);
    }
  }

  /** A read that prunes at `t` changes no verdict of any continuation. */
  lemma LookUnobservable(r: Rules, l: Lists, t: Time, h: seq<Event>)
    requires forall q | q in l.exclusions :: q.range == r.policy.range
    requires Ordered(h) && (h != [] ==> t <= h[0].at)
    ensures Verdicts(r, Pruned(l, t), h) == Verdicts(r, l, h)
  {
    forall b: Block, now: Time | t <= now
      ensures CoversAt(Pruned(l, t).exclusions, b, now) <==> CoversAt(l.exclusions, b, now)
    {
      PrunedCovers(l.exclusions, t, b, now);
    }
    SameVerdicts(r, Pruned(l, t), l, t, h);
  }

  // ------------------------------------------------- the upstream's state

  /** The failure bookkeeping of one upstream under one policy. */
  class UpstreamFailures {
    const rules: Rules
    var blockFailures: nat
    var strikes: seq<Strike>
    var exclusions: seq<Exclusion>
    /** Every drop, read and clear so far. */
    ghost var history: seq<Event>

    ghost function State(): Lists
      reads this
    {
      Lists(strikes, exclusions)
    }

    ghost predicate Valid()
      reads this
    {
      Ordered(history) && State() == AfterAll(rules, history)
    }

    /** The clock has not run backwards. */
    ghost predicate Later(now: Time)
      reads this
    {
      NotBefore(history, |history|, now)
    }

    constructor (rules: Rules)
      ensures this.rules == rules && Valid() && history == [] && blockFailures == 0
    {
      this.rules := rules;
      blockFailures, strikes, exclusions, history := 0, [], [], [];
    }

    ghost method Note(e: Event)
      requires Ordered(history) && Later(e.at) && State() == AfterEvent(rules, AfterAll(rules, history), e)
      modifies this`history
      ensures Valid() && history == old(history) + [e]
    {
      history := history + [e];
      assert history[..|history| - 1] == old(history);
    }

    /** Drop exclusions whose time is over. No answer at that time or later changes. */
    method Prune(now: Time)
      modifies this`exclusions
      ensures State() == Pruned(old(State()), now)
      ensures forall q :: q in exclusions <==> q in old(exclusions) && now < q.until
      ensures forall b: Block, t: Time | now <= t :: Quarantined(State(), b, t) <==> Quarantined(old(State()), b, t)
    {
      PruneKeepsAnswers(State(), now);
      exclusions := Retain(ActiveAt(now), exclusions);
    }

    /** Whether requests starting at `b` must skip this upstream, as the history says. */
    method QuarantinedFor(b: Block, now: Time) returns (yes: bool)
      requires Valid() && Later(now)
      modifies this`exclusions, this`history
      ensures Valid() && history == old(history) + [Look(now)]
      ensures yes <==> Excluded(rules, old(history), |old(history)|, b, now)
    {
      assert history[..|history|] == history;
      AnswersAsHistory(rules, history, |history|, b, now);
      Prune(now);
      yes := AnyCovers(exclusions, b);
      Note(Look(now));
    }

    method ClearQuarantines(now: Time)
      requires Valid() && Later(now)
      modifies this`exclusions, this`strikes, this`history
      ensures Valid() && history == old(history) + [Clear(now)] && State() == Lists([], [])
    {
      exclusions, strikes := [], [];
      Note(Clear(now));
    }

    /** Count an unclean drop at `b`. With the policy in force it arms an exclusion exactly
        when the history of drops says so, and while an exclusion covers `b` the list of
        exclusions only loses what has run out. Without one it is only counted. */
    method RecordBlockFailure(b: Block, now: Time, policy: Option<Policy>) returns (armed: bool)
      requires Valid() && Later(now) && (policy.Some? ==> policy.value == rules.policy)
      modifies this`blockFailures, this`strikes, this`exclusions, this`history
      ensures Valid() && history == old(history) + [if policy.Some? then Drop(b, now) else Look(now)]
      ensures blockFailures == if old(blockFailures) < U64_MAX then old(blockFailures) + 1 else old(blockFailures)
      ensures armed <==> policy.Some? && Armed(rules, history, |old(history)|)
      ensures policy.None? || Excluded(rules, old(history), |old(history)|, b, now) ==>
                State() == Pruned(old(State()), now)
    {
      hide Filter;
      ghost var l, h := State(), history + [Drop(b, now)];
      assert h[..|history|] == history == history[..|history|];
      AnswersAsHistory(rules, h, |history|, b, now);
      AnswersAsHistory(rules, history, |history|, b, now);
      blockFailures := if blockFailures < U64_MAX then blockFailures + 1 else blockFailures;
      Prune(now);
      if policy.None? {
        Note(Look(now));
        return false;
      }
      if AnyCovers(exclusions, b) {
        armed := false;
      } else {
        strikes := Retain(InWindow(rules, now), strikes + [Strike(b, now)]);
        var here := Retain(AtBlock(b), strikes);
        armed := |here| >= rules.policy.strikes;
        if armed {
          strikes := Retain(AtOther(b), strikes);
          var others := Retain(StartsElsewhere(b), exclusions);
          exclusions := others + [Exclusion(b, rules.policy.range, Deadline(rules, now))];
        }
      }
      assert State() == AfterDrop(rules, l, b, now);
      Note(Drop(b, now));
    }
  }
}
