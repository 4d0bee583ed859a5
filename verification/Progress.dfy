/** The stale tracker: which upstreams stopped advancing, interval by interval. */
module Progress {
  import opened Options

  type Endpoint = string

  const STALE_THRESHOLD: nat := 12
  const U32_MAX: nat := 0xFFFF_FFFF

  /** `end` is the end of the chain-state log, `otherEnds` the highest end of the others;
      `hinted` that the hint about a frozen range was given. */
  datatype Server = Server(
    frozen: bool,
    end: nat,
    stale: bool,
    head: Option<nat>,
    lib: Option<nat>,
    otherEnds: nat,
    hinted: bool)

  type Db = map<Endpoint, Server>

  /** The head is final and the last block of all logs. */
  predicate LooksFrozen(s: Server) {
    && s.head.Some? && s.lib.Some? && s.head.value > 0 && s.head == s.lib
    && s.head.value < U32_MAX && s.head.value + 1 == if s.otherEnds > s.end then s.otherEnds else s.end
  }

  /** Whether the hint has been given once an interval ends with the flag at `stale`. */
  predicate Hinted(s: Server, stale: bool) {
    s.hinted || (!s.frozen && stale && LooksFrozen(s))
  }

  // ---------------------------------------------------- one upstream's history

  /** What is kept of one upstream: the last end block counted as progress, the intervals
      without any since, and the flag. */
  datatype Track = Track(last: nat, counter: nat, stale: bool)

  function Ticked(t: Track, frozen: bool, end: nat): Track {
    if frozen then Track(end, 0, false)
    else if end > t.last then Track(end, 0, false)
    else
      var counter := if t.counter < U32_MAX then t.counter + 1 else t.counter;
      Track(t.last, counter, t.stale || counter == STALE_THRESHOLD)
  }

  /** A live upstream that a new tracker has watched for these end blocks. */
  function Watched(stale: bool, ends: seq<nat>): Track {
    if ends == [] then Track(0, 0, stale) else
      Ticked(Watched(stale, ends[..|ends| - 1]), false, ends[|ends| - 1])
  }

  function Highest(ends: seq<nat>): nat {
    if ends == [] then 0 else
      var h := Highest(ends[..|ends| - 1]);
      if ends[|ends| - 1] > h then ends[|ends| - 1] else h
  }

  /** The intervals since the highest end block was first seen. */
  function Idle(ends: seq<nat>): nat {
    if ends == [] then 0
    else if ends[|ends| - 1] > Highest(ends[..|ends| - 1]) then 0
    else Idle(ends[..|ends| - 1]) + 1
  }

  lemma {:induction false} WatchedIs(stale: bool, ends: seq<nat>)
    ensures Idle(ends) <= |ends|
    ensures Watched(stale, ends) ==
              Track(Highest(ends), if Idle(ends) < U32_MAX then Idle(ends) else U32_MAX,
                    Idle(ends) >= STALE_THRESHOLD || (stale && Idle(ends) == |ends|))
  {
    if ends != [] { WatchedIs(stale, ends[..|ends| - 1]); }
  }

  /** None of the last `k` end blocks exceeds the highest of those before them. */
  ghost predicate Stuck(ends: seq<nat>, k: nat) {
    k <= |ends| && forall i | |ends| - k <= i < |ends| :: ends[i] <= Highest(ends[..|ends| - k])
  }

  /** An interval more without progress. */
  lemma StuckStep(ends: seq<nat>, k: nat)
    requires ends != [] && k > 0
    requires var front := ends[..|ends| - 1];
             Stuck(front, k - 1) ==> Highest(front) == Highest(front[..|front| - (k - 1)])
    ensures Stuck(ends, k) <==> Stuck(ends[..|ends| - 1], k - 1) && ends[|ends| - 1] <= Highest(ends[..|ends| - 1])
  {
    hide Highest;
    if k <= |ends| {
      var front := ends[..|ends| - 1];
      assert front[..|front| - (k - 1)] == ends[..|ends| - k];
      assert forall i | 0 <= i < |front| :: front[i] == ends[i];
    }
  }

  lemma {:induction false} IdleIsStuck(ends: seq<nat>, k: nat)
    ensures Idle(ends) >= k <==> Stuck(ends, k)
    ensures Stuck(ends, k) ==> Highest(ends) == Highest(ends[..|ends| - k])
  {
    if k == 0 {
      assert ends[..|ends|] == ends;
    } else if ends != [] {
      hide Stuck;
      var front := ends[..|ends| - 1];
      IdleIsStuck(front, k - 1);
      StuckStep(ends, k);
      StuckFits(ends, k);
      assert k <= |ends| ==> front[..|front| - (k - 1)] == ends[..|ends| - k];
    }
  }

  lemma StuckFits(ends: seq<nat>, k: nat)
    ensures Stuck(ends, k) ==> k <= |ends|
  {
  }

  /** After `n` intervals a live upstream is stale exactly when `n >= 12` and none of its
      last 12 end blocks exceeds the highest one before them; or when the flag it came with
      has never been cleared, because no end block above 0 was seen yet. */
  lemma StaleExactly(stale: bool, ends: seq<nat>)
    ensures Watched(stale, ends).stale <==>
              || Stuck(ends, STALE_THRESHOLD)
              || (stale && forall i | 0 <= i < |ends| :: ends[i] == 0)
  {
    WatchedIs(stale, ends);
    IdleIsStuck(ends, STALE_THRESHOLD);
    IdleIsStuck(ends, |ends|);
    assert ends[..|ends| - |ends|] == [];
  }

  /** A flag carried over from an earlier generation outlives the new tracker's start. */
  lemma InheritedFlagLingers()
    ensures Watched(true, [0]).stale && !Watched(false, [0]).stale
  {
  }

  // --------------------------------------------------------------- the tracker

  class Fleet {
    var db: Db

    constructor (db: Db)
      ensures this.db == db
    {
      this.db := db;
    }
  }

  function Default(m: map<Endpoint, nat>, e: Endpoint): nat { if e in m then m[e] else 0 }

  /** Everything one interval reads and writes. */
  datatype Books = Books(db: Db, last: map<Endpoint, nat>, counters: map<Endpoint, nat>)

  function TrackOf(b: Books, e: Endpoint): Track
    requires e in b.db
  {
    Track(Default(b.last, e), Default(b.counters, e), b.db[e].stale)
  }

  predicate Advances(b: Books, e: Endpoint)
    requires e in b.db
  {
    !b.db[e].frozen && b.db[e].end > Default(b.last, e)
  }

  function Advancing(b: Books): set<Endpoint> {
    set e | e in b.db && Advances(b, e)
  }

  function Counted(b: Books, todo: set<Endpoint>): nat { |Advancing(b) - todo| }

  /** `e` has had its interval: its track is moved on, the hint is given the first time it is
      stale and looks frozen, and all else is as reported. */
  ghost predicate Moved(b: Books, c: Books, e: Endpoint)
    requires e in b.db && e in c.db
  {
    && c.db[e] == b.db[e].(stale := c.db[e].stale, hinted := Hinted(b.db[e], c.db[e].stale))
    && TrackOf(c, e) == Ticked(TrackOf(b, e), b.db[e].frozen, b.db[e].end)
  }

  ghost predicate Same(b: Books, c: Books, e: Endpoint)
    requires e in b.db && e in c.db
  {
    c.db[e] == b.db[e] && TrackOf(c, e) == TrackOf(b, e)
  }

  /** All but the upstreams in `todo` have had their interval. */
  ghost predicate Partly(b: Books, c: Books, todo: set<Endpoint>) {
    && todo <= b.db.Keys == c.db.Keys
    && forall e | e in b.db :: if e in todo then Same(b, c, e) else Moved(b, c, e)
  }

  function Put(c: Books, e: Endpoint, s: Server, last: nat, counter: nat): Books {
    Books(c.db[e := s], c.last[e := last], c.counters[e := counter])
  }

  lemma PutMoves(b: Books, c: Books, todo: set<Endpoint>, e: Endpoint, s: Server, t: Track)
    requires Partly(b, c, todo) && e in todo
    requires t == Ticked(TrackOf(b, e), b.db[e].frozen, b.db[e].end)
    requires s == b.db[e].(stale := t.stale, hinted := Hinted(b.db[e], t.stale))
    ensures Partly(b, Put(c, e, s, t.last, t.counter), todo - {e})
  {
    hide Ticked, Hinted;
    var d := Put(c, e, s, t.last, t.counter);
    forall f | f in b.db ensures if f in todo - {e} then Same(b, d, f) else Moved(b, d, f) {
      if f == e {
        assert TrackOf(d, e) == t;
      } else {
        assert TrackOf(d, f) == TrackOf(c, f) && d.db[f] == c.db[f];
      }
    }
  }

  class ProgressTracker {
    var lastBlock: map<Endpoint, nat>
    var staleCounter: map<Endpoint, nat>

    constructor ()
      ensures lastBlock == map[] && staleCounter == map[]
    {
      lastBlock, staleCounter := map[], map[];
    }

    ghost function View(fleet: Fleet): Books
      reads this, fleet
    {
      Books(fleet.db, lastBlock, staleCounter)
    }

    /** One interval, over the upstreams in any order: each upstream's track moves on by what
        it reported, and the count is of those that advanced. */
    method Tick(fleet: Fleet) returns (updated: nat)
      modifies this, fleet
      ensures Partly(old(View(fleet)), View(fleet), {})
      ensures updated == |Advancing(old(View(fleet)))|
    {
      hide Partly, Ticked, Hinted, Advances, Advancing, TrackOf, Counted;
      ghost var was := View(fleet);
      var todo := fleet.db.Keys;
      updated := 0;
      StartPartly(was);
      while todo != {}
        invariant todo <= was.db.Keys && Partly(was, View(fleet), todo)
        invariant updated == Counted(was, todo)
        decreases todo
      {
        var e :| e in todo;
        PartlyAt(was, View(fleet), todo, e);
        var last := if e in lastBlock then lastBlock[e] else 0;
        var counter := if e in staleCounter then staleCounter[e] else 0;
        var state, advances;
        state, last, counter, advances := TickOne(fleet.db[e], last, counter);
        PutMoves(was, View(fleet), todo, e, state, Track(last, counter, state.stale));
        CountOne(was, todo, e);
        if advances {
          updated := updated + 1;
        }
        lastBlock, staleCounter := lastBlock[e := last], staleCounter[e := counter];
        fleet.db := fleet.db[e := state];
        todo := todo - {e};
      }
    }

    /** One upstream's interval. */
    method TickOne(s: Server, last: nat, counter: nat)
      returns (state: Server, newLast: nat, newCounter: nat, advances: bool)
      ensures Track(newLast, newCounter, state.stale) == Ticked(Track(last, counter, s.stale), s.frozen, s.end)
      ensures state == s.(stale := state.stale, hinted := Hinted(s, state.stale))
      ensures advances <==> !s.frozen && s.end > last
    {
      state, newLast, newCounter, advances := s, last, counter, false;
      if s.frozen {
        newLast, newCounter, state := s.end, 0, s.(stale := false);
        return;
      }
      if s.end > last {
        newLast, newCounter, advances := s.end, 0, true;
        if s.stale {
          state := s.(stale := false);
        }
      } else {
        newCounter := if counter < U32_MAX then counter + 1 else counter;
        if newCounter == STALE_THRESHOLD && !s.stale {
          state := s.(stale := true);
        }
      }
      if state.stale && !state.hinted && LooksFrozen(s) {
        state := state.(hinted := true);
      }
    }
  }

  lemma StartPartly(b: Books)
    ensures Partly(b, b, b.db.Keys) && Counted(b, b.db.Keys) == 0 && Counted(b, {}) == |Advancing(b)|
  {
  }

  lemma PartlyAt(b: Books, c: Books, todo: set<Endpoint>, e: Endpoint)
    requires Partly(b, c, todo) && e in todo
    ensures e in b.db && e in c.db && c.db[e] == b.db[e]
    ensures TrackOf(b, e) == Track(Default(c.last, e), Default(c.counters, e), c.db[e].stale)
    ensures Advances(b, e) <==> !c.db[e].frozen && c.db[e].end > Default(c.last, e)
  {
  }

  lemma CountOne(b: Books, todo: set<Endpoint>, e: Endpoint)
    requires e in todo && e in b.db
    ensures Counted(b, todo - {e}) == Counted(b, todo) + (if Advances(b, e) then 1 else 0)
  {
    assert Advancing(b) - (todo - {e}) == (Advancing(b) - todo) + (if Advances(b, e) then {e} else {});
  }

  // ---------------------------------------------------------- the monitor loop

  datatype Report = Report(end: nat, head: nat, lib: nat, otherEnds: nat)

  /** What was reported between two intervals. */
  type Reports = map<Endpoint, Report>

  function Reported(db: Db, reports: Reports): Db {
    map e | e in db :: if e in reports then Updated(db[e], reports[e]) else db[e]
  }

  function Updated(s: Server, r: Report): Server {
    s.(end := r.end, head := Some(r.head), lib := Some(r.lib), otherEnds := r.otherEnds)
  }

  /** The end blocks seen of `e` at each interval, from `end` on. */
  function Seen(e: Endpoint, end: nat, rounds: seq<Reports>): seq<nat> {
    if rounds == [] then [] else
      var before := Seen(e, end, rounds[..|rounds| - 1]);
      var last := if before == [] then end else before[|before| - 1];
      before + [if e in rounds[|rounds| - 1] then rounds[|rounds| - 1][e].end else last]
  }

  /** The flag of an upstream after these rounds is what its history says; a frozen one has none
      once an interval has passed. */
  ghost predicate FlaggedExactly(was: Server, s: Server, e: Endpoint, rounds: seq<Reports>) {
    && s.frozen == was.frozen
    && (s.frozen && rounds != [] ==> !s.stale)
    && (!s.frozen ==>
          var ends := Seen(e, was.end, rounds);
          s.stale <==>
            || Stuck(ends, STALE_THRESHOLD)
            || (was.stale && forall i | 0 <= i < |ends| :: ends[i] == 0))
  }

  /** The monitoring loop from a new tracker: any reports between its intervals. At the end
      every live upstream is flagged exactly as its history says, and no frozen one is once an
      interval has passed. */
  method StateMonitor(fleet: Fleet, rounds: seq<Reports>)
    modifies fleet
    ensures fleet.db.Keys == old(fleet.db).Keys
    ensures forall e | e in fleet.db :: FlaggedExactly(old(fleet.db)[e], fleet.db[e], e, rounds)
  {
    hide Partly, Reported, Follows, FlaggedExactly;
    var tracker := new ProgressTracker();
    ghost var was := fleet.db;
    var n := 0;
    assert rounds[..0] == [];
    StartFollows(was);
    while n < |rounds|
      invariant 0 <= n <= |rounds| && fresh(tracker) && was == old(fleet.db)
      invariant Follows(was, tracker.View(fleet), rounds[..n])
    {
      assert rounds[..n + 1][..n] == rounds[..n];
      ghost var b := tracker.View(fleet);
      fleet.db := Reported(fleet.db, rounds[n]);
      var updated := tracker.Tick(fleet);
      RoundFollows(was, b, tracker.View(fleet), rounds[..n + 1]);
      n := n + 1;
    }
    assert rounds[..n] == rounds;
    FollowsExactly(was, tracker.View(fleet), rounds);
  }

  /** The books after these rounds, from a new tracker over `was`. */
  ghost predicate Follows(was: Db, b: Books, rounds: seq<Reports>) {
    b.db.Keys == was.Keys && forall e | e in was :: FollowsAt(was[e], b, e, rounds)
  }

  ghost predicate FollowsAt(was: Server, b: Books, e: Endpoint, rounds: seq<Reports>)
    requires e in b.db
  {
    var ends := Seen(e, was.end, rounds);
    && b.db[e].frozen == was.frozen
    && b.db[e].end == (if ends == [] then was.end else ends[|ends| - 1])
    && (!was.frozen ==> TrackOf(b, e) == Watched(was.stale, ends))
    && (was.frozen && rounds != [] ==> !b.db[e].stale)
  }

  lemma StartFollows(was: Db)
    ensures Follows(was, Books(was, map[], map[]), [])
  {
  }

  lemma RoundFollows(was: Db, b: Books, c: Books, rounds: seq<Reports>)
    requires rounds != [] && Follows(was, b, rounds[..|rounds| - 1])
    requires Partly(b.(db := Reported(b.db, rounds[|rounds| - 1])), c, {})
    ensures Follows(was, c, rounds)
  {
    hide Ticked, FollowsAt, Moved, Same, TrackOf;
    var reported := b.(db := Reported(b.db, rounds[|rounds| - 1]));
    forall e | e in was ensures FollowsAt(was[e], c, e, rounds) {
      RoundFollowsAt(was[e], b, reported, c, e, rounds);
    }
  }

  lemma RoundFollowsAt(was: Server, b: Books, r: Books, c: Books, e: Endpoint, rounds: seq<Reports>)
    requires rounds != [] && e in b.db && e in r.db && e in c.db && FollowsAt(was, b, e, rounds[..|rounds| - 1])
    requires r == b.(db := Reported(b.db, rounds[|rounds| - 1])) && Moved(r, c, e)
    ensures FollowsAt(was, c, e, rounds)
  {
    hide Seen, Watched, Ticked, Hinted;
    SeenNext(e, was.end, rounds);
    ReportedAt(b.db, rounds[|rounds| - 1], e);
    var before, ends := Seen(e, was.end, rounds[..|rounds| - 1]), Seen(e, was.end, rounds);
    WatchedNext(was.stale, before, ends[|ends| - 1]);
    if was.frozen { FrozenTicked(TrackOf(r, e), r.db[e].end); }
  }

  lemma SeenNext(e: Endpoint, end: nat, rounds: seq<Reports>)
    requires rounds != []
    ensures var before, reports := Seen(e, end, rounds[..|rounds| - 1]), rounds[|rounds| - 1];
            var last := if before == [] then end else before[|before| - 1];
            Seen(e, end, rounds) == before + [if e in reports then reports[e].end else last]
  {
  }

  lemma ReportedAt(db: Db, reports: Reports, e: Endpoint)
    requires e in db
    ensures e in Reported(db, reports)
    ensures var s := Reported(db, reports)[e];
            (s.frozen, s.stale) == (db[e].frozen, db[e].stale) && s.end == if e in reports then reports[e].end else db[e].end
  {
  }

  lemma WatchedNext(stale: bool, ends: seq<nat>, end: nat)
    ensures Watched(stale, ends + [end]) == Ticked(Watched(stale, ends), false, end)
  {
    assert (ends + [end])[..|ends|] == ends;
  }

  lemma FrozenTicked(t: Track, end: nat)
    ensures !Ticked(t, true, end).stale
  {
  }

  lemma FollowsExactly(was: Db, b: Books, rounds: seq<Reports>)
    requires Follows(was, b, rounds)
    ensures b.db.Keys == was.Keys
    ensures forall e | e in was :: FlaggedExactly(was[e], b.db[e], e, rounds)
  {
    hide FollowsAt, FlaggedExactly;
    forall e | e in was ensures FlaggedExactly(was[e], b.db[e], e, rounds) {
      assert FollowsAt(was[e], b, e, rounds);
      FollowsExactlyAt(was[e], b, e, rounds);
    }
  }

  lemma FollowsExactlyAt(was: Server, b: Books, e: Endpoint, rounds: seq<Reports>)
    requires e in b.db && FollowsAt(was, b, e, rounds)
    ensures FlaggedExactly(was, b.db[e], e, rounds)
  {
    hide Stuck, Seen, Watched;
    StaleExactly(was.stale, Seen(e, was.end, rounds));
  }
}
