/** The lifecycle capture protocol and the bounded event log.

    Any number of writers mark their changes without holding a lock across them. A capture
    reads a version while no writer is active and completes only if the version still
    stands. Each atomic region under a lock is one step. */
module Telemetry {
  import opened Options

  const WRAP: nat := 0x1_0000_0000_0000_0000
  const HALF: nat := 0x8000_0000_0000_0000
  const MAX_EVENTS: nat := 500

  datatype Event = Event(id: nat, time: nat, message: string)

  datatype State = State(generation: nat, writers: nat, events: seq<Event>, nextId: nat)

  datatype Step =
    | Begin
    | End
    | Append(event: Event)
    | Capture(version: nat, transitions: seq<Event>)

  function Init(): State { State(0, 0, [], 1) }

  // --------------------------------------------------------------- the log

  /** Keep an event under the next id, dropping the oldest of a full log. */
  function Logged(s: State, e: Event): State {
    var kept := if |s.events| == MAX_EVENTS then s.events[1..] else s.events;
    s.(events := kept + [e.(id := s.nextId)], nextId := s.nextId + 1)
  }

  function LoggedAll(s: State, es: seq<Event>): State {
    if es == [] then s else Logged(LoggedAll(s, es[..|es| - 1]), es[|es| - 1])
  }

  /** The newest `MAX_EVENTS` of everything ever logged. */
  function Newest(all: seq<Event>): seq<Event> {
    if |all| <= MAX_EVENTS then all else all[|all| - MAX_EVENTS..]
  }

  /** The log holds the newest events of the whole history, whose ids count from one. */
  ghost predicate LogHolds(s: State, all: seq<Event>) {
    && s.nextId == |all| + 1
    && s.events == Newest(all)
    && Numbered(all)
  }

  lemma LoggedHolds(s: State, all: seq<Event>, e: Event)
    requires LogHolds(s, all)
    ensures LogHolds(Logged(s, e), all + [e.(id := |all| + 1)])
  {
  }

  // ------------------------------------------------------------- the steps

  predicate Open(s: State, version: nat) { s.writers == 0 && s.generation == version }

  predicate Enabled(s: State, step: Step) {
    match step
    case End => s.writers > 0
    case Append(_) => s.writers > 0
    case _ => true
  }

  function Next(s: State, step: Step): State
    requires Enabled(s, step)
  {
    match step
    case Begin => s.(generation := (s.generation + 1) % WRAP, writers := s.writers + 1)
    case End => s.(generation := (s.generation + 1) % WRAP, writers := s.writers - 1)
    case Append(e) => Logged(s, e)
    case Capture(version, es) => if Open(s, version) then LoggedAll(s, es) else s
  }

  predicate Runs(s: State, steps: seq<Step>)
    decreases |steps|
  {
    steps == [] || (Enabled(s, steps[0]) && Runs(Next(s, steps[0]), steps[1..]))
  }

  function After(s: State, steps: seq<Step>): State
    requires Runs(s, steps)
    decreases |steps|
  {
    if steps == [] then s else After(Next(s, steps[0]), steps[1..])
  }

  function Begins(steps: seq<Step>): nat {
    if steps == [] then 0 else (if steps[0].Begin? then 1 else 0) + Begins(steps[1..])
  }

  function Ends(steps: seq<Step>): nat {
    if steps == [] then 0 else (if steps[0].End? then 1 else 0) + Ends(steps[1..])
  }

  lemma {:induction false} LoggedAllKeepsCounts(s: State, es: seq<Event>)
    ensures LoggedAll(s, es).generation == s.generation && LoggedAll(s, es).writers == s.writers
  {
    if es != [] { LoggedAllKeepsCounts(s, es[..|es| - 1]); }
  }

  /** Both ends of a change move the version by one, and nothing else does. */
  lemma {:induction false} Accounting(s: State, steps: seq<Step>)
    requires s.generation < WRAP && Runs(s, steps)
    ensures After(s, steps).generation == (s.generation + Begins(steps) + Ends(steps)) % WRAP
    ensures After(s, steps).writers == s.writers + Begins(steps) - Ends(steps)
    decreases |steps|
  {
    if steps != [] {
      if steps[0].Capture? { LoggedAllKeepsCounts(s, steps[0].transitions); }
      var n := Next(s, steps[0]);
      Accounting(n, steps[1..]);
      var rest := Begins(steps[1..]) + Ends(steps[1..]);
      if steps[0].Begin? || steps[0].End? {
        WrapAgain(s.generation + 1, rest);
      }
    }
  }

  lemma WrapAgain(a: nat, b: nat)
    ensures (a % WRAP + b) % WRAP == (a + b) % WRAP
  {
  }

  /** A version taken with no writer active comes back, with no writer active, exactly when
      the number of changes in between is a multiple of 2^63: a change moves the 64-bit
      version twice. */
  lemma VersionReturnsExactly(s: State, steps: seq<Step>)
    requires s.generation < WRAP && s.writers == 0 && Runs(s, steps) && After(s, steps).writers == 0
    ensures Open(After(s, steps), s.generation) <==> Begins(steps) % HALF == 0
  {
    Accounting(s, steps);
    var n := Begins(steps);
    assert Ends(steps) == n;
    TwiceMod(s.generation, n);
  }

  lemma TwiceMod(g: nat, n: nat)
    requires g < WRAP
    ensures (g + n + n) % WRAP == g <==> n % HALF == 0
  {
  }

  /** A capture that completes had no lifecycle writer active at any moment since its
      version exactly when fewer than 2^63 changes began in between. Then no step in between
      was a change, or logged anything but another capture's transitions. */
  lemma CaptureUndisturbedExactly(s: State, steps: seq<Step>)
    requires s.generation < WRAP && s.writers == 0 && Runs(s, steps) && Open(After(s, steps), s.generation)
    ensures Begins(steps) < HALF <==>
              forall i: nat | i <= |steps| :: RunsPrefix(s, steps, i) && After(s, steps[..i]).writers == 0
    ensures Begins(steps) < HALF ==> forall i | 0 <= i < |steps| :: steps[i].Capture?
  {
    VersionReturnsExactly(s, steps);
    if Begins(steps) < HALF {
      forall i: nat | i <= |steps|
        ensures RunsPrefix(s, steps, i) && After(s, steps[..i]).writers == 0
        ensures i < |steps| ==> steps[i].Capture?
      {
        Quiet(s, steps, i);
      }
    } else {
      var i := FirstBegin(s, steps);
    }
  }

  /** A run that begins changes has a writer right after the first of them. */
  lemma {:induction false} FirstBegin(s: State, steps: seq<Step>) returns (i: nat)
    requires s.writers == 0 && Runs(s, steps) && Begins(steps) > 0
    ensures i <= |steps| && RunsPrefix(s, steps, i) && After(s, steps[..i]).writers > 0
    decreases |steps|
  {
    if steps[0].Begin? {
      i := 1;
      assert steps[..1][1..] == [];
    } else {
      LoggedAllKeepsCounts(s, steps[0].transitions);
      i := FirstBegin(Next(s, steps[0]), steps[1..]);
      i := i + 1;
      assert steps[..i][1..] == steps[1..][..i - 1];
    }
  }

  /** `n` changes, one after the other. */
  function Burst(n: nat): seq<Step> {
    if n == 0 then [] else [Begin, End] + Burst(n - 1)
  }

  lemma {:induction false} BurstRuns(s: State, n: nat)
    ensures Runs(s, Burst(n)) && After(s, Burst(n)).writers == s.writers && Begins(Burst(n)) == n
    decreases n
  {
    if n > 0 {
      var steps := Burst(n);
      var t := Next(Next(s, Begin), End);
      BurstRuns(t, n - 1);
      assert steps[1..][1..] == Burst(n - 1);
      assert Runs(Next(s, Begin), steps[1..]);
    }
  }

  /** The version does return after 2^63 changes. */
  lemma WrapHidesChanges(s: State)
    requires s.generation < WRAP && s.writers == 0
    ensures Runs(s, Burst(HALF)) && Begins(Burst(HALF)) == HALF && Open(After(s, Burst(HALF)), s.generation)
  {
    BurstRuns(s, HALF);
    hide Burst;
    VersionReturnsExactly(s, Burst(HALF));
  }

  ghost predicate RunsPrefix(s: State, steps: seq<Step>, i: nat)
    requires i <= |steps|
  {
    Runs(s, steps[..i])
  }

  lemma {:induction false} Quiet(s: State, steps: seq<Step>, i: nat)
    requires s.writers == 0 && Runs(s, steps) && Begins(steps) == 0 && i <= |steps|
    ensures Runs(s, steps[..i]) && After(s, steps[..i]).writers == 0
    ensures i < |steps| ==> steps[i].Capture?
    decreases |steps|
  {
    if i > 0 {
      assert steps[0].Capture?;
      LoggedAllKeepsCounts(s, steps[0].transitions);
      Quiet(Next(s, steps[0]), steps[1..], i - 1);
      assert steps[..i][1..] == steps[1..][..i - 1];
      assert steps[1..][..i - 1] == steps[..i][1..];
    }
  }

  // ------------------------------------------------- the log over whole runs

  function Numbering(all: seq<Event>, es: seq<Event>): seq<Event> {
    all + seq(|es|, i requires 0 <= i < |es| => es[i].(id := |all| + i + 1))
  }

  /** The events a step logs. */
  function LoggedBy(s: State, step: Step): seq<Event> {
    match step
    case Append(e) => [e]
    case Capture(version, es) => if Open(s, version) then es else []
    case _ => []
  }

  /** What a run logs, in order, after the events `all`. */
  function History(s: State, all: seq<Event>, steps: seq<Step>): seq<Event>
    requires Runs(s, steps)
    decreases |steps|
  {
    if steps == [] then all else
      History(Next(s, steps[0]), Numbering(all, LoggedBy(s, steps[0])), steps[1..])
  }

  lemma {:induction false} LoggedAllHolds(s: State, all: seq<Event>, es: seq<Event>)
    requires LogHolds(s, all)
    ensures LogHolds(LoggedAll(s, es), Numbering(all, es))
  {
    if es == [] {
      assert Numbering(all, es) == all;
    } else {
      var front, last := es[..|es| - 1], es[|es| - 1];
      LoggedAllHolds(s, all, front);
      LoggedHolds(LoggedAll(s, front), Numbering(all, front), last);
      assert Numbering(all, es) == Numbering(all, front) + [last.(id := |all| + |es|)];
    }
  }

  /** Along every run the log is the newest 500 of everything logged, numbered from one. */
  lemma {:induction false} RunLogs(s: State, all: seq<Event>, steps: seq<Step>)
    requires Runs(s, steps) && LogHolds(s, all)
    ensures LogHolds(After(s, steps), History(s, all, steps))
    decreases |steps|
  {
    if steps != [] {
      var logged := LoggedBy(s, steps[0]);
      LoggedAllHolds(s, all, logged);
      assert steps[0].Append? ==> LoggedAll(s, logged) == Logged(LoggedAll(s, logged[..0]), logged[0]);
      RunLogs(Next(s, steps[0]), Numbering(all, logged), steps[1..]);
    }
  }

  /** A longer run only adds to what a shorter one logged. */
  lemma {:induction false} HistoryGrows(s: State, all: seq<Event>, steps: seq<Step>, i: nat)
    requires Runs(s, steps) && i <= |steps|
    ensures Runs(s, steps[..i]) && all <= History(s, all, steps[..i]) <= History(s, all, steps)
    decreases |steps|
  {
    hide Next, Enabled;
    if steps == [] {
      assert steps[..i] == [];
    } else {
      var next := Numbering(all, LoggedBy(s, steps[0]));
      if i == 0 {
        HistoryGrows(Next(s, steps[0]), next, steps[1..], 0);
        assert steps[1..][..0] == [];
        assert steps[..0] == [];
      } else {
        HistoryGrows(Next(s, steps[0]), next, steps[1..], i - 1);
        assert steps[..i][1..] == steps[1..][..i - 1];
        assert steps[..i][0] == steps[0];
      }
    }
  }

  // ------------------------------------------------------- watermark reads

  function Max(a: nat, b: nat): nat { if a >= b then a else b }

  function Min(a: nat, b: nat): nat { if a <= b then a else b }

  /** Ids already evicted when `n` events have been logged. */
  function Evicted(n: nat): nat { if n <= MAX_EVENTS then 0 else n - MAX_EVENTS }

  /** What a read after id `after` returns when everything logged so far is `all`. */
  function Served(all: seq<Event>, after: nat): seq<Event> {
    if after >= |all| then [] else all[Max(after, Evicted(|all|))..]
  }

  /** The reader's next watermark: the id of the last event it was served. */
  function Through(served: seq<Event>, after: nat): nat {
    if served == [] then after else served[|served| - 1].id
  }

  /** Everything a reader is served over successive reads of one growing history `all`,
      whose lengths at those reads are `sizes`. */
  function Collected(all: seq<Event>, after: nat, sizes: seq<nat>): seq<Event>
    requires forall i | 0 <= i < |sizes| :: sizes[i] <= |all|
    decreases |sizes|
  {
    if sizes == [] then [] else
      var served := Served(all[..sizes[0]], after);
      served + Collected(all, Through(served, after), sizes[1..])
  }

  /** The first read at which `id` had been logged still held it. */
  ghost predicate HeldAtFirstRead(id: nat, sizes: seq<nat>) {
    && sizes != []
    && if id <= sizes[0] then id > Evicted(sizes[0]) else HeldAtFirstRead(id, sizes[1..])
  }

  ghost predicate Numbered(all: seq<Event>) {
    forall i | 0 <= i < |all| :: all[i].id == i + 1
  }

  /** One read serves a stretch of the history and moves the watermark to its end; past the
      end it serves nothing and leaves the watermark. */
  lemma ServedIsSlice(all: seq<Event>, after: nat, n: nat)
    requires Numbered(all) && n <= |all|
    ensures var from := Min(Max(after, Evicted(n)), n); Served(all[..n], after) == all[from..n]
    ensures Through(Served(all[..n], after), after) == Max(after, n)
  {
  }

  /** A subsequence of the history in order, all past `after`. */
  ghost predicate InOrder(all: seq<Event>, got: seq<Event>, after: nat) {
    && (forall i, j | 0 <= i < j < |got| :: got[i].id < got[j].id)
    && (forall i | 0 <= i < |got| :: after < got[i].id <= |all| && got[i] == all[got[i].id - 1])
  }

  lemma SliceInOrder(all: seq<Event>, rest: seq<Event>, after: nat, from: nat, n: nat)
    requires Numbered(all) && from <= n <= |all| && (after <= from || from == n) && InOrder(all, rest, Max(after, n))
    ensures InOrder(all, all[from..n] + rest, after)
  {
    var first, got := all[from..n], all[from..n] + rest;
    forall i, j | 0 <= i < j < |got| ensures got[i].id < got[j].id {
      if i < |first| <= j { assert got[j] == rest[j - |first|]; }
    }
  }

  lemma SliceHolds(all: seq<Event>, rest: seq<Event>, from: nat, n: nat, k: nat)
    requires Numbered(all) && from <= n <= |all| && k < |all|
    ensures all[k] in all[from..n] + rest <==> from <= k < n || all[k] in rest
  {
    if from <= k < n { assert all[from..n][k - from] == all[k]; }
  }

  /** Successive reads repeat nothing, keep the log's order, and miss exactly the events that
      were already evicted at the first read after they were logged. */
  lemma {:induction false} ReadsExactlyOnce(all: seq<Event>, after: nat, sizes: seq<nat>, k: nat)
    requires Numbered(all) && k < |all|
    requires forall i | 0 <= i < |sizes| :: sizes[i] <= |all|
    requires forall i, j | 0 <= i < j < |sizes| :: sizes[i] <= sizes[j]
    ensures InOrder(all, Collected(all, after, sizes), after)
    ensures all[k] in Collected(all, after, sizes) <==> k + 1 > after && HeldAtFirstRead(k + 1, sizes)
    decreases |sizes|
  {
    hide Served, Through, InOrder;
    if sizes == [] {
      NoneInOrder(all, after);
    } else {
      var n := sizes[0];
      var from := Min(Max(after, Evicted(n)), n);
      ServedIsSlice(all, after, n);
      ReadsExactlyOnce(all, Max(after, n), sizes[1..], k);
      var rest := Collected(all, Max(after, n), sizes[1..]);
      SliceInOrder(all, rest, after, from, n);
      SliceHolds(all, rest, from, n, k);
    }
  }

  lemma NoneInOrder(all: seq<Event>, after: nat)
    ensures InOrder(all, [], after)
  {
  }

  // ------------------------------------------------------ reads along a run

  /** A read: the retained events with a later id, in order. */
  function ReadFrom(events: seq<Event>, after: nat): seq<Event> {
    if events == [] then [] else
      var front, last := ReadFrom(events[..|events| - 1], after), events[|events| - 1];
      if last.id > after then front + [last] else front
  }

  /** What a reader is served over reads after the first `points[0]`, `points[1]`, ... steps
      of a run, each from the watermark the one before left. */
  function RunReads(steps: seq<Step>, points: seq<nat>, after: nat): seq<Event>
    requires Runs(Init(), steps)
    requires forall i | 0 <= i < |points| :: points[i] <= |steps| && Runs(Init(), steps[..points[i]])
    decreases |points|
  {
    if points == [] then [] else
      var got := ReadFrom(After(Init(), steps[..points[0]]).events, after);
      got + RunReads(steps, points[1..], Through(got, after))
  }

  /** How many events the run has logged at each of the reads. */
  function SizesAt(steps: seq<Step>, points: seq<nat>): seq<nat>
    requires forall i | 0 <= i < |points| :: points[i] <= |steps| && Runs(Init(), steps[..points[i]])
  {
    if points == [] then [] else [|History(Init(), [], steps[..points[0]])|] + SizesAt(steps, points[1..])
  }

  lemma ReadNothing(after: nat)
    ensures ReadFrom([], after) == []
  {
  }

  lemma ReadLast(events: seq<Event>, e: Event, after: nat)
    ensures ReadFrom(events + [e], after) == ReadFrom(events, after) + if e.id > after then [e] else []
  {
    assert (events + [e])[..|events|] == events;
  }

  lemma SliceLast(all: seq<Event>, from: nat, n: nat)
    requires from < n <= |all|
    ensures all[from..n] == all[from..n - 1] + [all[n - 1]]
  {
  }

  lemma {:induction false} ReadTail(all: seq<Event>, from: nat, n: nat, after: nat)
    requires Numbered(all) && from <= n <= |all|
    ensures ReadFrom(all[from..n], after) == all[Min(Max(after, from), n)..n]
    decreases n - from
  {
    hide ReadFrom;
    if from == n {
      assert all[from..n] == [];
      ReadNothing(after);
    } else {
      SliceLast(all, from, n);
      ReadLast(all[from..n - 1], all[n - 1], after);
      ReadTail(all, from, n - 1, after);
      if n > after { SliceLast(all, Max(after, from), n); }
    }
  }

  /** A read of the retained events is a read of the whole history. */
  lemma ReadIsServed(s: State, all: seq<Event>, after: nat)
    requires LogHolds(s, all)
    ensures ReadFrom(s.events, after) == Served(all, after)
  {
    var n := |all|;
    ReadTail(all, Evicted(n), n, after);
    assert all[..n] == all && all[Evicted(n)..n] == s.events;
    ServedIsSlice(all, after, n);
  }

  lemma {:induction false} RunReadsCollect(steps: seq<Step>, points: seq<nat>, after: nat)
    requires Runs(Init(), steps)
    requires forall i | 0 <= i < |points| :: points[i] <= |steps| && Runs(Init(), steps[..points[i]])
    requires forall i, j | 0 <= i < j < |points| :: points[i] <= points[j]
    ensures var all, sizes := History(Init(), [], steps), SizesAt(steps, points);
            && |sizes| == |points|
            && (forall i | 0 <= i < |sizes| :: sizes[i] == |History(Init(), [], steps[..points[i]])| <= |all|)
            && RunReads(steps, points, after) == Collected(all, after, sizes)
    decreases |points|
  {
    hide Served, ReadFrom, Through, Runs, After, History;
    if points != [] {
      var all := History(Init(), [], steps);
      var part := steps[..points[0]];
      HistoryGrows(Init(), [], steps, points[0]);
      RunLogs(Init(), [], part);
      ReadIsServed(After(Init(), part), History(Init(), [], part), after);
      assert all[..|History(Init(), [], part)|] == History(Init(), [], part);
      var got := ReadFrom(After(Init(), part).events, after);
      RunReadsCollect(steps, points[1..], Through(got, after));
    }
  }

  /** A reader along any run: whenever it reads and whatever watermark it starts from, it is
      served nothing twice and everything in order, and it gets the `k`-th event logged exactly
      if that is past the first watermark and was still retained at the first read after it was
      logged. */
  lemma ReaderExactly(steps: seq<Step>, points: seq<nat>, after: nat, k: nat)
    requires Runs(Init(), steps) && k < |History(Init(), [], steps)|
    requires forall i | 0 <= i < |points| :: points[i] <= |steps| && Runs(Init(), steps[..points[i]])
    requires forall i, j | 0 <= i < j < |points| :: points[i] <= points[j]
    ensures var all, got := History(Init(), [], steps), RunReads(steps, points, after);
            && InOrder(all, got, after)
            && (all[k] in got <==> k + 1 > after && HeldAtFirstRead(k + 1, SizesAt(steps, points)))
  {
    hide InOrder, Runs, After, History, HeldAtFirstRead, Collected, RunReads;
    var all, sizes := History(Init(), [], steps), SizesAt(steps, points);
    RunReadsCollect(steps, points, after);
    RunLogs(Init(), [], steps);
    forall i, j | 0 <= i < j < |sizes| ensures sizes[i] <= sizes[j] {
      SizesGrow(steps, points[i], points[j]);
    }
    ReadsExactlyOnce(all, after, sizes, k);
  }

  lemma SizesGrow(steps: seq<Step>, i: nat, j: nat)
    requires i <= j <= |steps| && Runs(Init(), steps[..i]) && Runs(Init(), steps[..j])
    ensures |History(Init(), [], steps[..i])| <= |History(Init(), [], steps[..j])|
  {
    hide Runs, History;
    HistoryGrows(Init(), [], steps[..j], i);
    assert steps[..j][..i] == steps[..i];
  }

  /** Events with the time each was kept at. */
  function Stamped(es: seq<Event>, clock: seq<nat>): seq<Event>
    requires |clock| == |es|
  {
    seq(|es|, i requires 0 <= i < |es| => es[i].(time := clock[i]))
  }

  lemma NothingLogged(s: State, all: seq<Event>, es: seq<Event>)
    ensures LoggedAll(s, es[..0]) == s && Numbering(all, es[..0]) == all
  {
  }

  lemma OneLogged(s: State, all: seq<Event>, es: seq<Event>, i: nat)
    requires i < |es|
    ensures LoggedAll(s, es[..i + 1]) == Logged(LoggedAll(s, es[..i]), es[i])
    ensures |Numbering(all, es[..i])| == |all| + i
    ensures Numbering(all, es[..i + 1]) == Numbering(all, es[..i]) + [es[i].(id := |all| + i + 1)]
  {
    assert es[..i + 1][..i] == es[..i];
  }

  // --------------------------------------------------------------- the store

  class Store {
    var generation: nat
    var writers: nat
    var events: seq<Event>
    var nextId: nat
    /** What live streams were sent. */
    var streamed: seq<Event>
    /** Everything ever logged. */
    ghost var all: seq<Event>

    ghost function View(): State
      reads this
    {
      State(generation, writers, events, nextId)
    }

    ghost predicate Valid()
      reads this
    {
      generation < WRAP && LogHolds(View(), all)
    }

    constructor ()
      ensures Valid() && View() == Init() && all == [] && streamed == all
    {
      generation, writers, events, nextId, streamed := 0, 0, [], 1, [];
      all := [];
    }

    method BeginChange()
      requires Valid()
      modifies this`generation, this`writers
      ensures Valid() && View() == Next(old(View()), Begin)
    {
      generation := (generation + 1) % WRAP;
      writers := writers + 1;
    }

    method EndChange() returns (wake: bool)
      requires Valid() && writers > 0
      modifies this`generation, this`writers
      ensures Valid() && View() == Next(old(View()), End)
      ensures wake <==> writers == 0
    {
      writers := writers - 1;
      generation := (generation + 1) % WRAP;
      wake := writers == 0;
    }

    /** A version that stands now, unless a writer is active. */
    method CaptureVersion() returns (r: Option<nat>)
      ensures r.None? <==> writers > 0
      ensures r.Some? ==> Open(View(), r.value)
    {
      r := if writers == 0 then Some(generation) else None;
    }

    /** Stamp an event and keep it under the next id; what was returned is what was kept. */
    method AppendEvent(e: Event, now: nat) returns (kept: Event)
      requires Valid()
      modifies this`events, this`nextId, this`all
      ensures Valid() && View() == Logged(old(View()), e.(time := now))
      ensures kept == e.(time := now, id := |old(all)| + 1) && all == old(all) + [kept]
    {
      LoggedHolds(View(), all, e.(time := now));
      kept := e.(time := now);
      kept := kept.(id := nextId);
      nextId := nextId + 1;
      if |events| == MAX_EVENTS {
        events := events[1..];
      }
      events := events + [kept];
      all := all + [kept];
    }

    /** One emitted event: a change around its entry in the log. */
    method Emit(e: Event, now: nat)
      requires Valid() && streamed == all
      modifies this
      ensures Valid() && all == old(all) + [e.(time := now, id := |old(all)| + 1)] && streamed == all
      ensures View() == Next(Next(Next(old(View()), Begin), Append(e.(time := now))), End)
    {
      BeginChange();
      var kept := AppendEvent(e, now);
      streamed := streamed + [kept];
      var wake := EndChange();
    }

    /** The retained events after a watermark, oldest first. */
    method EventsAfter(after: nat) returns (r: seq<Event>)
      requires Valid()
      ensures r == Served(all, after) == ReadFrom(events, after)
    {
      r := [];
      var i := 0;
      while i < |events|
        invariant 0 <= i <= |events|
        invariant r == ReadFrom(events[..i], after)
      {
        assert events[..i + 1][..i] == events[..i];
        if events[i].id > after {
          r := r + [events[i]];
        }
        i := i + 1;
      }
      assert events[..i] == events;
      ReadIsServed(View(), all, after);
    }

    /** Complete a capture only if no writer overlapped it. The status transitions join the
        log before the final read, so it ends with them. */
    method CaptureEvents(version: nat, after: nat, transitions: seq<Event>, clock: seq<nat>) returns (r: Option<seq<Event>>)
      requires Valid() && streamed == all && |clock| == |transitions|
      modifies this`events, this`nextId, this`all, this`streamed
      ensures Valid() && View() == Next(old(View()), Capture(version, Stamped(transitions, clock)))
      ensures r.Some? <==> old(writers) == 0 && old(generation) == version
      ensures r.Some? ==> r.value == Served(all, after)
      ensures all == if r.Some? then Numbering(old(all), Stamped(transitions, clock)) else old(all)
      ensures streamed == all
    {
      if writers != 0 || generation != version {
        return None;
      }
      hide Numbering, LoggedAll, Logged, LogHolds;
      ghost var stamped := Stamped(transitions, clock);
      var i := 0;
      NothingLogged(View(), all, stamped);
      while i < |transitions|
        invariant 0 <= i <= |transitions|
        invariant Valid() && View() == LoggedAll(old(View()), stamped[..i])
        invariant all == Numbering(old(all), stamped[..i]) && streamed == all
      {
        OneLogged(old(View()), old(all), stamped, i);
        var kept := AppendEvent(transitions[i], clock[i]);
        streamed := streamed + [kept];
        i := i + 1;
      }
      assert stamped[..i] == stamped;
      var events := EventsAfter(after);
      r := Some(events);
    }
  }
}
