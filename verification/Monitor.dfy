/** One upstream's monitor: a session keeps at most one status request in flight, and the
    loop around the sessions chooses which request version to poll with.

    The socket, the clock and shutdown are inputs: each says when it happened and, where the
    session answers it by sending, whether and when that send completed. */
module Monitor {
  import opened Options
  import opened Bytes
  import opened StatusFrames
  import opened ChainIds

  const STATUS_REQUEST_V0: Byte := 0
  const STATUS_REQUEST_V1: Byte := 4
  const MISS_LIMIT: nat := 2
  const U32_MAX: nat := 0xFFFF_FFFF

  const MAX_BACKOFF_MS: nat := 30_000
  const U64_MAX: nat := 0xFFFF_FFFF_FFFF_FFFF

  datatype Config = Config(statusMs: nat, connectMs: nat, reconnectMs: nat)

  datatype Frame =
    | Text(accepted: bool)
    | Binary(bytes: seq<Byte>)
    | CloseFrame
    | Other

  datatype Input =
    | Shutdown
    | Received(at: Time, frame: Frame, sentAt: Time, sendOk: bool)
    | Lost(at: Time)
    | Timer(at: Time, sentAt: Time, sendOk: bool)

  datatype End = Stop | Reconnect(unansweredV1: bool, sawStatus: bool)

  /** A status request: when the send began and completed, what was asked, whether it went
      out, and how many results had been received before it. */
  datatype Request = Request(begun: Time, done: Time, variant: Byte, ok: bool, results: nat)

  /** The session's variables, and what it sent and received so far. */
  datatype Session = Session(
    abiSeen: bool,
    abiReady: bool,
    inFlight: bool,
    sentV1: bool,
    sawStatus: bool,
    abiDeadline: Time,
    statusDeadline: Time,
    nextStatusAt: Time,
    request: Byte,
    clock: Time,
    sent: seq<Request>,
    results: nat)

  datatype Outcome = Go(s: Session) | Done(s: Session, end: End)

  function Fresh(c: Config, start: Time, request: Byte): Session {
    var deadline := start + c.connectMs;
    Session(false, false, false, false, false, deadline, deadline, deadline, request, start, [], 0)
  }

  function WakeAt(s: Session): Time {
    if s.abiReady then if s.inFlight then s.statusDeadline else s.nextStatusAt else s.abiDeadline
  }

  predicate Enabled(s: Session, i: Input) {
    match i
    case Shutdown => true
    case Received(at, _, sentAt, _) => s.clock <= at <= sentAt
    case Lost(at) => s.clock <= at
    case Timer(at, sentAt, _) => s.clock <= at <= sentAt && WakeAt(s) <= at
  }

  function SessionReconnect(s: Session): End {
    Reconnect(s.sentV1 && !s.sawStatus, s.sawStatus)
  }

  /** The variant to poll with after a status result of `variant`. */
  function RequestFor(variant: Byte): Byte {
    if variant == 0 then STATUS_REQUEST_V0 else STATUS_REQUEST_V1
  }

  function Sending(c: Config, s: Session, at: Time, sentAt: Time, ok: bool): Outcome {
    var t := s.(clock := sentAt, sent := s.sent + [Request(at, sentAt, s.request, ok, s.results)]);
    if !ok then Done(t, SessionReconnect(s)) else
      Go(t.(sentV1 := s.sentV1 || s.request == STATUS_REQUEST_V1, inFlight := true,
            statusDeadline := sentAt + c.statusMs, nextStatusAt := sentAt + c.statusMs))
  }

  function OnFrame(c: Config, s: Session, i: Input): Outcome
    requires i.Received?
  {
    match i.frame
    case Text(accepted) =>
      if s.abiSeen then Go(s.(clock := i.at))
      else if accepted then Sending(c, s.(abiSeen := true, abiReady := true), i.at, i.sentAt, i.sendOk)
      else Done(s.(abiSeen := true, clock := i.at), SessionReconnect(s))
    case Binary(bytes) =>
      if IsStatus(bytes) then
        Go(s.(clock := i.at, inFlight := false, sawStatus := true, request := RequestFor(bytes[0]),
              results := s.results + 1))
      else Go(s.(clock := i.at))
    case CloseFrame => Done(s.(clock := i.at), SessionReconnect(s))
    case Other => Go(s.(clock := i.at))
  }

  function Step(c: Config, s: Session, i: Input): Outcome {
    match i
    case Shutdown => Done(s, Stop)
    case Received(_, _, _, _) => OnFrame(c, s, i)
    case Lost(at) => Done(s.(clock := at), SessionReconnect(s))
    case Timer(at, sentAt, ok) =>
      if !s.abiReady || s.inFlight then Done(s.(clock := at), SessionReconnect(s))
      else Sending(c, s, at, sentAt, ok)
  }

  /** The frame is a status result that decodes. */
  predicate IsStatus(bytes: seq<Byte>)
    ensures IsStatus(bytes) ==> |bytes| >= 1
  {
    ReadFrame(bytes).Ok? && ReadFrame(bytes).value.Some?
  }

  /** A session's inputs: each possible when it happens, the last one the first to end it. */
  predicate Runs(c: Config, s: Session, inputs: seq<Input>)
    decreases |inputs|
  {
    inputs == [] ||
    (Enabled(s, inputs[0]) &&
     match Step(c, s, inputs[0])
     case Done(_, _) => |inputs| == 1
     case Go(t) => Runs(c, t, inputs[1..]))
  }

  function After(c: Config, s: Session, inputs: seq<Input>): Outcome
    requires Runs(c, s, inputs)
    decreases |inputs|
  {
    if inputs == [] then Go(s) else
      match Step(c, s, inputs[0])
      case Done(t, end) => Done(t, end)
      case Go(t) => After(c, t, inputs[1..])
  }

  // ------------------------------------------------- what every session keeps

  /** `q` follows an answered `p`, a whole interval after `p` was done. */
  ghost predicate Follows(c: Config, p: Request, q: Request) {
    p.ok && p.results < q.results && p.done + c.statusMs <= q.begun
  }

  ghost predicate Paced(c: Config, sent: seq<Request>) {
    |sent| <= 1 || (Paced(c, sent[..|sent| - 1]) && Follows(c, sent[|sent| - 2], sent[|sent| - 1]))
  }

  function Last(sent: seq<Request>): Request
    requires sent != []
  {
    sent[|sent| - 1]
  }

  ghost predicate AskedV1(sent: seq<Request>) {
    exists r | r in sent :: r.variant == STATUS_REQUEST_V1
  }

  ghost predicate Logged(c: Config, s: Session) {
    Paced(c, s.sent) && (s.sent != [] ==> Last(s.sent).results <= s.results && Last(s.sent).done <= s.clock)
  }

  /** The session's flags say what its log shows: a request is in flight exactly when no
      result followed the last one sent. */
  ghost predicate Tracks(c: Config, s: Session) {
    && Logged(c, s)
    && (s.abiReady <==> s.sent != [])
    && (s.abiReady ==> s.abiSeen)
    && (s.sawStatus <==> s.results > 0)
    && (s.inFlight <==> s.sent != [] && Last(s.sent).results == s.results)
    && (s.sent != [] ==> Last(s.sent).ok && s.statusDeadline == s.nextStatusAt == Last(s.sent).done + c.statusMs)
    && (s.sentV1 <==> AskedV1(s.sent))
  }

  lemma Appended(c: Config, sent: seq<Request>, r: Request)
    requires Paced(c, sent) && (sent != [] ==> Follows(c, Last(sent), r))
    ensures Paced(c, sent + [r]) && Last(sent + [r]) == r
    ensures AskedV1(sent + [r]) <==> AskedV1(sent) || r.variant == STATUS_REQUEST_V1
  {
  }

  /** A send from a session whose last request, if any, was answered in time. */
  lemma SendTracks(c: Config, s: Session, at: Time, sentAt: Time, ok: bool)
    requires Paced(c, s.sent) && s.abiSeen && s.abiReady && s.clock <= at <= sentAt
    requires s.sent != [] ==> Last(s.sent).ok && Last(s.sent).results < s.results && Last(s.sent).done + c.statusMs <= at
    requires (s.sawStatus <==> s.results > 0) && (s.sentV1 <==> AskedV1(s.sent))
    ensures Logged(c, Sending(c, s, at, sentAt, ok).s)
    ensures Sending(c, s, at, sentAt, ok).Go? ==> Tracks(c, Sending(c, s, at, sentAt, ok).s)
  {
    hide Paced, AskedV1;
    Appended(c, s.sent, Request(at, sentAt, s.request, ok, s.results));
  }

  lemma StepTracks(c: Config, s: Session, i: Input)
    requires Tracks(c, s) && Enabled(s, i)
    ensures Logged(c, Step(c, s, i).s)
    ensures Step(c, s, i).Go? ==> Tracks(c, Step(c, s, i).s)
  {
    hide IsStatus, Paced, AskedV1, Sending;
    if i.Timer? && s.abiReady && !s.inFlight {
      SendTracks(c, s, i.at, i.sentAt, i.sendOk);
    } else if i.Received? && i.frame.Text? && !s.abiSeen && i.frame.accepted {
      SendTracks(c, s.(abiSeen := true, abiReady := true), i.at, i.sentAt, i.sendOk);
    }
  }

  /** The status result an input brings, by its variant byte. */
  function ResultOf(i: Input): seq<Byte> {
    if i.Received? && i.frame.Binary? && IsStatus(i.frame.bytes) then [i.frame.bytes[0]] else []
  }

  function Results(inputs: seq<Input>): seq<Byte> {
    if inputs == [] then [] else ResultOf(inputs[0]) + Results(inputs[1..])
  }

  /** The request version a session polls with after these results. */
  function Polled(request: Byte, results: seq<Byte>): Byte {
    if results == [] then request else RequestFor(results[|results| - 1])
  }

  lemma StepResult(c: Config, s: Session, i: Input)
    ensures Step(c, s, i).s.results == s.results + |ResultOf(i)|
    ensures Step(c, s, i).s.request == Polled(s.request, ResultOf(i))
    ensures Step(c, s, i).s.sawStatus <==> s.sawStatus || ResultOf(i) != []
  {
    hide IsStatus, Sending;
    if i.Received? || i.Timer? {
      SendingKeeps(c, s, i.at, i.sentAt, i.sendOk);
      SendingKeeps(c, s.(abiSeen := true, abiReady := true), i.at, i.sentAt, i.sendOk);
    }
  }

  lemma SendingKeeps(c: Config, s: Session, at: Time, sentAt: Time, ok: bool)
    ensures var t := Sending(c, s, at, sentAt, ok).s;
            (t.results, t.request, t.sawStatus) == (s.results, s.request, s.sawStatus)
  {
  }

  /** The results a step counts, and the request version it leaves. */
  lemma StepCounts(c: Config, s: Session, inputs: seq<Input>)
    requires inputs != []
    ensures Step(c, s, inputs[0]).s.results + |Results(inputs[1..])| == s.results + |Results(inputs)|
    ensures Polled(Step(c, s, inputs[0]).s.request, Results(inputs[1..])) == Polled(s.request, Results(inputs))
  {
    hide Step, ResultOf;
    StepResult(c, s, inputs[0]);
  }

  lemma {:induction false} RunTracks(c: Config, s: Session, inputs: seq<Input>)
    requires Tracks(c, s) && Runs(c, s, inputs)
    ensures var o := After(c, s, inputs); Logged(c, o.s) && (o.Go? ==> Tracks(c, o.s))
    ensures After(c, s, inputs).s.results == s.results + |Results(inputs)|
    ensures After(c, s, inputs).s.request == Polled(s.request, Results(inputs))
    decreases |inputs|
  {
    hide Logged, Tracks, Step, Results, Polled, Enabled;
    if inputs == [] {
      NothingYet(c, s);
    } else {
      StepTracks(c, s, inputs[0]);
      StepCounts(c, s, inputs);
      var o := Step(c, s, inputs[0]);
      if o.Go? {
        RunTracks(c, o.s, inputs[1..]);
      } else {
        assert inputs[1..] == [];
        NothingYet(c, o.s);
      }
    }
  }

  lemma NothingYet(c: Config, s: Session)
    ensures Results([]) == [] && Polled(s.request, []) == s.request
    ensures Tracks(c, s) ==> Logged(c, s)
  {
  }

  lemma {:induction false} PacedFacts(c: Config, sent: seq<Request>)
    requires Paced(c, sent)
    ensures sent != [] ==> |sent| <= Last(sent).results + 1
    ensures forall i | 0 <= i < |sent| - 1 :: Follows(c, sent[i], sent[i + 1])
  {
    if |sent| > 1 {
      var front := sent[..|sent| - 1];
      PacedFacts(c, front);
      forall i | 0 <= i < |sent| - 1 ensures Follows(c, sent[i], sent[i + 1]) {
        if i < |front| - 1 { assert sent[i] == front[i] && sent[i + 1] == front[i + 1]; }
      }
    }
  }

  /** In every session, at every moment: no more status requests than status results plus
      one, whatever the upstream sends and when; between two requests at least one result and
      the whole status interval, counted from the end of the first send. */
  lemma SessionPaces(c: Config, start: Time, request: Byte, inputs: seq<Input>)
    requires Runs(c, Fresh(c, start, request), inputs)
    ensures var s := After(c, Fresh(c, start, request), inputs).s;
            && |s.sent| <= |Results(inputs)| + 1
            && (forall i | 0 <= i < |s.sent| - 1 :: Follows(c, s.sent[i], s.sent[i + 1]))
  {
    hide Runs, After, Results, Polled;
    var s0 := Fresh(c, start, request);
    RunTracks(c, s0, inputs);
    PacedFacts(c, After(c, s0, inputs).s.sent);
  }

  /** What a timer does to a session in progress: it polls again exactly when the ABI was
      accepted and the last request was answered, and otherwise gives the upstream up. It is
      set to one status interval after the last request, or to the connect timeout before the
      first. */
  lemma TimerExact(c: Config, start: Time, request: Byte, inputs: seq<Input>, t: Input)
    requires Runs(c, Fresh(c, start, request), inputs) && After(c, Fresh(c, start, request), inputs).Go?
    requires t.Timer? && Enabled(After(c, Fresh(c, start, request), inputs).s, t)
    ensures var s := After(c, Fresh(c, start, request), inputs).s;
            var o := Step(c, s, t);
            if s.sent != [] && Last(s.sent).results < |Results(inputs)|
            then o.s.sent == s.sent + [Request(t.at, t.sentAt, Polled(request, Results(inputs)), t.sendOk, |Results(inputs)|)]
                 && (o.Go? <==> t.sendOk)
            else o.s.sent == s.sent && o.Done? && o.end.Reconnect?
    ensures var s := After(c, Fresh(c, start, request), inputs).s;
            WakeAt(s) == if s.sent == [] then start + c.connectMs else Last(s.sent).done + c.statusMs
  {
    hide Runs, After, Results, OnFrame;
    var s0 := Fresh(c, start, request);
    RunTracks(c, s0, inputs);
    RunKeepsAbiDeadline(c, s0, inputs);
  }

  lemma {:induction false} RunKeepsAbiDeadline(c: Config, s: Session, inputs: seq<Input>)
    requires Runs(c, s, inputs)
    ensures After(c, s, inputs).s.abiDeadline == s.abiDeadline
    decreases |inputs|
  {
    hide IsStatus;
    if inputs != [] && Step(c, s, inputs[0]).Go? { RunKeepsAbiDeadline(c, Step(c, s, inputs[0]).s, inputs[1..]); }
  }

  // ------------------------------------------------ which request to poll with

  /** The upstream's first text frame was a usable ABI and the request that follows it went
      out. */
  predicate Probed(inputs: seq<Input>) {
    inputs != [] &&
    var i := inputs[0];
    if i.Received? && i.frame.Text? then i.frame.accepted && i.sendOk else Probed(inputs[1..])
  }

  /** Until a first result, the one request a session sends stays in flight. */
  ghost predicate Waiting(s: Session) {
    (!s.abiSeen ==> !s.abiReady && !s.sentV1) && (s.abiReady && !s.sawStatus ==> s.inFlight)
  }

  ghost predicate Unanswered(s: Session, inputs: seq<Input>, sawStatus: bool) {
    !sawStatus && (s.sentV1 || (!s.abiSeen && Probed(inputs) && s.request == STATUS_REQUEST_V1))
  }

  lemma StepWaits(c: Config, s: Session, inputs: seq<Input>, saw: bool)
    requires inputs != [] && Waiting(s)
    requires Step(c, s, inputs[0]).Done? ==> inputs[1..] == []
    requires s.sawStatus || ResultOf(inputs[0]) != [] ==> saw
    ensures var o := Step(c, s, inputs[0]);
            && (o.Go? ==> Waiting(o.s) && (Unanswered(o.s, inputs[1..], saw) <==> Unanswered(s, inputs, saw)))
            && (o.Done? && o.end.Reconnect? ==>
                  o.end == Reconnect(Unanswered(s, inputs, s.sawStatus), s.sawStatus) && ResultOf(inputs[0]) == [])
  {
    hide IsStatus;
    assert inputs[1..] == [] ==> !Probed(inputs[1..]);
  }

  /** How a session that is given up ends: it saw a status iff a result came, and it counts
      as unanswered iff it asked with v1 and none did. */
  lemma {:induction false} EndExact(c: Config, s: Session, inputs: seq<Input>)
    requires Runs(c, s, inputs) && Waiting(s) && After(c, s, inputs).Done? && After(c, s, inputs).end.Reconnect?
    ensures var saw := s.sawStatus || Results(inputs) != [];
            After(c, s, inputs).end == Reconnect(Unanswered(s, inputs, saw), saw)
    decreases |inputs|
  {
    hide Step, ResultOf, Unanswered, Enabled, Waiting;
    StepResult(c, s, inputs[0]);
    var o := Step(c, s, inputs[0]);
    StepWaits(c, s, inputs, s.sawStatus || Results(inputs) != []);
    if o.Go? {
      EndExact(c, o.s, inputs[1..]);
    } else {
      assert inputs[1..] == [];
    }
  }

  /** One round of the loop: a connect that failed, with the moment a client session first
      reached the upstream after it, if any; or a session until it is given up. */
  datatype Visit = Unreachable(at: Time, reached: Option<Time>) | Connected(start: Time, inputs: seq<Input>)

  datatype Poll = Poll(request: Byte, misses: nat)

  ghost predicate Ends(c: Config, p: Poll, v: Visit) {
    v.Connected? ==>
      && Runs(c, Fresh(c, v.start, p.request), v.inputs)
      && var o := After(c, Fresh(c, v.start, p.request), v.inputs); o.Done? && o.end.Reconnect?
  }

  /** The request version and miss count after a session. */
  function Counted(p: Poll, request: Byte, end: End): Poll
    requires end.Reconnect?
  {
    if end.unansweredV1 && request == STATUS_REQUEST_V1 then
      var misses := if p.misses < U32_MAX then p.misses + 1 else p.misses;
      Poll(if misses >= MISS_LIMIT then STATUS_REQUEST_V0 else request, misses)
    else
      Poll(request, if end.sawStatus then 0 else p.misses)
  }

  ghost function AfterVisit(c: Config, p: Poll, v: Visit): Poll
    requires Ends(c, p, v)
  {
    if v.Unreachable? then p else
      var o := After(c, Fresh(c, v.start, p.request), v.inputs);
      Counted(p, o.s.request, o.end)
  }

  ghost predicate Visitable(c: Config, visits: seq<Visit>)
    decreases |visits|, 0
  {
    visits == [] ||
    var front := visits[..|visits| - 1];
    Visitable(c, front) && Ends(c, AfterVisits(c, front), visits[|visits| - 1])
  }

  ghost function AfterVisits(c: Config, visits: seq<Visit>): Poll
    requires Visitable(c, visits)
    decreases |visits|, 1
  {
    if visits == [] then Poll(STATUS_REQUEST_V1, 0) else
      AfterVisit(c, AfterVisits(c, visits[..|visits| - 1]), visits[|visits| - 1])
  }

  function Answers(v: Visit): seq<Byte> {
    if v.Unreachable? then [] else Results(v.inputs)
  }

  /** The variant of the last status result ever received. */
  function LastAnswer(visits: seq<Visit>): Option<Byte> {
    if visits == [] then None else
      var answers := Answers(visits[|visits| - 1]);
      if answers != [] then Some(answers[|answers| - 1]) else LastAnswer(visits[..|visits| - 1])
  }

  /** The probes that went unanswered since the last session with a result. */
  function Silent(visits: seq<Visit>): nat {
    if visits == [] then 0 else
      var v := visits[|visits| - 1];
      if Answers(v) != [] then 0 else
        Silent(visits[..|visits| - 1]) + if v.Connected? && Probed(v.inputs) then 1 else 0
  }

  lemma VisitExact(c: Config, p: Poll, v: Visit)
    requires Ends(c, p, v) && p.misses <= MISS_LIMIT
    ensures var answers := Answers(v);
            AfterVisit(c, p, v) ==
              if answers != [] then Poll(RequestFor(answers[|answers| - 1]), 0)
              else if v.Connected? && Probed(v.inputs) && p.request == STATUS_REQUEST_V1
              then Poll(if p.misses + 1 >= MISS_LIMIT then STATUS_REQUEST_V0 else p.request, p.misses + 1)
              else p
  {
    hide Runs, After, Results, Probed;
    if v.Connected? {
      var s := Fresh(c, v.start, p.request);
      EndExact(c, s, v.inputs);
      RunTracks(c, s, v.inputs);
    }
  }

  /** Over any succession of failed connects and sessions, the next session polls with v0
      exactly when the last result ever received was v0, or two probes have gone unanswered
      since the last one. */
  lemma {:induction false} PollsByHistory(c: Config, visits: seq<Visit>)
    requires Visitable(c, visits)
    ensures var p := AfterVisits(c, visits);
            && p.request == (if LastAnswer(visits) == Some(0) || Silent(visits) >= MISS_LIMIT
                             then STATUS_REQUEST_V0 else STATUS_REQUEST_V1)
            && p.misses == (if LastAnswer(visits) == Some(0) then 0
                            else if Silent(visits) >= MISS_LIMIT then MISS_LIMIT else Silent(visits))
  {
    hide Ends, AfterVisit, Answers, Probed;
    if visits != [] {
      var front := visits[..|visits| - 1];
      PollsByHistory(c, front);
      VisitExact(c, AfterVisits(c, front), visits[|visits| - 1]);
    }
  }

  // ------------------------------------------------------------------- pauses

  function Min(a: nat, b: nat): nat { if a <= b then a else b }

  function Max(a: nat, b: nat): nat { if a >= b then a else b }

  function Pow2(k: nat): nat { if k == 0 then 1 else 2 * Pow2(k - 1) }

  /** The delay after a failed connect, in saturating 64-bit arithmetic. */
  function BackoffDelay(reconnectMs: nat, attempts: nat): nat {
    Min(Min(reconnectMs * Pow2(Min(attempts, 5)), U64_MAX), MAX_BACKOFF_MS)
  }

  /** When the pause after a connect that failed at `at` is over. */
  function ResumeAt(c: Config, at: Time, delay: nat, reached: Option<Time>): Time {
    if reached.Some? && reached.value < at + delay then Max(reached.value, at + Min(c.reconnectMs, delay))
    else at + delay
  }

  /** Connects that failed one after another at the end of `visits`. */
  function Failures(visits: seq<Visit>): nat {
    if visits == [] || visits[|visits| - 1].Connected? then 0 else Failures(visits[..|visits| - 1]) + 1
  }

  /** The pause that follows the last visit. */
  function PauseAfter(c: Config, visits: seq<Visit>): nat
    requires visits != []
  {
    Pause(c, visits[|visits| - 1], Failures(visits[..|visits| - 1]))
  }

  /** The pause after `v` when `before` connects had failed right before it. */
  function Pause(c: Config, v: Visit, before: nat): nat {
    match v
    case Connected(_, _) => c.reconnectMs
    case Unreachable(at, reached) =>
      var resume := ResumeAt(c, at, BackoffDelay(c.reconnectMs, before), reached);
      if resume >= at then resume - at else 0
  }

  lemma {:induction false} Pow2Grows(k: nat, m: nat)
    requires k <= m
    ensures 1 <= Pow2(k) <= Pow2(m)
    decreases m
  {
    if k < m { Pow2Grows(k, m - 1); } else if k > 0 { Pow2Grows(k - 1, m - 1); }
  }

  /** The pause after a row of failed connects: at least the base interval and at most 30
      seconds, or that cap if the base is above it. It doubles with each further failure, up
      to five times, and a client that reaches the upstream cuts it short: the monitor is back
      when the client was, or one base interval after the failure, whichever is later. */
  lemma PauseBounds(c: Config, visits: seq<Visit>)
    requires visits != [] && visits[|visits| - 1].Unreachable?
    ensures var v, k, pause := visits[|visits| - 1], Failures(visits), PauseAfter(c, visits);
            var full := Min(c.reconnectMs * Pow2(Min(k - 1, 5)), MAX_BACKOFF_MS);
            && Min(c.reconnectMs, MAX_BACKOFF_MS) <= pause <= full
            && (v.reached.None? ==> pause == full)
            && (v.reached.Some? ==> v.at + pause <= Max(v.reached.value, v.at + c.reconnectMs))
  {
    var k := Failures(visits);
    Pow2Grows(0, Min(k - 1, 5));
    Scales(c.reconnectMs, Pow2(Min(k - 1, 5)));
  }

  lemma Scales(a: nat, b: nat)
    requires b >= 1
    ensures a * b >= a
  {
  }

  lemma {:induction false} LongerRowsWaitLonger(reconnectMs: nat, k: nat, m: nat)
    requires k <= m
    ensures BackoffDelay(reconnectMs, k) <= BackoffDelay(reconnectMs, m)
  {
    Pow2Grows(Min(k, 5), Min(m, 5));
    Scaled(reconnectMs, Pow2(Min(k, 5)), Pow2(Min(m, 5)));
  }

  lemma Scaled(a: nat, x: nat, y: nat)
    requires x <= y
    ensures a * x <= a * y
  {
  }

  // --------------------------------------------------------------- the monitor

  /** What the other parties do to the pool before the input of that number: anything, to this
      upstream too. */
  type Others = (nat, Db) -> Db

  /** The upstream `f` is as it was. */
  ghost predicate Leaves(was: Db, db: Db, f: Endpoint) {
    (f in db <==> f in was) && (f in db ==> db[f] == was[f])
  }

  /** The others leave `f` alone. */
  ghost predicate Spares(others: Others, f: Endpoint) {
    forall n: nat, db: Db :: Leaves(db, others(n, db), f)
  }

  /** The others keep the pool's rules. */
  ghost predicate Keeps(others: Others, rules: Rules) {
    forall n: nat, db: Db | Holds(db, rules) :: Holds(others(n, db), rules)
  }

  /** The monitor of `e` changes no other upstream and breaks no rule: what the others leave
      alone is as it was, and what rules held and the others keep hold. */
  ghost predicate Upheld(others: Others, e: Endpoint, was: Db, db: Db) {
    && (forall f | f != e && Spares(others, f) :: Leaves(was, db, f))
    && (forall rules | Holds(was, rules) && Keeps(others, rules) :: Holds(db, rules))
  }

  lemma UpheldAtFirst(others: Others, e: Endpoint, db: Db)
    ensures Upheld(others, e, db, db)
  {
  }

  lemma UpheldByOthers(others: Others, e: Endpoint, was: Db, db: Db, n: nat)
    requires Upheld(others, e, was, db)
    ensures Upheld(others, e, was, others(n, db))
  {
    hide Holds;
    forall f | f != e && Spares(others, f) ensures Leaves(was, others(n, db), f) {
      assert Leaves(db, others(n, db), f);
    }
  }

  lemma UpheldByMonitor(others: Others, e: Endpoint, was: Db, db: Db, after: Db)
    requires Upheld(others, e, was, db) && OnlyTouches(db, after, e) && KeepsRules(db, after)
    ensures Upheld(others, e, was, after)
  {
    hide Holds, Spares, Keeps;
  }

  ghost predicate SparesAlways(others: nat -> Others, f: Endpoint) {
    forall n: nat :: Spares(others(n), f)
  }

  ghost predicate KeepsAlways(others: nat -> Others, rules: Rules) {
    forall n: nat :: Keeps(others(n), rules)
  }

  ghost predicate UpheldAlways(others: nat -> Others, e: Endpoint, was: Db, db: Db) {
    && (forall f | f != e && SparesAlways(others, f) :: Leaves(was, db, f))
    && (forall rules | Holds(was, rules) && KeepsAlways(others, rules) :: Holds(db, rules))
  }

  lemma UpheldOver(others: nat -> Others, e: Endpoint, was: Db, db: Db, n: nat, after: Db)
    requires UpheldAlways(others, e, was, db) && Upheld(others(n), e, db, after)
    ensures UpheldAlways(others, e, was, after)
  {
    hide Holds, Spares, Keeps;
    forall f | f != e && SparesAlways(others, f) ensures Leaves(was, after, f) {
      assert Spares(others(n), f);
      assert Leaves(was, db, f) && Leaves(db, after, f);
    }
    forall rules | Holds(was, rules) && KeepsAlways(others, rules) ensures Holds(after, rules) {
      assert Keeps(others(n), rules);
    }
  }

  /** The upstream is offline and holds no chain id. */
  ghost predicate Offline(db: Db, e: Endpoint) {
    e in db ==> !db[e].online && db[e].chainId.None? && db[e].offlineSince.Some?
  }

  /** Only `e` may have changed. */
  ghost predicate OnlyTouches(was: Db, db: Db, e: Endpoint) {
    was.Keys == db.Keys && forall f | f in db && f != e :: db[f] == was[f]
  }

  lemma {:induction false} AfterSplit(c: Config, s: Session, inputs: seq<Input>, n: nat)
    requires Runs(c, s, inputs) && n < |inputs|
    ensures Runs(c, s, inputs[..n]) && After(c, s, inputs[..n]).Go?
    ensures var t := After(c, s, inputs[..n]).s;
            && Enabled(t, inputs[n])
            && Runs(c, s, inputs[..n + 1]) && After(c, s, inputs[..n + 1]) == Step(c, t, inputs[n])
            && (Step(c, t, inputs[n]).Done? ==> n + 1 == |inputs|)
    decreases n
  {
    hide Step, Enabled;
    if n > 0 {
      AfterSplit(c, Step(c, s, inputs[0]).s, inputs[1..], n - 1);
      assert inputs[..n][1..] == inputs[1..][..n - 1];
      assert inputs[..n + 1][1..] == inputs[1..][..n];
    } else {
      assert inputs[..1][1..] == [];
    }
  }

  /** Drive one connected session, while other parties do anything to the pool between its
      inputs. Its control follows the steps, the session itself changes no other upstream and
      breaks no rule, and any end other than shutdown leaves this upstream offline. */
  method RunSession(pool: Pool, e: Endpoint, c: Config, start: Time, inputs: seq<Input>, request: Byte, others: Others)
    returns (o: Outcome)
    requires Runs(c, Fresh(c, start, request), inputs)
    modifies pool
    ensures o == After(c, Fresh(c, start, request), inputs)
    ensures Upheld(others, e, old(pool.db), pool.db)
    ensures o.Done? && o.end.Reconnect? ==> Offline(pool.db, e)
  {
    hide Runs, Step, Enabled, Results, Upheld, OnlyTouches, KeepsRules, Offline;
    var s := Fresh(c, start, request);
    o := Go(s);
    assert inputs[..0] == [];
    SplitStart(c, s);
    UpheldAtFirst(others, e, pool.db);
    var n := 0;
    while n < |inputs|
      invariant 0 <= n <= |inputs|
      invariant Runs(c, s, inputs[..n]) && o == After(c, s, inputs[..n])
      invariant n < |inputs| ==> o.Go?
      invariant Upheld(others, e, old(pool.db), pool.db)
      invariant o.Done? && o.end.Reconnect? ==> Offline(pool.db, e)
    {
      AfterSplit(c, s, inputs, n);
      UpheldByOthers(others, e, old(pool.db), pool.db, n);
      pool.db := others(n, pool.db);
      ghost var was := pool.db;
      o := OneInput(pool, e, c, o.s, inputs[n]);
      UpheldByMonitor(others, e, old(pool.db), was, pool.db);
      n := n + 1;
    }
    assert inputs[..n] == inputs;
  }

  lemma SplitStart(c: Config, s: Session)
    ensures Runs(c, s, []) && After(c, s, []) == Go(s)
  {
  }

  /** One turn of the session's loop. */
  method OneInput(pool: Pool, e: Endpoint, c: Config, s: Session, i: Input)
    returns (o: Outcome)
    modifies pool
    ensures o == Step(c, s, i)
    ensures OnlyTouches(old(pool.db), pool.db, e) && KeepsRules(old(pool.db), pool.db)
    ensures o.Done? && o.end.Reconnect? ==> Offline(pool.db, e)
  {
    hide KeepsRules, Offline, IsStatus, RequestFor, Sending;
    SameRules(pool.db);
    match i {
      case Shutdown =>
        o := Done(s, Stop);
      case Lost(at) =>
        o := GiveUp(pool, e, s, s.(clock := at));
      case Timer(at, sentAt, ok) =>
        if !s.abiReady || s.inFlight {
          o := GiveUp(pool, e, s, s.(clock := at));
        } else {
          o := SendStatus(pool, e, c, s, at, sentAt, ok);
        }
      case Received(at, frame, sentAt, ok) =>
        match frame {
          case Text(accepted) =>
            if s.abiSeen {
              o := Go(s.(clock := at));
            } else if accepted {
              o := SendStatus(pool, e, c, s.(abiSeen := true, abiReady := true), at, sentAt, ok);
            } else {
              o := GiveUp(pool, e, s, s.(abiSeen := true, clock := at));
            }
          case Binary(bytes) =>
            var t := OnBinary(pool, e, s.(clock := at), bytes);
            o := Go(t);
          case CloseFrame =>
            o := GiveUp(pool, e, s, s.(clock := at));
          case Other =>
            o := Go(s.(clock := at));
        }
    }
  }

  method LoseUpstream(pool: Pool, e: Endpoint, at: Time)
    modifies pool
    ensures OnlyTouches(old(pool.db), pool.db, e) && KeepsRules(old(pool.db), pool.db) && Offline(pool.db, e)
  {
    hide KeepsRules;
    pool.MarkOffline(e, at);
  }

  /** Mark the upstream offline and ask for a new connection. */
  method GiveUp(pool: Pool, e: Endpoint, s: Session, t: Session)
    returns (o: Outcome)
    modifies pool
    ensures o == Done(t, SessionReconnect(s))
    ensures OnlyTouches(old(pool.db), pool.db, e) && KeepsRules(old(pool.db), pool.db) && Offline(pool.db, e)
  {
    LoseUpstream(pool, e, t.clock);
    o := Done(t, SessionReconnect(s));
  }

  /** Send the one request, after noting the others' head; it is in flight only if the send
      succeeds. */
  method SendStatus(pool: Pool, e: Endpoint, c: Config, s: Session, at: Time, sentAt: Time, ok: bool)
    returns (o: Outcome)
    modifies pool
    ensures o == Sending(c, s, at, sentAt, ok)
    ensures OnlyTouches(old(pool.db), pool.db, e) && KeepsRules(old(pool.db), pool.db)
    ensures o.Done? ==> Offline(pool.db, e)
    ensures o.Go? ==> exists r :: IsReference(old(pool.db), e, r) && (e in pool.db ==> pool.db[e].headReference == r)
  {
    hide Holds, Offline, IsReference;
    var reference := pool.CaptureHeadReference(e);
    var t := s.(clock := sentAt, sent := s.sent + [Request(at, sentAt, s.request, ok, s.results)]);
    if !ok {
      o := GiveUp(pool, e, s, t);
      return;
    }
    if s.request == STATUS_REQUEST_V1 {
      t := t.(sentV1 := true);
    }
    t := t.(inFlight := true, statusDeadline := sentAt + c.statusMs, nextStatusAt := sentAt + c.statusMs);
    o := Go(t);
  }

  /** A binary frame: its report is applied to the pool, and a status result answers the
      request in flight, if any. */
  method OnBinary(pool: Pool, e: Endpoint, s: Session, bytes: seq<Byte>)
    returns (t: Session)
    modifies pool
    ensures t == if IsStatus(bytes)
                 then s.(inFlight := false, sawStatus := true, request := RequestFor(bytes[0]), results := s.results + 1)
                 else s
    ensures if IsStatus(bytes)
            then exists peer :: IsPeer(old(pool.db), e, peer) && pool.db == Applied(old(pool.db), e, bytes, peer, s.clock)
            else pool.db == old(pool.db)
    ensures OnlyTouches(old(pool.db), pool.db, e) && KeepsRules(old(pool.db), pool.db)
  {
    hide KeepsRules, Reported, ReadFrame;
    var r, peer := pool.ApplyStatusUpdate(bytes, e, s.clock);
    t := s;
    if r.Ok? && r.value.Some? {
      t := t.(inFlight := false, sawStatus := true, results := s.results + 1);
      t := t.(request := if r.value.value == 0 then STATUS_REQUEST_V0 else STATUS_REQUEST_V1);
    }
  }

  /** The pool after a status frame. */
  function Applied(db: Db, e: Endpoint, bytes: seq<Byte>, peer: Option<Id>, now: Time): Db
    requires IsStatus(bytes)
  {
    AfterReport(db, e, ReadFrame(bytes).value.value, peer, now)
  }

  lemma SameRules(db: Db)
    ensures KeepsRules(db, db)
  {
  }

  /** The loop around the sessions, until it is told to stop, while other parties do anything
      to the pool. */
  method MonitoringConnection(pool: Pool, e: Endpoint, c: Config, visits: seq<Visit>, others: nat -> Others)
    returns (request: Byte, pauses: seq<nat>)
    requires Visitable(c, visits)
    modifies pool
    ensures request == if LastAnswer(visits) == Some(0) || Silent(visits) >= MISS_LIMIT
                       then STATUS_REQUEST_V0 else STATUS_REQUEST_V1
    ensures |pauses| == |visits| && forall n | 0 <= n < |visits| :: pauses[n] == PauseAfter(c, visits[..n + 1])
    ensures UpheldAlways(others, e, old(pool.db), pool.db)
    ensures visits != [] ==> Offline(pool.db, e)
  {
    hide Upheld, UpheldAlways, Offline, PauseAfter, AfterVisit, Ends, Failures;
    var misses, attempts := 0, 0;
    request, pauses := STATUS_REQUEST_V1, [];
    assert visits[..0] == [];
    NoVisits(others, e, pool.db);
    var n := 0;
    while n < |visits|
      invariant 0 <= n <= |visits| && Visitable(c, visits[..n])
      invariant AfterVisits(c, visits[..n]) == Poll(request, misses)
      invariant |pauses| == n && forall i | 0 <= i < n :: pauses[i] == PauseAfter(c, visits[..i + 1])
      invariant attempts == Min(Failures(visits[..n]), U32_MAX)
      invariant UpheldAlways(others, e, old(pool.db), pool.db)
      invariant n > 0 ==> Offline(pool.db, e)
    {
      PrefixVisitable(c, visits, n + 1);
      assert visits[..n + 1][..n] == visits[..n] && visits[..n + 1][n] == visits[n];
      OneMore(c, visits[..n + 1]);
      ghost var was := pool.db;
      var pause;
      request, misses, attempts, pause := OneVisit(pool, e, c, visits[n], others(n), request, misses, attempts);
      UpheldOver(others, e, old(pool.db), was, n, pool.db);
      pauses := pauses + [pause];
      n := n + 1;
    }
    assert visits[..n] == visits;
    PollsByHistory(c, visits);
  }

  lemma NoVisits(others: nat -> Others, e: Endpoint, db: Db)
    ensures Failures([]) == 0 && UpheldAlways(others, e, db, db)
  {
  }

  /** What one more visit adds to the row of failures and to the pauses. */
  lemma OneMore(c: Config, visits: seq<Visit>)
    requires visits != []
    ensures var v, before := visits[|visits| - 1], Failures(visits[..|visits| - 1]);
            && Failures(visits) == (if v.Connected? then 0 else before + 1)
            && PauseAfter(c, visits) == Pause(c, v, before)
  {
  }

  /** One round: a connect that fails takes the upstream offline; a session runs to its end
      and may change the request version. Then the loop pauses. */
  method OneVisit(pool: Pool, e: Endpoint, c: Config, v: Visit, others: Others, request: Byte, misses: nat, attempts: nat)
    returns (newRequest: Byte, newMisses: nat, newAttempts: nat, pause: nat)
    requires Ends(c, Poll(request, misses), v) && attempts <= U32_MAX
    modifies pool
    ensures Poll(newRequest, newMisses) == AfterVisit(c, Poll(request, misses), v)
    ensures newAttempts == if v.Connected? then 0 else Min(attempts + 1, U32_MAX)
    ensures forall before: nat | attempts == Min(before, U32_MAX) :: pause == Pause(c, v, before)
    ensures Upheld(others, e, old(pool.db), pool.db) && Offline(pool.db, e)
  {
    hide Runs, After, Results, Upheld, OnlyTouches, KeepsRules, BackoffDelay;
    newRequest, newMisses, newAttempts := request, misses, 0;
    pause := c.reconnectMs;
    match v {
      case Unreachable(at, reached) =>
        UpheldAtFirst(others, e, pool.db);
        UpheldByOthers(others, e, pool.db, pool.db, 0);
        pool.db := others(0, pool.db);
        ghost var was := pool.db;
        LoseUpstream(pool, e, at);
        UpheldByMonitor(others, e, old(pool.db), was, pool.db);
        forall before: nat | attempts == Min(before, U32_MAX)
          ensures BackoffDelay(c.reconnectMs, attempts) == BackoffDelay(c.reconnectMs, before)
        {
          SameBackoff(c.reconnectMs, before);
        }
        var resume := ResumeAt(c, at, BackoffDelay(c.reconnectMs, attempts), reached);
        newAttempts := if attempts < U32_MAX then attempts + 1 else attempts;
        pause := if resume >= at then resume - at else 0;
      case Connected(start, inputs) =>
        var o := RunSession(pool, e, c, start, inputs, request, others);
        newRequest := o.s.request;
        if o.end.unansweredV1 && newRequest == STATUS_REQUEST_V1 {
          newMisses := if misses < U32_MAX then misses + 1 else misses;
          if newMisses >= MISS_LIMIT {
            newRequest := STATUS_REQUEST_V0;
            PolledV0Keeps(pool.db, e);
            ghost var was := pool.db;
            if e in pool.db {
              pool.db := pool.db[e := pool.db[e].(statusV1 := Some(false))];
            }
            UpheldByMonitor(others, e, old(pool.db), was, pool.db);
          }
        } else if o.end.sawStatus {
          newMisses := 0;
        }
    }
  }

  /** Saturating the count of attempts does not show in the delay. */
  lemma SameBackoff(reconnectMs: nat, attempts: nat)
    ensures BackoffDelay(reconnectMs, Min(attempts, U32_MAX)) == BackoffDelay(reconnectMs, attempts)
  {
  }

  lemma {:induction false} PrefixVisitable(c: Config, visits: seq<Visit>, n: nat)
    requires Visitable(c, visits) && n <= |visits|
    ensures Visitable(c, visits[..n])
    decreases |visits|
  {
    if n == |visits| {
      assert visits[..n] == visits;
    } else {
      PrefixVisitable(c, visits[..|visits| - 1], n);
      assert visits[..|visits| - 1][..n] == visits[..n];
    }
  }

  lemma PolledV0Keeps(db: Db, e: Endpoint)
    ensures var after := if e in db then db[e := db[e].(statusV1 := Some(false))] else db;
            && OnlyTouches(db, after, e) && KeepsRules(db, after)
            && (Offline(db, e) ==> Offline(after, e))
  {
    if e in db {
      forall rules | Holds(db, rules) ensures Holds(db[e := db[e].(statusV1 := Some(false))], rules) {
        assert Vetted(db[e]);
      }
    }
  }
}
