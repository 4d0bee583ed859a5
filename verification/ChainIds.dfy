/** The monitored state of a pool's upstreams: which chain ids a status report may bring
    online, and what every run of reports, losses and reloads keeps. */
module ChainIds {
  import opened Options
  import opened Bytes
  import opened Zcd
  import opened StatusFrames

  type Endpoint = string
  type Time = nat

  datatype Upstream = Upstream(
    live: bool,
    enabled: bool,
    online: bool,
    expected: Option<Id>,
    require: bool,
    unverifiedWarned: bool,
    chainId: Option<Id>,
    trace: (nat, nat),
    chainState: (nat, nat),
    finality: (nat, nat),
    head: Option<Pos>,
    lib: Option<Pos>,
    rangesKnown: bool,
    statusAt: Option<Time>,
    headReference: Option<nat>,
    headLag: Option<nat>,
    statusV1: Option<bool>,
    offlineSince: Option<Time>,
    noBlockLog: bool,
    operatorDisabled: bool)

  type Db = map<Endpoint, Upstream>

  function NewUpstream(live: bool, expected: Option<Id>, require: bool): Upstream {
    Upstream(live, true, false, expected, require, false, None, (0, 0), (0, 0), (0, 0), None, None, false, None,
             None, None, None, None, false, false)
  }

  function MarkedOffline(u: Upstream, now: Time): Upstream {
    u.(headReference := None, headLag := None, online := false, chainId := None,
       offlineSince := if u.offlineSince.None? then Some(now) else u.offlineSince)
  }

  /** Whether a report is refused: another chain than the pinned one, or than the online
      peer that anchors an unpinned pool, or no chain id where one is required. */
  predicate Refused(u: Upstream, r: Report, peer: Option<Id>) {
    match r.chainId
    case Some(actual) =>
      if u.expected.Some? then actual != u.expected.value else peer.Some? && actual != peer.value
    case None => u.expected.Some? && u.require
  }

  /** The upstream after a report with a head. */
  function Reported(u: Upstream, r: Report, peer: Option<Id>, now: Time): Upstream {
    var warned := if r.chainId.Some? then false else if Refused(u, r, peer) then u.unverifiedWarned else true;
    var v := u.(unverifiedWarned := warned);
    if Refused(u, r, peer) then MarkedOffline(v, now) else Admitted(v, r, now)
  }

  /** An admitted report is stored and brings the upstream online. */
  function Admitted(u: Upstream, r: Report, now: Time): Upstream {
    var finality := if r.finality.Some? then r.finality.value else (0, 0);
    var changed := (r.trace, r.chainState, finality, Some(r.head), Some(r.lib))
                   != (u.trace, u.chainState, u.finality, u.head, u.lib);
    u.(chainId := if r.chainId.Some? then r.chainId else u.chainId,
       noBlockLog := u.noBlockLog && u.online && !changed,
       enabled := true,
       online := true,
       trace := r.trace,
       chainState := r.chainState,
       finality := finality,
       head := Some(r.head),
       lib := Some(r.lib),
       rangesKnown := true,
       statusAt := Some(now),
       headLag := if u.live then Some(Lag(u.headReference, r.head.num)) else None,
       statusV1 := Some(r.variant == 3),
       offlineSince := None)
  }

  lemma AdmittedFacts(u: Upstream, r: Report, now: Time)
    ensures var v := Admitted(u, r, now);
            && v.online && v.expected == u.expected && v.require == u.require
            && v.chainId == if r.chainId.Some? then r.chainId else u.chainId
  {
  }

  function Lag(reference: Option<nat>, head: nat): nat {
    if reference.Some? && reference.value > head then reference.value - head else 0
  }

  /** From the bytes of a frame to the stored state: an admitted status stores the ranges,
      head and last irreversible block at the table's offsets and brings the upstream online;
      a refused one takes it offline without its chain id but keeps what was known of its
      ranges. A v0 status has no finality range. */
  lemma FrameStored(u: Upstream, frame: seq<Byte>, peer: Option<Id>, now: Time)
    requires |frame| >= 1 && (frame[0] == 0 || frame[0] == 3) && ReadFrame(frame).Ok?
    ensures |frame| >= if frame[0] == 3 then 129 else 89
    ensures ReadFrame(frame).value.Some?
    ensures var r := ReadFrame(frame).value.value;
            var v := Reported(u, r, peer, now);
            if Refused(u, r, peer)
            then !v.online && v.chainId.None? && v.offlineSince.Some?
                 && (v.trace, v.chainState, v.finality, v.head, v.lib, v.rangesKnown)
                    == (u.trace, u.chainState, u.finality, u.head, u.lib, u.rangesKnown)
            else v.online && v.offlineSince.None? && v.rangesKnown && StoresBody(v, frame[0], frame[1..])
  {
    hide ReadFrame, LE32, BodyReport, Reported, Refused;
    FrameReport(frame);
    var r := BodyReport(frame[0], frame[1..]);
    if Refused(u, r, peer) { RefusedKeeps(u, r, peer, now); } else { AdmittedStores(u, frame[0], frame[1..], peer, now); }
  }

  lemma RefusedKeeps(u: Upstream, r: Report, peer: Option<Id>, now: Time)
    requires Refused(u, r, peer)
    ensures var v := Reported(u, r, peer, now);
            && !v.online && v.chainId.None? && v.offlineSince.Some?
            && (v.trace, v.chainState, v.finality, v.head, v.lib, v.rangesKnown)
               == (u.trace, u.chainState, u.finality, u.head, u.lib, u.rangesKnown)
  {
  }

  lemma AdmittedStores(u: Upstream, variant: Byte, b: seq<Byte>, peer: Option<Id>, now: Time)
    requires |b| >= (if variant == 3 then 128 else 88) && !Refused(u, BodyReport(variant, b), peer)
    ensures var v := Reported(u, BodyReport(variant, b), peer, now);
            v.online && v.offlineSince.None? && v.rangesKnown && StoresBody(v, variant, b)
  {
  }

  ghost predicate StoresBody(v: Upstream, variant: Byte, b: seq<Byte>)
    requires |b| >= if variant == 3 then 128 else 88
  {
    && v.head == Some(Pos(LE32(b[0..4]), b[4..36]))
    && v.lib == Some(Pos(LE32(b[36..40]), b[40..72]))
    && v.trace == (LE32(b[72..76]), LE32(b[76..80]))
    && v.chainState == (LE32(b[80..84]), LE32(b[84..88]))
    && v.finality == (if variant == 3 then (LE32(b[120..124]), LE32(b[124..128])) else (0, 0))
    && (|b| >= 120 ==> v.chainId == Some(b[88..120]))
    && v.statusV1 == Some(variant == 3)
  }

  // --------------------------------------------------------- the peer search

  predicate Anchors(db: Db, self: Endpoint, e: Endpoint) {
    e in db && e != self && db[e].online && db[e].chainId.Some?
  }

  /** `peer` is what a search over the other online upstreams finds, in some order. */
  ghost predicate IsPeer(db: Db, self: Endpoint, peer: Option<Id>) {
    match peer
    case None => forall e | e in db :: !Anchors(db, self, e)
    case Some(c) => exists e | e in db :: Anchors(db, self, e) && db[e].chainId == Some(c)
  }

  /** `e` is another live upstream that is in use and has reported a head. */
  predicate Compares(db: Db, self: Endpoint, e: Endpoint) {
    e in db && e != self && db[e].online && !db[e].operatorDisabled && db[e].live && db[e].head.Some?
  }

  /** `r` is the highest head among them. */
  ghost predicate IsReference(db: Db, self: Endpoint, r: Option<nat>) {
    match r
    case None => forall e | e in db :: !Compares(db, self, e)
    case Some(m) =>
      && (exists e | e in db :: Compares(db, self, e) && db[e].head.value.num == m)
      && (forall e | e in db && Compares(db, self, e) :: db[e].head.value.num <= m)
  }

  /** A reference captured from `db` and a later report of the live upstream `u`, whatever
      happened in between as long as `u` still has that reference, give its lag: how far the
      others were ahead when it was asked. */
  lemma LagIsBehindReference(db: Db, self: Endpoint, u: Upstream, report: Report, peer: Option<Id>, now: Time)
    requires IsReference(db, self, u.headReference) && u.live && !Refused(u, report, peer)
    ensures var lag := Reported(u, report, peer, now).headLag;
            && lag.Some?
            && (forall e | e in db && Compares(db, self, e) :: db[e].head.value.num <= report.head.num + lag.value)
            && (lag.value > 0 ==>
                  exists e | e in db :: Compares(db, self, e) && db[e].head.value.num == report.head.num + lag.value)
  {
  }

  /** A loss between the request and the report clears the reference, and then no lag shows. */
  lemma LossHidesLag(u: Upstream, report: Report, peer: Option<Id>, at: Time, now: Time)
    requires u.live && !Refused(MarkedOffline(u, at), report, peer)
    ensures Reported(MarkedOffline(u, at), report, peer, now).headLag == Some(0)
  {
  }

  function AfterReport(db: Db, e: Endpoint, r: Report, peer: Option<Id>, now: Time): Db {
    if e in db && r.head.num > 0 then db[e := Reported(db[e], r, peer, now)] else db
  }

  /** Offline since `at`, with no chain id and no lag. */
  ghost predicate LostSince(u: Upstream, at: Time) {
    !u.online && u.chainId.None? && u.headReference.None? && u.headLag.None? && u.offlineSince == Some(at)
  }

  /** Apart from that, `u` and `v` are the same. */
  ghost predicate SameBut(u: Upstream, v: Upstream) {
    v.(online := u.online, chainId := u.chainId, headReference := u.headReference, headLag := u.headLag,
       offlineSince := u.offlineSince) == u
  }

  lemma LossMeans(db: Db, e: Endpoint, now: Time)
    ensures e in db ==>
              && LostSince(MarkedOffline(db[e], now), if db[e].offlineSince.Some? then db[e].offlineSince.value else now)
              && SameBut(db[e], MarkedOffline(db[e], now))
    ensures KeepsRules(db, AfterLoss(db, e, now))
  {
    hide Vets, Agree;
    forall rules | Holds(db, rules) ensures Holds(AfterLoss(db, e, now), rules) {
      LossKeeps(db, rules.pin, rules.require, e, now);
    }
  }

  function AfterLoss(db: Db, e: Endpoint, now: Time): Db {
    if e in db then db[e := MarkedOffline(db[e], now)] else db
  }

  // ------------------------------------------------------------ the invariant

  /** Every upstream of the pool carries the pool's policy. */
  ghost predicate Uniform(db: Db, pin: Option<Id>, require: bool) {
    forall e | e in db :: db[e].expected == pin && db[e].require == require
  }

  /** An offline upstream holds no chain id; in a pinned pool a known chain id is the pin,
      and under `require` every online upstream's is known. */
  ghost predicate Vetted(u: Upstream) {
    && (!u.online ==> u.chainId.None?)
    && (u.expected.Some? && u.chainId.Some? ==> u.chainId == u.expected)
    && (u.expected.Some? && u.require && u.online ==> u.chainId == u.expected)
  }

  ghost predicate AllVetted(db: Db) {
    forall e | e in db :: Vetted(db[e])
  }

  /** The known chain ids of online upstreams agree. */
  ghost predicate Agree(db: Db) {
    forall e, f | e in db && f in db && db[e].chainId.Some? && db[f].chainId.Some? :: db[e].chainId == db[f].chainId
  }

  /** The rules for each upstream alone. */
  ghost predicate Vets(db: Db, pin: Option<Id>, require: bool) {
    Uniform(db, pin, require) && AllVetted(db)
  }

  ghost predicate PoolInv(db: Db, pin: Option<Id>, require: bool) {
    Vets(db, pin, require) && Agree(db)
  }

  /** The rules of a pool, with agreement or, after a reload that merged two chains, without. */
  datatype Rules = Rules(pin: Option<Id>, require: bool, agree: bool)

  ghost predicate Holds(db: Db, rules: Rules) {
    Vets(db, rules.pin, rules.require) && (rules.agree ==> Agree(db))
  }

  /** Whichever rules held before hold after. */
  ghost predicate KeepsRules(was: Db, db: Db) {
    forall rules | Holds(was, rules) :: Holds(db, rules)
  }

  /** Every chain known in `db` was known in `was`. */
  ghost predicate NoNewChain(was: Db, db: Db) {
    forall e | e in db && db[e].chainId.Some? :: Knows(was, db[e].chainId.value)
  }

  ghost predicate Knows(db: Db, id: Id) {
    exists e | e in db :: db[e].chainId == Some(id)
  }

  /** A new pool has no upstream online yet. */
  lemma NewPool(db: Db, pin: Option<Id>, require: bool)
    requires forall e | e in db :: db[e] == NewUpstream(db[e].live, pin, require)
    ensures PoolInv(db, pin, require)
  {
  }

  lemma ReportedFacts(u: Upstream, r: Report, peer: Option<Id>, now: Time)
    requires Vetted(u)
    ensures var v := Reported(u, r, peer, now);
            && Vetted(v) && v.expected == u.expected && v.require == u.require
            && v.chainId == if Refused(u, r, peer) then None else if r.chainId.Some? then r.chainId else u.chainId
  {
    hide Admitted;
    var warned := if r.chainId.Some? then false else if Refused(u, r, peer) then u.unverifiedWarned else true;
    AdmittedFacts(u.(unverifiedWarned := warned), r, now);
  }

  /** A report keeps the rules for each upstream, whatever peer it is compared with. Compared
      with one that the search can find, it brings no further chain: all known ids agree
      after it, or each was known before it. So it keeps agreement. */
  lemma ReportKeeps(db: Db, pin: Option<Id>, require: bool, e: Endpoint, r: Report, peer: Option<Id>, now: Time)
    requires Vets(db, pin, require)
    ensures var after := AfterReport(db, e, r, peer, now);
            && Vets(after, pin, require)
            && (IsPeer(db, e, peer) ==> Agree(after) || NoNewChain(db, after))
            && (IsPeer(db, e, peer) && Agree(db) ==> Agree(after))
  {
    hide Reported;
    var after := AfterReport(db, e, r, peer, now);
    if e in db && r.head.num > 0 {
      assert Vetted(db[e]);
      ReportedFacts(db[e], r, peer, now);
      if IsPeer(db, e, peer) { OneChanged(db, pin, require, e, r, peer, after[e]); }
    } else {
      SameChains(db);
    }
    if NoNewChain(db, after) { NoNewChainAgrees(db, after); }
  }

  lemma OneChanged(db: Db, pin: Option<Id>, require: bool, e: Endpoint, r: Report, peer: Option<Id>, u: Upstream)
    requires Vets(db, pin, require) && e in db && IsPeer(db, e, peer)
    requires Vetted(u) && u.expected == pin && u.require == require
    requires u.chainId == if Refused(db[e], r, peer) then None else if r.chainId.Some? then r.chainId else db[e].chainId
    ensures Agree(db[e := u]) || NoNewChain(db, db[e := u])
  {
    SameChains(db);
    if u.chainId.Some? && pin.Some? {
      PinnedAgree(db[e := u], pin, require);
    } else if u.chainId.Some? && peer.None? {
      OnlyOneKnown(db, pin, require, e, u);
    } else if u.chainId.Some? {
      assert u.chainId == peer || u.chainId == db[e].chainId;
      var g :| g in db && Anchors(db, e, g) && db[g].chainId == peer;
      assert Knows(db, u.chainId.value);
    }
  }

  lemma SameChains(db: Db)
    ensures NoNewChain(db, db)
  {
  }

  lemma PinnedAgree(db: Db, pin: Option<Id>, require: bool)
    requires Vets(db, pin, require) && pin.Some?
    ensures Agree(db)
  {
    forall e | e in db && db[e].chainId.Some? ensures db[e].chainId == pin { assert Vetted(db[e]); }
  }

  lemma OnlyOneKnown(db: Db, pin: Option<Id>, require: bool, e: Endpoint, u: Upstream)
    requires Vets(db, pin, require) && IsPeer(db, e, None)
    ensures Agree(db[e := u])
  {
    forall f | f in db && f != e ensures db[f].chainId.None? { assert Vetted(db[f]) && !Anchors(db, e, f); }
  }

  lemma NoNewChainAgrees(was: Db, db: Db)
    requires NoNewChain(was, db)
    ensures Agree(was) ==> Agree(db)
  {
  }

  /** Whatever the iteration order, the search finds the same anchor. */
  lemma PeerUnique(db: Db, pin: Option<Id>, require: bool, e: Endpoint, p: Option<Id>, q: Option<Id>)
    requires PoolInv(db, pin, require) && IsPeer(db, e, p) && IsPeer(db, e, q)
    ensures p == q
  {
  }

  datatype Event =
    | Report(endpoint: Endpoint, report: StatusFrames.Report, peer: Option<Id>, now: Time)
    | Loss(endpoint: Endpoint, now: Time)

  ghost predicate Possible(db: Db, events: seq<Event>)
    decreases |events|
  {
    || events == []
    || (&& (events[0].Report? ==> IsPeer(db, events[0].endpoint, events[0].peer))
        && Possible(AfterEvent(db, events[0]), events[1..]))
  }

  function AfterEvent(db: Db, e: Event): Db {
    match e
    case Report(endpoint, r, peer, now) => AfterReport(db, endpoint, r, peer, now)
    case Loss(endpoint, now) => AfterLoss(db, endpoint, now)
  }

  function AfterEvents(db: Db, events: seq<Event>): Db
    decreases |events|
  {
    if events == [] then db else AfterEvents(AfterEvent(db, events[0]), events[1..])
  }

  /** Every run of status reports and losses keeps the rules for each upstream: no chain id
      offline, only the pin in a pinned pool, and always the pin under `require`. That needs no
      agreement and no condition on the peers. With peers that the search can find, in any
      iteration order, a run that starts from one chain stays on one, and a pool that was
      merged from several never gets a further one: all known ids agree, or each was known at
      the start. */
  lemma {:induction false} RunKeeps(db: Db, pin: Option<Id>, require: bool, events: seq<Event>)
    requires Vets(db, pin, require)
    ensures Vets(AfterEvents(db, events), pin, require)
    ensures Possible(db, events) ==> Agree(AfterEvents(db, events)) || NoNewChain(db, AfterEvents(db, events))
    ensures Possible(db, events) && Agree(db) ==> Agree(AfterEvents(db, events))
    decreases |events|
  {
    hide Vets, Agree, NoNewChain;
    if events == [] {
      SameChains(db);
    } else {
      var next := AfterEvent(db, events[0]);
      match events[0] {
        case Report(e, r, peer, now) => ReportKeeps(db, pin, require, e, r, peer, now);
        case Loss(e, now) => LossKeeps(db, pin, require, e, now);
      }
      RunKeeps(next, pin, require, events[1..]);
      ChainsCompose(db, next, AfterEvents(next, events[1..]));
    }
  }

  lemma ChainsCompose(a: Db, b: Db, c: Db)
    ensures NoNewChain(a, b) && NoNewChain(b, c) ==> NoNewChain(a, c)
    ensures Agree(b) && NoNewChain(b, c) ==> Agree(c)
  {
    if NoNewChain(b, c) { NoNewChainAgrees(b, c); }
    if NoNewChain(a, b) && NoNewChain(b, c) {
      forall e | e in c && c[e].chainId.Some? ensures Knows(a, c[e].chainId.value) {
        var f :| f in b && b[f].chainId == c[e].chainId;
      }
    }
  }

  lemma LossKeeps(db: Db, pin: Option<Id>, require: bool, e: Endpoint, now: Time)
    requires Vets(db, pin, require)
    ensures var after := AfterLoss(db, e, now);
            Vets(after, pin, require) && NoNewChain(db, after) && (Agree(db) ==> Agree(after))
  {
    var after := AfterLoss(db, e, now);
    forall f | f in after && after[f].chainId.Some? ensures Knows(db, after[f].chainId.value) {
      assert f in db && db[f].chainId == after[f].chainId;
    }
    NoNewChainAgrees(db, after);
  }

  lemma FrameKeeps(db: Db, e: Endpoint, frame: seq<Byte>, peer: Option<Id>, now: Time)
    requires IsPeer(db, e, peer)
    ensures KeepsRules(db, db)
    ensures ReadFrame(frame).Ok? && ReadFrame(frame).value.Some? ==>
              KeepsRules(db, AfterReport(db, e, ReadFrame(frame).value.value, peer, now))
  {
    hide Vets, Agree, ReadFrame, Reported;
    if ReadFrame(frame).Ok? && ReadFrame(frame).value.Some? {
      var r := ReadFrame(frame).value.value;
      forall rules | Holds(db, rules) ensures Holds(AfterReport(db, e, r, peer, now), rules) {
        ReportKeeps(db, rules.pin, rules.require, e, r, peer, now);
      }
    }
  }

  lemma ReferenceKeeps(db: Db, e: Endpoint, r: Option<nat>)
    ensures KeepsRules(db, if e in db then db[e := db[e].(headReference := r)] else db)
  {
    if e in db {
      var u := db[e].(headReference := r);
      forall rules | Holds(db, rules) ensures Holds(db[e := u], rules) {
        assert Vetted(db[e]);
      }
    }
  }

  // ---------------------------------------------------------------- reloads

  /** A sample taken over by a new generation keeps the new configuration's role. */
  function InheritedFrom(configured: Upstream, sample: Upstream): Upstream {
    sample.(live := configured.live)
  }

  function InheritDb(db: Db, previous: Db): (r: Db)
    ensures r.Keys == db.Keys
  {
    map e | e in db :: if e in previous then InheritedFrom(db[e], previous[e]) else db[e]
  }

  function InheritAll(db: Db, pools: seq<Db>): (r: Db)
    ensures r.Keys == db.Keys
  {
    if pools == [] then db else InheritDb(InheritAll(db, pools[..|pools| - 1]), pools[|pools| - 1])
  }

  /** The newest pool that lists an endpoint, if any. */
  function Newest(pools: seq<Db>, e: Endpoint): (r: Option<nat>)
    ensures r.Some? ==> r.value < |pools| && e in pools[r.value]
  {
    if pools == [] then None
    else if e in pools[|pools| - 1] then Some(|pools| - 1)
    else Newest(pools[..|pools| - 1], e)
  }

  lemma {:induction false} InheritsNewest(db: Db, pools: seq<Db>, e: Endpoint)
    requires e in db
    ensures InheritAll(db, pools)[e]
         == match Newest(pools, e)
            case None => db[e]
            case Some(k) => InheritedFrom(db[e], pools[k][e])
  {
    if pools != [] {
      InheritsNewest(db, pools[..|pools| - 1], e);
    }
  }

  /** Reload inheritance keeps the policy and the vetting, in pinned and unpinned pools. */
  lemma InheritKeepsVetting(db: Db, pools: seq<Db>, pin: Option<Id>, require: bool)
    requires Uniform(db, pin, require) && AllVetted(db)
    requires forall i | 0 <= i < |pools| :: Uniform(pools[i], pin, require) && AllVetted(pools[i])
    ensures Uniform(InheritAll(db, pools), pin, require) && AllVetted(InheritAll(db, pools))
  {
  }

  /** In a pinned pool agreement survives every reload: what is known is the pin. */
  lemma InheritKeepsPinned(db: Db, pools: seq<Db>, pin: Id, require: bool)
    requires PoolInv(db, Some(pin), require) && forall i | 0 <= i < |pools| :: PoolInv(pools[i], Some(pin), require)
    ensures PoolInv(InheritAll(db, pools), Some(pin), require)
  {
    InheritKeepsVetting(db, pools, Some(pin), require);
    var all := InheritAll(db, pools);
    forall e | e in all && all[e].chainId.Some? ensures all[e].chainId == Some(pin) {
      assert Vetted(all[e]);
    }
  }

  /** Two endpoints of the new pool last seen by different earlier pools agree. */
  ghost predicate AgreeAcross(db: Db, pools: seq<Db>) {
    forall e, f | e in db && f in db && Newest(pools, e).Some? && Newest(pools, f).Some?
                  && Newest(pools, e).value < Newest(pools, f).value ::
      var u, v := pools[Newest(pools, e).value][e], pools[Newest(pools, f).value][f];
      u.chainId.Some? && v.chainId.Some? ==> u.chainId == v.chainId
  }

  /** In an unpinned pool a new generation agrees exactly when the upstreams it takes over
      from different earlier generations agreed; from a single one it always does. */
  lemma InheritAgreesExactly(db: Db, pools: seq<Db>)
    requires forall e | e in db :: db[e].chainId.None?
    requires forall i | 0 <= i < |pools| :: Agree(pools[i])
    ensures Agree(InheritAll(db, pools)) <==> AgreeAcross(db, pools)
    ensures |pools| == 1 ==> Agree(InheritAll(db, pools))
  {
    var all := InheritAll(db, pools);
    forall e | e in db
      ensures all[e].chainId == match Newest(pools, e) case None => None case Some(k) => pools[k][e].chainId
    {
      InheritsNewest(db, pools, e);
    }
    if AgreeAcross(db, pools) {
      forall e, f | e in all && f in all && all[e].chainId.Some? && all[f].chainId.Some?
        ensures all[e].chainId == all[f].chainId
      {
        var i, j := Newest(pools, e).value, Newest(pools, f).value;
        if i == j { assert Agree(pools[i]); }
      }
    }
    if |pools| == 1 {
      assert AgreeAcross(db, pools);
    }
  }

  /** Two earlier generations can leave a new unpinned pool with two chains online. */
  lemma InheritCanDisagree()
    ensures exists db: Db, pools: seq<Db> ::
              && (forall e | e in db :: db[e].chainId.None?)
              && (forall i | 0 <= i < |pools| :: PoolInv(pools[i], None, false))
              && !Agree(InheritAll(db, pools))
  {
    var fresh_ := NewUpstream(true, None, false);
    var a, b := fresh_.(online := true, chainId := Some([1])), fresh_.(online := true, chainId := Some([2]));
    var db: Db := map["x" := fresh_, "y" := fresh_];
    var p0: Db, p1: Db := map["x" := a], map["y" := b];
    var pools := [p0, p1];
    assert pools[..1] == [p0];
    assert InheritAll(db, [p0]) == InheritDb(InheritAll(db, [p0][..0]), p0);
    assert InheritAll(db, pools) == InheritDb(InheritAll(db, [p0]), p1);
    var all := InheritAll(db, pools);
    assert all["x"].chainId == Some([1]) && all["y"].chainId == Some([2]);
    assert [1][0] != [2][0];
    assert forall i | 0 <= i < |pools| :: PoolInv(pools[i], None, false);
  }

  // ---------------------------------------------------------------- the pool

  class Pool {
    var db: Db

    constructor (db: Db)
      ensures this.db == db
    {
      this.db := db;
    }

    /** The chain id of the first other online upstream that has one, in any order. */
    method FindPeer(self: Endpoint) returns (peer: Option<Id>)
      ensures IsPeer(db, self, peer)
    {
      var todo := db.Keys;
      while todo != {}
        invariant todo <= db.Keys
        invariant forall e | e in db && e !in todo :: !Anchors(db, self, e)
        decreases todo
      {
        var e :| e in todo;
        if e != self && db[e].online && db[e].chainId.Some? {
          assert Anchors(db, self, e);
          return db[e].chainId;
        }
        todo := todo - {e};
      }
      peer := None;
    }

    /** The upstream is lost: offline, without chain id or lag, since the first moment of the
        outage. Nothing else about it and no other upstream changes, and the pool keeps its
        rules. */
    method MarkOffline(e: Endpoint, now: Time)
      modifies this
      ensures db.Keys == old(db).Keys && forall f | f in db && f != e :: db[f] == old(db)[f]
      ensures e in db ==>
                && LostSince(db[e], if old(db)[e].offlineSince.Some? then old(db)[e].offlineSince.value else now)
                && SameBut(old(db)[e], db[e])
      ensures KeepsRules(old(db), db)
    {
      hide KeepsRules, LostSince, SameBut, MarkedOffline;
      LossMeans(db, e, now);
      if e in db {
        var u := TakeOffline(db[e], now);
        db := db[e := u];
      }
    }

    static method TakeOffline(u: Upstream, now: Time) returns (v: Upstream)
      ensures v == MarkedOffline(u, now)
    {
      v := u.(headReference := None, headLag := None);
      if v.online {
        v := v.(online := false);
      }
      v := v.(chainId := None);
      if v.offlineSince.None? {
        v := v.(offlineSince := Some(now));
      }
    }

    /** Note the highest head of the other live upstreams before asking `self` for its own. */
    method CaptureHeadReference(self: Endpoint) returns (reference: Option<nat>)
      modifies this
      ensures IsReference(old(db), self, reference)
      ensures db == if self in old(db) then old(db)[self := old(db)[self].(headReference := reference)] else old(db)
      ensures KeepsRules(old(db), db)
    {
      reference := None;
      var todo := db.Keys;
      while todo != {}
        invariant todo <= db.Keys
        invariant match reference
                  case None => forall e | e in db && e !in todo :: !Compares(db, self, e)
                  case Some(m) =>
                    && (exists e | e in db :: Compares(db, self, e) && db[e].head.value.num == m)
                    && (forall e | e in db && e !in todo && Compares(db, self, e) :: db[e].head.value.num <= m)
        decreases todo
      {
        var e :| e in todo;
        if Compares(db, self, e) && (reference.None? || reference.value < db[e].head.value.num) {
          reference := Some(db[e].head.value.num);
        }
        todo := todo - {e};
      }
      ReferenceKeeps(db, self, reference);
      if self in db {
        db := db[self := db[self].(headReference := reference)];
      }
    }

    /** Apply one binary frame. A frame that is no status result, that does not decode, or
        that reports no head leaves every upstream as it was. */
    method ApplyStatusUpdate(frame: seq<Byte>, e: Endpoint, now: Time)
      returns (r: Result<Option<Byte>, ZcdError>, ghost peer: Option<Id>)
      modifies this
      ensures r == match ReadFrame(frame)
                   case Err(error) => Err(error)
                   case Ok(None) => Ok(None)
                   case Ok(Some(_)) => Ok(Some(frame[0]))
      ensures IsPeer(old(db), e, peer)
      ensures db == match ReadFrame(frame)
                    case Ok(Some(report)) => AfterReport(old(db), e, report, peer, now)
                    case _ => old(db)
      ensures KeepsRules(old(db), db) && (e in old(db) ==> e in db)
    {
      hide Reported, LE32, FixedTable, KeepsRules;
      var search := FindPeer(e);
      peer := search;
      FrameKeeps(db, e, frame, peer, now);
      Envelope(frame);
      var message := ZcdBuilder(frame, RESULT_V0_FIELDS);
      if "variant" !in message {
        return Ok(None), peer;
      }
      var variant, body := message["variant"].slice[0], message["data"].slice;
      if variant != 0 && variant != 3 {
        return Ok(None), peer;
      }
      StatusTables();
      var fields;
      if variant == 0 {
        fields := DecodeFixedFields(body, STATUS_RESULT_V0_FIELDS, Some("chain_id"));
      } else {
        fields := DecodeFixedFields(body, STATUS_RESULT_V1_FIELDS, None);
      }
      if fields.Err? {
        return Err(fields.error), peer;
      }
      var report := ReadReport(variant, fields.value);
      if report.Err? {
        return Err(report.error), peer;
      }
      if report.value.head.num > 0 && e in db {
        db := db[e := Reported(db[e], report.value, search, now)];
      }
      r := Ok(Some(variant));
    }

    /** Take over the samples of every upstream that an earlier pool also lists. */
    method InheritObservations(previous: Pool)
      modifies this
      ensures db == InheritDb(old(db), old(previous.db))
    {
      var old_, todo := previous.db, db.Keys;
      while todo != {}
        invariant todo <= db.Keys == old(db).Keys
        invariant forall e | e in db ::
          db[e] == if e !in todo && e in old_ then InheritedFrom(old(db)[e], old_[e]) else old(db)[e]
        decreases todo
      {
        var e :| e in todo;
        if e in old_ {
          db := db[e := InheritedFrom(db[e], old_[e])];
        }
        todo := todo - {e};
      }
    }
  }
}
