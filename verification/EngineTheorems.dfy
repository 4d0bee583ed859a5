/** What holds in every reachable state of the configuration engine and along every run. */
module EngineTheorems {
  import opened Seqs
  import opened EngineModel
  import opened EngineSums
  import opened EngineInvariants
  import opened EngineReload

  lemma InvKnowsScans<G, C>(s: State<G, C>)
    requires Inv(s)
    ensures KnownScans(s)
  {
  }

  lemma InvKnown<G, C>(s: State<G, C>)
    requires Inv(s)
    ensures Known(s.pools)
  {
  }

  /** Every step of every party keeps the whole invariant. */
  lemma StepKeeps<G, C>(s: State<G, C>, step: Step<G, C>)
    requires Inv(s) && Enabled(s, step)
    ensures KnownScans(s) && Inv(Next(s, step))
  {
    InvKnowsScans(s);
    match step
    case AcceptOpen(a) => OpenKeeps(s, a);
    case AcceptScan(a) => ScanKeeps(s, a);
    case AcceptDecide(a) => DecideKeeps(s, a);
    case Disconnect(t) => DisconnectKeeps(s, t);
    case Stage(rs) => StageKeeps(s, rs);
    case Publish => PublishKeeps(s);
    case ReapEngine => ReapEngineKeeps(s);
    case ReapPublish => ReapPublishKeeps(s);
  }

  lemma {:induction false} RunKeeps<G, C>(s: State<G, C>, steps: seq<Step<G, C>>)
    requires Inv(s) && Runs(s, steps)
    ensures Inv(After(s, steps))
    decreases |steps|
  {
    if steps != [] {
      StepKeeps(s, steps[0]);
      RunKeeps(Next(s, steps[0]), steps[1..]);
    }
  }

  lemma InitInv<G, C>()
    ensures Inv(Init<G, C>())
  {
  }

  lemma Reachable<G, C>(steps: seq<Step<G, C>>)
    requires Runs(Init<G, C>(), steps)
    ensures Inv(After(Init<G, C>(), steps))
  {
    InitInv<G, C>();
    RunKeeps(Init<G, C>(), steps);
  }

  /** After every run the two lists hold each generation once, and the published table binds
      listed generations only: never a published draining one, and active ones except while a
      reload waits to be published. */
  lemma ListsAndTable<G, C>(steps: seq<Step<G, C>>)
    requires Runs(Init<G, C>(), steps)
    ensures var p := After(Init<G, C>(), steps).pools;
            && NoDup(p.active + p.draining) && (forall g | g in p.active :: g !in p.draining)
            && (forall a | a in p.live.bindings ::
                  && p.live.bindings[a].gen in p.active + p.draining
                  && p.live.bindings[a].gen !in p.live.draining
                  && (!p.phase.Committing? ==> p.live.bindings[a].gen in p.active))
  {
    Reachable<G, C>(steps);
    var p := After(Init<G, C>(), steps).pools;
    NoDupParts(p.active, p.draining);
  }

  /** After every run a generation with an open connection is listed, as active or as
      draining. */
  lemma ConnectionsStayListed<G, C>(steps: seq<Step<G, C>>, t: Target<G>)
    requires Runs(Init<G, C>(), steps)
    requires Used(After(Init<G, C>(), steps).used, t) > 0
    ensures var p := After(Init<G, C>(), steps).pools; t.gen in p.active <==> t.gen !in p.draining
  {
    Reachable<G, C>(steps);
    ListsAndTable<G, C>(steps);
  }

  lemma {:induction false} RunsConcat<G, C>(s: State<G, C>, xs: seq<Step<G, C>>, ys: seq<Step<G, C>>)
    requires Runs(s, xs) && Runs(After(s, xs), ys)
    ensures Runs(s, xs + ys) && After(s, xs + ys) == After(After(s, xs), ys)
    decreases |xs|
  {
    hide Next, Enabled, Known, KnownScans;
    if xs == [] {
      assert xs + ys == ys;
    } else {
      RunsConcat(Next(s, xs[0]), xs[1..], ys);
      assert (xs + ys)[0] == xs[0] && (xs + ys)[1..] == xs[1..] + ys;
    }
  }

  lemma NoSteps<G, C>(s: State<G, C>)
    ensures Runs(s, []) && After(s, []) == s
  {
  }

  lemma RunsCons<G, C>(s: State<G, C>, step: Step<G, C>, rest: seq<Step<G, C>>)
    requires Known(s.pools) && KnownScans(s) && Enabled(s, step) && Runs(Next(s, step), rest)
    ensures Runs(s, [step] + rest) && After(s, [step] + rest) == After(Next(s, step), rest)
  {
    hide Next, Enabled, Known, KnownScans;
    assert ([step] + rest)[0] == step && ([step] + rest)[1..] == rest;
  }

  /** A port of a generation that no table binds or is about to bind. */
  ghost predicate Retired<G, C>(p: Pools<G, C>, t: Target<G>) {
    && t.gen in p.gens && t.gen !in p.active
    && (forall a | a in p.live.bindings :: p.live.bindings[a] != t)
  }

  lemma RetiredDecide<G, C>(s: State<G, C>, a: Addr, t: Target<G>)
    requires Known(s.pools) && KnownScans(s) && Scanned(s.pools, s.used, s.scans)
    requires Enabled(s, AcceptDecide(a)) && Retired(s.pools, t)
    ensures Retired(Next(s, AcceptDecide(a)).pools, t)
    ensures Used(Next(s, AcceptDecide(a)).used, t) == Used(s.used, t)
  {
    assert ScanBounds(s.pools, s.used, a, s.scans[a]);
  }

  lemma RetiredStage<G, C>(s: State<G, C>, rs: seq<Request<G, C>>, t: Target<G>)
    requires Known(s.pools) && KnownScans(s) && Enabled(s, Stage(rs)) && Retired(s.pools, t)
    ensures Retired(Next(s, Stage(rs)).pools, t) && Next(s, Stage(rs)).used == s.used
  {
    hide Prepare, FreshRequests;
    var p := s.pools;
    if Prepare(p, rs).Ok? {
      ValidNamesOf(p, rs);
      PrepareAllGood(p, rs);
      StagedActive(p, rs, Prepare(p, rs).value);
    }
  }

  lemma ValidNamesOf<G, C>(p: Pools<G, C>, rs: seq<Request<G, C>>)
    requires Known(p) && Prepare(p, rs).Ok?
    ensures DistinctLabels(rs) && PrepareAll(p, rs) == Prepare(p, rs)
  {
    ValidNamesDistinct(rs);
  }

  lemma StageKeepsGens<G, C>(p: Pools<G, C>, rs: seq<Request<G, C>>)
    requires Known(p) && FreshRequests(p, rs) && Prepare(p, rs).Ok?
    ensures forall g | g in p.gens :: g in Staged(p, Prepare(p, rs).value).gens
                                      && Staged(p, Prepare(p, rs).value).gens[g] == p.gens[g]
  {
    ValidNamesOf(p, rs);
    PrepareAllGood(p, rs);
    StagedActive(p, rs, Prepare(p, rs).value);
  }

  lemma RetiredPublish<G, C>(s: State<G, C>, t: Target<G>)
    requires Sound(s.pools) && KnownScans(s) && Enabled(s, Publish) && Retired(s.pools, t)
    ensures Retired(Next(s, Publish).pools, t) && Next(s, Publish).used == s.used
  {
    assert BindsOnly(s.pools.gens, s.pools.active, s.pools.phase.bindings);
  }

  lemma RetiredStep<G, C>(s: State<G, C>, step: Step<G, C>, t: Target<G>)
    requires Inv(s) && Known(s.pools) && KnownScans(s) && Enabled(s, step) && Retired(s.pools, t)
    ensures Retired(Next(s, step).pools, t)
    ensures Used(Next(s, step).used, t) <= Used(s.used, t)
  {
    InvParts(s);
    hide *;
    match step
    case AcceptDecide(a) => RetiredDecide(s, a, t);
    case Stage(rs) => RetiredStage(s, rs, t);
    case Publish => RetiredPublish(s, t);
    case _ => RetiredOtherwise(s, step, t);
  }

  lemma RetiredOtherwise<G, C>(s: State<G, C>, step: Step<G, C>, t: Target<G>)
    requires Known(s.pools) && KnownScans(s) && Enabled(s, step) && Retired(s.pools, t)
    requires !step.AcceptDecide? && !step.Stage? && !step.Publish?
    ensures Retired(Next(s, step).pools, t)
    ensures Used(Next(s, step).used, t) <= Used(s.used, t)
  {
  }

  /** From the moment a draining generation is published, or no table binds it, no
      continuation of the run gives it another connection or binds it again. */
  lemma {:induction false} DrainingNeverGains<G, C>(s: State<G, C>, steps: seq<Step<G, C>>, t: Target<G>)
    requires Inv(s) && Runs(s, steps)
    requires t.gen in s.pools.live.draining || Retired(s.pools, t)
    ensures Retired(After(s, steps).pools, t)
    ensures Used(After(s, steps).used, t) <= Used(s.used, t)
    decreases |steps|
  {
    if steps != [] {
      StepKeeps(s, steps[0]);
      RetiredStep(s, steps[0], t);
      DrainingNeverGains(Next(s, steps[0]), steps[1..], t);
    }
  }

  /** However accepts, closing connections, reloads and the reaper interleave: an accept
      that passes the sum finds a permit, and a granted connection leaves all connections
      of the name, over the active and the draining generations, within the cap of the
      generation that took it. That generation is the active one of the name unless a reload
      is between its halves. */
  lemma AcceptWithinCap<G, C>(steps: seq<Step<G, C>>, a: Addr)
    requires Runs(Init<G, C>(), steps) && Enabled(After(Init<G, C>(), steps), AcceptDecide(a))
    ensures var s := After(Init<G, C>(), steps);
            && Known(s.pools) && KnownScans(s)
            && VerdictOf(s, a) != NoPermit
            && (VerdictOf(s, a) == Granted ==> GrantedWithinCap(s, Decided(s, a), s.scans[a].target))
            && (!s.pools.phase.Committing? ==> s.scans[a].target.gen in s.pools.active)
  {
    Reachable<G, C>(steps);
    var s := After(Init<G, C>(), steps);
    DecideWithinCap(s, a);
    assert ScanBounds(s.pools, s.used, a, s.scans[a]);
    ListsAndTable<G, C>(steps);
  }

  lemma DecideWithinCap<G, C>(s: State<G, C>, a: Addr)
    requires Inv(s) && a in s.scans && s.scans[a].todo == []
    ensures && Known(s.pools) && KnownScans(s)
            && VerdictOf(s, a) != NoPermit
            && (VerdictOf(s, a) == Granted ==> GrantedWithinCap(s, Decided(s, a), s.scans[a].target))
  {
    InvKnowsScans(s);
    ScanDone(s.pools, s.used, s.scans, a);
    if VerdictOf(s, a) == Granted {
      GrantBound(s, a);
    }
  }

  /** One more connection on `t`, and the whole name within the cap of `t`'s generation. */
  ghost predicate GrantedWithinCap<G, C>(s: State<G, C>, n: State<G, C>, t: Target<G>) {
    && Known(n.pools) && t.gen in n.pools.gens
    && Used(n.used, t) == Used(s.used, t) + 1
    && Total(n.pools, n.used, NameOf(n.pools.gens, t.gen), t.kind) <= Cap(n.pools.gens[t.gen].spec, t.kind)
  }

  lemma GrantBound<G, C>(s: State<G, C>, a: Addr)
    requires Known(s.pools) && KnownScans(s) && NoDup(s.pools.active + s.pools.draining)
    requires a in s.scans && s.scans[a].target.gen in s.pools.active + s.pools.draining && VerdictOf(s, a) == Granted
    requires var t := s.scans[a].target;
             Total(s.pools, s.used, NameOf(s.pools.gens, t.gen), t.kind) <= s.scans[a].seen
    ensures GrantedWithinCap(s, Decided(s, a), s.scans[a].target)
  {
    var t := s.scans[a].target;
    TotalUpdate(s.pools, s.used, t, Used(s.used, t) + 1, NameOf(s.pools.gens, t.gen), t.kind);
  }

  /** Over whole runs the connections of a name never exceed the largest cap that was
      ever committed for it. */
  lemma PeakWithinLargestCap<G, C>(steps: seq<Step<G, C>>, name: string, kind: Kind)
    requires Runs(Init<G, C>(), steps)
    ensures var s := After(Init<G, C>(), steps);
            && Known(s.pools)
            && (Total(s.pools, s.used, name, kind) > 0 ==>
                  exists g :: g in s.pools.gens && NameOf(s.pools.gens, g) == name
                              && Total(s.pools, s.used, name, kind) <= Cap(s.pools.gens[g].spec, kind))
  {
    Reachable<G, C>(steps);
    var s := After(Init<G, C>(), steps);
    assert CappedAt(s.pools, s.used, name, kind);
  }

  /** Through every reload sequence, two listed generations with one name, pin and require
      flag that both list an endpoint use the very same connection counter for it. */
  lemma CountersShared<G, C>(steps: seq<Step<G, C>>, g: G, h: G, e: string)
    requires Runs(Init<G, C>(), steps)
    requires var p := After(Init<G, C>(), steps).pools;
             && g in p.gens && h in p.gens
             && g in p.active + p.draining && h in p.active + p.draining
             && p.gens[g].spec.key == p.gens[h].spec.key
             && e in p.gens[g].counters && e in p.gens[h].counters
    ensures var p := After(Init<G, C>(), steps).pools;
            p.gens[g].counters[e] == p.gens[h].counters[e]
  {
    Reachable<G, C>(steps);
  }

  ghost function KeyOf<G, C>(p: Pools<G, C>, g: G): (string, nat)
    requires g in p.gens
  {
    (NameOf(p.gens, g), p.gens[g].revision)
  }

  /** Over every reload sequence the pair of listener name and revision identifies a listed
      generation; per name, revisions increase along the draining list and stay below the
      active one. */
  lemma RevisionsIdentify<G, C>(steps: seq<Step<G, C>>)
    requires Runs(Init<G, C>(), steps)
    ensures var p := After(Init<G, C>(), steps).pools;
            && Known(p) && Ordered(p)
            && forall i, j | 0 <= i < j < |p.active + p.draining| ::
                 KeyOf(p, (p.active + p.draining)[i]) != KeyOf(p, (p.active + p.draining)[j])
  {
    Reachable<G, C>(steps);
    var p := After(Init<G, C>(), steps).pools;
    SoundKeysDistinct(p);
  }

  lemma SoundKeysDistinct<G, C>(p: Pools<G, C>)
    requires Known(p) && Ordered(p)
    ensures forall i, j | 0 <= i < j < |p.active + p.draining| ::
              KeyOf(p, (p.active + p.draining)[i]) != KeyOf(p, (p.active + p.draining)[j])
  {
  }

  // ------------------------------------------- an accept without interleaving

  ghost function ReadingSteps<G, C>(a: Addr, count: nat): seq<Step<G, C>> {
    if count == 0 then [AcceptDecide(a)] else [AcceptScan(a)] + ReadingSteps(a, count - 1)
  }

  /** The steps of one accept that reads `count` generations. */
  ghost function AcceptSteps<G, C>(a: Addr, count: nat): seq<Step<G, C>> {
    [AcceptOpen(a)] + ReadingSteps(a, count)
  }

  /** An accept that nothing interrupts: grant exactly when the name has room. */
  ghost function AcceptNow<G, C>(s: State<G, C>, a: Addr): State<G, C>
    requires Known(s.pools)
  {
    if a !in s.pools.live.bindings then s else
      var t := s.pools.live.bindings[a];
      if Total(s.pools, s.used, NameOf(s.pools.gens, t.gen), t.kind) < Cap(s.pools.gens[t.gen].spec, t.kind)
      then s.(used := s.used[t := Used(s.used, t) + 1])
      else s
  }

  lemma {:induction false} ScansAddUp<G, C>(s: State<G, C>, a: Addr, count: nat)
    requires Known(s.pools) && KnownScans(s) && a in s.scans && |s.scans[a].todo| == count
    ensures var scan := s.scans[a];
            var steps := ReadingSteps<G, C>(a, count);
            var full := s.(scans := s.scans[a := Scan(scan.target, [], scan.seen + Sum(s.used, scan.todo, scan.target.kind))]);
            Runs(s, steps) && After(s, steps) == Decided(full, a)
    decreases count
  {
    hide Runs, After, Decided, Known;
    if count == 0 {
      assert s.scans[a := s.scans[a]] == s.scans;
      assert Scan(s.scans[a].target, [], s.scans[a].seen) == s.scans[a];
      NoSteps(Next(s, AcceptDecide(a)));
      RunsCons(s, AcceptDecide(a), []);
      assert ReadingSteps<G, C>(a, count) == [AcceptDecide(a)] + [];
    } else {
      var n := Next(s, AcceptScan(a));
      ScansAddUp(n, a, count - 1);
      RunsCons(s, AcceptScan(a), ReadingSteps<G, C>(a, count - 1));
      var sum := Scan(s.scans[a].target, [], s.scans[a].seen + Sum(s.used, s.scans[a].todo, s.scans[a].target.kind));
      assert n.scans[a := sum] == s.scans[a := sum];
    }
  }

  /** The list an accept reads adds up to exactly the connections of the name. */
  lemma ReadListExact<G, C>(s: State<G, C>, a: Addr)
    requires Inv(s) && a in s.pools.live.bindings
    ensures var t := s.pools.live.bindings[a];
            Sum(s.used, ReadList(s.pools, t), t.kind) == Total(s.pools, s.used, NameOf(s.pools.gens, t.gen), t.kind)
  {
    ReadListCovers(s, a);
    var t := s.pools.live.bindings[a];
    var todo := ReadList(s.pools, t);
    assert NoDup(todo);
    ReadListHeld(s.pools, s.used, t);
  }

  lemma ReadListHeld<G, C>(p: Pools<G, C>, used: map<Target<G>, nat>, t: Target<G>)
    requires Known(p) && Held(p, used) && t.gen in p.gens && NoDup(ReadList(p, t))
    ensures Sum(used, ReadList(p, t), t.kind) <= Total(p, used, NameOf(p.gens, t.gen), t.kind)
  {
    SumBelow(used, ReadList(p, t), Named(p.gens, p.active + p.draining, NameOf(p.gens, t.gen)), t.kind);
  }

  /** The one-shot accept is one of the interleavings. */
  lemma AcceptNowIsRun<G, C>(s: State<G, C>, a: Addr)
    requires Inv(s) && KnownScans(s) && Enabled(s, AcceptOpen(a))
    ensures var steps := AcceptSteps<G, C>(a, |ReadList(s.pools, s.pools.live.bindings[a])|);
            Runs(s, steps) && After(s, steps) == AcceptNow(s, a)
  {
    ReadListExact(s, a);
    TargetBelowTotal(s, a);
    AcceptRunResult(s, a);
  }

  lemma AcceptRunResult<G, C>(s: State<G, C>, a: Addr)
    requires Known(s.pools) && KnownScans(s) && Enabled(s, AcceptOpen(a))
    requires var t := s.pools.live.bindings[a];
             var total := Total(s.pools, s.used, NameOf(s.pools.gens, t.gen), t.kind);
             Used(s.used, t) <= total == Sum(s.used, ReadList(s.pools, t), t.kind)
    ensures var steps := AcceptSteps<G, C>(a, |ReadList(s.pools, s.pools.live.bindings[a])|);
            Runs(s, steps) && After(s, steps) == AcceptNow(s, a)
  {
    hide Runs, After, Decided, Sum, ReadingSteps, Total;
    var t := s.pools.live.bindings[a];
    var todo := ReadList(s.pools, t);
    var n := Next(s, AcceptOpen(a));
    ScansAddUp(n, a, |todo|);
    RunsCons(s, AcceptOpen(a), ReadingSteps<G, C>(a, |todo|));
    var total := Sum(s.used, todo, t.kind);
    assert n.scans[a := Scan(t, [], total)] == s.scans[a := Scan(t, [], total)];
    DecideTotal(s, a, total);
  }

  lemma DecideTotal<G, C>(s: State<G, C>, a: Addr, total: nat)
    requires Known(s.pools) && KnownScans(s) && Enabled(s, AcceptOpen(a))
    requires var t := s.pools.live.bindings[a];
             Used(s.used, t) <= total == Total(s.pools, s.used, NameOf(s.pools.gens, t.gen), t.kind)
    ensures var full := s.(scans := s.scans[a := Scan(s.pools.live.bindings[a], [], total)]);
            Decided(full, a) == AcceptNow(s, a)
  {
    assert s.scans[a := Scan(s.pools.live.bindings[a], [], total)] - {a} == s.scans;
  }

  lemma TargetBelowTotal<G, C>(s: State<G, C>, a: Addr)
    requires Inv(s) && a in s.pools.live.bindings
    ensures var t := s.pools.live.bindings[a];
            Used(s.used, t) <= Total(s.pools, s.used, NameOf(s.pools.gens, t.gen), t.kind)
  {
    var p := s.pools;
    var t := p.live.bindings[a];
    SumAtLeast(s.used, Named(p.gens, p.active + p.draining, NameOf(p.gens, t.gen)), t.kind, t.gen);
  }

  /** Everything an uninterrupted accept relies on and keeps. */
  lemma AcceptNowFacts<G, C>(s: State<G, C>, a: Addr)
    requires Inv(s) && s.scans == map[] && a in s.pools.live.bindings
    ensures var t := s.pools.live.bindings[a];
            && Known(s.pools) && t.gen in s.pools.gens
            && Used(s.used, t) <= Sum(s.used, ReadList(s.pools, t), t.kind)
            && Sum(s.used, ReadList(s.pools, t), t.kind) == Total(s.pools, s.used, NameOf(s.pools.gens, t.gen), t.kind)
            && Inv(AcceptNow(s, a))
  {
    ReadListExact(s, a);
    TargetBelowTotal(s, a);
    AcceptNowIsRun(s, a);
    RunKeeps(s, AcceptSteps<G, C>(a, |ReadList(s.pools, s.pools.live.bindings[a])|));
  }
}
