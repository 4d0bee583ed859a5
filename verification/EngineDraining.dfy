/** When a generation on the draining list still gains connections, and when an accept
    exceeds the cap of the active generation: exact conditions on what is published. */
module EngineDraining {
  import opened Seqs
  import opened EngineModel
  import opened EngineSums
  import opened EngineInvariants
  import opened EngineReload
  import opened EngineTheorems

  /** In some continuation of the run `t` has more connections than at an earlier moment. */
  ghost predicate GainsLater<G(!new), C(!new)>(s: State<G, C>, t: Target<G>) {
    exists early: seq<Step<G, C>>, late: seq<Step<G, C>> :: Gains(s, early, late, t)
  }

  ghost predicate Gains<G, C>(s: State<G, C>, early: seq<Step<G, C>>, late: seq<Step<G, C>>, t: Target<G>) {
    && Runs(s, early) && Runs(After(s, early), late)
    && Used(After(After(s, early), late).used, t) > Used(After(s, early).used, t)
  }

  /** An accept that nothing interrupts gives `t` a connection exactly when the published
      table binds `t` at its address and the name has room under `t`'s cap, whatever list
      `t`'s generation is on. */
  lemma AcceptGainsExactly<G, C>(s: State<G, C>, a: Addr, t: Target<G>)
    requires Inv(s) && KnownScans(s) && Enabled(s, AcceptOpen(a)) && t.gen in s.pools.gens
    ensures var steps := AcceptSteps<G, C>(a, |ReadList(s.pools, s.pools.live.bindings[a])|);
            && Runs(s, steps)
            && (Used(After(s, steps).used, t) > Used(s.used, t) <==>
                  && s.pools.live.bindings[a] == t
                  && Total(s.pools, s.used, NameOf(s.pools.gens, t.gen), t.kind) < Cap(s.pools.gens[t.gen].spec, t.kind))
  {
    AcceptNowIsRun(s, a);
  }

  /** Among all steps of all parties, only the end of an accept gives `t` a connection: one
      at the address where the published table binds `t`, whose sum is below `t`'s cap. */
  lemma StepGainsExactly<G, C>(s: State<G, C>, step: Step<G, C>, t: Target<G>)
    requires Inv(s) && Known(s.pools) && KnownScans(s) && Enabled(s, step) && t.gen in s.pools.gens
    ensures Used(Next(s, step).used, t) > Used(s.used, t) <==>
              && step.AcceptDecide?
              && step.addr in s.pools.live.bindings && s.pools.live.bindings[step.addr] == t
              && s.scans[step.addr].seen < Cap(s.pools.gens[t.gen].spec, t.kind)
  {
    hide Inv, Known, Next;
    if step.AcceptDecide? {
      InvParts(s);
      DecideIs(s, step.addr);
      assert ScanBounds(s.pools, s.used, step.addr, s.scans[step.addr]);
      DecideWithinCap(s, step.addr);
    } else {
      OthersNeverGain(s, step, t);
    }
  }

  lemma OthersNeverGain<G, C>(s: State<G, C>, step: Step<G, C>, t: Target<G>)
    requires Known(s.pools) && KnownScans(s) && Enabled(s, step) && !step.AcceptDecide?
    ensures Used(Next(s, step).used, t) <= Used(s.used, t)
  {
  }

  lemma DecideIs<G, C>(s: State<G, C>, a: Addr)
    requires Known(s.pools) && KnownScans(s) && Enabled(s, AcceptDecide(a))
    ensures Next(s, AcceptDecide(a)) == Decided(s, a)
  {
  }

  /** For a generation on the draining list that is so only in a reload, after it moved the
      generation there and before it published the new table. */
  lemma GainsWhileUnpublished<G, C>(s: State<G, C>, step: Step<G, C>, t: Target<G>)
    requires Inv(s) && Known(s.pools) && KnownScans(s) && Enabled(s, step)
    requires t.gen in s.pools.draining && Used(Next(s, step).used, t) > Used(s.used, t)
    ensures s.pools.phase.Committing? && t.gen !in s.pools.live.draining && HasTarget(s.pools.live.bindings, t)
  {
    StepGainsExactly(s, step, t);
    NoDupParts(s.pools.active, s.pools.draining);
  }

  // ------------------------------------------------------ a bound target gains

  /** The accept in progress at `a`, if any, comes to its end. */
  lemma Settled<G, C>(s: State<G, C>, a: Addr) returns (steps: seq<Step<G, C>>)
    requires Inv(s)
    ensures Runs(s, steps) && After(s, steps).pools == s.pools && a !in After(s, steps).scans
  {
    InvKnowsScans(s);
    hide Inv, Known, KnownScans, Runs, After;
    steps := [];
    NoSteps(s);
    if a in s.scans {
      steps := ReadingSteps(a, |s.scans[a].todo|);
      ScanEnds(s, a);
    }
  }

  lemma ScanEnds<G, C>(s: State<G, C>, a: Addr)
    requires Known(s.pools) && KnownScans(s) && a in s.scans
    ensures var steps := ReadingSteps<G, C>(a, |s.scans[a].todo|);
            Runs(s, steps) && After(s, steps).pools == s.pools && a !in After(s, steps).scans
  {
    hide Known, Runs, After, Sum, ReadingSteps;
    ScansAddUp(s, a, |s.scans[a].todo|);
  }

  /** All connections of a name close. */
  lemma {:induction false} Emptied<G, C>(s: State<G, C>, name: string, kind: Kind) returns (steps: seq<Step<G, C>>)
    requires Inv(s)
    ensures Runs(s, steps) && Known(s.pools)
    ensures After(s, steps).pools == s.pools && After(s, steps).scans == s.scans
    ensures Total(s.pools, After(s, steps).used, name, kind) == 0
    decreases Total(s.pools, s.used, name, kind)
  {
    InvKnowsScans(s);
    hide Inv;
    steps := [];
    if Total(s.pools, s.used, name, kind) > 0 {
      var n, t := CloseOne(s, name, kind);
      var rest := Emptied(n, name, kind);
      steps := [Disconnect(t)] + rest;
      RunsCons(s, Disconnect(t), rest);
    }
  }

  lemma CloseOne<G, C>(s: State<G, C>, name: string, kind: Kind) returns (n: State<G, C>, t: Target<G>)
    requires Inv(s) && Known(s.pools) && KnownScans(s) && Total(s.pools, s.used, name, kind) > 0
    ensures Enabled(s, Disconnect(t)) && n == Next(s, Disconnect(t)) && Inv(n)
    ensures n.pools == s.pools && n.scans == s.scans
    ensures Total(s.pools, n.used, name, kind) < Total(s.pools, s.used, name, kind)
  {
    var g := SumPositive(s.used, Named(s.pools.gens, s.pools.active + s.pools.draining, name), kind);
    t := Target(g, kind);
    n := Next(s, Disconnect(t));
    TotalUpdate(s.pools, s.used, t, Used(s.used, t) - 1, name, kind);
    StepKeeps(s, Disconnect(t));
  }

  /** A target that the published table binds can always gain a connection, if its cap
      allows any. */
  lemma BoundGains<G(!new), C(!new)>(s: State<G, C>, a: Addr)
    requires Inv(s) && Known(s.pools) && a in s.pools.live.bindings
    requires var t := s.pools.live.bindings[a]; Cap(s.pools.gens[t.gen].spec, t.kind) > 0
    ensures GainsLater(s, s.pools.live.bindings[a])
  {
    hide Inv, Runs, After, AcceptSteps;
    var t := s.pools.live.bindings[a];
    var xs := Settled(s, a);
    RunKeeps(s, xs);
    var s1 := After(s, xs);
    var ys := Emptied(s1, NameOf(s.pools.gens, t.gen), t.kind);
    RunKeeps(s1, ys);
    var s2 := After(s1, ys);
    RunsConcat(s, xs, ys);
    InvKnowsScans(s2);
    AcceptGainsExactly(s2, a, t);
    assert Gains(s, xs + ys, AcceptSteps(a, |ReadList(s2.pools, t)|), t);
  }

  // ------------------------------------------------ an unbound target does not

  lemma ZeroStep<G, C>(s: State<G, C>, step: Step<G, C>, t: Target<G>)
    requires Known(s.pools) && KnownScans(s) && Enabled(s, step)
    requires t.gen in s.pools.gens && Cap(s.pools.gens[t.gen].spec, t.kind) == 0
    ensures t.gen in Next(s, step).pools.gens && Next(s, step).pools.gens[t.gen] == s.pools.gens[t.gen]
    ensures Used(Next(s, step).used, t) <= Used(s.used, t)
  {
    hide Prepare, FreshRequests;
    match step
    case Stage(rs) => if Prepare(s.pools, rs).Ok? { StageKeepsGens(s.pools, rs); }
    case _ =>
  }

  lemma {:induction false} ZeroNeverGains<G, C>(s: State<G, C>, steps: seq<Step<G, C>>, t: Target<G>)
    requires Runs(s, steps) && t.gen in s.pools.gens && Cap(s.pools.gens[t.gen].spec, t.kind) == 0
    ensures var n := After(s, steps);
            t.gen in n.pools.gens && n.pools.gens[t.gen] == s.pools.gens[t.gen] && Used(n.used, t) <= Used(s.used, t)
    decreases |steps|
  {
    hide Next, Enabled, Known, KnownScans;
    if steps != [] {
      ZeroStep(s, steps[0], t);
      ZeroNeverGains(Next(s, steps[0]), steps[1..], t);
    }
  }

  /** A generation on the draining list can gain a connection at a port exactly when the
      published table still binds it there and its cap allows any. That is so only between the
      halves of the commit that moved it to the list. */
  lemma DrainingGainsExactly<G(!new), C(!new)>(s: State<G, C>, t: Target<G>)
    requires Inv(s) && Known(s.pools) && t.gen in s.pools.draining
    ensures GainsLater(s, t) <==>
              HasTarget(s.pools.live.bindings, t) && Cap(s.pools.gens[t.gen].spec, t.kind) > 0
    ensures HasTarget(s.pools.live.bindings, t) ==> s.pools.phase.Committing? && t.gen !in s.pools.live.draining
  {
    var p := s.pools;
    assert t.gen !in p.active by { NoDupParts(p.active, p.draining); }
    if HasTarget(p.live.bindings, t) && Cap(p.gens[t.gen].spec, t.kind) > 0 {
      var a :| a in p.live.bindings && p.live.bindings[a] == t;
      BoundGains(s, a);
    }
    if GainsLater(s, t) {
      var early: seq<Step<G, C>>, late: seq<Step<G, C>> :| Gains(s, early, late, t);
      GainNeedsBinding(s, early, late, t);
    }
  }

  lemma GainNeedsBinding<G, C>(s: State<G, C>, early: seq<Step<G, C>>, late: seq<Step<G, C>>, t: Target<G>)
    requires Inv(s) && Known(s.pools) && t.gen in s.pools.gens && t.gen !in s.pools.active && Gains(s, early, late, t)
    ensures HasTarget(s.pools.live.bindings, t) && Cap(s.pools.gens[t.gen].spec, t.kind) > 0
  {
    hide Inv, Runs, After;
    RunKeeps(s, early);
    if Cap(s.pools.gens[t.gen].spec, t.kind) == 0 {
      ZeroNeverGains(s, early, t);
      ZeroNeverGains(After(s, early), late, t);
    }
    if !HasTarget(s.pools.live.bindings, t) {
      assert Retired(s.pools, t);
      DrainingNeverGains(s, early, t);
      DrainingNeverGains(After(s, early), late, t);
    }
  }

  // --------------------------------------------- above the active cap

  /** A granted connection takes its name above the cap of the name's active generation `h`
      exactly when it went to a generation on the draining list although the name already had
      `h`'s cap of connections. That is so only between the halves of a commit. */
  lemma AboveActiveCapExactly<G, C>(s: State<G, C>, a: Addr, h: G)
    requires Inv(s) && Known(s.pools) && KnownScans(s) && Enabled(s, AcceptDecide(a)) && VerdictOf(s, a) == Granted
    requires h in s.pools.active && NameOf(s.pools.gens, h) == NameOf(s.pools.gens, s.scans[a].target.gen)
    ensures var t, p := s.scans[a].target, s.pools;
            var name, cap := NameOf(p.gens, h), Cap(p.gens[h].spec, t.kind);
            && (Total(p, Decided(s, a).used, name, t.kind) > cap <==>
                  t.gen in p.draining && Total(p, s.used, name, t.kind) >= cap)
            && (t.gen in p.draining ==> p.phase.Committing?)
  {
    hide Inv, Sound, Total, Next, Decided, Ordered;
    InvParts(s);
    var t, p := s.scans[a].target, s.pools;
    ScanDone(p, s.used, s.scans, a);
    DrainingTarget(s, a);
    TotalAfterGrant(s, a, NameOf(p.gens, h));
    if t.gen in p.active {
      SameActive(s, t.gen, h);
      GrantedBelowCap(s, a);
    }
  }

  /** The target of an accept is on one list, and on the draining one only in a commit. */
  lemma DrainingTarget<G, C>(s: State<G, C>, a: Addr)
    requires Inv(s) && Known(s.pools) && a in s.scans
    ensures NoDup(s.pools.active + s.pools.draining)
    ensures var t, p := s.scans[a].target, s.pools;
            (t.gen in p.active <==> t.gen !in p.draining) && (t.gen in p.draining ==> p.phase.Committing?)
  {
    var p := s.pools;
    assert ScanBounds(p, s.used, a, s.scans[a]);
    NoDupParts(p.active, p.draining);
  }

  lemma SameActive<G, C>(s: State<G, C>, g: G, h: G)
    requires Inv(s) && Known(s.pools) && g in s.pools.active && h in s.pools.active
    requires NameOf(s.pools.gens, g) == NameOf(s.pools.gens, h)
    ensures g == h
  {
    ActiveNameUnique(s.pools, g, h);
  }

  lemma TotalAfterGrant<G, C>(s: State<G, C>, a: Addr, name: string)
    requires Known(s.pools) && NoDup(s.pools.active + s.pools.draining)
    requires KnownScans(s) && Enabled(s, AcceptDecide(a)) && VerdictOf(s, a) == Granted
    requires s.scans[a].target.gen in s.pools.active + s.pools.draining
    requires name == NameOf(s.pools.gens, s.scans[a].target.gen)
    ensures var kind := s.scans[a].target.kind;
            Total(s.pools, Decided(s, a).used, name, kind) == Total(s.pools, s.used, name, kind) + 1
  {
    hide Total, Known, NoDup;
    var t := s.scans[a].target;
    TotalUpdate(s.pools, s.used, t, Used(s.used, t) + 1, name, t.kind);
  }

  lemma GrantedBelowCap<G, C>(s: State<G, C>, a: Addr)
    requires KnownScans(s) && Enabled(s, AcceptDecide(a)) && VerdictOf(s, a) == Granted
    ensures var t := s.scans[a].target; s.scans[a].seen < Cap(s.pools.gens[t.gen].spec, t.kind)
  {
  }
}
