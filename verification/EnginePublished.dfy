/** The lists as they are published for the status view, which are older than the engine's own
    between the halves of a commit and of a reap. */
module EnginePublished {
  import opened EngineModel
  import opened EngineInvariants
  import opened EngineTheorems

  /** The pools as a reader of the published state sees them. */
  function Seen<G, C>(p: Pools<G, C>): Pools<G, C> {
    p.(active := p.live.active, draining := p.live.draining)
  }

  /** The published lists name known generations, ordered as the engine's own. */
  ghost predicate Shown<G, C>(p: Pools<G, C>) {
    Known(Seen(p)) && Ordered(Seen(p))
  }

  lemma IdleShows<G, C>(s: State<G, C>)
    requires Inv(s) && s.pools.phase == Idle
    ensures Shown(s.pools)
  {
    assert Seen(s.pools) == s.pools;
  }

  /** More generations and a later revision change nothing about the lists. */
  lemma StillShown<G, C>(p: Pools<G, C>, n: Pools<G, C>)
    requires Shown(p) && n.live == p.live
    requires forall g | g in p.gens :: g in n.gens && n.gens[g] == p.gens[g]
    requires forall g | g in n.gens :: n.gens[g].revision <= n.revision
    ensures Shown(n)
  {
    var a, b := Seen(p), Seen(n);
    assert forall g | g in a.active + a.draining :: g in p.gens && b.gens[g] == a.gens[g];
  }

  lemma ShownStep<G, C>(s: State<G, C>, step: Step<G, C>)
    requires Inv(s) && Known(s.pools) && KnownScans(s) && Enabled(s, step) && Shown(s.pools)
    ensures Shown(Next(s, step).pools)
  {
    StepKeeps(s, step);
    var n := Next(s, step);
    if n.pools.phase == Idle {
      IdleShows(n);
    } else {
      LiveKept(s, step);
      InvOrdered(n);
      hide Inv, Shown, Next, Known;
      StillShown(s.pools, n.pools);
    }
  }

  lemma InvOrdered<G, C>(s: State<G, C>)
    requires Inv(s)
    ensures forall g | g in s.pools.gens :: s.pools.gens[g].revision <= s.pools.revision
  {
  }

  /** Only publication changes what is published, and no step changes a generation. */
  lemma LiveKept<G, C>(s: State<G, C>, step: Step<G, C>)
    requires Inv(s) && Known(s.pools) && KnownScans(s) && Enabled(s, step) && Next(s, step).pools.phase != Idle
    ensures var n := Next(s, step).pools;
            n.live == s.pools.live && forall g | g in s.pools.gens :: g in n.gens && n.gens[g] == s.pools.gens[g]
  {
    hide Inv, Prepare, FreshRequests;
    match step
    case Stage(rs) => if Prepare(s.pools, rs).Ok? { StageKeepsGens(s.pools, rs); }
    case _ =>
  }

  lemma {:induction false} ShownRun<G, C>(s: State<G, C>, steps: seq<Step<G, C>>)
    requires Inv(s) && Shown(s.pools) && Runs(s, steps)
    ensures Shown(After(s, steps).pools)
    decreases |steps|
  {
    hide Inv, Shown, Next, Enabled;
    if steps != [] {
      StepKeeps(s, steps[0]);
      ShownStep(s, steps[0]);
      ShownRun(Next(s, steps[0]), steps[1..]);
    }
  }

  /** After every run, name and revision identify a generation among those published. */
  lemma PublishedIdentify<G, C>(steps: seq<Step<G, C>>)
    requires Runs(Init<G, C>(), steps)
    ensures var p := Seen(After(Init<G, C>(), steps).pools);
            && Known(p) && Ordered(p)
            && forall i, j | 0 <= i < j < |p.active + p.draining| ::
                 KeyOf(p, (p.active + p.draining)[i]) != KeyOf(p, (p.active + p.draining)[j])
  {
    var s := Init<G, C>();
    InitInv<G, C>();
    IdleShows(s);
    hide Inv, Runs, After;
    ShownRun(s, steps);
    SoundKeysDistinct(Seen(After(s, steps).pools));
  }
}
