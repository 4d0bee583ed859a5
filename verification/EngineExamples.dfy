/** A run in which a client arrives while a reload that lowers the cap is being committed:
    the generation already on the draining list gains a connection, and the name goes above
    the active cap. */
module EngineExamples {
  import opened Options
  import opened Seqs
  import opened EngineModel
  import opened EngineSums
  import opened EngineInvariants
  import opened EngineTheorems

  type S = State<nat, nat>

  function Listener(cap: nat): Spec {
    Spec(Key(None, None, false), cap, None, {}, 0)
  }

  function Reload(cap: nat, id: nat): Step<nat, nat> {
    Stage([Request(Listener(cap), Some(0), Some(1), true, id, map[])])
  }

  function First(): Gen<nat> { Gen(Listener(2), 1, map[]) }

  function Second(): Gen<nat> { Gen(Listener(1), 2, map[]) }

  function Port(): Target<nat> { Target(0, Ship) }

  function Bound(id: nat): map<Addr, Target<nat>> { map[0 := Target(id, Ship)] }

  function Committed(): Pools<nat, nat> {
    Pools(map[0 := First()], [0], [], 1, Live(Bound(0), [0], []), Idle)
  }

  function Recommitted(): Pools<nat, nat> {
    Pools(map[0 := First(), 1 := Second()], [1], [0], 2, Live(Bound(0), [0], []), Committing(Bound(1)))
  }

  /** `n` clients of the first generation, and an accept in progress or none. */
  function Clients(p: Pools<nat, nat>, n: nat): S {
    State(p, if n == 0 then map[] else map[Port() := n], map[])
  }

  function Accepting(p: Pools<nat, nat>, n: nat, todo: seq<nat>, seen: nat): S {
    Clients(p, n).(scans := map[0 := Scan(Port(), todo, seen)])
  }

  lemma PreparedOne(p: Pools<nat, nat>, cap: nat, id: nat)
    requires (p.gens == map[] && p.active == []) || (p.gens == map[0 := First()] && p.active == [0] && cap != 2)
    requires p.draining == []
    ensures Prepare(p, Reload(cap, id).requests)
         == Ok(Prepared([id], map[id := Gen(Listener(cap), p.revision + 1, map[])], Bound(id)))
  {
    var r := Reload(cap, id).requests[0];
    var rs := [r];
    assert ValidNames(Specs(rs));
    assert rs[..0] == [];
    assert PrepareAll(p, rs[..0]) == Ok(Prepared([], map[], map[]));
    assert Reusable(p.gens, p.active, r.spec) == None;
    assert BindSpec(map[], id, r.spec, Some(0), Some(1)) == Ok(Bound(id));
    var earlier := p.draining + p.active;
    assert earlier == p.active;
    if p.active != [] {
      assert earlier[1..] == [];
      assert InheritOne(r.counters, First().counters) == map[];
      assert Inherit(p.gens, earlier[1..], r.spec.key, map[]) == map[];
    }
    assert Inherit(p.gens, earlier, r.spec.key, r.counters) == map[];
    var none: Prepared<nat, nat> := Prepared([], map[], map[]);
    assert none.active + [id] == [id] && none.created[id := Gen(r.spec, p.revision + 1, map[])]
                                         == map[id := Gen(r.spec, p.revision + 1, map[])];
    assert PrepareOne(p, none, r) == Ok(Prepared([id], map[id := Gen(r.spec, p.revision + 1, map[])], Bound(id)));
    assert rs[|rs| - 1] == r;
    assert PrepareAll(p, rs) == PrepareOne(p, none, r);
    assert Prepare(p, rs) == PrepareAll(p, rs);
  }

  lemma FirstReload(s: S)
    requires s == Clients(Committed().(live := Live(map[], [], []), phase := Committing(Bound(0))), 0)
    ensures Enabled(Init(), Reload(2, 0)) && Next(Init(), Reload(2, 0)) == s
    ensures Enabled(s, Publish) && Next(s, Publish) == Clients(Committed(), 0)
  {
    PreparedOne(Init<nat, nat>().pools, 2, 0);
    assert Filter(g => g !in [0], Init<nat, nat>().pools.active) == [];
    assert Busy(s.used, s.pools.draining) == [];
  }

  lemma SecondReload(n: nat)
    ensures var s := Clients(Committed(), n);
            Enabled(s, Reload(1, 1)) && Next(s, Reload(1, 1)) == Clients(Recommitted(), n)
  {
    var p := Committed();
    PreparedOne(p, 1, 1);
    var created: map<nat, Gen<nat>> := map[1 := Second()];
    assert p.gens + created == Recommitted().gens;
    assert p.active[1..] == [];
    assert Filter(g => g !in [1], p.active) == [0];
    assert p.draining + [0] == [0];
  }

  /** An accept on the first generation's table. */
  lemma Accepts(p: Pools<nat, nat>, n: nat)
    requires (p == Committed() || p == Recommitted()) && n < 2
    ensures var s := Clients(p, n);
            && Enabled(s, AcceptOpen(0)) && Next(s, AcceptOpen(0)) == Accepting(p, n, [0], 0)
            && Enabled(Accepting(p, n, [0], 0), AcceptScan(0))
            && Next(Accepting(p, n, [0], 0), AcceptScan(0)) == Accepting(p, n, [], n)
            && Enabled(Accepting(p, n, [], n), AcceptDecide(0)) && VerdictOf(Accepting(p, n, [], n), 0) == Granted
            && Next(Accepting(p, n, [], n), AcceptDecide(0)) == Clients(p, n + 1)
  {
    assert Named(p.gens, [], "default") == [];
    assert ReadList(p, Port()) == [0] + [] == [0];
    assert [0][1..] == [];
    assert Clients(p, n).used[Port() := n + 1] == Clients(p, n + 1).used;
  }

  lemma Extended(steps: seq<Step<nat, nat>>, step: Step<nat, nat>)
    requires Runs(Init<nat, nat>(), steps)
    requires var s := After(Init<nat, nat>(), steps); Known(s.pools) && KnownScans(s) && Enabled(s, step)
    ensures Runs(Init<nat, nat>(), steps + [step])
    ensures After(Init<nat, nat>(), steps + [step]) == Next(After(Init<nat, nat>(), steps), step)
  {
    hide Runs, After, Next, Enabled, Known, KnownScans;
    var s := After(Init<nat, nat>(), steps);
    NoSteps(Next(s, step));
    RunsCons(s, step, []);
    assert [step] + [] == [step];
    RunsConcat(Init<nat, nat>(), steps, [step]);
  }

  lemma ExtendedByAccept(steps: seq<Step<nat, nat>>, p: Pools<nat, nat>, n: nat)
    returns (read: seq<Step<nat, nat>>, more: seq<Step<nat, nat>>)
    requires (p == Committed() || p == Recommitted()) && n < 2
    requires Runs(Init<nat, nat>(), steps) && After(Init<nat, nat>(), steps) == Clients(p, n)
    ensures Runs(Init<nat, nat>(), read) && After(Init<nat, nat>(), read) == Accepting(p, n, [], n)
    ensures Runs(Init<nat, nat>(), more) && After(Init<nat, nat>(), more) == Clients(p, n + 1)
  {
    hide Runs, After, Enabled, Next;
    Accepts(p, n);
    Extended(steps, AcceptOpen(0));
    read := steps + [AcceptOpen(0)];
    Extended(read, AcceptScan(0));
    read := read + [AcceptScan(0)];
    Extended(read, AcceptDecide(0));
    more := read + [AcceptDecide(0)];
  }

  /** The run: a client, a reload from cap 2 to cap 1, and a second client before the new
      table is published. */
  lemma LateAccept() returns (steps: seq<Step<nat, nat>>)
    ensures Runs(Init<nat, nat>(), steps) && After(Init<nat, nat>(), steps) == Accepting(Recommitted(), 1, [], 1)
  {
    hide Runs, After, Enabled, Next;
    var s := Clients(Committed().(live := Live(map[], [], []), phase := Committing(Bound(0))), 0);
    FirstReload(s);
    NothingRuns();
    Extended([], Reload(2, 0));
    steps := [] + [Reload(2, 0)];
    Extended(steps, Publish);
    steps := steps + [Publish];
    var _, more := ExtendedByAccept(steps, Committed(), 0);
    SecondReload(1);
    Extended(more, Reload(1, 1));
    var read, _ := ExtendedByAccept(more + [Reload(1, 1)], Recommitted(), 1);
    steps := read;
  }

  lemma NothingRuns()
    ensures Runs(Init<nat, nat>(), []) && After(Init<nat, nat>(), []) == Init<nat, nat>()
  {
  }

  /** An accept ends: granted by a generation on the draining list, it takes the name above
      the cap of its active generation. */
  ghost predicate GrantedAbove(s: S, a: Addr, h: nat) {
    && Known(s.pools) && KnownScans(s) && Enabled(s, AcceptDecide(a)) && VerdictOf(s, a) == Granted
    && var t := s.scans[a].target;
    && t.gen in s.pools.draining && h in s.pools.active
    && NameOf(s.pools.gens, h) == NameOf(s.pools.gens, t.gen)
    && Used(Decided(s, a).used, t) > Used(s.used, t)
    && Total(s.pools, Decided(s, a).used, NameOf(s.pools.gens, h), t.kind) > Cap(s.pools.gens[h].spec, t.kind)
  }

  /** So a generation on the draining list can gain a connection while its reload is being
      committed, and its name can go above the active cap. */
  lemma StagedDrainingCanGain()
    ensures exists steps: seq<Step<nat, nat>>, a: Addr, h: nat ::
              Runs(Init<nat, nat>(), steps) && GrantedAbove(After(Init<nat, nat>(), steps), a, h)
  {
    hide Runs, After;
    var steps := LateAccept();
    var s := After(Init<nat, nat>(), steps);
    var p, used := s.pools, Decided(s, 0).used;
    SumAtLeast(used, Named(p.gens, p.active + p.draining, "default"), Ship, 0);
    assert GrantedAbove(s, 0, 1);
  }
}
