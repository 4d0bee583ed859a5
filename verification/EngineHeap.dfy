/** The configuration engine on the heap: generations and connection counters are
    objects compared by identity, permits are taken and returned in place, and the
    lists are reassigned. Every method is one step (or one uninterrupted sequence of
    steps) of `EngineModel` on the view of the heap. */
module EngineHeap {
  import opened Options
  import opened Seqs
  import opened EngineModel
  import opened EngineInvariants
  import opened EngineReload
  import opened EngineTheorems

  /** The shared connection counter of one upstream. */
  class Counter {
    var value: nat

    constructor ()
      ensures value == 0
    {
      value := 0;
    }
  }

  class Generation {
    const spec: Spec
    const revision: nat
    var counters: map<string, Counter>
    var shipPermits: nat
    var chainPermits: nat

    ghost predicate Valid()
      reads this
    {
      shipPermits <= Cap(spec, Ship) && chainPermits <= Cap(spec, Chain)
    }

    /** Connections open on one port: the permits taken. */
    function Open(kind: Kind): nat
      reads this
    {
      var left := match kind case Ship => shipPermits case Chain => chainPermits;
      if left <= Cap(spec, kind) then Cap(spec, kind) - left else 0
    }

    constructor (spec: Spec, revision: nat)
      ensures this.spec == spec && this.revision == revision && Valid()
      ensures Open(Ship) == 0 && Open(Chain) == 0
      ensures counters.Keys == spec.endpoints
      ensures forall e | e in counters :: fresh(counters[e])
    {
      this.spec := spec;
      this.revision := revision;
      this.shipPermits := Cap(spec, Ship);
      this.chainPermits := Cap(spec, Chain);
      this.counters := map[];
      new;
      var todo := spec.endpoints;
      while todo != {}
        invariant todo <= spec.endpoints
        invariant counters.Keys == spec.endpoints - todo
        invariant forall e | e in counters :: fresh(counters[e])
        invariant shipPermits == Cap(spec, Ship) && chainPermits == Cap(spec, Chain)
        decreases todo
      {
        var e :| e in todo;
        var c := new Counter();
        counters := counters[e := c];
        todo := todo - {e};
      }
    }

    /** Share the counters of every upstream that `previous` also lists. */
    method InheritObservations(previous: Generation)
      requires previous != this
      modifies this`counters
      ensures counters == InheritOne(old(counters), previous.counters)
    {
      var todo := counters.Keys;
      while todo != {}
        invariant todo <= counters.Keys == old(counters).Keys
        invariant forall e | e in counters ::
          counters[e] == if e !in todo && e in previous.counters then previous.counters[e] else old(counters)[e]
        decreases todo
      {
        var e :| e in todo;
        if e in previous.counters {
          counters := counters[e := previous.counters[e]];
        }
        todo := todo - {e};
      }
    }

    method TryAcquire(kind: Kind) returns (ok: bool)
      requires Valid()
      modifies this`shipPermits, this`chainPermits
      ensures Valid()
      ensures ok == (old(Open(kind)) < Cap(spec, kind))
      ensures Open(kind) == old(Open(kind)) + (if ok then 1 else 0)
      ensures forall k: Kind | k != kind :: Open(k) == old(Open(k))
    {
      match kind
      case Ship =>
        ok := shipPermits > 0;
        if ok { shipPermits := shipPermits - 1; }
      case Chain =>
        ok := chainPermits > 0;
        if ok { chainPermits := chainPermits - 1; }
    }

    method Release(kind: Kind)
      requires Valid() && Open(kind) > 0
      modifies this`shipPermits, this`chainPermits
      ensures Valid()
      ensures Open(kind) == old(Open(kind)) - 1
      ensures forall k: Kind | k != kind :: Open(k) == old(Open(k))
    {
      match kind
      case Ship => shipPermits := shipPermits + 1;
      case Chain => chainPermits := chainPermits + 1;
    }
  }

  lemma SumNamedNil(used: map<Target<Generation>, nat>, gens: map<Generation, Gen<Counter>>, name: string, kind: Kind)
    ensures Sum(used, Named(gens, [], name), kind) == 0
  {
  }

  lemma SumNamedCons(used: map<Target<Generation>, nat>, gens: map<Generation, Gen<Counter>>, g: Generation,
                     gs: seq<Generation>, name: string, kind: Kind)
    requires g in gens && forall h | h in gs :: h in gens
    ensures Sum(used, Named(gens, [g] + gs, name), kind)
         == Sum(used, Named(gens, gs, name), kind)
            + if NameOf(gens, g) == name then Used(used, Target(g, kind)) else 0
  {
  }

  type Requests = seq<Request<Generation, Counter>>

  /** A resolved listener: the addresses it binds, none where that failed, and whether its
      certificates load. */
  datatype Listener = Listener(spec: Spec, shipAddr: Option<Addr>, chainAddr: Option<Addr>, certified: bool)

  class Runtime {
    var active: seq<Generation>
    var draining: seq<Generation>
    var revision: nat
    var live: Live<Generation>
    var phase: Phase<Generation>
    /** Every generation ever committed, and the connections open on each port. */
    ghost var gens: set<Generation>
    ghost var ledger: map<Target<Generation>, nat>

    ghost function GenMap(): map<Generation, Gen<Counter>>
      reads this, gens
    {
      map g | g in gens :: Gen(g.spec, g.revision, g.counters)
    }

    ghost function View(): State<Generation, Counter>
      reads this, gens
    {
      State(Pools(GenMap(), active, draining, revision, live, phase), ledger, map[])
    }

    /** The permits agree with the ledger. */
    ghost predicate Balanced()
      reads this, gens
    {
      && (forall g | g in gens :: g.Valid())
      && (forall g, k: Kind | g in gens :: g.Open(k) == Used(ledger, Target(g, k)))
    }

    ghost predicate Valid()
      reads this, gens
    {
      Balanced() && Inv(View())
    }

    constructor ()
      ensures Valid() && View() == Init<Generation, Counter>() && gens == {}
    {
      active, draining, revision := [], [], 0;
      live, phase := Live(map[], [], []), Idle;
      gens, ledger := {}, map[];
      new;
      assert View() == Init<Generation, Counter>();
      InitInv<Generation, Counter>();
    }

    // ------------------------------------------------ connections

    /** Connections of one kind over the published draining generations of a name. */
    method SumDraining(name: string, kind: Kind) returns (sum: nat)
      requires Balanced() && forall g | g in live.draining :: g in gens
      ensures sum == Sum(ledger, Named(GenMap(), live.draining, name), kind)
    {
      hide Sum, Named;
      sum := 0;
      ghost var gs, gm, used := live.draining, GenMap(), ledger;
      var i := 0;
      while i < |live.draining|
        invariant 0 <= i <= |live.draining|
        invariant sum + Sum(used, Named(gm, gs[i..], name), kind) == Sum(used, Named(gm, gs, name), kind)
      {
        var g := live.draining[i];
        assert gs[i..] == [g] + gs[i + 1..];
        SumNamedCons(used, gm, g, gs[i + 1..], name, kind);
        if LabelOf(g.spec.key) == name {
          sum := sum + g.Open(kind);
        }
        i := i + 1;
      }
      assert gs[i..] == [];
      SumNamedNil(used, gm, name, kind);
    }

    /** Take a permit and enter it in the ledger. */
    method Take(t: Target<Generation>) returns (ok: bool)
      requires Balanced() && t.gen in gens
      modifies gens`shipPermits, gens`chainPermits, this`ledger
      ensures Balanced() && GenMap() == old(GenMap())
      ensures ok == (Used(old(ledger), t) < Cap(t.gen.spec, t.kind))
      ensures ledger == if ok then old(ledger)[t := Used(old(ledger), t) + 1] else old(ledger)
    {
      ok := t.gen.TryAcquire(t.kind);
      if ok {
        ledger := ledger[t := Used(ledger, t) + 1];
      }
    }

    /** The connections that count against a target's cap. */
    method Existing(t: Target<Generation>) returns (n: nat)
      requires Balanced() && Known(View().pools) && t.gen in GenMap()
      ensures n == Sum(ledger, ReadList(View().pools, t), t.kind)
    {
      n := SumDraining(LabelOf(t.gen.spec.key), t.kind);
      ghost var named := Named(GenMap(), live.draining, LabelOf(t.gen.spec.key));
      assert ([t.gen] + named)[1..] == named;
      n := n + t.gen.Open(t.kind);
    }

    /** Dispatch one accepted socket through the published table. */
    method Accept(addr: Addr) returns (verdict: Option<Verdict>)
      requires Valid()
      modifies gens`shipPermits, gens`chainPermits, this`ledger
      ensures Valid()
      ensures Known(old(View()).pools) && View() == AcceptNow(old(View()), addr)
      ensures verdict.None? <==> addr !in live.bindings
      ensures verdict != Some(NoPermit)
      ensures verdict == Some(Granted) <==> View() != old(View())
    {
      hide Inv, Balanced, Known, Sum, Named, ReadList;
      ghost var s := View();
      InvKnown(s);
      if addr !in live.bindings {
        return None;
      }
      AcceptNowFacts(s, addr);
      var t := live.bindings[addr];
      var existing := Existing(t);
      if existing >= Cap(t.gen.spec, t.kind) {
        return Some(OverCap);
      }
      var ok := Take(t);
      verdict := Some(if ok then Granted else NoPermit);
    }

    /** A client session ends and drops its permit. */
    method Disconnect(t: Target<Generation>)
      requires Valid() && t.gen in gens && t.gen.Open(t.kind) > 0
      modifies gens`shipPermits, gens`chainPermits, this`ledger
      ensures Valid() && Used(old(ledger), t) > 0
      ensures View() == Closed(old(View()), t)
    {
      hide Inv;
      ghost var s := View();
      DisconnectKeeps(s, t);
      t.gen.Release(t.kind);
      ledger := ledger[t := Used(ledger, t) - 1];
      assert GenMap() == s.pools.gens;
      assert View() == Closed(s, t);
    }

    // ---------------------------------------------------- reload

    /** The running generation that already serves exactly `spec`. */
    method FindReusable(spec: Spec) returns (r: Option<Generation>)
      requires forall g | g in active :: g in gens
      ensures r == Reusable(GenMap(), active, spec)
    {
      ghost var gm := GenMap();
      var i := 0;
      while i < |active|
        invariant 0 <= i <= |active|
        invariant Reusable(gm, active, spec) == Reusable(gm, active[i..], spec)
      {
        if active[i].spec == spec {
          return Some(active[i]);
        }
        assert active[i..][1..] == active[i + 1..];
        i := i + 1;
      }
      r := None;
    }

    /** A new generation that shares counters with every earlier one of its key. */
    method NewGeneration(spec: Spec) returns (g: Generation, ghost mine: map<string, Counter>)
      requires forall h | h in active + draining :: h in gens
      ensures fresh(g) && g.spec == spec && g.revision == revision + 1 && g.Valid()
      ensures g.Open(Ship) == 0 && g.Open(Chain) == 0
      ensures mine.Keys == spec.endpoints
      ensures g.counters == Inherit(GenMap(), draining + active, spec.key, mine)
      ensures GenMap() == old(GenMap())
    {
      g := new Generation(spec, revision + 1);
      mine := g.counters;
      var earlier := draining + active;
      ghost var gm := GenMap();
      var i := 0;
      while i < |earlier|
        invariant 0 <= i <= |earlier|
        invariant g.Valid() && g.Open(Ship) == 0 && g.Open(Chain) == 0
        invariant GenMap() == gm
        invariant Inherit(gm, earlier[i..], spec.key, g.counters) == Inherit(gm, earlier, spec.key, mine)
      {
        var h := earlier[i];
        assert h in gens && h in gm;
        assert earlier[i..][1..] == earlier[i + 1..];
        if h.spec.key == spec.key {
          g.InheritObservations(h);
          assert GenMap() == gm;
        }
        i := i + 1;
      }
      assert earlier[i..] == [];
    }

    /** New generations exactly as prepared, with every permit available. */
    ghost predicate Ready(p: Prepared<Generation, Counter>)
      reads this, p.created.Keys
    {
      forall g | g in p.created ::
        && g !in gens && g.Valid() && g.Open(Ship) == 0 && g.Open(Chain) == 0
        && p.created[g] == Gen(g.spec, g.revision, g.counters)
    }

    lemma NoneReady()
      ensures Ready(Prepared([], map[], map[]))
    {
    }

    /** One more listener of a configuration that is being prepared. */
    method PrepareListener(p: Prepared<Generation, Counter>, l: Listener, ghost rs: Requests)
      returns (r: Result<Prepared<Generation, Counter>, PrepareError>, ghost q: Request<Generation, Counter>)
      requires Known(View().pools)
      requires FreshRequests(View().pools, rs) && Ready(p)
      requires forall i | 0 <= i < |rs| && NeedsNew(View().pools, rs[i]) :: rs[i].id in p.created
      ensures GenMap() == old(GenMap())
      ensures Answers(q, l) && FreshRequests(View().pools, rs + [q])
      ensures r == PrepareOne(View().pools, p, q)
      ensures r.Err? ==> r.error != InvalidConfig
      ensures r.Ok? ==> Ready(r.value) && forall g | g in r.value.created :: g in p.created || fresh(g)
      ensures r.Ok? ==> p.created.Keys <= r.value.created.Keys
      ensures r.Ok? && NeedsNew(View().pools, q) ==> q.id in r.value.created
    {
      hide FreshRequests, Inherit, Reusable, BindSpec;
      ghost var pools := View().pools;
      var found := FindReusable(l.spec);
      var g: Generation;
      var created := p.created;
      if found.Some? {
        g := found.value;
        q := Request(l.spec, l.shipAddr, l.chainAddr, l.certified, g, map[]);
      } else {
        ghost var mine;
        g, mine := NewGeneration(l.spec);
        q := Request(l.spec, l.shipAddr, l.chainAddr, l.certified, g, mine);
        created := created[g := Gen(g.spec, g.revision, g.counters)];
      }
      FreshAppend(pools, rs, q);
      if found.None? && !l.certified {
        return Err(Unavailable), q;
      }
      match BindSpec(p.bindings, g, l.spec, l.shipAddr, l.chainAddr)
      case Err(e) => r := Err(e);
      case Ok(b) => r := Ok(Prepared(p.active + [g], created, b));
    }

    /** Resolve a submitted configuration against the running one. Nothing that is
        running changes, whatever the outcome. */
    method Prepare(listeners: seq<Listener>)
      returns (r: Result<Prepared<Generation, Counter>, PrepareError>, ghost rs: Requests)
      requires Known(View().pools)
      ensures GenMap() == old(GenMap())
      ensures |rs| <= |listeners|
      ensures forall i | 0 <= i < |rs| :: Answers(rs[i], listeners[i])
      ensures FreshRequests(View().pools, rs)
      ensures r.Err? && r.error == InvalidConfig <==> !ValidNames(ListenerSpecs(listeners))
      ensures r.Err? && r.error != InvalidConfig ==> PrepareAll(View().pools, rs) == r
      ensures r.Ok? ==> |rs| == |listeners| && EngineModel.Prepare(View().pools, rs) == r && Ready(r.value)
      ensures r.Ok? ==> forall g | g in r.value.created :: fresh(g)
    {
      hide PrepareOne, PrepareAll, FreshRequests, ValidNames, NeedsNew, Answers, Ready;
      NoneReady();
      rs := [];
      FreshNone(View().pools);
      if !ValidNames(ListenerSpecs(listeners)) {
        return Err(InvalidConfig), [];
      }
      var p := Prepared([], map[], map[]);
      ghost var gm, pools := GenMap(), View().pools;
      var n := 0;
      while n < |listeners|
        invariant 0 <= n == |rs| <= |listeners|
        invariant GenMap() == gm
        invariant forall i | 0 <= i < n :: Answers(rs[i], listeners[i])
        invariant FreshRequests(pools, rs) && PrepareAll(pools, rs) == Ok(p)
        invariant Ready(p) && forall g | g in p.created :: fresh(g)
        invariant forall i | 0 <= i < n && NeedsNew(pools, rs[i]) :: rs[i].id in p.created
      {
        var l := listeners[n];
        var more;
        ghost var q;
        more, q := PrepareListener(p, l, rs);
        PrepareAllMore(pools, rs, p, q);
        rs := rs + [q];
        if more.Err? {
          return Err(more.error), rs;
        }
        p := more.value;
        n := n + 1;
      }
      SpecsAnswered(rs, listeners);
      r := Ok(p);
    }

    /** The generations of `gs` that are not in `keep`, in order. */
    static method Leaving(gs: seq<Generation>, keep: seq<Generation>) returns (r: seq<Generation>)
      ensures r == Filter(g => g !in keep, gs)
    {
      r := [];
      var i := 0;
      while i < |gs|
        invariant 0 <= i <= |gs|
        invariant r + Filter(g => g !in keep, gs[i..]) == Filter(g => g !in keep, gs)
      {
        assert gs[i..][1..] == gs[i + 1..];
        if gs[i] !in keep {
          r := r + [gs[i]];
        }
        i := i + 1;
      }
    }

    /** Add the prepared generations to the ones on the books. */
    ghost method Enlist(p: Prepared<Generation, Counter>)
      requires Balanced() && Ready(p)
      requires forall g, k: Kind | g in p.created :: Used(ledger, Target(g, k)) == 0
      modifies this`gens
      ensures gens == old(gens) + p.created.Keys
      ensures Balanced() && GenMap() == old(GenMap()) + p.created
    {
      gens := gens + p.created.Keys;
    }

    /** Replaced generations start draining; the prepared list becomes the active one. */
    method SwapLists(p: Prepared<Generation, Counter>)
      requires Balanced()
      modifies this`active, this`draining, this`revision, this`phase
      ensures active == p.active && revision == old(revision) + 1 && phase == Committing(p.bindings)
      ensures draining == old(draining) + Filter(g => g !in p.active, old(active))
      ensures Balanced() && GenMap() == old(GenMap())
    {
      var moved := Leaving(active, p.active);
      draining := draining + moved;
      active := p.active;
      revision := revision + 1;
      phase := Committing(p.bindings);
    }

    /** The bookkeeping half of a commit: accepts still run on the old table. */
    method Stage(p: Prepared<Generation, Counter>, ghost rs: Requests)
      requires Valid() && phase == Idle && Known(View().pools) && FreshRequests(View().pools, rs)
      requires EngineModel.Prepare(View().pools, rs) == Ok(p) && Ready(p)
      modifies this
      ensures Valid() && gens == old(gens) + p.created.Keys
      ensures View() == old(View()).(pools := Reloaded(old(View()).pools, rs))
    {
      hide Inv, FreshRequests, Known, EngineModel.Prepare, Balanced, Ready, Filter;
      ghost var s := View();
      StageKeeps(s, rs);
      StagedUnused(s, rs);
      Enlist(p);
      SwapLists(p);
      assert View().pools == Staged(s.pools, p);
    }

    /** Which draining generations still hold a connection. */
    method StillBusy() returns (r: seq<Generation>)
      requires Balanced() && forall g | g in draining :: g in gens
      ensures r == Busy(ledger, draining)
    {
      hide Busy;
      r := [];
      var i := 0;
      BusyNil(ledger);
      while i < |draining|
        invariant 0 <= i <= |draining|
        invariant r + Busy(ledger, draining[i..]) == Busy(ledger, draining)
      {
        var g := draining[i];
        BusyCons(ledger, draining[i..]);
        assert draining[i..][1..] == draining[i + 1..];
        if g.Open(Ship) != 0 || g.Open(Chain) != 0 {
          r := r + [g];
        }
        i := i + 1;
      }
      assert draining[i..] == [];
    }

    /** The publishing half of a commit, under the write lock: empty pools retire and the
        new table replaces the old one. */
    method Publish()
      requires Valid() && phase.Committing?
      modifies this`draining, this`live, this`phase
      ensures Valid()
      ensures View() == old(View()).(pools := PublishedPools(old(View()).pools, old(ledger)))
    {
      hide Inv, Busy, Known;
      ghost var s := View();
      PublishKeeps(s);
      ListedKnown(s);
      var keep := StillBusy();
      draining := keep;
      live := Live(phase.bindings, active, keep);
      phase := Idle;
      assert GenMap() == s.pools.gens;
      assert View() == s.(pools := PublishedPools(s.pools, s.used));
    }

    /** Drop the draining generations whose last connection closed. */
    method Reap()
      requires Valid() && phase == Idle
      modifies this`draining, this`live
      ensures Valid()
      ensures View() == old(View()).(pools := ReapPublished(ReapedPools(old(View()).pools, old(ledger))))
    {
      hide Inv, Busy, Known;
      ghost var s := View();
      ReapKeeps(s);
      ListedKnown(s);
      var keep := StillBusy();
      if |keep| != |draining| {
        draining := keep;
        live := live.(active := active, draining := keep);
      }
      assert GenMap() == s.pools.gens;
      assert View() == s.(pools := ReapPublished(ReapedPools(s.pools, s.used)));
    }
  }

  /** A generation that a reload creates has no connection on the books. */
  lemma StagedUnused(s: State<Generation, Counter>, rs: Requests)
    requires Inv(s) && Known(s.pools) && FreshRequests(s.pools, rs) && EngineModel.Prepare(s.pools, rs).Ok?
    ensures forall g, k: Kind | g in EngineModel.Prepare(s.pools, rs).value.created :: Used(s.used, Target(g, k)) == 0
  {
    var q := EngineModel.Prepare(s.pools, rs).value;
    ValidNamesDistinct(rs);
    PrepareAllGood(s.pools, rs);
    forall g, k: Kind | g in q.created ensures Used(s.used, Target(g, k)) == 0 {
      assert g !in s.pools.gens;
    }
  }

  lemma BusyNil(used: map<Target<Generation>, nat>)
    ensures Busy(used, []) == []
  {
  }

  lemma BusyCons(used: map<Target<Generation>, nat>, gs: seq<Generation>)
    requires gs != []
    ensures Busy(used, gs) == (if Empty(used, gs[0]) then [] else [gs[0]]) + Busy(used, gs[1..])
  {
  }

  lemma ListedKnown(s: State<Generation, Counter>)
    requires Inv(s)
    ensures Known(s.pools) && forall g | g in s.pools.draining :: g in s.pools.gens
  {
  }

  /** Both halves of the reaper; when nothing is empty the published list is current. */
  lemma ReapKeeps(s: State<Generation, Counter>)
    requires Inv(s) && s.pools.phase == Idle && s.scans == map[]
    ensures Inv(s.(pools := ReapPublished(ReapedPools(s.pools, s.used))))
    ensures s.pools.live.active == s.pools.active && s.pools.live.draining == s.pools.draining
  {
    ReapEngineKeeps(s);
    var mid := s.(pools := ReapedPools(s.pools, s.used));
    if mid.pools.phase == Reaping {
      ReapPublishKeeps(mid);
    } else {
      assert ReapPublished(s.pools) == s.pools;
    }
  }

  lemma FreshNone(p: Pools<Generation, Counter>)
    requires Known(p)
    ensures FreshRequests(p, []) && PrepareAll(p, []) == Ok(Prepared([], map[], map[]))
  {
  }

  /** One more listener of a configuration that was prepared so far. */
  lemma PrepareAllMore(s: Pools<Generation, Counter>, rs: Requests, p: Prepared<Generation, Counter>,
                       q: Request<Generation, Counter>)
    requires Known(s) && PrepareAll(s, rs) == Ok(p)
    ensures PrepareAll(s, rs + [q]) == PrepareOne(s, p, q)
  {
    assert (rs + [q])[..|rs|] == rs;
  }

  lemma SpecsAnswered(rs: Requests, ls: seq<Listener>)
    requires |rs| == |ls| && forall i | 0 <= i < |rs| :: Answers(rs[i], ls[i])
    ensures Specs(rs) == ListenerSpecs(ls)
  {
  }

  lemma FreshAppend(p: Pools<Generation, Counter>, rs: Requests, q: Request<Generation, Counter>)
    requires Known(p) && FreshRequests(p, rs)
    requires NeedsNew(p, q) ==> q.id !in p.gens && q.counters.Keys == q.spec.endpoints
    requires NeedsNew(p, q) ==> forall i | 0 <= i < |rs| && NeedsNew(p, rs[i]) :: rs[i].id != q.id
    ensures FreshRequests(p, rs + [q])
  {
  }

  ghost predicate Answers(r: Request<Generation, Counter>, l: Listener) {
    (r.spec, r.shipAddr, r.chainAddr, r.certified) == (l.spec, l.shipAddr, l.chainAddr, l.certified)
  }

  function ListenerSpecs(ls: seq<Listener>): seq<Spec> {
    seq(|ls|, i requires 0 <= i < |ls| => ls[i].spec)
  }
}
