/** The reload and reaper steps keep the engine invariant. */
module EngineReload {
  import opened Options
  import opened Seqs
  import opened EngineModel
  import opened EngineSums
  import opened EngineInvariants

  // ------------------------------------------------------------- preparing

  /** How listener `r` got the generation `g`: reused as it is, or created with every
      counter taken over from the earlier generations with its key. */
  ghost predicate Made<G, C>(p: Pools<G, C>, r: Request<G, C>, g: G, created: map<G, Gen<C>>)
    requires Known(p)
  {
    || (g in p.active && p.gens[g].spec == r.spec)
    || (NeedsNew(p, r) && g == r.id && g in created
        && created[g] == Gen(r.spec, p.revision + 1, Inherit(p.gens, p.draining + p.active, r.spec.key, r.counters)))
  }

  ghost predicate PreparedFor<G, C>(p: Pools<G, C>, rs: seq<Request<G, C>>, q: Prepared<G, C>)
    requires Known(p)
  {
    && |q.active| == |rs|
    && (forall i | 0 <= i < |rs| :: Made(p, rs[i], q.active[i], q.created))
    && (forall g | g in q.created :: g !in p.gens && exists i :: 0 <= i < |rs| && rs[i].id == g && q.active[i] == g)
    && Binds(p.gens + q.created, q.active, q.bindings)
  }

  ghost predicate DistinctLabels<G, C>(rs: seq<Request<G, C>>) {
    forall i, j | 0 <= i < j < |rs| :: LabelOf(rs[i].spec.key) != LabelOf(rs[j].spec.key)
  }

  lemma ValidNamesDistinct<G, C>(rs: seq<Request<G, C>>)
    requires ValidNames(Specs(rs))
    ensures DistinctLabels(rs)
  {
    var specs := Specs(rs);
    assert forall i | 0 <= i < |rs| :: specs[i] == rs[i].spec;
  }

  /** The generation a prepared list holds for listener `i` has exactly its specification. */
  lemma PreparedSpec<G, C>(p: Pools<G, C>, rs: seq<Request<G, C>>, q: Prepared<G, C>, i: nat)
    requires Known(p) && FreshRequests(p, rs) && PreparedFor(p, rs, q) && i < |rs|
    ensures q.active[i] in p.gens + q.created && (p.gens + q.created)[q.active[i]].spec == rs[i].spec
  {
  }

  lemma BindsOnlyMore<G, C>(gens: map<G, Gen<C>>, gens': map<G, Gen<C>>, active: seq<G>, b: map<Addr, Target<G>>,
                            g: G, ship: Option<Addr>, chain: Option<Addr>)
    requires forall h | h in active :: h in gens && h in gens' && gens[h].spec == gens'[h].spec
    requires BindsOnly(gens, active, b) && BindsOnce(b)
    requires g !in active && g in gens'
    requires BindSpec(b, g, gens'[g].spec, ship, chain).Ok?
    ensures var b' := BindSpec(b, g, gens'[g].spec, ship, chain).value;
            BindsOnly(gens', active + [g], b') && BindsOnce(b')
  {
  }

  lemma BindsMore<G, C>(gens: map<G, Gen<C>>, gens': map<G, Gen<C>>, active: seq<G>, b: map<Addr, Target<G>>,
                        g: G, ship: Option<Addr>, chain: Option<Addr>)
    requires forall h | h in active :: h in gens && h in gens' && gens[h].spec == gens'[h].spec
    requires Binds(gens, active, b)
    requires g !in active && g in gens'
    requires BindSpec(b, g, gens'[g].spec, ship, chain).Ok?
    ensures Binds(gens', active + [g], BindSpec(b, g, gens'[g].spec, ship, chain).value)
  {
    BindsOnlyMore(gens, gens', active, b, g, ship, chain);
    hide BindsOnly, BindsOnce;
    var b' := BindSpec(b, g, gens'[g].spec, ship, chain).value;
    forall h, kind | h in active + [g] && Serves(gens'[h].spec, kind)
      ensures HasTarget(b', Target(h, kind))
    {
      if h != g {
        assert HasTarget(b, Target(h, kind));
        var a :| a in b && b[a] == Target(h, kind);
        assert b'[a] == Target(h, kind);
      } else if kind == Ship {
        assert b'[ship.value] == Target(h, kind);
      } else {
        assert b'[chain.value] == Target(h, kind);
      }
    }
  }

  /** The generation chosen for one more listener differs from all chosen before, and
      none of those changes. */
  lemma ChosenDiffers<G, C>(p: Pools<G, C>, rs: seq<Request<G, C>>, q: Prepared<G, C>, r: Request<G, C>, i: nat)
    requires Known(p) && FreshRequests(p, rs + [r]) && DistinctLabels(rs + [r]) && i < |rs|
    requires FreshRequests(p, rs) && PreparedFor(p, rs, q) && PrepareOne(p, q, r).Ok?
    ensures var q' := PrepareOne(p, q, r).value;
            && q'.active[|rs|] in p.gens + q'.created && (p.gens + q'.created)[q'.active[|rs|]].spec == r.spec
            && q.active[i] != q'.active[|rs|]
            && q.active[i] in p.gens + q.created
            && q.active[i] in p.gens + q'.created
            && (p.gens + q.created)[q.active[i]].spec == (p.gens + q'.created)[q.active[i]].spec
  {
    var n, all := |rs|, rs + [r];
    assert all[i] == rs[i] && all[n] == r;
    PreparedSpec(p, rs, q, i);
    assert LabelOf(all[i].spec.key) != LabelOf(all[n].spec.key);
    assert Made(p, rs[i], q.active[i], q.created);
    assert NeedsNew(p, rs[i]) && NeedsNew(p, r) ==> all[i].id != all[n].id;
  }

  lemma PrepareOneBinds<G, C>(p: Pools<G, C>, rs: seq<Request<G, C>>, q: Prepared<G, C>, r: Request<G, C>)
    requires Known(p) && FreshRequests(p, rs + [r]) && DistinctLabels(rs + [r])
    requires FreshRequests(p, rs) && PreparedFor(p, rs, q) && PrepareOne(p, q, r).Ok?
    ensures var q' := PrepareOne(p, q, r).value;
            && (forall g | g in q'.active :: g in p.gens + q'.created)
            && Binds(p.gens + q'.created, q'.active, q'.bindings)
  {
    var n, q' := |rs|, PrepareOne(p, q, r).value;
    var g := q'.active[n];
    var gens, gens' := p.gens + q.created, p.gens + q'.created;
    assert g in gens' && gens'[g].spec == r.spec by { assert g in p.active ==> g !in q.created; }
    forall h | h in q.active
      ensures h != g && h in gens && h in gens' && gens[h].spec == gens'[h].spec
    {
      var i :| 0 <= i < n && q.active[i] == h;
      ChosenDiffers(p, rs, q, r, i);
    }
    BindsMore(gens, gens', q.active, q.bindings, g, r.shipAddr, r.chainAddr);
  }

  lemma PrepareOneGood<G, C>(p: Pools<G, C>, rs: seq<Request<G, C>>, q: Prepared<G, C>, r: Request<G, C>)
    requires Known(p) && FreshRequests(p, rs + [r]) && DistinctLabels(rs + [r])
    requires FreshRequests(p, rs) && PreparedFor(p, rs, q) && PrepareOne(p, q, r).Ok?
    ensures PreparedFor(p, rs + [r], PrepareOne(p, q, r).value)
  {
    var n, all, q' := |rs|, rs + [r], PrepareOne(p, q, r).value;
    PrepareOneBinds(p, rs, q, r);
    PrepareOneMade(p, rs, q, r);
    hide Made, Binds, FreshRequests;
    assert all[n] == r;
    forall h | h in q'.created
      ensures h !in p.gens && exists i :: 0 <= i < |all| && all[i].id == h && q'.active[i] == h
    {
      if h in q.created {
        var i :| 0 <= i < n && rs[i].id == h && q.active[i] == h;
        assert all[i].id == h && q'.active[i] == h;
      } else {
        assert all[n].id == h && q'.active[n] == h;
      }
    }
  }

  lemma PrepareOneMade<G, C>(p: Pools<G, C>, rs: seq<Request<G, C>>, q: Prepared<G, C>, r: Request<G, C>)
    requires Known(p) && FreshRequests(p, rs + [r]) && DistinctLabels(rs + [r])
    requires FreshRequests(p, rs) && PreparedFor(p, rs, q) && PrepareOne(p, q, r).Ok?
    ensures var all, q' := rs + [r], PrepareOne(p, q, r).value;
            |q'.active| == |all| && forall i | 0 <= i < |all| :: Made(p, all[i], q'.active[i], q'.created)
  {
    var n, all, q' := |rs|, rs + [r], PrepareOne(p, q, r).value;
    assert all[n] == r;
    forall i | 0 <= i < |all| ensures Made(p, all[i], q'.active[i], q'.created) {
      if i < n {
        ChosenDiffers(p, rs, q, r, i);
        assert Made(p, rs[i], q.active[i], q.created);
      }
    }
  }

  lemma {:induction false} PrepareAllGood<G, C>(p: Pools<G, C>, rs: seq<Request<G, C>>)
    requires Known(p) && FreshRequests(p, rs) && DistinctLabels(rs)
    ensures PrepareAll(p, rs).Ok? ==> PreparedFor(p, rs, PrepareAll(p, rs).value)
  {
    hide FreshRequests, DistinctLabels, PreparedFor, PrepareOne;
    if rs == [] {
      NoneGood(p);
    } else if PrepareAll(p, rs).Ok? {
      var n := |rs| - 1;
      assert rs == rs[..n] + [rs[n]];
      FrontFresh(p, rs);
      PrepareAllGood(p, rs[..n]);
      PrepareOneGood(p, rs[..n], PrepareAll(p, rs[..n]).value, rs[n]);
    }
  }

  lemma NoneGood<G, C>(p: Pools<G, C>)
    requires Known(p)
    ensures PreparedFor(p, [], Prepared([], map[], map[]))
  {
  }

  lemma FrontFresh<G, C>(p: Pools<G, C>, rs: seq<Request<G, C>>)
    requires Known(p) && rs != [] && FreshRequests(p, rs) && DistinctLabels(rs)
    ensures FreshRequests(p, rs[..|rs| - 1]) && DistinctLabels(rs[..|rs| - 1])
  {
  }

  // --------------------------------------------------------------- staging

  /** Inheriting ends with the value that every earlier holder of the endpoint shares. */
  lemma {:induction false} InheritShares<G, C>(gens: map<G, Gen<C>>, earlier: seq<G>, key: Key, mine: map<string, C>,
                                               e: string, v: C)
    requires forall g | g in earlier :: g in gens
    requires forall g | g in earlier && gens[g].spec.key == key && e in gens[g].counters :: gens[g].counters[e] == v
    requires e in mine
    requires || mine[e] == v
             || exists g :: g in earlier && gens[g].spec.key == key && e in gens[g].counters
    ensures Inherit(gens, earlier, key, mine)[e] == v
  {
    if earlier != [] {
      var g := gens[earlier[0]];
      InheritShares(gens, earlier[1..], key, if g.spec.key == key then InheritOne(mine, g.counters) else mine, e, v);
    }
  }

  /** The facts about a staged reload that the invariants need. */
  ghost predicate StagedFrom<G, C>(p: Pools<G, C>, rs: seq<Request<G, C>>, q: Prepared<G, C>) {
    && Known(p) && FreshRequests(p, rs) && DistinctLabels(rs) && PreparedFor(p, rs, q)
  }

  /** Every newly active generation is an old active one or is new. */
  lemma StagedActive<G, C>(p: Pools<G, C>, rs: seq<Request<G, C>>, q: Prepared<G, C>)
    requires StagedFrom(p, rs, q)
    ensures forall g | g in p.gens :: g !in q.created
    ensures forall i | 0 <= i < |q.active| ::
              && q.active[i] in p.gens + q.created
              && (p.gens + q.created)[q.active[i]].spec == rs[i].spec
              && (q.active[i] in p.active || (q.active[i] in q.created && q.created[q.active[i]].revision == p.revision + 1))
    ensures forall i, j | 0 <= i < j < |q.active| ::
              NameOf(p.gens + q.created, q.active[i]) != NameOf(p.gens + q.created, q.active[j])
  {
  }

  lemma StagedLists<G, C>(p: Pools<G, C>, rs: seq<Request<G, C>>, q: Prepared<G, C>)
    requires StagedFrom(p, rs, q) && NoDup(p.active + p.draining)
    ensures Known(Staged(p, q)) && NoDup(q.active + Staged(p, q).draining)
    ensures forall g | g in p.active + p.draining :: g in q.active + Staged(p, q).draining
    ensures forall g | g in q.active + Staged(p, q).draining :: g in p.active + p.draining || g in q.created
  {
    StagedActive(p, rs, q);
    var moved := Filter(g => g !in q.active, p.active);
    NoDupParts(p.active, p.draining);
    FilterNoDup(g => g !in q.active, p.active);
    NoDupParts(p.draining, moved);
    NoDupParts(q.active, p.draining + moved);
  }

  lemma StagedPublished<G, C>(p: Pools<G, C>, rs: seq<Request<G, C>>, q: Prepared<G, C>)
    requires StagedFrom(p, rs, q) && NoDup(p.active + p.draining) && Known(Staged(p, q))
    requires Published(p)
    ensures Published(Staged(p, q))
  {
  }

  lemma ActiveNameUnique<G, C>(p: Pools<G, C>, g: G, h: G)
    requires Known(p) && Ordered(p) && g in p.active && h in p.active && NameOf(p.gens, g) == NameOf(p.gens, h)
    ensures g == h
  {
  }

  /** Draining order: an older generation before the one just moved there. */
  lemma StagedDrainOrder<G, C>(p: Pools<G, C>, moved: seq<G>, i: nat, j: nat)
    requires Known(p) && Ordered(p) && NoDup(moved) && forall g | g in moved :: g in p.active
    requires i < j < |p.draining + moved|
    requires NameOf(p.gens, (p.draining + moved)[i]) == NameOf(p.gens, (p.draining + moved)[j])
    ensures p.gens[(p.draining + moved)[i]].revision < p.gens[(p.draining + moved)[j]].revision
  {
    if i >= |p.draining| {
      assert moved[i - |p.draining|] in moved && moved[j - |p.draining|] in moved;
      ActiveNameUnique(p, moved[i - |p.draining|], moved[j - |p.draining|]);
    }
  }

  lemma StagedRevisions<G, C>(p: Pools<G, C>, rs: seq<Request<G, C>>, q: Prepared<G, C>)
    requires StagedFrom(p, rs, q) && forall g | g in p.gens :: p.gens[g].revision <= p.revision
    ensures forall g | g in p.gens + q.created :: (p.gens + q.created)[g].revision <= p.revision + 1
  {
  }

  lemma StagedOrdered<G, C>(p: Pools<G, C>, rs: seq<Request<G, C>>, q: Prepared<G, C>)
    requires StagedFrom(p, rs, q) && NoDup(p.active + p.draining) && Known(Staged(p, q))
    requires Ordered(p)
    ensures Ordered(Staged(p, q))
  {
    hide Made, Binds, NeedsNew, FreshRequests, Ordered;
    NoDupParts(p.active, p.draining);
    FilterNoDup(g => g !in q.active, p.active);
    OrderedWith(p, rs, q, Filter(g => g !in q.active, p.active), Staged(p, q));
  }

  lemma OrderedWith<G, C>(p: Pools<G, C>, rs: seq<Request<G, C>>, q: Prepared<G, C>, moved: seq<G>, n: Pools<G, C>)
    requires StagedFrom(p, rs, q) && Ordered(p) && Known(n)
    requires NoDup(moved) && forall g | g in moved :: g in p.active && g !in q.active
    requires n.gens == p.gens + q.created && n.active == q.active && n.draining == p.draining + moved
    requires n.revision == p.revision + 1
    ensures Ordered(n)
  {
    hide PreparedFor, FreshRequests, DistinctLabels, NoDup;
    StagedActive(p, rs, q);
    StagedRevisions(p, rs, q);
    DrainOrderWith(p, q, moved, n);
    BelowActiveWith(p, rs, q, moved, n);
  }

  lemma DrainOrderWith<G, C>(p: Pools<G, C>, q: Prepared<G, C>, moved: seq<G>, n: Pools<G, C>)
    requires Known(p) && Ordered(p) && NoDup(moved) && forall g | g in moved :: g in p.active
    requires (forall g | g in p.gens :: g !in q.created) && n.gens == p.gens + q.created && n.draining == p.draining + moved
    ensures forall i, j | 0 <= i < j < |n.draining| && NameOf(n.gens, n.draining[i]) == NameOf(n.gens, n.draining[j]) ::
              n.gens[n.draining[i]].revision < n.gens[n.draining[j]].revision
  {
    forall i, j | 0 <= i < j < |n.draining| && NameOf(n.gens, n.draining[i]) == NameOf(n.gens, n.draining[j])
      ensures n.gens[n.draining[i]].revision < n.gens[n.draining[j]].revision
    {
      StagedDrainOrder(p, moved, i, j);
    }
  }

  lemma BelowActiveWith<G, C>(p: Pools<G, C>, rs: seq<Request<G, C>>, q: Prepared<G, C>, moved: seq<G>, n: Pools<G, C>)
    requires StagedFrom(p, rs, q) && Ordered(p) && Known(n)
    requires forall g | g in moved :: g in p.active && g !in q.active
    requires n.gens == p.gens + q.created && n.active == q.active && n.draining == p.draining + moved
    ensures forall g, h | g in n.draining && h in n.active && NameOf(n.gens, g) == NameOf(n.gens, h) ::
              n.gens[g].revision < n.gens[h].revision
  {
    hide PreparedFor, FreshRequests, DistinctLabels;
    StagedActive(p, rs, q);
    forall g, h | g in n.draining && h in n.active && NameOf(n.gens, g) == NameOf(n.gens, h)
      ensures n.gens[g].revision < n.gens[h].revision
    {
      StagedBelowActive(p, rs, q, g, h);
    }
  }

  lemma StagedBelowActive<G, C>(p: Pools<G, C>, rs: seq<Request<G, C>>, q: Prepared<G, C>, g: G, h: G)
    requires StagedFrom(p, rs, q) && Ordered(p)
    requires g in p.draining || (g in p.active && g !in q.active)
    requires h in q.active && NameOf(p.gens, g) == NameOf(p.gens + q.created, h)
    ensures p.gens[g].revision < (p.gens + q.created)[h].revision
  {
  }

  lemma StagedCounters<G, C>(p: Pools<G, C>, rs: seq<Request<G, C>>, q: Prepared<G, C>, g: G, h: G, e: string)
    requires StagedFrom(p, rs, q) && NoDup(p.active + p.draining) && SharedCounters(p)
    requires g in p.active + p.draining || g in q.created
    requires h in q.created
    requires (p.gens + q.created)[g].spec.key == q.created[h].spec.key
    requires e in (p.gens + q.created)[g].counters && e in q.created[h].counters
    ensures (p.gens + q.created)[g].counters[e] == q.created[h].counters[e]
  {
    StagedActive(p, rs, q);
    var j :| 0 <= j < |rs| && rs[j].id == h && q.active[j] == h;
    assert Made(p, rs[j], q.active[j], q.created);
    if g in q.created {
      var i :| 0 <= i < |rs| && rs[i].id == g && q.active[i] == g;
      assert i == j;
    } else {
      assert g in p.draining + p.active;
      InheritShares(p.gens, p.draining + p.active, rs[j].spec.key, rs[j].counters, e, p.gens[g].counters[e]);
    }
  }

  lemma StagedShares<G, C>(p: Pools<G, C>, rs: seq<Request<G, C>>, q: Prepared<G, C>)
    requires StagedFrom(p, rs, q) && NoDup(p.active + p.draining) && SharedCounters(p) && Known(Staged(p, q))
    ensures SharedCounters(Staged(p, q))
  {
    StagedLists(p, rs, q);
    var n := Staged(p, q);
    forall g, h, e | g in n.active + n.draining && h in n.active + n.draining
                     && n.gens[g].spec.key == n.gens[h].spec.key
                     && e in n.gens[g].counters && e in n.gens[h].counters
      ensures n.gens[g].counters[e] == n.gens[h].counters[e]
    {
      if h in q.created {
        StagedCounters(p, rs, q, g, h, e);
      } else if g in q.created {
        StagedCounters(p, rs, q, h, g, e);
      }
    }
  }

  // ------------------------------------------------- totals across a reload

  /** `p'` knows the generations of `p`, and lists no busy one that `p` did not list. */
  ghost predicate Follows<G, C>(p: Pools<G, C>, p': Pools<G, C>, used: map<Target<G>, nat>) {
    && Known(p) && Known(p') && NoDup(p'.active + p'.draining)
    && (forall g | g in p.gens :: g in p'.gens && p'.gens[g] == p.gens[g])
    && (forall g | g in p'.active + p'.draining :: g in p.active + p.draining || Empty(used, g))
  }

  lemma TotalFollows<G, C>(p: Pools<G, C>, p': Pools<G, C>, used: map<Target<G>, nat>, name: string, kind: Kind)
    requires Follows(p, p', used)
    ensures Total(p', used, name, kind) <= Total(p, used, name, kind)
  {
    NamedNoDup(p'.gens, p'.active + p'.draining, name);
    SumBelow(used, Named(p'.gens, p'.active + p'.draining, name), Named(p.gens, p.active + p.draining, name), kind);
  }

  lemma CappedFollows<G, C>(p: Pools<G, C>, p': Pools<G, C>, used: map<Target<G>, nat>)
    requires Follows(p, p', used) && Capped(p, used)
    ensures Capped(p', used)
  {
    forall name: string, kind: Kind ensures CappedAt(p', used, name, kind) {
      TotalFollows(p, p', used, name, kind);
      assert CappedAt(p, used, name, kind);
    }
  }

  lemma ScannedFollows<G, C>(p: Pools<G, C>, p': Pools<G, C>, used: map<Target<G>, nat>, scans: map<Addr, Scan<G>>)
    requires Follows(p, p', used) && p'.live.bindings == p.live.bindings && Scanned(p, used, scans)
    ensures Scanned(p', used, scans)
  {
    forall a | a in scans ensures ScanBounds(p', used, a, scans[a]) {
      assert ScanBounds(p, used, a, scans[a]);
      TotalFollows(p, p', used, NameOf(p.gens, scans[a].target.gen), scans[a].target.kind);
    }
  }

  lemma EmptyMeans<G>(used: map<Target<G>, nat>, g: G, kind: Kind)
    requires Empty(used, g)
    ensures Used(used, Target(g, kind)) == 0
  {
  }

  lemma StageFollows<G, C>(p: Pools<G, C>, rs: seq<Request<G, C>>, q: Prepared<G, C>, used: map<Target<G>, nat>)
    requires StagedFrom(p, rs, q) && NoDup(p.active + p.draining) && Held(p, used)
    ensures Follows(p, Staged(p, q), used)
    ensures Held(Staged(p, q), used)
  {
    StagedLists(p, rs, q);
    var p' := Staged(p, q);
    assert forall g | g in p.gens :: g !in q.created;
    forall g | g in p'.active + p'.draining && g in q.created ensures Empty(used, g) {
      assert Used(used, Target(g, Ship)) == 0 && Used(used, Target(g, Chain)) == 0;
    }
  }

  /** A staged reload, including one that the configuration or its addresses refuse. */
  lemma StageKeeps<G, C>(s: State<G, C>, rs: seq<Request<G, C>>)
    requires Inv(s) && s.pools.phase == Idle && FreshRequests(s.pools, rs)
    ensures Inv(s.(pools := Reloaded(s.pools, rs)))
  {
    var p := s.pools;
    if Prepare(p, rs).Ok? {
      var q := Prepare(p, rs).value;
      ValidNamesDistinct(rs);
      PrepareAllGood(p, rs);
      StagedLists(p, rs, q);
      StagedPublished(p, rs, q);
      StagedOrdered(p, rs, q);
      StagedShares(p, rs, q);
      StageFollows(p, rs, q, s.used);
      CappedFollows(p, Staged(p, q), s.used);
      ScannedFollows(p, Staged(p, q), s.used, s.scans);
    }
  }

  // ------------------------------------------------- publishing and reaping

  /** The pools after the empty draining generations are dropped. */
  lemma DropEmpty<G, C>(p: Pools<G, C>, p': Pools<G, C>, used: map<Target<G>, nat>)
    requires Known(p) && NoDup(p.active + p.draining) && Ordered(p) && SharedCounters(p) && Held(p, used)
    requires p'.gens == p.gens && p'.active == p.active && p'.revision == p.revision
    requires p'.draining == Busy(used, p.draining) && Known(p')
    ensures Follows(p, p', used) && Ordered(p') && SharedCounters(p') && Held(p', used)
  {
    var keep := p'.draining;
    NoDupParts(p.active, p.draining);
    FilterNoDup(g => !Empty(used, g), p.draining);
    NoDupParts(p.active, keep);
    forall i, j | 0 <= i < j < |keep| && NameOf(p.gens, keep[i]) == NameOf(p.gens, keep[j])
      ensures p.gens[keep[i]].revision < p.gens[keep[j]].revision
    {
      var m, n := FilterOrder(g => !Empty(used, g), p.draining, i, j);
    }
    forall t | t in used && used[t] > 0 ensures t.gen in p.active + keep {
      assert !Empty(used, t.gen) by {
        if Empty(used, t.gen) { EmptyMeans(used, t.gen, t.kind); }
      }
    }
  }

  lemma PublishPublished<G, C>(p: Pools<G, C>, used: map<Target<G>, nat>)
    requires Known(p) && Ordered(p) && NoDup(p.active + p.draining) && p.phase.Committing? && Published(p)
    ensures var p' := PublishedPools(p, used);
            Known(p') && NoDup(p'.draining) && Published(p')
  {
    var keep := Busy(used, p.draining);
    var b := p.phase.bindings;
    NoDupParts(p.active, p.draining);
    FilterNoDup(g => !Empty(used, g), p.draining);
    forall a, a' | a in b && a' in b && b[a].kind == b[a'].kind && NameOf(p.gens, b[a].gen) == NameOf(p.gens, b[a'].gen)
      ensures a == a'
    {
      ActiveNameUnique(p, b[a].gen, b[a'].gen);
    }
  }

  lemma PublishKeeps<G, C>(s: State<G, C>)
    requires Inv(s) && s.pools.phase.Committing? && s.scans == map[]
    ensures Inv(s.(pools := PublishedPools(s.pools, s.used)))
  {
    var p := s.pools;
    var p' := PublishedPools(p, s.used);
    PublishPublished(p, s.used);
    DropEmpty(p, p', s.used);
    CappedFollows(p, p', s.used);
    forall t | t in s.used && s.used[t] > 0 ensures HasTarget(p'.live.bindings, t) || t.gen in p'.live.draining {
      assert t.gen in p'.active + p'.draining;
    }
  }

  lemma ReapEngineKeeps<G, C>(s: State<G, C>)
    requires Inv(s) && s.pools.phase == Idle
    ensures Inv(s.(pools := ReapedPools(s.pools, s.used)))
  {
    var p := s.pools;
    var p' := ReapedPools(p, s.used);
    if p' != p {
      NoDupParts(p.active, p.draining);
      DropEmpty(p, p', s.used);
      CappedFollows(p, p', s.used);
      ScannedFollows(p, p', s.used, s.scans);
    }
  }

  lemma ReapPublishKeeps<G, C>(s: State<G, C>)
    requires Inv(s) && s.pools.phase == Reaping && s.scans == map[]
    ensures Inv(s.(pools := ReapPublished(s.pools)))
  {
    var p := s.pools;
    var p' := ReapPublished(p);
    NoDupParts(p.active, p.draining);
    assert Follows(p, p', s.used);
    CappedFollows(p, p', s.used);
    forall t | t in s.used && s.used[t] > 0 ensures HasTarget(p'.live.bindings, t) || t.gen in p'.live.draining {
      assert t.gen in p.active + p.draining;
    }
  }
}
