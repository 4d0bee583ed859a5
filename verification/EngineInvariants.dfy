/** What every interleaving of the configuration engine keeps. */
module EngineInvariants {
  import opened Seqs
  import opened EngineModel
  import opened EngineSums

  function NameOf<G, C>(gens: map<G, Gen<C>>, g: G): string
    requires g in gens
  {
    LabelOf(gens[g].spec.key)
  }

  /** Open connections of a listener name over the active and the draining pools. */
  ghost function Total<G, C>(p: Pools<G, C>, used: map<Target<G>, nat>, name: string, kind: Kind): nat
    requires Known(p)
  {
    Sum(used, Named(p.gens, p.active + p.draining, name), kind)
  }

  /** A connection belongs to a generation that is still listed, on a port it serves. */
  ghost predicate Held<G, C>(p: Pools<G, C>, used: map<Target<G>, nat>)
    requires Known(p)
  {
    forall t | t in used && used[t] > 0 ::
      t.gen in p.active + p.draining && Serves(p.gens[t.gen].spec, t.kind)
  }

  ghost predicate HasTarget<G>(b: map<Addr, Target<G>>, t: Target<G>) {
    exists a :: a in b && b[a] == t
  }

  /** A connection belongs to a bound target or to a published draining generation. */
  ghost predicate Covered<G>(live: Live<G>, used: map<Target<G>, nat>) {
    forall t | t in used && used[t] > 0 :: HasTarget(live.bindings, t) || t.gen in live.draining
  }

  ghost predicate BindsOnly<G, C>(gens: map<G, Gen<C>>, active: seq<G>, b: map<Addr, Target<G>>)
    requires forall g | g in active :: g in gens
  {
    forall a | a in b :: b[a].gen in active && Serves(gens[b[a].gen].spec, b[a].kind)
  }

  ghost predicate BindsEvery<G, C>(gens: map<G, Gen<C>>, active: seq<G>, b: map<Addr, Target<G>>)
    requires forall g | g in active :: g in gens
  {
    forall g, kind | g in active && Serves(gens[g].spec, kind) :: HasTarget(b, Target(g, kind))
  }

  ghost predicate BindsOnce<G>(b: map<Addr, Target<G>>) {
    forall a, a' | a in b && a' in b && b[a] == b[a'] :: a == a'
  }

  /** A routing table binds every port of the active generations once, and nothing else. */
  ghost predicate Binds<G, C>(gens: map<G, Gen<C>>, active: seq<G>, b: map<Addr, Target<G>>)
    requires forall g | g in active :: g in gens
  {
    BindsOnly(gens, active, b) && BindsEvery(gens, active, b) && BindsOnce(b)
  }

  ghost predicate OneAddress<G, C>(gens: map<G, Gen<C>>, b: map<Addr, Target<G>>)
    requires forall a | a in b :: b[a].gen in gens
  {
    forall a, a' | a in b && a' in b && b[a].kind == b[a'].kind
                   && NameOf(gens, b[a].gen) == NameOf(gens, b[a'].gen) :: a == a'
  }

  ghost predicate Published<G, C>(p: Pools<G, C>)
    requires Known(p)
  {
    && OneAddress(p.gens, p.live.bindings)
    && (forall a | a in p.live.bindings ::
          var t := p.live.bindings[a];
          t.gen in p.active + p.draining && t.gen !in p.live.draining && Serves(p.gens[t.gen].spec, t.kind))
    && (forall g | g in p.live.draining :: g !in p.active)
    && match p.phase {
         case Idle =>
           p.live.active == p.active && p.live.draining == p.draining && Binds(p.gens, p.active, p.live.bindings)
         case Reaping => p.live.active == p.active && (forall g | g in p.draining :: g in p.live.draining) && Binds(p.gens, p.active, p.live.bindings)
         case Committing(b) => Binds(p.gens, p.active, b)
       }
  }

  /** Revisions identify the generations of one name, in draining order and below
      the active one. */
  ghost predicate Ordered<G, C>(p: Pools<G, C>)
    requires Known(p)
  {
    && (forall g | g in p.gens :: p.gens[g].revision <= p.revision)
    && (forall i, j | 0 <= i < j < |p.active| :: NameOf(p.gens, p.active[i]) != NameOf(p.gens, p.active[j]))
    && (forall i, j | 0 <= i < j < |p.draining| && NameOf(p.gens, p.draining[i]) == NameOf(p.gens, p.draining[j]) ::
          p.gens[p.draining[i]].revision < p.gens[p.draining[j]].revision)
    && (forall g, h | g in p.draining && h in p.active && NameOf(p.gens, g) == NameOf(p.gens, h) ::
          p.gens[g].revision < p.gens[h].revision)
  }

  /** Coexisting generations with one key share the counter of every common endpoint. */
  ghost predicate SharedCounters<G, C>(p: Pools<G, C>)
    requires Known(p)
  {
    forall g, h, e | g in p.active + p.draining && h in p.active + p.draining
                     && p.gens[g].spec.key == p.gens[h].spec.key
                     && e in p.gens[g].counters && e in p.gens[h].counters ::
      p.gens[g].counters[e] == p.gens[h].counters[e]
  }

  /** The invariant of the lists and the routing table alone. */
  ghost predicate Sound<G, C>(p: Pools<G, C>) {
    && Known(p)
    && NoDup(p.active + p.draining) && NoDup(p.live.draining)
    && Published(p) && Ordered(p) && SharedCounters(p)
  }

  /** What an unfinished accept has added up, with what it has still to read, is at
      least the connections open now. */
  ghost predicate ScanBounds<G, C>(p: Pools<G, C>, used: map<Target<G>, nat>, a: Addr, scan: Scan<G>)
    requires Known(p)
  {
    && a in p.live.bindings && p.live.bindings[a] == scan.target
    && var name := NameOf(p.gens, scan.target.gen);
       && NoDup(scan.todo)
       && (forall g | g in scan.todo :: g in p.gens && NameOf(p.gens, g) == name)
       && scan.seen + Sum(used, scan.todo, scan.target.kind) >= Total(p, used, name, scan.target.kind)
  }

  /** The connections of a name stay within a cap that was committed for that name. */
  ghost predicate CappedAt<G, C>(p: Pools<G, C>, used: map<Target<G>, nat>, name: string, kind: Kind)
    requires Known(p)
  {
    || Total(p, used, name, kind) == 0
    || exists g :: g in p.gens && NameOf(p.gens, g) == name && Total(p, used, name, kind) <= Cap(p.gens[g].spec, kind)
  }

  ghost predicate Capped<G, C>(p: Pools<G, C>, used: map<Target<G>, nat>)
    requires Known(p)
  {
    forall name: string, kind: Kind :: CappedAt(p, used, name, kind)
  }

  ghost predicate Scanned<G, C>(p: Pools<G, C>, used: map<Target<G>, nat>, scans: map<Addr, Scan<G>>)
    requires Known(p)
  {
    forall a | a in scans :: ScanBounds(p, used, a, scans[a])
  }

  ghost predicate Inv<G, C>(s: State<G, C>) {
    && Sound(s.pools)
    && Held(s.pools, s.used) && Covered(s.pools.live, s.used)
    && Scanned(s.pools, s.used, s.scans)
    && Capped(s.pools, s.used)
  }

  // ------------------------------------------------------- the accept steps

  /** Everything open under a target's name is in the list an accept reads. */
  lemma BusyIsRead<G, C>(p: Pools<G, C>, used: map<Target<G>, nat>, a: Addr, g: G)
    requires Known(p) && Covered(p.live, used) && OneAddress(p.gens, p.live.bindings) && a in p.live.bindings
    requires var t := p.live.bindings[a];
             g in p.gens && NameOf(p.gens, g) == NameOf(p.gens, t.gen) && Used(used, Target(g, t.kind)) > 0
    ensures g in ReadList(p, p.live.bindings[a])
  {
  }

  lemma ReadListCovers<G, C>(s: State<G, C>, a: Addr)
    requires Inv(s) && a in s.pools.live.bindings
    ensures ScanBounds(s.pools, s.used, a, Scan(s.pools.live.bindings[a], ReadList(s.pools, s.pools.live.bindings[a]), 0))
  {
    var p := s.pools;
    var t := p.live.bindings[a];
    var name := NameOf(p.gens, t.gen);
    var todo := ReadList(p, t);
    var all := Named(p.gens, p.active + p.draining, name);
    NamedNoDup(p.gens, p.live.draining, name);
    NamedNoDup(p.gens, p.active + p.draining, name);
    forall g | g in all && Used(s.used, Target(g, t.kind)) > 0
      ensures g in todo
    {
      BusyIsRead(p, s.used, a, g);
    }
    SumBelow(s.used, all, todo, t.kind);
  }

  lemma OpenKeeps<G, C>(s: State<G, C>, a: Addr)
    requires Inv(s) && a in s.pools.live.bindings
    ensures Inv(Opened(s, a))
  {
    ReadListCovers(s, a);
    hide Sound, Held, Covered, Capped, ScanBounds, ReadList;
  }

  /** Reading one more generation keeps the bound. */
  lemma ReadKeepsBound<G, C>(p: Pools<G, C>, used: map<Target<G>, nat>, a: Addr, scan: Scan<G>)
    requires Known(p) && ScanBounds(p, used, a, scan) && scan.todo != []
    ensures ScanBounds(p, used, a, ReadOne(used, scan))
  {
  }

  lemma ScanKeeps<G, C>(s: State<G, C>, a: Addr)
    requires Inv(s) && a in s.scans && s.scans[a].todo != []
    ensures Inv(s.(scans := s.scans[a := ReadOne(s.used, s.scans[a])]))
  {
    assert forall b | b in s.scans :: ScanBounds(s.pools, s.used, b, s.scans[b]);
    ReadKeepsBound(s.pools, s.used, a, s.scans[a]);
  }

  /** A finished sum is an upper bound of the connections of the name, and of the
      target's own connections in particular. */
  lemma FullScanBounds<G, C>(p: Pools<G, C>, used: map<Target<G>, nat>, a: Addr, scan: Scan<G>)
    requires Known(p) && ScanBounds(p, used, a, scan) && scan.todo == []
    requires scan.target.gen in p.active + p.draining
    ensures Used(used, scan.target) <= Total(p, used, NameOf(p.gens, scan.target.gen), scan.target.kind) <= scan.seen
  {
    SumAtLeast(used, Named(p.gens, p.active + p.draining, NameOf(p.gens, scan.target.gen)), scan.target.kind, scan.target.gen);
  }

  /** The effect of one changed count on every total. */
  lemma TotalUpdate<G, C>(p: Pools<G, C>, used: map<Target<G>, nat>, t: Target<G>, n: nat, name: string, kind: Kind)
    requires Known(p) && NoDup(p.active + p.draining) && t.gen in p.active + p.draining
    ensures Total(p, used[t := n], name, kind)
         == Total(p, used, name, kind) + if kind == t.kind && name == NameOf(p.gens, t.gen) then n - Used(used, t) else 0
  {
    NamedNoDup(p.gens, p.active + p.draining, name);
    SumUpdate(used, Named(p.gens, p.active + p.draining, name), kind, t, n);
  }

  /** A change of one count, for the accepts still in progress. */
  lemma ScanUpdate<G, C>(p: Pools<G, C>, used: map<Target<G>, nat>, t: Target<G>, n: nat, a: Addr, scan: Scan<G>)
    requires Known(p) && NoDup(p.active + p.draining) && t.gen in p.active + p.draining
    requires ScanBounds(p, used, a, scan)
    requires n <= Used(used, t) || t.kind != scan.target.kind || NameOf(p.gens, t.gen) != NameOf(p.gens, scan.target.gen)
    ensures ScanBounds(p, used[t := n], a, scan)
  {
    TotalUpdate(p, used, t, n, NameOf(p.gens, scan.target.gen), scan.target.kind);
    SumUpdate(used, scan.todo, scan.target.kind, t, n);
  }

  /** A lower count, or one more connection where a cap leaves room, keeps the caps. */
  lemma CapsUpdate<G, C>(p: Pools<G, C>, used: map<Target<G>, nat>, t: Target<G>, n: nat)
    requires Known(p) && NoDup(p.active + p.draining) && t.gen in p.active + p.draining
    requires Capped(p, used)
    requires || n <= Used(used, t)
             || Total(p, used, NameOf(p.gens, t.gen), t.kind) + n - Used(used, t) <= Cap(p.gens[t.gen].spec, t.kind)
    ensures Capped(p, used[t := n])
  {
    var used' := used[t := n];
    forall name: string, kind: Kind ensures CappedAt(p, used', name, kind) {
      assert CappedAt(p, used, name, kind);
      TotalUpdate(p, used, t, n, name, kind);
    }
  }

  /** Two targets that no connection count has in common. */
  ghost predicate Apart<G, C>(gens: map<G, Gen<C>>, t: Target<G>, u: Target<G>) {
    t.gen in gens && u.gen in gens && (t.kind != u.kind || NameOf(gens, t.gen) != NameOf(gens, u.gen))
  }

  lemma ScansUpdate<G, C>(p: Pools<G, C>, used: map<Target<G>, nat>, t: Target<G>, n: nat, scans: map<Addr, Scan<G>>)
    requires Known(p) && NoDup(p.active + p.draining) && t.gen in p.active + p.draining
    requires Scanned(p, used, scans)
    requires n <= Used(used, t) || forall a | a in scans :: Apart(p.gens, t, scans[a].target)
    ensures Scanned(p, used[t := n], scans)
  {
    forall a | a in scans ensures ScanBounds(p, used[t := n], a, scans[a]) {
      assert ScanBounds(p, used, a, scans[a]);
      ScanUpdate(p, used, t, n, a, scans[a]);
    }
  }

  /** Two accepts in progress never work for the same name and kind. */
  lemma ScansApart<G, C>(p: Pools<G, C>, used: map<Target<G>, nat>, scans: map<Addr, Scan<G>>, a: Addr)
    requires Known(p) && OneAddress(p.gens, p.live.bindings) && a in scans
    requires Scanned(p, used, scans)
    ensures forall b | b in scans - {a} :: Apart(p.gens, scans[a].target, scans[b].target)
  {
  }

  /** A changed count on a listed, reachable port. */
  lemma HeldUpdate<G, C>(p: Pools<G, C>, used: map<Target<G>, nat>, t: Target<G>, n: nat)
    requires Known(p) && Held(p, used) && Covered(p.live, used)
    requires t.gen in p.active + p.draining && Serves(p.gens[t.gen].spec, t.kind)
    requires HasTarget(p.live.bindings, t) || t.gen in p.live.draining
    ensures Held(p, used[t := n]) && Covered(p.live, used[t := n])
  {
  }

  /** One more connection on a bound target whose name has room for it. */
  lemma GrantKeeps<G, C>(p: Pools<G, C>, used: map<Target<G>, nat>, scans: map<Addr, Scan<G>>, a: Addr)
    requires Sound(p) && Held(p, used) && Covered(p.live, used) && Scanned(p, used, scans) && Capped(p, used)
    requires a in scans && scans[a].target.gen in p.gens
    requires Total(p, used, NameOf(p.gens, scans[a].target.gen), scans[a].target.kind)
             < Cap(p.gens[scans[a].target.gen].spec, scans[a].target.kind)
    ensures var t := scans[a].target;
            var more := used[t := Used(used, t) + 1];
            Held(p, more) && Covered(p.live, more) && Scanned(p, more, scans - {a}) && Capped(p, more)
  {
    var t := scans[a].target;
    assert ScanBounds(p, used, a, scans[a]);
    ScansApart(p, used, scans, a);
    ScansUpdate(p, used, t, Used(used, t) + 1, scans - {a});
    CapsUpdate(p, used, t, Used(used, t) + 1);
    HeldUpdate(p, used, t, Used(used, t) + 1);
  }

  /** What an accept knows when it has read every generation. */
  lemma ScanDone<G, C>(p: Pools<G, C>, used: map<Target<G>, nat>, scans: map<Addr, Scan<G>>, a: Addr)
    requires Sound(p) && Scanned(p, used, scans) && a in scans && scans[a].todo == []
    ensures var t := scans[a].target;
            && t.gen in p.active + p.draining && t.gen in p.gens
            && Used(used, t) <= Total(p, used, NameOf(p.gens, t.gen), t.kind) <= scans[a].seen
  {
    FullScanBounds(p, used, a, scans[a]);
  }

  lemma DropKeeps<G, C>(s: State<G, C>, a: Addr)
    requires Inv(s)
    ensures Inv(State(s.pools, s.used, s.scans - {a}))
  {
  }

  lemma GrantInv<G, C>(s: State<G, C>, a: Addr)
    requires Inv(s) && a in s.scans && s.scans[a].target.gen in s.pools.gens
    requires Total(s.pools, s.used, NameOf(s.pools.gens, s.scans[a].target.gen), s.scans[a].target.kind)
             < Cap(s.pools.gens[s.scans[a].target.gen].spec, s.scans[a].target.kind)
    ensures var t := s.scans[a].target;
            Inv(State(s.pools, s.used[t := Used(s.used, t) + 1], s.scans - {a}))
  {
    hide Sound, Held, Covered, Scanned, Capped;
    GrantKeeps(s.pools, s.used, s.scans, a);
  }

  lemma DecidedEither<G, C>(s: State<G, C>, a: Addr)
    requires a in s.scans && s.scans[a].target.gen in s.pools.gens
    ensures var t := s.scans[a].target;
            if VerdictOf(s, a) == Granted
            then s.scans[a].seen < Cap(s.pools.gens[t.gen].spec, t.kind)
                 && Decided(s, a) == State(s.pools, s.used[t := Used(s.used, t) + 1], s.scans - {a})
            else Decided(s, a) == State(s.pools, s.used, s.scans - {a})
  {
  }

  lemma DecideKeeps<G, C>(s: State<G, C>, a: Addr)
    requires Inv(s) && a in s.scans && s.scans[a].todo == []
    ensures s.scans[a].target.gen in s.pools.gens && Inv(Decided(s, a))
  {
    hide *;
    InvParts(s);
    ScanDone(s.pools, s.used, s.scans, a);
    DecidedEither(s, a);
    if VerdictOf(s, a) == Granted {
      GrantInv(s, a);
    } else {
      DropKeeps(s, a);
    }
  }

  lemma InvParts<G, C>(s: State<G, C>)
    requires Inv(s)
    ensures Sound(s.pools) && Scanned(s.pools, s.used, s.scans)
  {
  }

  lemma CloseKeeps<G, C>(p: Pools<G, C>, used: map<Target<G>, nat>, scans: map<Addr, Scan<G>>, t: Target<G>, n: nat)
    requires Sound(p) && Held(p, used) && Covered(p.live, used) && Scanned(p, used, scans) && Capped(p, used)
    requires n < Used(used, t)
    ensures var less := used[t := n];
            Held(p, less) && Covered(p.live, less) && Scanned(p, less, scans) && Capped(p, less)
  {
    ScansUpdate(p, used, t, n, scans);
    CapsUpdate(p, used, t, n);
    HeldUpdate(p, used, t, n);
  }

  lemma DisconnectKeeps<G, C>(s: State<G, C>, t: Target<G>)
    requires Inv(s) && Used(s.used, t) > 0
    ensures Inv(Closed(s, t))
  {
    hide Sound, Held, Covered, Scanned, Capped;
    CloseKeeps(s.pools, s.used, s.scans, t, Used(s.used, t) - 1);
  }
}
