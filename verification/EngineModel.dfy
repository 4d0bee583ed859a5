/** Configuration replacement as a step system.

    Listener generations are identified by values of an arbitrary type `G` (the
    pointer identity of a generation) and connection counters by values of `C`
    (the pointer identity of a counter). `EngineHeap` instantiates both with
    heap objects.

    One step is one region that the program runs under a lock or as one atomic
    operation, so a sequence of steps is one interleaving of acceptors,
    finishing connections, a reload and the reaper. Reading the open connections
    of a listener name takes one step per generation: connections may close
    while an accept adds them up.
  */
module EngineModel {
  import opened Options
  import opened Seqs

  type Addr = nat
  type ChainId = nat

  /** The two ports of a listener: the SHiP socket and its optional chain API. */
  datatype Kind = Ship | Chain

  /** What must agree before a new generation takes over observations. */
  datatype Key = Key(name: Option<string>, expected: Option<ChainId>, require: bool)

  /** A resolved listener. `settings` stands for everything else a reload compares. */
  datatype Spec = Spec(key: Key, cap: nat, chainCap: Option<nat>, endpoints: set<string>, settings: nat)

  datatype Gen<C> = Gen(spec: Spec, revision: nat, counters: map<string, C>)

  datatype Target<G> = Target(gen: G, kind: Kind)

  /** What is published: the routing table, and the two lists as the status view reads them. */
  datatype Live<G> = Live(bindings: map<Addr, Target<G>>, active: seq<G>, draining: seq<G>)

  /** An accept that holds the read lock and has not decided yet. */
  datatype Scan<G> = Scan(target: Target<G>, todo: seq<G>, seen: nat)

  /** What the holder of the engine lock has done so far. */
  datatype Phase<G> = Idle | Committing(bindings: map<Addr, Target<G>>) | Reaping

  /** The generations ever committed, the lists of the engine, and the published
      routing table. */
  datatype Pools<G, C> = Pools(
    gens: map<G, Gen<C>>,
    active: seq<G>,
    draining: seq<G>,
    revision: nat,
    live: Live<G>,
    phase: Phase<G>)

  datatype State<G, C> = State(
    pools: Pools<G, C>,
    used: map<Target<G>, nat>,
    scans: map<Addr, Scan<G>>)

  /** One listener of a submitted configuration: the addresses it resolved to, none where the
      lookup or the bind failed; whether its certificates load; and the objects allocated in
      case it needs a new generation. */
  datatype Request<G, C> = Request(
    spec: Spec,
    shipAddr: Option<Addr>,
    chainAddr: Option<Addr>,
    certified: bool,
    id: G,
    counters: map<string, C>)

  datatype Prepared<G, C> = Prepared(active: seq<G>, created: map<G, Gen<C>>, bindings: map<Addr, Target<G>>)

  datatype PrepareError = InvalidConfig | Unavailable | AddressTaken(addr: Addr)

  datatype Step<G, C> =
    | AcceptOpen(addr: Addr)
    | AcceptScan(addr: Addr)
    | AcceptDecide(addr: Addr)
    | Disconnect(target: Target<G>)
    | Stage(requests: seq<Request<G, C>>)
    | Publish
    | ReapEngine
    | ReapPublish

  datatype Verdict = Granted | OverCap | NoPermit

  // ---------------------------------------------------------------- basics

  function LabelOf(key: Key): string {
    match key.name
    case None => "default"
    case Some(n) => n
  }

  function Cap(spec: Spec, kind: Kind): nat {
    match kind
    case Ship => spec.cap
    case Chain => if spec.chainCap.Some? then spec.chainCap.value else 0
  }

  predicate Serves(spec: Spec, kind: Kind) {
    kind == Ship || spec.chainCap.Some?
  }

  function Used<G(==)>(used: map<Target<G>, nat>, t: Target<G>): nat {
    if t in used then used[t] else 0
  }

  /** Open connections of one kind, added over a list of generations. */
  function Sum<G(==)>(used: map<Target<G>, nat>, gs: seq<G>, kind: Kind): nat {
    if gs == [] then 0 else Used(used, Target(gs[0], kind)) + Sum(used, gs[1..], kind)
  }

  function Named<G(==), C>(gens: map<G, Gen<C>>, gs: seq<G>, name: string): (r: seq<G>)
    requires forall g | g in gs :: g in gens
    ensures forall g | g in gs :: LabelOf(gens[g].spec.key) == name ==> g in r
    ensures forall g | g in r :: g in gs && LabelOf(gens[g].spec.key) == name
  {
    Filter(g requires g in gens => LabelOf(gens[g].spec.key) == name, gs)
  }

  predicate Empty<G(==)>(used: map<Target<G>, nat>, g: G) {
    Used(used, Target(g, Ship)) == 0 && Used(used, Target(g, Chain)) == 0
  }

  // --------------------------------------------------------------- prepare

  /** A configuration is one unnamed listener, or listeners with distinct names. */
  predicate ValidNames(specs: seq<Spec>) {
    || (|specs| == 1 && specs[0].key.name.None?)
    || (&& |specs| > 0
        && (forall i | 0 <= i < |specs| :: specs[i].key.name.Some?)
        && (forall i, j | 0 <= i < j < |specs| :: specs[i].key.name != specs[j].key.name))
  }

  function Specs<G, C>(rs: seq<Request<G, C>>): seq<Spec> {
    seq(|rs|, i requires 0 <= i < |rs| => rs[i].spec)
  }

  /** The first active generation with exactly this specification. */
  function Reusable<G(==), C>(gens: map<G, Gen<C>>, active: seq<G>, spec: Spec): (r: Option<G>)
    requires forall g | g in active :: g in gens
    ensures r.Some? ==> r.value in active && gens[r.value].spec == spec
    ensures r.None? ==> forall g | g in active :: gens[g].spec != spec
  {
    if active == [] then None
    else if gens[active[0]].spec == spec then Some(active[0])
    else Reusable(gens, active[1..], spec)
  }

  /** Take over the counters of every endpoint that both sides list. */
  function InheritOne<C>(mine: map<string, C>, previous: map<string, C>): (r: map<string, C>)
    ensures r.Keys == mine.Keys
    ensures forall e | e in mine :: r[e] == if e in previous then previous[e] else mine[e]
  {
    map e | e in mine :: if e in previous then previous[e] else mine[e]
  }

  /** `InheritOne` for every earlier generation with the same key, oldest first. */
  function Inherit<G(==), C>(gens: map<G, Gen<C>>, earlier: seq<G>, key: Key, mine: map<string, C>): (r: map<string, C>)
    requires forall g | g in earlier :: g in gens
    ensures r.Keys == mine.Keys
  {
    if earlier == [] then mine else
      var g := gens[earlier[0]];
      Inherit(gens, earlier[1..], key, if g.spec.key == key then InheritOne(mine, g.counters) else mine)
  }

  function Bind<G(==)>(b: map<Addr, Target<G>>, addr: Option<Addr>, t: Target<G>)
    : Result<map<Addr, Target<G>>, PrepareError>
  {
    if addr.None? then Err(Unavailable)
    else if addr.value in b then Err(AddressTaken(addr.value))
    else Ok(b[addr.value := t])
  }

  function BindSpec<G(==)>(b: map<Addr, Target<G>>, g: G, spec: Spec, ship: Option<Addr>, chain: Option<Addr>)
    : (r: Result<map<Addr, Target<G>>, PrepareError>)
    ensures r.Err? ==> r.error != InvalidConfig
  {
    match Bind(b, ship, Target(g, Ship))
    case Err(e) => Err(e)
    case Ok(b1) => if spec.chainCap.Some? then Bind(b1, chain, Target(g, Chain)) else Ok(b1)
  }

  function PrepareOne<G(==), C>(s: Pools<G, C>, p: Prepared<G, C>, r: Request<G, C>): Result<Prepared<G, C>, PrepareError>
    requires forall g | g in s.active + s.draining :: g in s.gens
  {
    var found := Reusable(s.gens, s.active, r.spec);
    var g := if found.Some? then found.value else r.id;
    if found.None? && !r.certified then Err(Unavailable) else
    match BindSpec(p.bindings, g, r.spec, r.shipAddr, r.chainAddr)
    case Err(e) => Err(e)
    case Ok(b) =>
      var created := if found.Some? then p.created
                   else p.created[g := Gen(r.spec, s.revision + 1,
                                         Inherit(s.gens, s.draining + s.active, r.spec.key, r.counters))];
      Ok(Prepared(p.active + [g], created, b))
  }

  function PrepareAll<G(==), C>(s: Pools<G, C>, rs: seq<Request<G, C>>): Result<Prepared<G, C>, PrepareError>
    requires forall g | g in s.active + s.draining :: g in s.gens
  {
    if rs == [] then Ok(Prepared([], map[], map[])) else
      match PrepareAll(s, rs[..|rs| - 1])
      case Err(e) => Err(e)
      case Ok(p) => PrepareOne(s, p, rs[|rs| - 1])
  }

  function Prepare<G(==), C>(s: Pools<G, C>, rs: seq<Request<G, C>>): Result<Prepared<G, C>, PrepareError>
    requires forall g | g in s.active + s.draining :: g in s.gens
  {
    if !ValidNames(Specs(rs)) then Err(InvalidConfig) else PrepareAll(s, rs)
  }

  // ----------------------------------------------------------------- steps

  function Init<G(==), C>(): State<G, C> {
    State(Pools(map[], [], [], 0, Live(map[], [], []), Idle), map[], map[])
  }

  /** Whether a listener gets a new generation rather than a running one. */
  ghost predicate NeedsNew<G, C>(p: Pools<G, C>, r: Request<G, C>)
    requires forall g | g in p.active :: g in p.gens
  {
    Reusable(p.gens, p.active, r.spec).None?
  }

  /** The objects a reload allocates are new and distinct, and a new generation starts
      with one counter per endpoint. */
  ghost predicate FreshRequests<G, C>(p: Pools<G, C>, rs: seq<Request<G, C>>)
    requires forall g | g in p.active :: g in p.gens
  {
    && (forall i | 0 <= i < |rs| && NeedsNew(p, rs[i]) :: rs[i].id !in p.gens && rs[i].counters.Keys == rs[i].spec.endpoints)
    && (forall i, j | 0 <= i < j < |rs| && NeedsNew(p, rs[i]) && NeedsNew(p, rs[j]) :: rs[i].id != rs[j].id)
  }

  /** Which steps may run. `Publish` and `ReapPublish` take the write lock, so no
      accept may be in progress; an address has one acceptor. */
  ghost predicate Enabled<G, C>(s: State<G, C>, step: Step<G, C>) {
    match step
    case AcceptOpen(a) => a !in s.scans && a in s.pools.live.bindings
    case AcceptScan(a) => a in s.scans && s.scans[a].todo != []
    case AcceptDecide(a) => a in s.scans && s.scans[a].todo == []
    case Disconnect(t) => Used(s.used, t) > 0
    case Stage(rs) => Known(s.pools) && s.pools.phase == Idle && FreshRequests(s.pools, rs)
    case Publish => s.pools.phase.Committing? && s.scans == map[]
    case ReapEngine => s.pools.phase == Idle
    case ReapPublish => s.pools.phase == Reaping && s.scans == map[]
  }

  ghost predicate Known<G, C>(p: Pools<G, C>) {
    && (forall g | g in p.active + p.draining :: g in p.gens)
    && (forall g | g in p.live.draining :: g in p.gens)
    && (forall a | a in p.live.bindings :: p.live.bindings[a].gen in p.gens)
  }

  ghost predicate KnownScans<G, C>(s: State<G, C>) {
    forall a | a in s.scans :: s.scans[a].target.gen in s.pools.gens
  }

  function VerdictOf<G(==), C>(s: State<G, C>, a: Addr): Verdict
    requires a in s.scans && s.scans[a].target.gen in s.pools.gens
  {
    var scan := s.scans[a];
    var cap := Cap(s.pools.gens[scan.target.gen].spec, scan.target.kind);
    if scan.seen >= cap then OverCap
    else if Used(s.used, scan.target) < cap then Granted
    else NoPermit
  }

  function Staged<G(==), C>(p: Pools<G, C>, prepared: Prepared<G, C>): Pools<G, C> {
    p.(gens := p.gens + prepared.created,
       active := prepared.active,
       draining := p.draining + Filter(g => g !in prepared.active, p.active),
       revision := p.revision + 1,
       phase := Committing(prepared.bindings))
  }

  function Busy<G(==)>(used: map<Target<G>, nat>, gs: seq<G>): seq<G> {
    Filter(g => !Empty(used, g), gs)
  }

  /** The generations whose connections an accept for `t` adds up. */
  function ReadList<G(==), C>(p: Pools<G, C>, t: Target<G>): seq<G>
    requires t.gen in p.gens && forall g | g in p.live.draining :: g in p.gens
  {
    [t.gen] + Named(p.gens, p.live.draining, LabelOf(p.gens[t.gen].spec.key))
  }

  function Opened<G(==), C>(s: State<G, C>, a: Addr): State<G, C>
    requires Known(s.pools) && a in s.pools.live.bindings
  {
    var t := s.pools.live.bindings[a];
    s.(scans := s.scans[a := Scan(t, ReadList(s.pools, t), 0)])
  }

  function ReadOne<G(==)>(used: map<Target<G>, nat>, scan: Scan<G>): Scan<G>
    requires scan.todo != []
  {
    Scan(scan.target, scan.todo[1..], scan.seen + Used(used, Target(scan.todo[0], scan.target.kind)))
  }

  function Decided<G(==), C>(s: State<G, C>, a: Addr): State<G, C>
    requires a in s.scans && s.scans[a].target.gen in s.pools.gens
  {
    var t := s.scans[a].target;
    if VerdictOf(s, a) == Granted
    then State(s.pools, s.used[t := Used(s.used, t) + 1], s.scans - {a})
    else State(s.pools, s.used, s.scans - {a})
  }

  function Closed<G(==), C>(s: State<G, C>, t: Target<G>): State<G, C>
    requires Used(s.used, t) > 0
  {
    s.(used := s.used[t := Used(s.used, t) - 1])
  }

  function Reloaded<G(==), C>(p: Pools<G, C>, rs: seq<Request<G, C>>): Pools<G, C>
    requires Known(p)
  {
    match Prepare(p, rs)
    case Err(_) => p
    case Ok(prepared) => Staged(p, prepared)
  }

  function PublishedPools<G(==), C>(p: Pools<G, C>, used: map<Target<G>, nat>): Pools<G, C>
    requires p.phase.Committing?
  {
    var keep := Busy(used, p.draining);
    p.(draining := keep, live := Live(p.phase.bindings, p.active, keep), phase := Idle)
  }

  function ReapedPools<G(==), C>(p: Pools<G, C>, used: map<Target<G>, nat>): Pools<G, C> {
    var keep := Busy(used, p.draining);
    if |keep| == |p.draining| then p else p.(draining := keep, phase := Reaping)
  }

  function ReapPublished<G, C>(p: Pools<G, C>): Pools<G, C> {
    p.(live := p.live.(active := p.active, draining := p.draining), phase := Idle)
  }

  function Next<G(==), C>(s: State<G, C>, step: Step<G, C>): State<G, C>
    requires Known(s.pools) && KnownScans(s) && Enabled(s, step)
  {
    match step
    case AcceptOpen(a) => Opened(s, a)
    case AcceptScan(a) => s.(scans := s.scans[a := ReadOne(s.used, s.scans[a])])
    case AcceptDecide(a) => Decided(s, a)
    case Disconnect(t) => Closed(s, t)
    case Stage(rs) => s.(pools := Reloaded(s.pools, rs))
    case Publish => s.(pools := PublishedPools(s.pools, s.used))
    case ReapEngine => s.(pools := ReapedPools(s.pools, s.used))
    case ReapPublish => s.(pools := ReapPublished(s.pools))
  }

  /** A run: every step is enabled where it is taken. */
  ghost predicate Runs<G, C>(s: State<G, C>, steps: seq<Step<G, C>>)
    decreases |steps|
  {
    || steps == []
    || (Known(s.pools) && KnownScans(s) && Enabled(s, steps[0]) && Runs(Next(s, steps[0]), steps[1..]))
  }

  ghost function After<G, C>(s: State<G, C>, steps: seq<Step<G, C>>): State<G, C>
    requires Runs(s, steps)
    decreases |steps|
  {
    if steps == [] then s else After(Next(s, steps[0]), steps[1..])
  }
}
