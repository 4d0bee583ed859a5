/** The session accounting of the status view, over active and draining generations. */
module Sessions {
  import opened Seqs
  import opened EngineModel
  import opened EngineInvariants
  import opened EngineTheorems
  import opened EnginePublished

  /** The listener name and configuration revision a session is registered under. */
  type SessionKey = (string, nat)

  function Lookup(counts: map<SessionKey, nat>, k: SessionKey): nat {
    if k in counts then counts[k] else 0
  }

  function Count(sessions: seq<SessionKey>, k: SessionKey): nat {
    if sessions == [] then 0 else (if sessions[0] == k then 1 else 0) + Count(sessions[1..], k)
  }

  function SumAll(xs: seq<nat>): nat {
    if xs == [] then 0 else xs[0] + SumAll(xs[1..])
  }

  lemma {:induction false} SumAllAppend(xs: seq<nat>, x: nat)
    ensures SumAll(xs + [x]) == SumAll(xs) + x
  {
    if xs != [] {
      assert (xs + [x])[1..] == xs[1..] + [x];
      SumAllAppend(xs[1..], x);
    }
  }

  lemma {:induction false} CountAppend(sessions: seq<SessionKey>, s: SessionKey, k: SessionKey)
    ensures Count(sessions + [s], k) == Count(sessions, k) + if s == k then 1 else 0
  {
    if sessions != [] {
      assert (sessions + [s])[1..] == sessions[1..] + [s];
      CountAppend(sessions[1..], s, k);
    }
  }

  /** Tally the registered sessions by key. */
  method Tally(sessions: seq<SessionKey>) returns (counts: map<SessionKey, nat>)
    ensures forall k: SessionKey :: Lookup(counts, k) == Count(sessions, k)
  {
    counts := map[];
    var i := 0;
    while i < |sessions|
      invariant 0 <= i <= |sessions|
      invariant forall k: SessionKey :: Lookup(counts, k) == Count(sessions[..i], k)
    {
      var s := sessions[i];
      ghost var before, done := counts, sessions[..i];
      counts := counts[s := Lookup(counts, s) + 1];
      i := i + 1;
      assert sessions[..i] == done + [s];
      forall k: SessionKey ensures Lookup(counts, k) == Count(sessions[..i], k) {
        assert Lookup(before, k) == Count(done, k);
        CountAppend(done, s, k);
      }
    }
    assert sessions[..i] == sessions;
  }

  /** The counts not yet shown. */
  ghost predicate Remaining(counts: map<SessionKey, nat>, tally: map<SessionKey, nat>, gone: seq<SessionKey>) {
    forall k: SessionKey :: Lookup(counts, k) == Shown(tally, gone, k)
  }

  /** What is shown for `k` after rows with the keys `gone`. */
  function Shown(tally: map<SessionKey, nat>, gone: seq<SessionKey>, k: SessionKey): nat {
    if k in gone then 0 else Lookup(tally, k)
  }

  lemma AllRemain(tally: map<SessionKey, nat>)
    ensures Remaining(tally, tally, []) && SumAll([]) == 0
  {
  }

  lemma RemainingAt(counts: map<SessionKey, nat>, tally: map<SessionKey, nat>, gone: seq<SessionKey>, k: SessionKey)
    requires Remaining(counts, tally, gone)
    ensures Lookup(counts, k) == Shown(tally, gone, k)
    ensures Remaining(counts - {k}, tally, gone + [k])
  {
    forall x: SessionKey ensures Lookup(counts - {k}, x) == Shown(tally, gone + [k], x) {
      assert Lookup(counts, x) == Shown(tally, gone, x);
    }
  }

  /** Sessions per listener, per draining generation, and in total. A listener's count is
      removed from the tally when it is shown. */
  method StatusCounts(listeners: seq<SessionKey>, draining: seq<SessionKey>, tally: map<SessionKey, nat>)
    returns (shown: seq<nat>, drains: seq<nat>, total: nat)
    ensures |shown| == |listeners| && |drains| == |draining|
    ensures forall i | 0 <= i < |listeners| :: shown[i] == Shown(tally, listeners[..i], listeners[i])
    ensures forall i | 0 <= i < |draining| :: drains[i] == Shown(tally, listeners, draining[i])
    ensures total == SumAll(shown) + SumAll(drains)
  {
    hide Remaining, Lookup, SumAll, Shown;
    var counts := tally;
    shown, drains, total := [], [], 0;
    var i := 0;
    AllRemain(tally);
    assert listeners[..0] == [];
    while i < |listeners|
      invariant 0 <= i <= |listeners| && |shown| == i && total == SumAll(shown)
      invariant Remaining(counts, tally, listeners[..i])
      invariant forall j | 0 <= j < i :: shown[j] == Shown(tally, listeners[..j], listeners[j])
    {
      var n := Lookup(counts, listeners[i]);
      SumAllAppend(shown, n);
      shown, total := shown + [n], total + n;
      assert listeners[..i + 1] == listeners[..i] + [listeners[i]];
      RemainingAt(counts, tally, listeners[..i], listeners[i]);
      counts := counts - {listeners[i]};
      i := i + 1;
    }
    assert listeners[..i] == listeners;
    i := 0;
    while i < |draining|
      invariant 0 <= i <= |draining| && |drains| == i && total == SumAll(shown) + SumAll(drains)
      invariant forall j | 0 <= j < i :: drains[j] == Shown(tally, listeners, draining[j])
    {
      RemainingAt(counts, tally, listeners, draining[i]);
      var n := Lookup(counts, draining[i]);
      SumAllAppend(drains, n);
      drains, total := drains + [n], total + n;
      i := i + 1;
    }
  }

  /** Sessions whose generation is in the list. */
  function Listed(sessions: seq<SessionKey>, keys: seq<SessionKey>): nat {
    if sessions == [] then 0 else (if sessions[0] in keys then 1 else 0) + Listed(sessions[1..], keys)
  }

  lemma {:induction false} ListedSplit(sessions: seq<SessionKey>, k: SessionKey, keys: seq<SessionKey>)
    requires k !in keys
    ensures Listed(sessions, [k] + keys) == Count(sessions, k) + Listed(sessions, keys)
  {
    if sessions != [] { ListedSplit(sessions[1..], k, keys); }
  }

  /** Adding up the counts of distinct keys counts every listed session exactly once. */
  lemma {:induction false} DistinctKeysCountOnce(keys: seq<SessionKey>, sessions: seq<SessionKey>, counts: seq<nat>)
    requires NoDup(keys) && |counts| == |keys|
    requires forall i | 0 <= i < |keys| :: counts[i] == Count(sessions, keys[i])
    ensures SumAll(counts) == Listed(sessions, keys)
  {
    if keys == [] {
      NoneListed(sessions);
    } else {
      assert NoDup(keys[1..]) && keys[0] !in keys[1..];
      DistinctKeysCountOnce(keys[1..], sessions, counts[1..]);
      ListedSplit(sessions, keys[0], keys[1..]);
      assert keys == [keys[0]] + keys[1..];
    }
  }

  lemma {:induction false} NoneListed(sessions: seq<SessionKey>)
    ensures Listed(sessions, []) == 0
  {
    if sessions != [] { NoneListed(sessions[1..]); }
  }

  lemma {:induction false} SumAllConcat(xs: seq<nat>, ys: seq<nat>)
    ensures SumAll(xs + ys) == SumAll(xs) + SumAll(ys)
  {
    if xs == [] {
      assert xs + ys == ys;
    } else {
      assert (xs + ys)[1..] == xs[1..] + ys;
      SumAllConcat(xs[1..], ys);
    }
  }

  ghost function Keys<G, C>(p: Pools<G, C>, gs: seq<G>): seq<SessionKey>
    requires forall g | g in gs :: g in p.gens
  {
    seq(|gs|, i requires 0 <= i < |gs| => KeyOf(p, gs[i]))
  }

  /** The status view of a reachable engine, from the lists as they are published, also while a
      commit or a reap is between its halves: every session of a generation on either list is in
      the total exactly once, and each row shows its own sessions. */
  method ReachableStatus<G, C>(ghost steps: seq<Step<G, C>>, listeners: seq<SessionKey>, draining: seq<SessionKey>,
                               sessions: seq<SessionKey>)
    returns (shown: seq<nat>, drains: seq<nat>, total: nat)
    requires Runs(Init<G, C>(), steps)
    requires var p := After(Init<G, C>(), steps).pools;
             Known(Seen(p)) && listeners == Keys(Seen(p), p.live.active) && draining == Keys(Seen(p), p.live.draining)
    ensures |shown| == |listeners| && forall i | 0 <= i < |shown| :: shown[i] == Count(sessions, listeners[i])
    ensures |drains| == |draining| && forall i | 0 <= i < |drains| :: drains[i] == Count(sessions, draining[i])
    ensures total == Listed(sessions, listeners + draining)
  {
    hide *;
    KeysDistinct(steps, listeners, draining);
    shown, drains, total := DistinctStatus(listeners, draining, sessions);
  }

  lemma KeysDistinct<G, C>(steps: seq<Step<G, C>>, listeners: seq<SessionKey>, draining: seq<SessionKey>)
    requires Runs(Init<G, C>(), steps)
    requires var p := After(Init<G, C>(), steps).pools;
             Known(Seen(p)) && listeners == Keys(Seen(p), p.live.active) && draining == Keys(Seen(p), p.live.draining)
    ensures NoDup(listeners + draining)
  {
    hide Runs, After, Init, Ordered, Seen;
    PublishedIdentify<G, C>(steps);
    var p := After(Init<G, C>(), steps).pools;
    SeenLists(p);
    KeysNoDup(Seen(p), listeners, draining);
  }

  lemma SeenLists<G, C>(p: Pools<G, C>)
    ensures Seen(p).active == p.live.active && Seen(p).draining == p.live.draining
  {
  }

  lemma KeysNoDup<G, C>(p: Pools<G, C>, listeners: seq<SessionKey>, draining: seq<SessionKey>)
    requires Known(p) && listeners == Keys(p, p.active) && draining == Keys(p, p.draining)
    requires forall i, j | 0 <= i < j < |p.active + p.draining| ::
               KeyOf(p, (p.active + p.draining)[i]) != KeyOf(p, (p.active + p.draining)[j])
    ensures NoDup(listeners + draining)
  {
    hide KeyOf;
    var gs, all := p.active + p.draining, listeners + draining;
    assert forall i | 0 <= i < |all| :: all[i] == KeyOf(p, gs[i]);
  }

  /** The counts of rows with distinct keys. */
  method DistinctStatus(listeners: seq<SessionKey>, draining: seq<SessionKey>, sessions: seq<SessionKey>)
    returns (shown: seq<nat>, drains: seq<nat>, total: nat)
    requires NoDup(listeners + draining)
    ensures |shown| == |listeners| && forall i | 0 <= i < |shown| :: shown[i] == Count(sessions, listeners[i])
    ensures |drains| == |draining| && forall i | 0 <= i < |drains| :: drains[i] == Count(sessions, draining[i])
    ensures total == Listed(sessions, listeners + draining)
  {
    hide Count, SumAll, Listed, Lookup;
    NoDupParts(listeners, draining);
    var tally := Tally(sessions);
    shown, drains, total := StatusCounts(listeners, draining, tally);
    forall i | 0 <= i < |shown| ensures shown[i] == Count(sessions, listeners[i]) {
      NotBefore(listeners, i);
    }
    SumAllConcat(shown, drains);
    DistinctKeysCountOnce(listeners + draining, sessions, shown + drains);
  }

  lemma NotBefore(keys: seq<SessionKey>, i: nat)
    requires NoDup(keys) && i < |keys|
    ensures keys[i] !in keys[..i]
  {
  }
}
