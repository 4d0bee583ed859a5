/** Lists without repetition and sums of open connections over them. */
module EngineSums {
  import opened Seqs
  import opened EngineModel

  lemma NamedNoDup<G, C>(gens: map<G, Gen<C>>, gs: seq<G>, name: string)
    requires forall g | g in gs :: g in gens
    requires NoDup(gs)
    ensures NoDup(Named(gens, gs, name))
  {
    FilterNoDup(g requires g in gens => LabelOf(gens[g].spec.key) == name, gs);
  }

  /** Removing one occurrence takes exactly its connections out of the sum. */
  lemma {:induction false} SumWithout<G>(used: map<Target<G>, nat>, gs: seq<G>, kind: Kind, k: nat)
    requires k < |gs|
    ensures Sum(used, gs, kind) == Used(used, Target(gs[k], kind)) + Sum(used, gs[..k] + gs[k + 1..], kind)
  {
    if k == 0 {
      assert gs[..0] + gs[1..] == gs[1..];
    } else {
      SumWithout(used, gs[1..], kind, k - 1);
      var cut := gs[..k] + gs[k + 1..];
      assert cut[0] == gs[0];
      assert cut[1..] == gs[1..][..k - 1] + gs[1..][k..];
    }
  }

  /** A list whose busy members all occur in another list has no larger sum. */
  lemma {:induction false} SumBelow<G>(used: map<Target<G>, nat>, gs: seq<G>, hs: seq<G>, kind: Kind)
    requires NoDup(gs)
    requires forall g | g in gs && Used(used, Target(g, kind)) > 0 :: g in hs
    ensures Sum(used, gs, kind) <= Sum(used, hs, kind)
    decreases |gs|
  {
    if gs != [] {
      var g := gs[0];
      assert g !in gs[1..];
      assert NoDup(gs[1..]);
      if Used(used, Target(g, kind)) == 0 {
        SumBelow(used, gs[1..], hs, kind);
      } else {
        var k :| 0 <= k < |hs| && hs[k] == g;
        SumWithout(used, hs, kind, k);
        SumBelow(used, gs[1..], hs[..k] + hs[k + 1..], kind);
      }
    }
  }

  lemma {:induction false} SumAtLeast<G>(used: map<Target<G>, nat>, gs: seq<G>, kind: Kind, g: G)
    requires g in gs
    ensures Used(used, Target(g, kind)) <= Sum(used, gs, kind)
  {
    var k :| 0 <= k < |gs| && gs[k] == g;
    SumWithout(used, gs, kind, k);
  }

  /** Changing one count changes a sum by the same amount when the list holds it. */
  lemma {:induction false} SumUpdate<G>(used: map<Target<G>, nat>, gs: seq<G>, kind: Kind, t: Target<G>, n: nat)
    requires NoDup(gs)
    ensures Sum(used[t := n], gs, kind)
         == Sum(used, gs, kind) + (if t.kind == kind && t.gen in gs then n - Used(used, t) else 0)
  {
    if gs != [] {
      assert NoDup(gs[1..]);
      assert gs[0] !in gs[1..];
      SumUpdate(used, gs[1..], kind, t, n);
      assert gs == [gs[0]] + gs[1..];
    }
  }

  lemma {:induction false} SumPositive<G>(used: map<Target<G>, nat>, gs: seq<G>, kind: Kind) returns (g: G)
    requires Sum(used, gs, kind) > 0
    ensures g in gs && Used(used, Target(g, kind)) > 0
  {
    if Used(used, Target(gs[0], kind)) > 0 { g := gs[0]; } else { g := SumPositive(used, gs[1..], kind); }
  }
}
