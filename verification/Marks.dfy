/** Every store a run reaches is one the readers of `History` can rely on. */
module Marks {
  import opened Common
  import opened Bytes
  import opened Entities
  import opened Records
  import opened Chain
  import opened Transactions
  import opened Sealing
  import opened Book
  import opened Acceptance
  import opened Preserve
  import opened Steps
  import opened Reach
  import opened Mirroring
  import opened Corrections
  import History

  ghost predicate StrikesOnlyLines(p: Txn) {
    forall a: Entity, b: Entity | a in p.rel && a.typ != TYPE_ENTRY && b in p.rel[a] ::
      !History.StrikeKind(p.rel[a][b].fwd.kind)
  }

  lemma DeriveStrikes(env: Env, s: Store, step: Step)
    requires step.Derive? && DeriveNow(env, s, step.edges)
    ensures StrikesOnlyLines(Plain(env, step))
  {
    forall a, b | a in step.edges && b in step.edges[a]
      ensures !History.StrikeKind(step.edges[a][b].fwd.kind)
    {
      assert EdgeOk(env, s, a, b, step.edges[a][b]);
    }
  }

  lemma LineStrikes(env: Env, s: Store, step: Step)
    requires Now(env, s, step) && (step.Write? || step.Void? || step.Countersign?)
    ensures StrikesOnlyLines(Plain(env, step))
  {
  }

  lemma OtherStrikes(env: Env, s: Store, step: Step)
    requires Now(env, s, step) && !step.Write? && !step.Void? && !step.Countersign? && !step.Derive?
    ensures StrikesOnlyLines(Plain(env, step))
  {
  }

  lemma PlainStrikes(env: Env, s: Store, step: Step)
    requires Now(env, s, step)
    ensures StrikesOnlyLines(Plain(env, step))
  {
    if step.Derive? {
      DeriveStrikes(env, s, step);
    } else if step.Write? || step.Void? || step.Countersign? {
      LineStrikes(env, s, step);
    } else {
      OtherStrikes(env, s, step);
    }
  }

  lemma StrikesAfter(env: Env, s: Store, t: Store, p: Txn, n: nat, seal: Option<Seal>)
    requires History.OnlyLinesStruck(s) && Lands(env, s, t, p, n, seal) && StrikesOnlyLines(p)
    requires seal.Some? ==> forall j | 0 <= j < |seal.value.links| :: seal.value.links[j].fwd.kind == KIND_CHAIN_LINK
    ensures History.OnlyLinesStruck(t)
  {
    if seal.Some? { ForwardRowKinds(n, seal.value.links); }
    forall x: Entity, b: Entity | x.typ != TYPE_ENTRY && b in Row(t, x)
      ensures !History.StrikeKind(Row(t, x)[b].kind)
    {
      assert x != Anchor(env) ==> Row(t, x) == Row(s, x) + Forward(p, x);
    }
  }

  lemma ChainedStrikes(env: Env, s: Store, es: seq<Event>, step: Step)
    requires HeadOk(env, s, es) && History.OnlyLinesStruck(s) && Now(env, s, step) && Chains(step) &&
             StrikesOnlyLines(Plain(env, step))
    ensures History.OnlyLinesStruck(Do(env, s, step))
  {
    StepLands(env, s, es, step);
    LinkKinds(env, s, step);
    StrikesAfter(env, s, Do(env, s, step), Plain(env, step), |es|, Some(step.seal));
  }

  lemma StepStrikes(env: Env, s: Store, es: seq<Event>, step: Step)
    requires HeadOk(env, s, es) && History.OnlyLinesStruck(s) && Now(env, s, step)
    ensures History.OnlyLinesStruck(Do(env, s, step))
  {
    PlainStrikes(env, s, step);
    if Chains(step) {
      ChainedStrikes(env, s, es, step);
    } else {
      DoPlain(env, s, step);
      StrikesAfter(env, s, Do(env, s, step), Plain(env, step), HeadCount(env, s), None);
    }
  }

  lemma LinkKinds(env: Env, s: Store, step: Step)
    requires Now(env, s, step) && Chains(step)
    ensures forall j | 0 <= j < |step.seal.links| :: step.seal.links[j].fwd.kind == KIND_CHAIN_LINK
  {
    forall j: nat | j < |step.seal.links|
      ensures step.seal.links[j].fwd.kind == KIND_CHAIN_LINK
    {
      assert LinkFits(env, s, HeadDigest(env, s), HeadCount(env, s), Entries(env, s, step), step.seal.links[j], j);
    }
  }

  lemma {:induction false} RunStrikes(env: Env, s: Store, es: seq<Event>, run: seq<Step>)
    requires BookInv(env, s, es) && History.OnlyLinesStruck(s) && Legal(env, s, run)
    ensures History.OnlyLinesStruck(Exec(env, s, run))
    decreases |run|
  {
    if run != [] {
      StepKept(env, s, es, run[0]);
      StepStrikes(env, s, es, run[0]);
      RunStrikes(env, Do(env, s, run[0]), EventsAfter(env, s, es, run[0]), run[1..]);
    }
  }

  /** What reading back the corrections of a log asks for holds after every run. */
  lemma ReachableInBook(env: Env, run: seq<Step>)
    requires Legal(env, Empty(), run)
    ensures History.InBook(env, Exec(env, Empty(), run))
  {
    EmptyInv(env);
    RunStrikes(env, Empty(), [], run);
    ReachableMirrored(env, run);
    ReachableCorr(env, run);
  }
}
