/** Runs of the book: in every store a run can reach, the chain verifies, and the
    verifier counts exactly the events the head records. */
module Reach {
  import opened Common
  import opened Bytes
  import opened Entities
  import opened Records
  import opened Listings
  import opened Chain
  import opened Transactions
  import opened Sealing
  import opened Book
  import opened Growth
  import opened Allocation
  import opened Acceptance
  import opened Preserve
  import opened Steps

  ghost predicate BookInv(env: Env, s: Store, es: seq<Event>) {
    ChainInv(env, s, es) && AllocInv(env, s)
  }

  ghost function EventsAfter(env: Env, s: Store, es: seq<Event>, step: Step): seq<Event> {
    if Chains(step) && |step.seal.links| == |Entries(env, s, step)| && 1 <= |Entries(env, s, step)| <= 2
    then Extended(env, es, Entries(env, s, step), step.seal)
    else es
  }

  lemma StepExtends(env: Env, s: Store, es: seq<Event>, step: Step)
    requires ChainInv(env, s, es) && Now(env, s, step) && Chains(step)
    ensures Extends(env, s, es, Entries(env, s, step), step.seal)
  {
    HeadIs(env, s, es);
    NowNumbered(env, s, step);
  }

  lemma StepLands(env: Env, s: Store, es: seq<Event>, step: Step)
    requires HeadOk(env, s, es) && Now(env, s, step) && Chains(step)
    ensures Lands(env, s, Do(env, s, step), Plain(env, step), |es|, Some(step.seal))
  {
    HeadIs(env, s, es);
    NowNumbered(env, s, step);
    DoChained(env, s, step);
  }

  lemma MarkKept(env: Env, s: Store, t: Store, es: seq<Event>, step: Step)
    requires Now(env, s, step) && (step.Void? || step.Countersign? || step.SignOff?)
    requires Extends(env, s, es, Entries(env, s, step), step.seal)
    requires Lands(env, s, t, Plain(env, step), |es|, Some(step.seal)) && Grows(s, t)
    ensures ChainInv(env, t, Extended(env, es, Entries(env, s, step), step.seal))
  {
    MarkHolds(env, s, t, |es|, step);
    NoteKept(env, s, t, es, Entries(env, s, step), Plain(env, step), step.seal);
  }

  lemma MarkHolds(env: Env, s: Store, t: Store, n: nat, step: Step)
    requires Now(env, s, step) && (step.Void? || step.Countersign? || step.SignOff?)
    requires Lands(env, s, t, Plain(env, step), n, Some(step.seal)) && KeepsKeys(s, t)
    ensures IsNote(env, s, Entries(env, s, step), Plain(env, step))
    ensures forall j | 0 <= j < |Entries(env, s, step)| :: EntryHolds(env, t, Entries(env, s, step)[j])
  {
    if step.Void? {
      VoidIsNote(env, s, step);
      VoidHolds(env, s, t, n, step);
    } else if step.Countersign? {
      CountersignIsNote(env, s, step);
      CountersignHolds(env, s, t, n, step);
    } else {
      SignOffIsNote(env, s, step);
      SignOffHolds(env, s, t, n, step);
    }
  }

  lemma ChainedKept(env: Env, s: Store, t: Store, es: seq<Event>, step: Step)
    requires Now(env, s, step) && Chains(step)
    requires Extends(env, s, es, Entries(env, s, step), step.seal)
    requires Lands(env, s, t, Plain(env, step), |es|, Some(step.seal)) && Grows(s, t)
    ensures ChainInv(env, t, Extended(env, es, Entries(env, s, step), step.seal))
  {
    if step.Write? {
      WriteKept(env, s, t, es, step);
    } else if step.Rename? || step.SetVocabulary? {
      RewriteStepKept(env, s, t, es, step);
    } else {
      MarkKept(env, s, t, es, step);
    }
  }

  lemma RewriteStepKept(env: Env, s: Store, t: Store, es: seq<Event>, step: Step)
    requires Now(env, s, step) && (step.Rename? || step.SetVocabulary?)
    requires Extends(env, s, es, Entries(env, s, step), step.seal)
    requires Lands(env, s, t, Plain(env, step), |es|, Some(step.seal)) && Grows(s, t)
    ensures ChainInv(env, t, Extended(env, es, Entries(env, s, step), step.seal))
  {
    if step.Rename? {
      RenameKept(env, s, t, es, step);
    } else {
      SetVocabularyKept(env, s, t, es, step);
    }
  }

  lemma UnchainedKept(env: Env, s: Store, es: seq<Event>, step: Step)
    requires ChainInv(env, s, es) && Now(env, s, step) && !Chains(step) && Grows(s, Do(env, s, step))
    ensures ChainInv(env, Do(env, s, step), EventsAfter(env, s, es, step))
  {
    assert EventsAfter(env, s, es, step) == es;
    DoPlain(env, s, step);
    StepIsSchema(env, s, step);
    SchemaKept(env, s, Do(env, s, step), es, Plain(env, step), HeadCount(env, s));
  }

  lemma StepIsSchema(env: Env, s: Store, step: Step)
    requires Now(env, s, step) && !Chains(step)
    ensures IsSchema(env, s, Plain(env, step))
  {
    if step.DeclareActor? {
      DeclareIsSchema(env, s, step);
    } else if step.Intern? {
      SlotIsFree(env, s, SCHEMA_PAGE, step.e);
      InternIsSchema(env, s, step);
    } else {
      DeriveIsSchema(env, s, step);
    }
  }

  lemma ChainedStep(env: Env, s: Store, es: seq<Event>, step: Step)
    requires ChainInv(env, s, es) && Now(env, s, step) && Chains(step) && Grows(s, Do(env, s, step))
    ensures ChainInv(env, Do(env, s, step), EventsAfter(env, s, es, step))
  {
    StepExtends(env, s, es, step);
    StepLands(env, s, es, step);
    ChainedKept(env, s, Do(env, s, step), es, step);
    AfterIsExtended(env, s, es, step);
  }

  lemma {:induction false} AfterIsExtended(env: Env, s: Store, es: seq<Event>, step: Step)
    requires Chains(step) && |step.seal.links| == |Entries(env, s, step)| && 1 <= |Entries(env, s, step)| <= 2
    ensures EventsAfter(env, s, es, step) == Extended(env, es, Entries(env, s, step), step.seal)
  {
  }

  lemma ChainStep(env: Env, s: Store, es: seq<Event>, step: Step)
    requires ChainInv(env, s, es) && Now(env, s, step)
    ensures ChainInv(env, Do(env, s, step), EventsAfter(env, s, es, step))
  {
    StepGrows(env, s, step);
    if Chains(step) { ChainedStep(env, s, es, step); } else { UnchainedKept(env, s, es, step); }
  }

  /** Every step keeps the invariant, and adds its events at the end. */
  lemma StepKept(env: Env, s: Store, es: seq<Event>, step: Step)
    requires BookInv(env, s, es) && Now(env, s, step)
    ensures BookInv(env, Do(env, s, step), EventsAfter(env, s, es, step))
  {
    ChainStep(env, s, es, step);
    StepAlloc(env, s, step);
  }

  // Runs.

  ghost predicate Legal(env: Env, s: Store, run: seq<Step>)
    decreases |run|
  {
    run == [] || (Now(env, s, run[0]) && Legal(env, Do(env, s, run[0]), run[1..]))
  }

  ghost function Exec(env: Env, s: Store, run: seq<Step>): Store
    decreases |run|
  {
    if run == [] then s else Exec(env, Do(env, s, run[0]), run[1..])
  }

  ghost function Told(env: Env, s: Store, es: seq<Event>, run: seq<Step>): seq<Event>
    decreases |run|
  {
    if run == [] then es else Told(env, Do(env, s, run[0]), EventsAfter(env, s, es, run[0]), run[1..])
  }

  lemma {:induction false} RunKept(env: Env, s: Store, es: seq<Event>, run: seq<Step>)
    requires BookInv(env, s, es) && Legal(env, s, run)
    ensures BookInv(env, Exec(env, s, run), Told(env, s, es, run))
    decreases |run|
  {
    if run != [] {
      StepKept(env, s, es, run[0]);
      RunKept(env, Do(env, s, run[0]), EventsAfter(env, s, es, run[0]), run[1..]);
    }
  }

  lemma EmptyListing(row: Relations)
    requires row == map[]
    ensures Spells(row, [])
  {
    NothingFrom(row, 1, ENTITY_COUNT);
  }

  lemma EmptyInv(env: Env)
    ensures BookInv(env, Empty(), [])
  {
    assert LinkRow(env, Empty()) == map[];
    EmptyListing(LinkRow(env, Empty()));
  }

  /** Every log that any run of steps reaches is accepted, and verifying it checks
      exactly as many events as the head counts. */
  lemma ReachableAccepted(env: Env, run: seq<Step>)
    requires Legal(env, Empty(), run)
    ensures var s := Exec(env, Empty(), run);
            Accepts(env, s) && |Events(env, s)| == HeadCount(env, s)
  {
    EmptyInv(env);
    RunKept(env, Empty(), [], run);
    InvAccepts(env, Exec(env, Empty(), run), Told(env, Empty(), [], run));
  }

  // The number of events.

  /** Fewer events than the number that spells the anchor. */
  ghost predicate Bounded(env: Env, s: Store) {
    HeadCount(env, s) < Value(Anchor(env))
  }

  lemma StepBounded(env: Env, s: Store, es: seq<Event>, step: Step)
    requires BookInv(env, s, es) && Now(env, s, step) && Bounded(env, s)
    ensures Bounded(env, Do(env, s, step))
  {
    StepKept(env, s, es, step);
    HeadIs(env, s, es);
    HeadIs(env, Do(env, s, step), EventsAfter(env, s, es, step));
    if Chains(step) {
      SealBounded(env, s, step);
      AfterLength(env, s, es, step);
    }
  }

  lemma AfterLength(env: Env, s: Store, es: seq<Event>, step: Step)
    requires Now(env, s, step) && Chains(step)
    ensures |EventsAfter(env, s, es, step)| == |es| + |step.seal.links|
  {
    NowNumbered(env, s, step);
    AfterIsExtended(env, s, es, step);
    ExtendedParts(env, es, Entries(env, s, step), step.seal);
  }

  lemma Avoided(a: Entity, n: nat)
    requires n + 1 < ENTITY_COUNT && FromValue(n + 1) != a && n < Value(a)
    ensures n + 1 < Value(a)
  {
    FromValueOfValue(a);
  }

  lemma {:induction false} NumbersAvoidAnchor(env: Env, s: Store, previous: seq<byte>, n: nat, xs: seq<Entry>,
                                              seal: Seal)
    requires SealFits(env, s, previous, n, xs, seal) && 1 <= |xs| <= 2 && n < Value(Anchor(env))
    ensures n + |xs| < Value(Anchor(env))
  {
    assert LinkFits(env, s, previous, n, xs, seal.links[0], 0);
    Avoided(Anchor(env), n);
    if |xs| == 2 {
      assert LinkFits(env, s, previous, n, xs, seal.links[1], 1);
      Avoided(Anchor(env), n + 1);
    }
  }

  lemma SealBounded(env: Env, s: Store, step: Step)
    requires Now(env, s, step) && Chains(step) && Bounded(env, s)
    ensures HeadCount(env, s) + |step.seal.links| < Value(Anchor(env))
  {
    NowNumbered(env, s, step);
    NumbersAvoidAnchor(env, s, HeadDigest(env, s), HeadCount(env, s), Entries(env, s, step), step.seal);
  }

  lemma AnchorValue(env: Env)
    ensures Value(Anchor(env)) == env.log * 0x100_0000 + 0xFE00
  {
    ValueDigits(Anchor(env));
  }

  lemma {:induction false} RunBounded(env: Env, s: Store, es: seq<Event>, run: seq<Step>)
    requires BookInv(env, s, es) && Legal(env, s, run) && Bounded(env, s)
    ensures Bounded(env, Exec(env, s, run))
    decreases |run|
  {
    if run != [] {
      StepKept(env, s, es, run[0]);
      StepBounded(env, s, es, run[0]);
      RunBounded(env, Do(env, s, run[0]), EventsAfter(env, s, es, run[0]), run[1..]);
    }
  }

  /** A log never holds as many events as the number that spells its anchor: the
      link for that number would relate the anchor to itself. */
  lemma ReachableBounded(env: Env, run: seq<Step>)
    requires Legal(env, Empty(), run)
    ensures HeadCount(env, Exec(env, Empty(), run)) < env.log * 0x100_0000 + 0xFE00 < ENTITY_COUNT
  {
    EmptyInv(env);
    AnchorValue(env);
    RunBounded(env, Empty(), [], run);
  }
}
