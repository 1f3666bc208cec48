/** Closing and reopening a column's vocabulary: the events alternate, and while it is
    closed it does not change. */
module Vocabulary {
  import opened Common
  import opened Bytes
  import opened Entities
  import opened Records
  import opened Chain
  import opened Transactions
  import opened Sealing
  import opened Book
  import opened Acceptance
  import opened Preserve
  import opened Steps
  import opened Reach

  predicate IsStateOf(e: Event, f: Entity) { e.tag == EVENT_FIELD_STATE && e.subject == f }

  /** Whether the events say that column f is closed. */
  function ClosedAfter(es: seq<Event>, f: Entity): bool {
    if es == [] then false
    else if IsStateOf(es[|es| - 1], f) then es[|es| - 1].tail == [VOCABULARY_CLOSED]
    else ClosedAfter(es[..|es| - 1], f)
  }

  function StateAfter(es: seq<Event>, f: Entity): byte {
    if ClosedAfter(es, f) then VOCABULARY_CLOSED else VOCABULARY_OPEN
  }

  /** Event i, if it is about a vocabulary, turns it over. */
  predicate TurnsOver(es: seq<Event>, e: Event) {
    e.tag == EVENT_FIELD_STATE ==>
      e.tail == [if ClosedAfter(es, e.subject) then VOCABULARY_OPEN else VOCABULARY_CLOSED]
  }

  predicate Alternates(es: seq<Event>) {
    forall i | 0 <= i < |es| :: TurnsOver(es[..i], es[i])
  }

  ghost predicate StatesKept(env: Env, s: Store, es: seq<Event>) {
    forall f: Entity | f.typ == TYPE_FIELD :: VocabularyIs(env, s, f, StateAfter(es, f))
  }

  ghost predicate VocabInv(env: Env, s: Store, es: seq<Event>) {
    Alternates(es) && StatesKept(env, s, es)
  }

  lemma AlternatesMore(es: seq<Event>, e: Event)
    requires Alternates(es) && TurnsOver(es, e)
    ensures Alternates(es + [e])
  {
    forall i | 0 <= i < |es + [e]|
      ensures TurnsOver((es + [e])[..i], (es + [e])[i])
    {
      if i < |es| {
        assert TurnsOver(es[..i], es[i]);
        assert (es + [e])[..i] == es[..i];
      } else {
        assert (es + [e])[..i] == es;
      }
    }
  }

  lemma ClosedMore(es: seq<Event>, e: Event, f: Entity)
    ensures ClosedAfter(es + [e], f) <==> if IsStateOf(e, f) then e.tail == [VOCABULARY_CLOSED] else ClosedAfter(es, f)
  {
    assert (es + [e])[..|es|] == es;
  }

  /** Another kind of event changes nothing. */
  lemma OtherEvent(env: Env, t: Store, es: seq<Event>, e: Event)
    requires VocabInv(env, t, es) && e.tag != EVENT_FIELD_STATE
    ensures VocabInv(env, t, es + [e])
  {
    AlternatesMore(es, e);
    forall f: Entity | f.typ == TYPE_FIELD
      ensures VocabularyIs(env, t, f, StateAfter(es + [e], f))
    {
      ClosedMore(es, e, f);
      assert VocabularyIs(env, t, f, StateAfter(es, f));
    }
  }

  ghost predicate SameFields(s: Store, t: Store) {
    forall f: Entity | f.typ == TYPE_FIELD :: Row(t, f) == Row(s, f)
  }

  lemma FieldsKept(env: Env, s: Store, t: Store, p: Txn, n: nat, seal: Option<Seal>)
    requires Lands(env, s, t, p, n, seal) && forall a: Entity | a in p.rel :: a.typ != TYPE_FIELD
    ensures SameFields(s, t)
  {
    forall f: Entity | f.typ == TYPE_FIELD
      ensures Row(t, f) == Row(s, f)
    {
      assert Row(t, f) == Row(s, f) + Forward(p, f);
    }
  }

  lemma SameFieldsKeep(env: Env, s: Store, t: Store, es: seq<Event>)
    requires SameFields(s, t) && VocabInv(env, s, es)
    ensures VocabInv(env, t, es)
  {
    forall f: Entity | f.typ == TYPE_FIELD
      ensures VocabularyIs(env, t, f, StateAfter(es, f))
    {
      assert VocabularyIs(env, s, f, StateAfter(es, f));
    }
  }

  lemma NoFieldRows(env: Env, s: Store, step: Step)
    requires Now(env, s, step) && !step.SetVocabulary?
    ensures forall a: Entity | a in Plain(env, step).rel :: a.typ != TYPE_FIELD
  {
    NowRelates(env, s, step);
    assert forall a | Relates(step, a) :: a.typ != TYPE_FIELD;
  }

  lemma {:induction false} OtherEvents(env: Env, t: Store, es: seq<Event>, xs: seq<Entry>, seal: Seal)
    requires VocabInv(env, t, es) && |seal.links| == |xs| && 1 <= |xs| <= 2
    requires forall j | 0 <= j < |xs| :: xs[j].tag != EVENT_FIELD_STATE
    ensures VocabInv(env, t, Extended(env, es, xs, seal))
  {
    var e := NewEvent(env, Previous(es, |es|), |es|, xs, seal.links[0], 0);
    OtherEvent(env, t, es, e);
    if |xs| == 2 {
      var f := NewEvent(env, Previous(es, |es|), |es|, xs, seal.links[1], 1);
      OtherEvent(env, t, es + [e], f);
      AppendTwo(es, e, f);
    }
  }

  lemma EntriesOther(env: Env, s: Store, step: Step)
    requires !step.SetVocabulary?
    ensures forall j | 0 <= j < |Entries(env, s, step)| :: Entries(env, s, step)[j].tag != EVENT_FIELD_STATE
  {
  }

  /** The state of one column turns over. */
  lemma TurnedOver(env: Env, s: Store, t: Store, es: seq<Event>, e: Event, l: Link)
    requires VocabInv(env, s, es) && SetVocabularyNow(env, s, e.subject, l)
    requires e.tag == EVENT_FIELD_STATE && e.tail == l.fwd.data
    requires forall f: Entity | f.typ == TYPE_FIELD ::
               Row(t, f) == if f == e.subject then Row(s, f) + map[Marker(env) := l.fwd] else Row(s, f)
    ensures VocabInv(env, t, es + [e])
  {
    assert VocabularyIs(env, s, e.subject, StateAfter(es, e.subject));
    AlternatesMore(es, e);
    forall f: Entity | f.typ == TYPE_FIELD
      ensures VocabularyIs(env, t, f, StateAfter(es + [e], f))
    {
      ClosedMore(es, e, f);
      assert VocabularyIs(env, s, f, StateAfter(es, f));
    }
  }

  lemma VocabularyForward(env: Env, step: Step, f: Entity)
    requires step.SetVocabulary?
    ensures Forward(Plain(env, step), f) == if f == step.field then map[Marker(env) := step.link.fwd] else map[]
  {
  }

  lemma VocabularyRows(env: Env, s: Store, t: Store, n: nat, step: Step)
    requires step.SetVocabulary? && Lands(env, s, t, Plain(env, step), n, Some(step.seal))
    ensures forall f: Entity | f.typ == TYPE_FIELD ::
              Row(t, f) == if f == step.field then Row(s, f) + map[Marker(env) := step.link.fwd] else Row(s, f)
  {
    var p := Plain(env, step);
    forall f: Entity | f.typ == TYPE_FIELD
      ensures Row(t, f) == if f == step.field then Row(s, f) + map[Marker(env) := step.link.fwd] else Row(s, f)
    {
      VocabularyForward(env, step, f);
      assert Row(t, f) == Row(s, f) + Forward(p, f);
    }
  }

  lemma {:induction false} TurnStep(env: Env, s: Store, t: Store, es: seq<Event>, step: Step)
    requires step.SetVocabulary? && VocabInv(env, s, es) && SetVocabularyNow(env, s, step.field, step.link)
    requires Lands(env, s, t, Plain(env, step), |es|, Some(step.seal)) && |step.seal.links| == 1
    ensures VocabInv(env, t, EventsAfter(env, s, es, step))
  {
    AfterIsExtended(env, s, es, step);
    VocabularyRows(env, s, t, |es|, step);
    TurnedOver(env, s, t, es, NewEvent(env, Previous(es, |es|), |es|, Entries(env, s, step), step.seal.links[0], 0),
               step.link);
  }

  lemma {:induction false} OtherChained(env: Env, s: Store, t: Store, es: seq<Event>, step: Step)
    requires Chains(step) && !step.SetVocabulary? && VocabInv(env, s, es) && SameFields(s, t)
    requires |step.seal.links| == |Entries(env, s, step)| && 1 <= |Entries(env, s, step)| <= 2
    ensures VocabInv(env, t, EventsAfter(env, s, es, step))
  {
    SameFieldsKeep(env, s, t, es);
    EntriesOther(env, s, step);
    OtherEvents(env, t, es, Entries(env, s, step), step.seal);
    AfterIsExtended(env, s, es, step);
  }

  lemma ChainedVocab(env: Env, s: Store, es: seq<Event>, step: Step)
    requires HeadOk(env, s, es) && VocabInv(env, s, es) && Now(env, s, step) && Chains(step)
    ensures VocabInv(env, Do(env, s, step), EventsAfter(env, s, es, step))
  {
    StepLands(env, s, es, step);
    NowNumbered(env, s, step);
    if step.SetVocabulary? {
      TurnStep(env, s, Do(env, s, step), es, step);
    } else {
      NoFieldRows(env, s, step);
      FieldsKept(env, s, Do(env, s, step), Plain(env, step), |es|, Some(step.seal));
      OtherChained(env, s, Do(env, s, step), es, step);
    }
  }

  lemma StepVocab(env: Env, s: Store, es: seq<Event>, step: Step)
    requires HeadOk(env, s, es) && VocabInv(env, s, es) && Now(env, s, step)
    ensures VocabInv(env, Do(env, s, step), EventsAfter(env, s, es, step))
  {
    if Chains(step) {
      ChainedVocab(env, s, es, step);
    } else {
      DoPlain(env, s, step);
      NoFieldRows(env, s, step);
      FieldsKept(env, s, Do(env, s, step), Plain(env, step), HeadCount(env, s), None);
      SameFieldsKeep(env, s, Do(env, s, step), es);
    }
  }

  lemma {:induction false} RunVocab(env: Env, s: Store, es: seq<Event>, run: seq<Step>)
    requires BookInv(env, s, es) && VocabInv(env, s, es) && Legal(env, s, run)
    ensures VocabInv(env, Exec(env, s, run), Told(env, s, es, run))
    decreases |run|
  {
    if run != [] {
      StepKept(env, s, es, run[0]);
      StepVocab(env, s, es, run[0]);
      RunVocab(env, Do(env, s, run[0]), EventsAfter(env, s, es, run[0]), run[1..]);
    }
  }

  /** In every run the vocabulary events of a column alternate, closing first, and the
      column's state is what the last of them says. */
  lemma ReachableAlternates(env: Env, run: seq<Step>)
    requires Legal(env, Empty(), run)
    ensures var s := Exec(env, Empty(), run);
            Accepts(env, s) && VocabInv(env, s, Events(env, s))
  {
    EmptyInv(env);
    RunVocab(env, Empty(), [], run);
    RunKept(env, Empty(), [], run);
    InvAccepts(env, Exec(env, Empty(), run), Told(env, Empty(), [], run));
  }

  // While closed.

  predicate IsTermOf(s: Store, term: Entity, f: Entity) { term.typ == TYPE_TERM && TermOf(s, term, f) }

  /** The terms of column f are those they were. */
  ghost predicate SameTerms(s: Store, t: Store, f: Entity) {
    forall e: Entity :: IsTermOf(t, e, f) <==> IsTermOf(s, e, f)
  }

  lemma TermRows(env: Env, s: Store, t: Store, p: Txn, n: nat, seal: Option<Seal>, f: Entity)
    requires Lands(env, s, t, p, n, seal) && f.typ == TYPE_FIELD
    requires forall a: Entity | a in p.rel && a.typ == TYPE_TERM :: f !in p.rel[a]
    ensures SameTerms(s, t, f)
  {
    forall e: Entity | e.typ == TYPE_TERM
      ensures TermOf(t, e, f) <==> TermOf(s, e, f)
    {
      assert Row(t, e) == Row(s, e) + Forward(p, e);
    }
  }

  lemma ClosedRefuses(env: Env, s: Store, step: Step, f: Entity)
    requires Now(env, s, step) && f.typ == TYPE_FIELD && VocabularyIs(env, s, f, VOCABULARY_CLOSED)
    ensures forall a: Entity | a in Plain(env, step).rel && a.typ == TYPE_TERM :: f !in Plain(env, step).rel[a]
  {
    NowRelates(env, s, step);
    if step.Derive? {
      forall a, b | a in step.edges && b in step.edges[a]
        ensures b.typ == TYPE_TERM
      {
        assert EdgeOk(env, s, a, b, step.edges[a][b]);
      }
    }
  }

  /** No step adds a term to a closed column, or takes one away. */
  lemma ClosedIsFrozen(env: Env, s: Store, es: seq<Event>, step: Step, f: Entity)
    requires HeadOk(env, s, es) && Now(env, s, step) && f.typ == TYPE_FIELD &&
             VocabularyIs(env, s, f, VOCABULARY_CLOSED)
    ensures SameTerms(s, Do(env, s, step), f)
  {
    ClosedRefuses(env, s, step, f);
    if Chains(step) {
      StepLands(env, s, es, step);
      TermRows(env, s, Do(env, s, step), Plain(env, step), |es|, Some(step.seal), f);
    } else {
      DoPlain(env, s, step);
      TermRows(env, s, Do(env, s, step), Plain(env, step), HeadCount(env, s), None, f);
    }
  }
}
