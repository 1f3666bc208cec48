/** The story of a line: written once, then endorsed by actors who did not write it,
    none of them twice, then perhaps struck, and nothing after that. */
module EventOrder {
  import opened Bytes
  import opened Entities
  import opened Records
  import opened Chain
  import opened Transactions
  import opened Sealing
  import opened Book
  import opened Growth
  import opened Allocation
  import opened Acceptance
  import opened Preserve
  import opened Steps
  import opened Reach

  /** What may follow what in the stream. */
  predicate MayFollow(e: Event, f: Event) {
    && (e.tag == EVENT_LINE && f.tag == EVENT_LINE ==> Value(e.subject) < Value(f.subject))
    && (e.subject == f.subject && e.subject.typ == TYPE_ENTRY ==>
          && e.tag != EVENT_STRIKE && f.tag != EVENT_LINE
          && (e.tag == EVENT_COUNTERSIGN && f.tag == EVENT_COUNTERSIGN ==> e.party != f.party))
  }

  /** An endorsement or a strike comes after the line it is about. */
  predicate Rooted(es: seq<Event>, f: Event) {
    f.tag == EVENT_STRIKE || f.tag == EVENT_COUNTERSIGN ==> f.subject in LineSubjects(es)
  }

  predicate NotByAuthor(s: Store, f: Event) {
    f.tag == EVENT_COUNTERSIGN ==> f.subject in s.decl && s.decl[f.subject].author != f.party
  }

  ghost predicate Orderly(s: Store, es: seq<Event>) {
    && (forall i, j | 0 <= i < j < |es| :: MayFollow(es[i], es[j]))
    && (forall j | 0 <= j < |es| :: Rooted(es[..j], es[j]))
    && (forall j | 0 <= j < |es| :: NotByAuthor(s, es[j]))
  }

  lemma OrderlyMore(s: Store, es: seq<Event>, f: Event)
    requires Orderly(s, es) && NotByAuthor(s, f) && Rooted(es, f)
    requires forall i | 0 <= i < |es| :: MayFollow(es[i], f)
    ensures Orderly(s, es + [f])
  {
    var fs := es + [f];
    forall j | 0 <= j < |fs|
      ensures Rooted(fs[..j], fs[j])
    {
      if j < |es| {
        assert Rooted(es[..j], es[j]);
        assert fs[..j] == es[..j];
      } else {
        assert fs[..j] == es;
      }
    }
  }

  lemma OrderlyStays(s: Store, t: Store, es: seq<Event>)
    requires Orderly(s, es) && KeepsLines(s, t)
    requires forall j | 0 <= j < |es| :: es[j].tag == EVENT_COUNTERSIGN ==> es[j].subject.typ == TYPE_ENTRY
    ensures Orderly(t, es)
  {
    forall j | 0 <= j < |es|
      ensures NotByAuthor(t, es[j])
    {
      assert NotByAuthor(s, es[j]);
    }
  }

  // What an event in the chain says about the store.

  lemma EventOnLine(env: Env, s: Store, es: seq<Event>, i: nat)
    requires ChainInv(env, s, es) && i < |es| && es[i].subject.typ == TYPE_ENTRY
    ensures es[i].subject in s.decl
    ensures es[i].tag != EVENT_LINE ==> es[i].party in Row(s, es[i].subject)
    ensures es[i].tag == EVENT_STRIKE ==> es[i].party == Marker(env)
  {
    assert EventGood(env, s, es, i);
    assert ShapeOk(env, es[i].tag, es[i].subject, es[i].party);
    if es[i].tag == EVENT_LINE {
      assert es[i] in es;
      assert es[i].subject in LineSubjects(es);
    }
  }

  lemma StrikeFollows(env: Env, s: Store, es: seq<Event>, f: Event, i: nat)
    requires ChainInv(env, s, es) && i < |es|
    requires f.tag == EVENT_STRIKE && Standing(env, s, f.subject)
    ensures MayFollow(es[i], f)
  {
    if es[i].subject == f.subject { EventOnLine(env, s, es, i); }
  }

  lemma CountersignFollows(env: Env, s: Store, es: seq<Event>, f: Event, i: nat)
    requires ChainInv(env, s, es) && i < |es|
    requires f.tag == EVENT_COUNTERSIGN && Standing(env, s, f.subject) && f.party !in Row(s, f.subject)
    ensures MayFollow(es[i], f)
  {
    if es[i].subject == f.subject { EventOnLine(env, s, es, i); }
  }

  lemma LineFollows(env: Env, s: Store, es: seq<Event>, f: Event, i: nat)
    requires BookInv(env, s, es) && i < |es|
    requires f.tag == EVENT_LINE && f.subject.typ == TYPE_ENTRY && IsSlot(env, s, FIRST_ENTRY_PAGE, f.subject)
    ensures MayFollow(es[i], f)
  {
    SlotIsFree(env, s, FIRST_ENTRY_PAGE, f.subject);
    assert ShapeOk(env, es[i].tag, es[i].subject, es[i].party);
    if es[i].subject.typ == TYPE_ENTRY {
      EventOnLine(env, s, es, i);
      NewLineIsLast(env, s, f.subject, es[i].subject);
    }
  }

  lemma RootedIn(env: Env, s: Store, es: seq<Event>, f: Event)
    requires ChainInv(env, s, es) && f.subject.typ == TYPE_ENTRY && f.subject in s.decl
    ensures Rooted(es, f)
  {
  }

  // Steps.

  /** The event is one a step may add to a book in state s. */
  ghost predicate Admissible(env: Env, s: Store, f: Event) {
    || (f.tag == EVENT_LINE && f.subject.typ == TYPE_ENTRY && IsSlot(env, s, FIRST_ENTRY_PAGE, f.subject))
    || (f.tag == EVENT_STRIKE && Standing(env, s, f.subject))
    || (f.tag == EVENT_COUNTERSIGN && Standing(env, s, f.subject) && f.party !in Row(s, f.subject) &&
        s.decl[f.subject].author != f.party)
    || ((f.tag == EVENT_SIGNOFF || MutableTag(f.tag)) && f.subject.typ != TYPE_ENTRY)
  }

  lemma AdmissibleFollows(env: Env, s: Store, es: seq<Event>, f: Event, i: nat)
    requires BookInv(env, s, es) && Admissible(env, s, f) && i < |es|
    ensures MayFollow(es[i], f)
  {
    if f.tag == EVENT_LINE {
      LineFollows(env, s, es, f, i);
    } else if f.tag == EVENT_STRIKE {
      StrikeFollows(env, s, es, f, i);
    } else if f.tag == EVENT_COUNTERSIGN {
      CountersignFollows(env, s, es, f, i);
    }
  }

  lemma AdmissibleRooted(env: Env, s: Store, es: seq<Event>, f: Event)
    requires BookInv(env, s, es) && Admissible(env, s, f)
    ensures Rooted(es, f)
  {
    if f.tag == EVENT_STRIKE || f.tag == EVENT_COUNTERSIGN { RootedIn(env, s, es, f); }
  }

  lemma CountersignOnLines(env: Env, es: seq<Event>)
    requires ShapesOk(env, es)
    ensures forall j | 0 <= j < |es| :: es[j].tag == EVENT_COUNTERSIGN ==> es[j].subject.typ == TYPE_ENTRY
  {
    forall j | 0 <= j < |es|
      ensures es[j].tag == EVENT_COUNTERSIGN ==> es[j].subject.typ == TYPE_ENTRY
    {
      assert ShapeOk(env, es[j].tag, es[j].subject, es[j].party);
    }
  }

  lemma AddOrderly(env: Env, s: Store, t: Store, es: seq<Event>, f: Event)
    requires BookInv(env, s, es) && Orderly(s, es) && KeepsLines(s, t) && Admissible(env, s, f)
    ensures Orderly(t, es + [f])
  {
    CountersignOnLines(env, es);
    OrderlyStays(s, t, es);
    AdmissibleRooted(env, s, es, f);
    forall i | 0 <= i < |es|
      ensures MayFollow(es[i], f)
    {
      AdmissibleFollows(env, s, es, f, i);
    }
    OrderlyMore(t, es, f);
  }

  /** A line and the strike on the one it replaces. */
  lemma AddPairOrderly(env: Env, s: Store, t: Store, es: seq<Event>, e: Event, f: Event)
    requires BookInv(env, s, es) && Orderly(s, es) && KeepsLines(s, t)
    requires Admissible(env, s, e) && e.tag == EVENT_LINE && Admissible(env, s, f) && f.tag == EVENT_STRIKE
    ensures Orderly(t, es + [e] + [f])
  {
    AddOrderly(env, s, t, es, e);
    AdmissibleRooted(env, s, es, f);
    LinesMore(es, e);
    SlotIsFree(env, s, FIRST_ENTRY_PAGE, e.subject);
    forall i | 0 <= i < |es + [e]|
      ensures MayFollow((es + [e])[i], f)
    {
      if i < |es| { AdmissibleFollows(env, s, es, f, i); }
    }
    OrderlyMore(t, es + [e], f);
  }

  lemma {:induction false} WriteAdmissible(env: Env, s: Store, step: Step, previous: seq<byte>, n: nat, j: nat, l: Link)
    requires step.Write? && Now(env, s, step) && j < |Entries(env, s, step)|
    ensures Admissible(env, s, NewEvent(env, previous, n, Entries(env, s, step), l, j))
  {
  }

  lemma {:induction false} EntryAdmissible(env: Env, s: Store, step: Step, previous: seq<byte>, n: nat, j: nat, l: Link)
    requires Now(env, s, step) && j < |Entries(env, s, step)|
    ensures Admissible(env, s, NewEvent(env, previous, n, Entries(env, s, step), l, j))
  {
    if step.Write? { WriteAdmissible(env, s, step, previous, n, j, l); }
  }

  lemma StepOrderly(env: Env, s: Store, es: seq<Event>, step: Step)
    requires BookInv(env, s, es) && Orderly(s, es) && Now(env, s, step)
    ensures Orderly(Do(env, s, step), EventsAfter(env, s, es, step))
  {
    StepGrows(env, s, step);
    if Chains(step) {
      ChainedOrderly(env, s, Do(env, s, step), es, step);
    } else {
      CountersignOnLines(env, es);
      OrderlyStays(s, Do(env, s, step), es);
    }
  }

  lemma {:induction false} ChainedOrderly(env: Env, s: Store, t: Store, es: seq<Event>, step: Step)
    requires BookInv(env, s, es) && Orderly(s, es) && Now(env, s, step) && Chains(step) && KeepsLines(s, t)
    ensures Orderly(t, EventsAfter(env, s, es, step))
  {
    NowNumbered(env, s, step);
    AfterIsExtended(env, s, es, step);
    var xs, links := Entries(env, s, step), step.seal.links;
    var previous, n := Previous(es, |es|), |es|;
    var e := NewEvent(env, previous, n, xs, links[0], 0);
    EntryAdmissible(env, s, step, previous, n, 0, links[0]);
    if |xs| == 1 {
      AddOrderly(env, s, t, es, e);
    } else {
      var f := NewEvent(env, previous, n, xs, links[1], 1);
      EntryAdmissible(env, s, step, previous, n, 1, links[1]);
      AddPairOrderly(env, s, t, es, e, f);
      AppendTwo(es, e, f);
    }
  }

  lemma {:induction false} RunOrderly(env: Env, s: Store, es: seq<Event>, run: seq<Step>)
    requires BookInv(env, s, es) && Orderly(s, es) && Legal(env, s, run)
    ensures Orderly(Exec(env, s, run), Told(env, s, es, run))
    decreases |run|
  {
    if run != [] {
      StepKept(env, s, es, run[0]);
      StepOrderly(env, s, es, run[0]);
      RunOrderly(env, Do(env, s, run[0]), EventsAfter(env, s, es, run[0]), run[1..]);
    }
  }

  /** In the event stream of every run: line events come in key order, one to a line;
      endorsements of a line follow it, by pairwise different actors who did not write
      it; a strike comes last. */
  lemma ReachableOrderly(env: Env, run: seq<Step>)
    requires Legal(env, Empty(), run)
    ensures var s := Exec(env, Empty(), run);
            Accepts(env, s) && Orderly(s, Events(env, s))
  {
    EmptyInv(env);
    RunOrderly(env, Empty(), [], run);
    RunKept(env, Empty(), [], run);
    InvAccepts(env, Exec(env, Empty(), run), Told(env, Empty(), [], run));
  }
}
