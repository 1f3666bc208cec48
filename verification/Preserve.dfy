/** Each step of the book keeps the invariant of its chain. */
module Preserve {
  import opened Common
  import opened Bytes
  import opened Entities
  import opened Records
  import opened Listings
  import opened Chain
  import opened Transactions
  import opened Sealing
  import opened Book
  import opened Growth
  import opened Allocation
  import opened Acceptance

  // The store after a step.

  /** t is s after transaction p, with or without n events and more sealed. */
  ghost predicate Lands(env: Env, s: Store, t: Store, p: Txn, n: nat, seal: Option<Seal>) {
    && t.decl == s.decl + (if seal.Some? then p.decl[Head(env) := seal.value.head] else p.decl)
    && (forall a | a != Anchor(env) :: Row(t, a) == Row(s, a) + Forward(p, a))
    && (seal.Some? ==>
          && n + |seal.value.links| < ENTITY_COUNT
          && Row(t, Anchor(env)) == Row(s, Anchor(env)) + ForwardRow(n, seal.value.links))
    && (seal.None? ==> Row(t, Anchor(env)) == Row(s, Anchor(env)))
  }

  function SealOf(step: Step): Option<Seal> { if Chains(step) then Some(step.seal) else None }

  ghost predicate After(env: Env, s: Store, t: Store, step: Step) {
    Lands(env, s, t, Plain(env, step), HeadCount(env, s), SealOf(step))
  }

  lemma SealedLands(env: Env, s: Store, p: Txn, n: nat, seal: Seal)
    requires n + |seal.links| < ENTITY_COUNT
    ensures Lands(env, s, Commit(s, Sealed(env, p, n, seal)), p, n, Some(seal))
  {
    var q := Sealed(env, p, n, seal);
    ForwardOfSeal(n, seal.links);
    RowAfter(s, q, Anchor(env));
    forall a | a != Anchor(env)
      ensures Row(Commit(s, q), a) == Row(s, a) + Forward(p, a)
    {
      RowAfter(s, q, a);
    }
  }

  lemma PlainLands(env: Env, s: Store, p: Txn, n: nat)
    requires Anchor(env) !in p.rel || p.rel[Anchor(env)] == map[]
    ensures Lands(env, s, Commit(s, p), p, n, None)
  {
    forall a
      ensures Row(Commit(s, p), a) == Row(s, a) + Forward(p, a)
    {
      RowAfter(s, p, a);
    }
  }

  lemma AnchorUntouched(env: Env, s: Store, step: Step)
    requires Now(env, s, step) && !Chains(step)
    ensures var p := Plain(env, step); Anchor(env) !in p.rel || p.rel[Anchor(env)] == map[]
  {
    if step.Derive? {
      forall a, b | a in step.edges && b in step.edges[a]
        ensures a.typ == TYPE_TERM
      {
        assert EdgeOk(env, s, a, b, step.edges[a][b]);
      }
    }
  }

  lemma DoChained(env: Env, s: Store, step: Step)
    requires Chains(step) && HeadCount(env, s) + |step.seal.links| < ENTITY_COUNT
    ensures After(env, s, Do(env, s, step), step)
  {
    SealedLands(env, s, Plain(env, step), HeadCount(env, s), step.seal);
  }

  lemma DoPlain(env: Env, s: Store, step: Step)
    requires Now(env, s, step) && !Chains(step)
    ensures After(env, s, Do(env, s, step), step)
  {
    AnchorUntouched(env, s, step);
    PlainLands(env, s, Plain(env, step), HeadCount(env, s));
  }

  // Renames and vocabulary states.

  ghost predicate KeepsNames(s: Store, t: Store, x: Entity) {
    forall e: Entity | (e.typ == TYPE_FIELD || e.typ == TYPE_TERM) && e in s.decl && e != x ::
      e in t.decl && t.decl[e] == s.decl[e]
  }

  ghost predicate KeepsStates(env: Env, s: Store, t: Store, y: Entity) {
    forall f: Entity | f.typ == TYPE_FIELD && f != y && Marker(env) in Row(s, f) ::
      Marker(env) in Row(t, f) && Row(t, f)[Marker(env)] == Row(s, f)[Marker(env)]
  }

  lemma StateStays(env: Env, s: Store, t: Store, e: Event, x: Entity, y: Entity)
    requires KeepsKeys(s, t) && KeepsNames(s, t, x) && KeepsStates(env, s, t, y) && AuthorsOk(s)
    requires ShapeOk(env, e.tag, e.subject, e.party) && MutableTag(e.tag) && StateMatches(env, s, e)
    requires e.tag == EVENT_DECLARE ==> e.subject != x
    requires e.tag == EVENT_FIELD_STATE ==> e.subject != y
    ensures StateMatches(env, t, e)
  {
    KeyKept(env, s, t, RelKey(e.subject, e.party), Lookup(s, e.subject, e.party).value);
  }

  lemma {:induction false} LatestFacts(env: Env, es: seq<Event>)
    requires ShapesOk(env, es)
    ensures forall k | k in Latest(es) ::
              && MutableTag(Latest(es)[k].tag) && k == RelKey(Latest(es)[k].subject, Latest(es)[k].party)
              && ShapeOk(env, Latest(es)[k].tag, Latest(es)[k].subject, Latest(es)[k].party)
  {
    if es != [] {
      LatestFacts(env, es[..|es| - 1]);
    }
  }

  lemma LatestMore(es: seq<Event>, e: Event)
    ensures Latest(es + [e]) == if MutableTag(e.tag) then Latest(es)[RelKey(e.subject, e.party) := e] else Latest(es)
  {
    assert (es + [e])[..|es|] == es;
  }

  /** States still match when nothing renamed or closed anything. */
  lemma StatesStay(env: Env, s: Store, t: Store, es: seq<Event>)
    requires AuthorsOk(s) && ShapesOk(env, es) && StatesMatch(env, s, es)
    requires KeepsKeys(s, t) && KeepsNames(s, t, ZERO) && KeepsStates(env, s, t, ZERO)
    ensures StatesMatch(env, t, es)
  {
    LatestFacts(env, es);
    forall k | k in Latest(es)
      ensures StateMatches(env, t, Latest(es)[k])
    {
      StateStays(env, s, t, Latest(es)[k], ZERO, ZERO);
    }
  }

  lemma StatesMore(env: Env, t: Store, es: seq<Event>, e: Event)
    requires StatesMatch(env, t, es) && !MutableTag(e.tag)
    ensures StatesMatch(env, t, es + [e])
  {
    LatestMore(es, e);
  }

  /** The last event is about x, and only the record of x changed. */
  lemma StatesRewritten(env: Env, s: Store, t: Store, es: seq<Event>, e: Event, x: Entity, y: Entity)
    requires AuthorsOk(s) && ShapesOk(env, es) && StatesMatch(env, s, es)
    requires KeepsKeys(s, t) && KeepsNames(s, t, x) && KeepsStates(env, s, t, y)
    requires MutableTag(e.tag) && ShapeOk(env, e.tag, e.subject, e.party) && StateMatches(env, t, e)
    requires if e.tag == EVENT_DECLARE then x == e.subject && y == ZERO else y == e.subject && x == ZERO
    ensures StatesMatch(env, t, es + [e])
  {
    OtherStates(env, s, t, es, e, x, y);
    LatestMore(es, e);
  }

  lemma OtherStates(env: Env, s: Store, t: Store, es: seq<Event>, e: Event, x: Entity, y: Entity)
    requires AuthorsOk(s) && ShapesOk(env, es) && StatesMatch(env, s, es)
    requires KeepsKeys(s, t) && KeepsNames(s, t, x) && KeepsStates(env, s, t, y)
    requires ShapeOk(env, e.tag, e.subject, e.party)
    requires if e.tag == EVENT_DECLARE
             then x == e.subject && y == ZERO else e.tag == EVENT_FIELD_STATE && y == e.subject && x == ZERO
    ensures forall k | k in Latest(es) && k != RelKey(e.subject, e.party) :: StateMatches(env, t, Latest(es)[k])
  {
    LatestFacts(env, es);
    forall k | k in Latest(es) && k != RelKey(e.subject, e.party)
      ensures StateMatches(env, t, Latest(es)[k])
    {
      StateStays(env, s, t, Latest(es)[k], x, y);
    }
  }

  // The lines, the authors, the orphans.

  lemma LinesMore(es: seq<Event>, e: Event)
    ensures LineSubjects(es + [e]) == LineSubjects(es) + if e.tag == EVENT_LINE then {e.subject} else {}
  {
    forall x
      ensures x in LineSubjects(es + [e]) <==> x in LineSubjects(es) || (e.tag == EVENT_LINE && x == e.subject)
    {
      if x in LineSubjects(es) {
        var f :| f in es && f.tag == EVENT_LINE && f.subject == x;
        assert f in es + [e];
      }
      if e.tag == EVENT_LINE && x == e.subject { assert e in es + [e]; }
    }
  }

  /** Every record a transaction writes was written under an actor's name. */
  ghost predicate Attributed(t: Txn) {
    && (forall x | x in t.decl :: t.decl[x].author.typ == TYPE_ACTOR)
    && (forall a, b | a in t.rel && b in t.rel[a] :: t.rel[a][b].fwd.author.typ == TYPE_ACTOR)
  }

  lemma {:induction false} ForwardRowAuthors(n: nat, links: seq<Link>)
    requires n + |links| < ENTITY_COUNT && forall j | 0 <= j < |links| :: links[j].fwd.author.typ == TYPE_ACTOR
    ensures forall b | b in ForwardRow(n, links) :: ForwardRow(n, links)[b].author.typ == TYPE_ACTOR
  {
    if links != [] { ForwardRowAuthors(n, links[..|links| - 1]); }
  }

  lemma AuthorsAfter(env: Env, s: Store, t: Store, p: Txn, n: nat, seal: Option<Seal>)
    requires AuthorsOk(s) && Lands(env, s, t, p, n, seal) && Attributed(p)
    requires seal.Some? ==> seal.value.head.author.typ == TYPE_ACTOR
                            && forall j | 0 <= j < |seal.value.links| ::
                               seal.value.links[j].fwd.author.typ == TYPE_ACTOR
    ensures AuthorsOk(t)
  {
    if seal.Some? { ForwardRowAuthors(n, seal.value.links); }
    forall a, b | b in Row(t, a)
      ensures Row(t, a)[b].author.typ == TYPE_ACTOR
    {
      assert a != Anchor(env) ==> Row(t, a) == Row(s, a) + Forward(p, a);
    }
  }

  lemma OrphansAfter(env: Env, s: Store, t: Store, p: Txn, n: nat, seal: Option<Seal>)
    requires NoOrphans(s) && Lands(env, s, t, p, n, seal)
    requires forall a: Entity | a in p.rel && a.typ == TYPE_ENTRY :: a in t.decl
    ensures NoOrphans(t)
  {
    forall a: Entity | a.typ == TYPE_ENTRY && a !in t.decl
      ensures Row(t, a) == map[]
    {
      assert Row(t, a) == Row(s, a) + Forward(p, a);
    }
  }
}
