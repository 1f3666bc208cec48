/** Every log that steps of the book can reach is one the verifier accepts. */
module Acceptance {
  import opened Common
  import opened Bytes
  import opened Entities
  import opened Records
  import opened Listings
  import opened Chain
  import opened Transactions
  import opened Sealing
  import opened Book
  import opened Growth
  import opened Allocation

  // What is kept.

  /** Every record was written under some actor's name. */
  ghost predicate AuthorsOk(s: Store) {
    && (forall x | x in s.decl :: s.decl[x].author.typ == TYPE_ACTOR)
    && (forall a, b | b in Row(s, a) :: Row(s, a)[b].author.typ == TYPE_ACTOR)
  }

  /** What the events of each kind are about. */
  predicate ShapeOk(env: Env, tag: byte, subject: Entity, party: Entity) {
    || (tag == EVENT_LINE && subject.typ == TYPE_ENTRY && party == ZERO)
    || (tag == EVENT_STRIKE && subject.typ == TYPE_ENTRY && party == Marker(env))
    || (tag == EVENT_COUNTERSIGN && subject.typ == TYPE_ENTRY && party.typ == TYPE_ACTOR)
    || (tag == EVENT_SIGNOFF && subject.typ == TYPE_PAGE && party == Marker(env))
    || (tag == EVENT_DECLARE && (subject.typ == TYPE_FIELD || subject.typ == TYPE_TERM) && party == ZERO)
    || (tag == EVENT_FIELD_STATE && subject.typ == TYPE_FIELD && party == Marker(env))
  }

  predicate ShapesOk(env: Env, es: seq<Event>) {
    forall i | 0 <= i < |es| :: ShapeOk(env, es[i].tag, es[i].subject, es[i].party)
  }

  predicate HeadOk(env: Env, s: Store, es: seq<Event>) {
    if Head(env) in s.decl then
      && |s.decl[Head(env)].data| == HEAD_LEN && HeadCount(env, s) == |es| && HeadDigest(env, s) == Previous(es, |es|)
    else es == []
  }

  ghost predicate AllGood(env: Env, s: Store, es: seq<Event>) {
    forall i: nat | i < |es| :: EventGood(env, s, es, i)
  }

  ghost predicate LinesChained(s: Store, es: seq<Event>) {
    forall x: Entity :: x in LineSubjects(es) <==> x.typ == TYPE_ENTRY && x in s.decl
  }

  ghost predicate ChainInv(env: Env, s: Store, es: seq<Event>) {
    && Spells(LinkRow(env, s), es)
    && HeadOk(env, s, es)
    && AllGood(env, s, es)
    && StatesMatch(env, s, es)
    && ShapesOk(env, es)
    && AuthorsOk(s)
    && LinesChained(s, es)
    && NoOrphans(s)
  }

  /** A store with the invariant is accepted, and the events it spells are counted. */
  lemma InvAccepts(env: Env, s: Store, es: seq<Event>)
    requires ChainInv(env, s, es) && AllocInv(env, s)
    ensures Accepts(env, s) && Events(env, s) == es && HeadCount(env, s) == |es|
  {
    AllocatedIsDeclared(env, s);
    assert LinesAreChained(env, s, es);
  }

  // Events already in the chain.

  lemma KeyKept(env: Env, s: Store, t: Store, k: Key, r: Record)
    requires KeepsKeys(s, t) && r.author.typ == TYPE_ACTOR && Verified(env, s, k, r)
    ensures Verified(env, t, k, r)
  {
  }

  lemma LineKept(env: Env, s: Store, t: Store, x: Entity)
    requires Grows(s, t) && AuthorsOk(s) && x.typ == TYPE_ENTRY && LineVerified(env, s, x)
    ensures LineVerified(env, t, x)
  {
    KeyKept(env, s, t, DeclKey(x), s.decl[x]);
    forall b | b in ContentRow(t, x)
      ensures Verified(env, t, RelKey(x, b), ContentRow(t, x)[b])
    {
      assert b in Row(s, x);
      KeyKept(env, s, t, RelKey(x, b), ContentRow(s, x)[b]);
    }
  }

  lemma RecordKept(env: Env, s: Store, t: Store, x: Entity, b: Entity)
    requires Grows(s, t) && AuthorsOk(s) && Fixed(x) && b != ZERO && Lookup(s, x, b).Some?
    requires Verified(env, s, RelKey(x, b), Lookup(s, x, b).value)
    ensures Lookup(t, x, b) == Lookup(s, x, b) && Verified(env, t, RelKey(x, b), Lookup(t, x, b).value)
  {
    KeyKept(env, s, t, RelKey(x, b), Lookup(s, x, b).value);
  }

  lemma ContentStays(env: Env, s: Store, t: Store, e: Event)
    requires Grows(s, t) && AuthorsOk(s) && ShapeOk(env, e.tag, e.subject, e.party)
    requires ContentVerified(env, s, e)
    ensures ContentVerified(env, t, e) && EventContent(t, e) == EventContent(s, e)
  {
    if e.tag == EVENT_LINE {
      LineKept(env, s, t, e.subject);
    } else if !MutableTag(e.tag) {
      RecordKept(env, s, t, e.subject, e.party);
    }
  }

  lemma StaysSound(env: Env, s: Store, t: Store, previous: seq<byte>, no: nat, e: Event)
    requires Grows(s, t) && AuthorsOk(s) && ShapeOk(env, e.tag, e.subject, e.party) && e.link.author.typ == TYPE_ACTOR
    requires Sound(env, s, previous, no, e)
    ensures Sound(env, t, previous, no, e)
  {
    KeyKept(env, s, t, RelKey(Anchor(env), FromValue(no)), e.link);
    ContentStays(env, s, t, e);
  }

  // Events a step adds.

  /** The store holds what the entry says its writer wrote. */
  ghost predicate EntryHolds(env: Env, t: Store, x: Entry) {
    if x.tag == EVENT_LINE then LineVerified(env, t, x.subject) &&
      x.content == ContentBytes(x.subject, ContentRow(t, x.subject))
    else if MutableTag(x.tag) then x.content == x.tail
    else
      && Lookup(t, x.subject, x.party).Some?
      && Verified(env, t, RelKey(x.subject, x.party), Lookup(t, x.subject, x.party).value)
      && x.content == Encode(Lookup(t, x.subject, x.party).value)
  }

  lemma NewContent(env: Env, t: Store, e: Event, x: Entry)
    requires e.tag == x.tag && e.subject == x.subject && e.party == x.party && e.tail == x.tail && EntryHolds(env, t, x)
    ensures ContentVerified(env, t, e) && EventContent(t, e) == Some(x.content) && EventKey(e) == EntryKey(x)
  {
  }

  lemma {:induction false} NewSound(env: Env, s: Store, t: Store, previous: seq<byte>, n: nat, xs: seq<Entry>,
                                    l: Link, j: nat)
    requires j < |xs| && LinkFits(env, s, previous, n, xs, l, j) && KeepsKeys(s, t) && EntryHolds(env, t, xs[j])
    ensures Sound(env, t, Running(env, previous, n, xs, j), n + j + 1, NewEvent(env, previous, n, xs, l, j))
  {
    KeyKept(env, s, t, RelKey(Anchor(env), FromValue(n + j + 1)), l.fwd);
    NewContent(env, t, NewEvent(env, previous, n, xs, l, j), xs[j]);
  }

  lemma LinkAuthor(env: Env, s: Store, es: seq<Event>, i: nat)
    requires AuthorsOk(s) && Spells(LinkRow(env, s), es) && i < |es|
    ensures es[i].link.author.typ == TYPE_ACTOR
  {
    var links := Listing(LinkRow(env, s), 1, ENTITY_COUNT);
    ListingMembers(LinkRow(env, s), 1, ENTITY_COUNT, links[i].0, links[i].1);
    assert links[i] in links;
  }

  /** What the chain of a step hangs on. */
  ghost predicate Extends(env: Env, s: Store, es: seq<Event>, xs: seq<Entry>, seal: Seal) {
    && ChainInv(env, s, es) && 1 <= |xs| <= 2
    && SealFits(env, s, Previous(es, |es|), |es|, xs, seal)
  }

  ghost function Extended(env: Env, es: seq<Event>, xs: seq<Entry>, seal: Seal): seq<Event>
    requires |seal.links| == |xs| && 1 <= |xs| <= 2
  {
    es + NewEvents(env, Previous(es, |es|), |es|, xs, seal.links)
  }

  lemma DigestLength(env: Env, s: Store, es: seq<Event>)
    requires Spells(LinkRow(env, s), es)
    ensures |Previous(es, |es|)| == DIGEST_LEN
  {
  }

  lemma FirstNew(es: seq<Event>, e: Event, more: seq<Event>)
    requires |more| <= 1
    ensures |es + ([e] + more)| == |es| + 1 + |more| && (es + ([e] + more))[..|es|] == es &&
            (es + ([e] + more))[|es|] == e
    ensures Previous(es + ([e] + more), |es|) == Previous(es, |es|) && Previous(es + ([e] + more), |es| + 1) == e.digest
    ensures more != [] ==>
              (es + ([e] + more))[|es| + 1] == more[0] && Previous(es + ([e] + more), |es| + 2) == more[0].digest
  {
  }

  /** The events before, and the new ones after them. */
  lemma {:induction false} ExtendedParts(env: Env, es: seq<Event>, xs: seq<Entry>, seal: Seal)
    requires |seal.links| == |xs| && 1 <= |xs| <= 2
    ensures |Extended(env, es, xs, seal)| == |es| + |xs| && Extended(env, es, xs, seal)[..|es|] == es
    ensures forall j: nat | j < |xs| ::
              Extended(env, es, xs, seal)[|es| + j] == NewEvent(env, Previous(es, |es|), |es|, xs, seal.links[j], j)
    ensures forall j: nat | j <= |xs| ::
              Previous(Extended(env, es, xs, seal), |es| + j) == Running(env, Previous(es, |es|), |es|, xs, j)
  {
    var p, n := Previous(es, |es|), |es|;
    var e := NewEvent(env, p, n, xs, seal.links[0], 0);
    var more := if |xs| == 1 then [] else [NewEvent(env, p, n, xs, seal.links[1], 1)];
    assert NewEvents(env, p, n, xs, seal.links) == [e] + more;
    FirstNew(es, e, more);
  }

  lemma OldSound(env: Env, s: Store, t: Store, es: seq<Event>)
    requires ChainInv(env, s, es) && Grows(s, t)
    ensures AllGood(env, t, es)
  {
    forall i: nat | i < |es|
      ensures EventGood(env, t, es, i)
    {
      assert EventGood(env, s, es, i);
      LinkAuthor(env, s, es, i);
      StaysSound(env, s, t, Previous(es, i), i + 1, es[i]);
    }
  }

  /** One more sound event. */
  lemma MoreGood(env: Env, t: Store, es: seq<Event>, e: Event)
    requires AllGood(env, t, es) && Sound(env, t, Previous(es, |es|), |es| + 1, e)
    ensures AllGood(env, t, es + [e])
  {
    forall i: nat | i < |es| + 1
      ensures EventGood(env, t, es + [e], i)
    {
      assert i < |es| ==> EventGood(env, t, es, i);
      assert Previous(es + [e], i) == Previous(es, i);
    }
  }

  /** The event of entry j after the events before it. */
  lemma {:induction false} MoreSound(env: Env, s: Store, t: Store, gs: seq<Event>, previous: seq<byte>, n: nat,
                                     xs: seq<Entry>, l: Link, j: nat)
    requires AllGood(env, t, gs) && KeepsKeys(s, t)
    requires |gs| == n + j && j < |xs| && Previous(gs, |gs|) == Running(env, previous, n, xs, j)
    requires LinkFits(env, s, previous, n, xs, l, j) && EntryHolds(env, t, xs[j])
    ensures AllGood(env, t, gs + [NewEvent(env, previous, n, xs, l, j)])
  {
    NewSound(env, s, t, previous, n, xs, l, j);
    MoreGood(env, t, gs, NewEvent(env, previous, n, xs, l, j));
  }

  lemma {:induction false} AllGoodAfter(env: Env, s: Store, t: Store, es: seq<Event>, xs: seq<Entry>, seal: Seal)
    requires Extends(env, s, es, xs, seal) && Grows(s, t)
    requires forall j | 0 <= j < |xs| :: EntryHolds(env, t, xs[j])
    ensures AllGood(env, t, Extended(env, es, xs, seal))
  {
    var previous, n := Previous(es, |es|), |es|;
    OldSound(env, s, t, es);
    MoreSound(env, s, t, es, previous, n, xs, seal.links[0], 0);
    if |xs| == 2 {
      var e, f := NewEvent(env, previous, n, xs, seal.links[0], 0), NewEvent(env, previous, n, xs, seal.links[1], 1);
      MoreSound(env, s, t, es + [e], previous, n, xs, seal.links[1], 1);
      AppendTwo(es, e, f);
    }
  }

  lemma {:induction false} ForwardRowKinds(n: nat, links: seq<Link>)
    requires n + |links| < ENTITY_COUNT && forall j | 0 <= j < |links| :: links[j].fwd.kind == KIND_CHAIN_LINK
    ensures forall b | b in ForwardRow(n, links) :: ForwardRow(n, links)[b].kind == KIND_CHAIN_LINK && b != ZERO
  {
    if links != [] {
      ForwardRowKinds(n, links[..|links| - 1]);
      ZeroValue(FromValue(n + |links|));
    }
  }

  lemma LinksOfMore(row: Relations, more: Relations)
    requires forall b | b in more :: more[b].kind == KIND_CHAIN_LINK && b != ZERO
    ensures LinksOf(row + more) == LinksOf(row) + more
  {
  }

  lemma LastNumber(env: Env, s: Store, es: seq<Event>, xs: seq<Entry>, seal: Seal)
    requires 1 <= |xs| && SealFits(env, s, Previous(es, |es|), |es|, xs, seal)
    ensures |es| + |xs| < ENTITY_COUNT
    ensures forall j | 0 <= j < |xs| :: seal.links[j].fwd.kind == KIND_CHAIN_LINK
  {
    var k: nat := |xs| - 1;
    assert LinkFits(env, s, Previous(es, |es|), |es|, xs, seal.links[k], k);
  }

  lemma {:induction false} SpellsAfter(env: Env, s: Store, t: Store, es: seq<Event>, xs: seq<Entry>, seal: Seal)
    requires Extends(env, s, es, xs, seal) && |es| + |xs| < ENTITY_COUNT
    requires Row(t, Anchor(env)) == Row(s, Anchor(env)) + ForwardRow(|es|, seal.links)
    ensures Spells(LinkRow(env, t), Extended(env, es, xs, seal))
  {
    LastNumber(env, s, es, xs, seal);
    ForwardRowKinds(|es|, seal.links);
    LinksOfMore(Row(s, Anchor(env)), ForwardRow(|es|, seal.links));
    DigestLength(env, s, es);
    SealSpells(env, s, Previous(es, |es|), xs, seal.links, LinkRow(env, s), es);
  }

  lemma {:induction false} HeadAfter(env: Env, s: Store, t: Store, es: seq<Event>, xs: seq<Entry>, seal: Seal)
    requires 1 <= |xs| <= 2 && SealFits(env, s, Previous(es, |es|), |es|, xs, seal) &&
             |Previous(es, |es|)| == DIGEST_LEN
    requires Head(env) in t.decl && t.decl[Head(env)] == seal.head
    ensures HeadOk(env, t, Extended(env, es, xs, seal))
  {
    LastNumber(env, s, es, xs, seal);
    HeadParts(Running(env, Previous(es, |es|), |es|, xs, |xs|), |es| + |xs|);
    ExtendedParts(env, es, xs, seal);
    HeadFits(env, t, Extended(env, es, xs, seal), seal.head);
  }

  lemma HeadFits(env: Env, t: Store, fs: seq<Event>, head: Record)
    requires Head(env) in t.decl && t.decl[Head(env)] == head && |head.data| == HEAD_LEN
    requires head.data[..DIGEST_LEN] == Previous(fs, |fs|) && Number(head.data[DIGEST_LEN..]) == |fs|
    ensures HeadOk(env, t, fs)
  {
  }

  lemma HeadParts(d: seq<byte>, n: nat)
    requires |d| == DIGEST_LEN && n < ENTITY_COUNT
    ensures |HeadData(d, n)| == HEAD_LEN && HeadData(d, n)[..DIGEST_LEN] == d &&
            Number(HeadData(d, n)[DIGEST_LEN..]) == n
  {
    assert HeadData(d, n)[DIGEST_LEN..] == BigEndian(n, 8);
    EntityPower();
    PowerGrows(4, 8);
    NumberOfBigEndian(n, 8);
  }

  lemma {:induction false} PowerGrows(v: nat, w: nat)
    requires v <= w
    ensures Pow256(v) <= Pow256(w)
    decreases w
  {
    if v < w { PowerGrows(v, w - 1); }
  }
}
