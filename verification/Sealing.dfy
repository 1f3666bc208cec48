/** How a transaction extends the event chain: each event is digested onto the one
    before, linked under the anchor at its number, and the head moves to the last. */
module Sealing {
  import opened Bytes
  import opened Entities
  import opened Records
  import opened Listings
  import opened Chain
  import opened Transactions

  /** One event as its writer describes it: what it is about and the content its
      digest covers. */
  datatype Entry = Entry(tag: byte, subject: Entity, party: Entity, content: seq<byte>, tail: seq<byte>)

  function EntryKey(x: Entry): Key {
    if x.tag == EVENT_LINE then DeclKey(x.subject) else RelKey(x.subject, x.party)
  }

  /** The digest after j of the entries, the first of which is event n + 1. */
  function Running(env: Env, previous: seq<byte>, n: nat, xs: seq<Entry>, j: nat): (d: seq<byte>)
    requires j <= |xs|
    ensures |previous| == DIGEST_LEN ==> |d| == DIGEST_LEN
  {
    if j == 0 then previous
    else
      var x := xs[j - 1];
      env.hash(Preimage(Running(env, previous, n, xs, j - 1), n + j, x.tag, EntryKey(x), x.content))
  }

  /** The link records, in order, and the new head. */
  datatype Seal = Seal(links: seq<Link>, head: Record)

  ghost predicate LinkFits(env: Env, s: Store, previous: seq<byte>, n: nat, xs: seq<Entry>, l: Link, j: nat)
    requires j < |xs|
  {
    && n + j + 1 < ENTITY_COUNT && FromValue(n + j + 1) != Anchor(env)
    && l.fwd.kind == KIND_CHAIN_LINK && SameBody(l.fwd, l.rev) && l.fwd.author.typ == TYPE_ACTOR
    && l.fwd.data == Payload(xs[j].tag, xs[j].subject, xs[j].party, Running(env, previous, n, xs, j + 1), xs[j].tail)
    && Verified(env, s, RelKey(Anchor(env), FromValue(n + j + 1)), l.fwd)
  }

  /** The seal is the one the chain builder makes for these entries. */
  ghost predicate SealFits(env: Env, s: Store, previous: seq<byte>, n: nat, xs: seq<Entry>, seal: Seal) {
    && |seal.links| == |xs|
    && (forall j: nat | j < |xs| :: LinkFits(env, s, previous, n, xs, seal.links[j], j))
    && seal.head.data == HeadData(Running(env, previous, n, xs, |xs|), n + |xs|)
    && seal.head.author.typ == TYPE_ACTOR
  }

  ghost function SealRow(n: nat, links: seq<Link>): map<Entity, Link>
    requires n + |links| < ENTITY_COUNT
  {
    if links == [] then map[]
    else SealRow(n, links[..|links| - 1])[FromValue(n + |links|) := links[|links| - 1]]
  }

  function NewEvent(env: Env, previous: seq<byte>, n: nat, xs: seq<Entry>, l: Link, j: nat): Event
    requires j < |xs|
  {
    Event(n + j + 1, xs[j].tag, xs[j].subject, xs[j].party, Running(env, previous, n, xs, j + 1), xs[j].tail, l.fwd)
  }

  // One more link at the end of the row.

  ghost predicate NumberedTo(row: Relations, n: nat) {
    forall e | e in row :: 1 <= Value(e) <= n
  }

  lemma {:induction false} NothingFrom<T>(m: map<Entity, T>, lo: nat, hi: nat)
    requires hi <= ENTITY_COUNT && forall e | e in m :: Value(e) < lo
    ensures Listing(m, lo, hi) == []
    decreases hi - lo
  {
    if lo < hi { NothingFrom(m, lo + 1, hi); }
  }

  lemma {:induction false} ListingFrame<T>(m: map<Entity, T>, lo: nat, hi: nat, e: Entity, x: T)
    requires hi <= ENTITY_COUNT && Value(e) >= hi
    ensures Listing(m[e := x], lo, hi) == Listing(m, lo, hi)
    decreases hi - lo
  {
    if lo < hi { ListingFrame(m, lo + 1, hi, e, x); }
  }

  lemma {:induction false} LastOnly<T>(m: map<Entity, T>, n: nat)
    requires n < ENTITY_COUNT && forall e | e in m :: Value(e) <= n
    ensures Listing(m, n, ENTITY_COUNT) == if FromValue(n) in m then [(FromValue(n), m[FromValue(n)])] else []
  {
    NothingFrom(m, n + 1, ENTITY_COUNT);
  }

  lemma {:induction false} OneMore(row: Relations, n: nat, r: Record)
    requires n + 1 < ENTITY_COUNT && NumberedTo(row, n)
    ensures Listing(row[FromValue(n + 1) := r], 1, ENTITY_COUNT) == Listing(row, 1, ENTITY_COUNT) +
            [(FromValue(n + 1), r)]
    ensures NumberedTo(row[FromValue(n + 1) := r], n + 1)
  {
    var e := FromValue(n + 1);
    ListingSplit(row[e := r], 1, n + 1, ENTITY_COUNT);
    ListingFrame(row, 1, n + 1, e, r);
    LastOnly(row[e := r], n + 1);
    ListingSplit(row, 1, n + 1, ENTITY_COUNT);
    LastOnly(row, n + 1);
    JoinLast(Listing(row, 1, n + 1), Listing(row, 1, ENTITY_COUNT), Listing(row[e := r], 1, ENTITY_COUNT), (e, r));
  }

  lemma JoinLast<T>(a: seq<T>, all: seq<T>, more: seq<T>, x: T)
    requires all == a + [] && more == a + [x]
    ensures more == all + [x]
  {
  }

  lemma {:induction false} ParseMore(links: seq<(Entity, Record)>, x: (Entity, Record))
    requires Parseable(links) && |x.1.data| >= LINK_HEAD_LEN
    ensures Parseable(links + [x]) && ParseLinks(links + [x]) == ParseLinks(links) + [ParseLink(x.0, x.1)]
  {
  }

  /** The event row and the events it spells. */
  ghost predicate Spells(row: Relations, es: seq<Event>) {
    && NumberedTo(row, |es|)
    && Parseable(Listing(row, 1, ENTITY_COUNT)) && ParseLinks(Listing(row, 1, ENTITY_COUNT)) == es
  }

  lemma {:induction false} SpellsMore(row: Relations, es: seq<Event>, r: Record, e: Event)
    requires Spells(row, es) && |es| + 1 < ENTITY_COUNT
    requires |r.data| >= LINK_HEAD_LEN && ParseLink(FromValue(|es| + 1), r) == e
    ensures Spells(row[FromValue(|es| + 1) := r], es + [e])
  {
    OneMore(row, |es|, r);
    ParseMore(Listing(row, 1, ENTITY_COUNT), (FromValue(|es| + 1), r));
  }

  ghost function ForwardRow(n: nat, links: seq<Link>): Relations
    requires n + |links| < ENTITY_COUNT
  {
    if links == [] then map[]
    else ForwardRow(n, links[..|links| - 1])[FromValue(n + |links|) := links[|links| - 1].fwd]
  }

  lemma {:induction false} ForwardOfSeal(n: nat, links: seq<Link>)
    requires n + |links| < ENTITY_COUNT
    ensures (map b | b in SealRow(n, links) :: SealRow(n, links)[b].fwd) == ForwardRow(n, links)
  {
    if links != [] { ForwardOfSeal(n, links[..|links| - 1]); }
  }

  lemma {:induction false} LinkSpells(env: Env, s: Store, previous: seq<byte>, n: nat, xs: seq<Entry>, l: Link, j: nat)
    requires |previous| == DIGEST_LEN && j < |xs| && LinkFits(env, s, previous, n, xs, l, j)
    ensures |l.fwd.data| >= LINK_HEAD_LEN
    ensures ParseLink(FromValue(n + j + 1), l.fwd) == NewEvent(env, previous, n, xs, l, j)
  {
    ParsePayload(FromValue(n + j + 1), l.fwd, xs[j].tag, xs[j].subject, xs[j].party,
                 Running(env, previous, n, xs, j + 1), xs[j].tail);
  }

  lemma {:induction false} LastSpells(env: Env, s: Store, previous: seq<byte>, n: nat, xs: seq<Entry>, l: Link,
                                      k: nat, row: Relations, gs: seq<Event>)
    requires |previous| == DIGEST_LEN && k < |xs| && LinkFits(env, s, previous, n, xs, l, k)
    requires |gs| == n + k && Spells(row, gs)
    ensures Spells(row[FromValue(n + k + 1) := l.fwd], gs + [NewEvent(env, previous, n, xs, l, k)])
  {
    LinkSpells(env, s, previous, n, xs, l, k);
    SpellsMore(row, gs, l.fwd, NewEvent(env, previous, n, xs, l, k));
  }

  /** The events of a transaction: one, or a line and the strike it puts on another. */
  function NewEvents(env: Env, previous: seq<byte>, n: nat, xs: seq<Entry>, links: seq<Link>): seq<Event>
    requires |links| == |xs| && 1 <= |xs| <= 2
  {
    var first := NewEvent(env, previous, n, xs, links[0], 0);
    if |xs| == 1 then [first] else [first, NewEvent(env, previous, n, xs, links[1], 1)]
  }

  lemma {:induction false} RowOne(row: Relations, n: nat, links: seq<Link>)
    requires |links| == 1 && n + 1 < ENTITY_COUNT
    ensures row + ForwardRow(n, links) == row[FromValue(n + 1) := links[0].fwd]
  {
    assert links[..0] == [];
  }

  lemma {:induction false} RowTwo(row: Relations, n: nat, links: seq<Link>)
    requires |links| == 2 && n + 2 < ENTITY_COUNT
    ensures row + ForwardRow(n, links) == row[FromValue(n + 1) := links[0].fwd][FromValue(n + 2) := links[1].fwd]
  {
    RowOne(row, n, links[..1]);
    AddThenPut(row, ForwardRow(n, links[..1]), FromValue(n + 2), links[1].fwd);
  }

  lemma AddThenPut(row: Relations, more: Relations, e: Entity, r: Record)
    ensures row + more[e := r] == (row + more)[e := r]
  {
  }

  lemma AppendTwo<T>(s: seq<T>, a: T, b: T)
    ensures s + [a] + [b] == s + [a, b]
  {
  }

  lemma {:induction false} OneSpells(env: Env, s: Store, previous: seq<byte>, xs: seq<Entry>, links: seq<Link>,
                                     row: Relations, es: seq<Event>)
    requires |previous| == DIGEST_LEN && |links| == |xs| == 1 && |es| + 1 < ENTITY_COUNT
    requires LinkFits(env, s, previous, |es|, xs, links[0], 0)
    requires Spells(row, es)
    ensures Spells(row + ForwardRow(|es|, links), es + NewEvents(env, previous, |es|, xs, links))
  {
    LastSpells(env, s, previous, |es|, xs, links[0], 0, row, es);
    RowOne(row, |es|, links);
  }

  lemma {:induction false} TwoSpell(env: Env, s: Store, previous: seq<byte>, xs: seq<Entry>, links: seq<Link>,
                                    row: Relations, es: seq<Event>)
    requires |previous| == DIGEST_LEN && |links| == |xs| == 2 && |es| + 2 < ENTITY_COUNT
    requires LinkFits(env, s, previous, |es|, xs, links[0], 0) && LinkFits(env, s, previous, |es|, xs, links[1], 1)
    requires Spells(row, es)
    ensures Spells(row + ForwardRow(|es|, links), es + NewEvents(env, previous, |es|, xs, links))
  {
    var e := NewEvent(env, previous, |es|, xs, links[0], 0);
    LastSpells(env, s, previous, |es|, xs, links[0], 0, row, es);
    LastSpells(env, s, previous, |es|, xs, links[1], 1, row[FromValue(|es| + 1) := links[0].fwd], es + [e]);
    RowTwo(row, |es|, links);
    AppendTwo(es, e, NewEvent(env, previous, |es|, xs, links[1], 1));
  }

  /** The row with the new links spells the old events and the new ones. */
  lemma {:induction false} SealSpells(env: Env, s: Store, previous: seq<byte>, xs: seq<Entry>, links: seq<Link>,
                                      row: Relations, es: seq<Event>)
    requires |previous| == DIGEST_LEN && |links| == |xs| && 1 <= |xs| <= 2 && |es| + |xs| < ENTITY_COUNT
    requires forall j: nat | j < |links| :: LinkFits(env, s, previous, |es|, xs, links[j], j)
    requires Spells(row, es)
    ensures Spells(row + ForwardRow(|es|, links), es + NewEvents(env, previous, |es|, xs, links))
  {
    if |xs| == 1 {
      OneSpells(env, s, previous, xs, links, row, es);
    } else {
      TwoSpell(env, s, previous, xs, links, row, es);
    }
  }
}
