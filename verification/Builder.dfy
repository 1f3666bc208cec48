/** How a transaction's events are worked out from its writes, and sealed one after the
    other onto the head. */
module Builder {
  import opened Common
  import opened Bytes
  import opened Entities
  import opened Records
  import opened Listings
  import opened Chain
  import opened Transactions
  import opened Sealing
  import opened Book

  /** A write of the transaction: a key and the record put there. */
  type Write = (Key, Record)

  // Which writes are events.

  /** A relation that is neither part of the new line nor of the chain. */
  predicate Standalone(line: Entity, w: Write) {
    w.0.ns == NS_RELATION && w.0.b != ZERO && w.0.a != line && w.0.a.typ != TYPE_CHAIN && w.0.b.typ != TYPE_CHAIN
  }

  function TagFor(kind: byte): Option<byte> {
    if kind == KIND_SUPERSEDED || kind == KIND_VOIDED then Some(EVENT_STRIKE)
    else if kind == KIND_COUNTERSIGN then Some(EVENT_COUNTERSIGN)
    else if kind == KIND_PAGE_SIGNOFF then Some(EVENT_SIGNOFF)
    else None
  }

  /** The events of the writes that no mutable event covers; none at all if one of them
      has no tag. */
  function Swept(line: Entity, covered: set<Key>, ws: seq<Write>): Option<seq<Entry>> {
    if ws == [] then Some([])
    else
      var w := ws[|ws| - 1];
      match Swept(line, covered, ws[..|ws| - 1])
      case None => None
      case Some(xs) =>
        if w.0 in covered || !Standalone(line, w) then Some(xs)
        else
          match TagFor(w.1.kind)
          case None => None
          case Some(tag) => Some(xs + [WriteEntry(w, tag)])
  }

  function WriteEntry(w: Write, tag: byte): Entry { Entry(tag, w.0.a, w.0.b, Encode(w.1), []) }

  predicate OfLine(line: Entity, w: Write) {
    w.0.ns == NS_RELATION && w.0.a == line && !IsSentinel(w.0.b)
  }

  /** The records a transaction writes under its line. */
  function Contents(line: Entity, ws: seq<Write>): Relations {
    if ws == [] then map[]
    else
      var front, w := Contents(line, ws[..|ws| - 1]), ws[|ws| - 1];
      if OfLine(line, w) then front[w.0.b := w.1] else front
  }

  function Covered(mutable: seq<Entry>): set<Key> { set x | x in mutable :: RelKey(x.subject, x.party) }

  ghost function EventsOf(line: Entity, ws: seq<Write>, mutable: seq<Entry>): Option<seq<Entry>> {
    match Swept(line, Covered(mutable), ws)
    case None => None
    case Some(xs) =>
      Some((if line == ZERO then [] else [Entry(EVENT_LINE, line, ZERO, ContentBytes(line, Contents(line, ws)), [])]) +
           mutable + xs)
  }

  // Digests before the last event do not depend on it.

  lemma {:induction false} RunningPrefix(env: Env, previous: seq<byte>, n: nat, xs: seq<Entry>, x: Entry, j: nat)
    requires j <= |xs|
    ensures Running(env, previous, n, xs + [x], j) == Running(env, previous, n, xs, j)
    decreases j
  {
    if j > 0 { RunningPrefix(env, previous, n, xs, x, j - 1); }
  }

  ghost predicate LinksFit(env: Env, s: Store, previous: seq<byte>, n: nat, xs: seq<Entry>, links: seq<Link>) {
    |links| == |xs| && forall j: nat | j < |xs| :: LinkFits(env, s, previous, n, xs, links[j], j)
  }

  lemma {:induction false} LinksFitMore(env: Env, s: Store, previous: seq<byte>, n: nat, xs: seq<Entry>,
                                        links: seq<Link>, x: Entry, l: Link)
    requires LinksFit(env, s, previous, n, xs, links) && LinkFits(env, s, previous, n, xs + [x], l, |xs|)
    ensures LinksFit(env, s, previous, n, xs + [x], links + [l])
  {
    forall j: nat | j < |xs + [x]|
      ensures LinkFits(env, s, previous, n, xs + [x], (links + [l])[j], j)
    {
      if j < |xs| {
        assert LinkFits(env, s, previous, n, xs, links[j], j);
        RunningPrefix(env, previous, n, xs, x, j + 1);
      }
    }
  }

  /** There is a number for the event that does not spell the anchor, and its link fits a
      record. */
  predicate HasRoom(env: Env, no: nat, x: Entry) {
    no < ENTITY_COUNT && EntityAt(no) != Anchor(env) && DIGEST_LEN + 9 + |x.tail| <= MAX_FIELD_LEN
  }

  /** The first few have room. */
  predicate RoomUpTo(env: Env, n: nat, xs: seq<Entry>, i: nat)
    requires i <= |xs|
  {
    forall j | 0 <= j < i :: HasRoom(env, n + j + 1, xs[j])
  }

  predicate AllHaveRoom(env: Env, n: nat, xs: seq<Entry>) { RoomUpTo(env, n, xs, |xs|) }

  /** Whoever writes signs for the key each record is stored under. */
  type Pen = (Key, byte, seq<byte>) -> Record

  predicate SignedBy(env: Env, s: Store, actor: Entity, key: Key, kind: byte, data: seq<byte>, r: Record) {
    r.kind == kind && r.author == actor && r.name == [] && r.data == data && Signed(env, s, key, r)
  }

  ghost predicate Signs(env: Env, s: Store, actor: Entity, pen: Pen) {
    forall key, kind, data: seq<byte> | |data| <= MAX_FIELD_LEN ::
      SignedBy(env, s, actor, key, kind, data, pen(key, kind, data))
  }

  lemma RunningLast(env: Env, previous: seq<byte>, n: nat, xs: seq<Entry>, x: Entry)
    ensures Running(env, previous, n, xs + [x], |xs| + 1)
         == env.hash(Preimage(Running(env, previous, n, xs, |xs|), n + |xs| + 1, x.tag, EntryKey(x), x.content))
  {
    RunningPrefix(env, previous, n, xs, x, |xs|);
    assert (xs + [x])[|xs|] == x;
  }

  lemma {:induction false} LinkIsFit(env: Env, s: Store, actor: Entity, previous: seq<byte>, n: nat, xs: seq<Entry>,
                                     x: Entry, l: Link, payload: seq<byte>)
    requires HasRoom(env, n + |xs| + 1, x)
    requires payload == Payload(x.tag, x.subject, x.party, Running(env, previous, n, xs + [x], |xs| + 1), x.tail)
    requires SignedBy(env, s, actor, RelKey(Anchor(env), EntityAt(n + |xs| + 1)), KIND_CHAIN_LINK, payload, l.fwd)
    requires l.rev.kind == KIND_CHAIN_LINK && l.rev.author == actor && l.rev.name == [] && l.rev.data == payload
    ensures LinkFits(env, s, previous, n, xs + [x], l, |xs|)
  {
    EntityAtIsFromValue(n + |xs| + 1);
    assert (xs + [x])[|xs|] == x;
  }

  class ChainBuilder {
    const env: Env
    const actor: Entity
    const pen: Pen
    /** The head as read. */
    const start: seq<byte>
    const count: nat
    var prev: seq<byte>
    var next: nat
    var links: seq<Link>
    ghost var added: seq<Entry>

    ghost predicate Valid(s: Store)
      reads this
    {
      && |start| == DIGEST_LEN && next == count + |added| + 1
      && prev == Running(env, start, count, added, |added|)
      && LinksFit(env, s, start, count, added, links)
      && Signs(env, s, actor, pen)
    }

    constructor (env: Env, s: Store, actor: Entity, pen: Pen)
      requires Signs(env, s, actor, pen)
      ensures this.env == env && this.actor == actor && start == HeadDigest(env, s) && count == HeadCount(env, s)
      ensures Valid(s) && added == []
    {
      this.env, this.actor, this.pen := env, actor, pen;
      start, count := HeadDigest(env, s), HeadCount(env, s);
      prev, next, links, added := HeadDigest(env, s), HeadCount(env, s) + 1, [], [];
    }

    /** Digests one event onto the last and links it at its number. */
    method Add(ghost s: Store, x: Entry) returns (ok: bool)
      requires Valid(s)
      modifies this`prev, this`next, this`links, this`added
      ensures Valid(s) && (ok <==> HasRoom(env, count + |old(added)| + 1, x))
      ensures added == if ok then old(added) + [x] else old(added)
    {
      if next >= ENTITY_COUNT { return false; }
      var at := EntityAt(next);
      if at == Anchor(env) || DIGEST_LEN + 9 + |x.tail| > MAX_FIELD_LEN { return false; }
      var digest := env.hash(Preimage(prev, next, x.tag, EntryKey(x), x.content));
      RunningLast(env, start, count, added, x);
      var payload := Payload(x.tag, x.subject, x.party, digest, x.tail);
      PayloadLength(x.tag, x.subject, x.party, digest, x.tail);
      var l := Link(pen(RelKey(Anchor(env), at), KIND_CHAIN_LINK, payload),
                    pen(IndexKey(Anchor(env), at), KIND_CHAIN_LINK, payload));
      assert SignedBy(env, s, actor, RelKey(Anchor(env), at), KIND_CHAIN_LINK, payload, l.fwd);
      assert SignedBy(env, s, actor, IndexKey(Anchor(env), at), KIND_CHAIN_LINK, payload, l.rev);
      LinkIsFit(env, s, actor, start, count, added, x, l, payload);
      LinksFitMore(env, s, start, count, added, links, x, l);
      links, added := links + [l], added + [x];
      prev, next := digest, next + 1;
      ok := true;
    }

    /** The links and the new head, if there were any events. */
    method Finish(ghost s: Store) returns (seal: Option<Seal>)
      requires Valid(s)
      ensures seal.None? <==> added == []
      ensures seal.Some? ==> SealFits(env, s, start, count, added, seal.value)
    {
      if |links| == 0 { return None; }
      var data := HeadData(prev, next - 1);
      var head := pen(DeclKey(Head(env)), KIND_CHAIN_HEAD, data);
      assert SignedBy(env, s, actor, DeclKey(Head(env)), KIND_CHAIN_HEAD, data, head);
      return Some(Seal(links, head));
    }
  }

  // The events of a transaction.

  lemma {:induction false} SweptNext(line: Entity, covered: set<Key>, ws: seq<Write>, i: nat)
    requires i < |ws|
    ensures Swept(line, covered, ws[..i]).None? ==> Swept(line, covered, ws[..i + 1]).None?
    ensures Swept(line, covered, ws[..i]).Some? && (ws[i].0 in covered || !Standalone(line, ws[i])) ==>
              Swept(line, covered, ws[..i + 1]) == Swept(line, covered, ws[..i])
    ensures Swept(line, covered, ws[..i]).Some? && !(ws[i].0 in covered || !Standalone(line, ws[i])) &&
            TagFor(ws[i].1.kind).None? ==>
              Swept(line, covered, ws[..i + 1]).None?
    ensures Swept(line, covered, ws[..i]).Some? && !(ws[i].0 in covered || !Standalone(line, ws[i])) &&
            TagFor(ws[i].1.kind).Some? ==>
              Swept(line, covered, ws[..i + 1]) ==
                Some(Swept(line, covered, ws[..i]).value + [WriteEntry(ws[i], TagFor(ws[i].1.kind).value)])
  {
    assert ws[..i + 1][..i] == ws[..i];
  }

  lemma {:induction false} NeverSwept(line: Entity, covered: set<Key>, ws: seq<Write>, i: nat)
    requires i <= |ws| && Swept(line, covered, ws[..i]).None?
    ensures Swept(line, covered, ws).None?
    decreases |ws| - i
  {
    if i == |ws| {
      assert ws[..i] == ws;
    } else {
      SweptNext(line, covered, ws, i);
      NeverSwept(line, covered, ws, i + 1);
    }
  }

  method Sweep(line: Entity, covered: set<Key>, ws: seq<Write>) returns (r: Option<seq<Entry>>)
    ensures r == Swept(line, covered, ws)
  {
    var xs := [];
    for i := 0 to |ws|
      invariant Swept(line, covered, ws[..i]) == Some(xs)
    {
      SweptNext(line, covered, ws, i);
      if ws[i].0 !in covered && Standalone(line, ws[i]) {
        var tag := TagFor(ws[i].1.kind);
        if tag.None? {
          NeverSwept(line, covered, ws, i + 1);
          return None;
        }
        xs := xs + [WriteEntry(ws[i], tag.value)];
      }
    }
    assert ws[..|ws|] == ws;
    return Some(xs);
  }

  method LineBytes(line: Entity, ws: seq<Write>) returns (content: seq<byte>)
    ensures content == ContentBytes(line, Contents(line, ws))
  {
    var records: Relations := map[];
    for i := 0 to |ws|
      invariant records == Contents(line, ws[..i])
    {
      assert ws[..i + 1][..i] == ws[..i];
      if OfLine(line, ws[i]) { records := records[ws[i].0.b := ws[i].1]; }
    }
    assert ws[..|ws|] == ws;
    var sorted := ReadRange(records, 1, ENTITY_COUNT);
    content := Flatten(line, sorted);
  }

  datatype Outcome = Sealed(seal: Seal) | NoEvents | Refused

  predicate HeadReads(env: Env, s: Store) {
    Head(env) in s.decl ==> |s.decl[Head(env)].data| == HEAD_LEN
  }

  /** What the writes amount to, event by event. */
  method Gather(line: Entity, ws: seq<Write>, mutable: seq<Entry>) returns (r: Option<seq<Entry>>)
    ensures r == EventsOf(line, ws, mutable)
  {
    var swept := Sweep(line, Covered(mutable), ws);
    if swept.None? { return None; }
    if line == ZERO {
      var none: seq<Entry> := [];
      return Some(none + mutable + swept.value);
    }
    var content := LineBytes(line, ws);
    return Some([Entry(EVENT_LINE, line, ZERO, content, [])] + mutable + swept.value);
  }

  lemma OneMoreAdded(xs: seq<Entry>, i: nat)
    requires i < |xs|
    ensures xs[..i] + [xs[i]] == xs[..i + 1]
  {
  }

  /** Adds events in order as long as there is room. */
  method AddAll(builder: ChainBuilder, ghost s: Store, xs: seq<Entry>) returns (ok: bool)
    requires builder.Valid(s) && builder.added == []
    modifies builder
    ensures builder.Valid(s) && (ok <==> AllHaveRoom(builder.env, builder.count, xs))
    ensures ok ==> builder.added == xs
  {
    var i := 0;
    while i < |xs|
      invariant 0 <= i <= |xs| && builder.Valid(s) && builder.added == xs[..i]
      invariant RoomUpTo(builder.env, builder.count, xs, i)
    {
      ok := builder.Add(s, xs[i]);
      if !ok { return; }
      OneMoreAdded(xs, i);
      i := i + 1;
    }
    ok := true;
  }

  method SealAll(env: Env, s: Store, actor: Entity, pen: Pen, xs: seq<Entry>) returns (r: Outcome)
    requires Signs(env, s, actor, pen)
    ensures r.Sealed? ==> SealFits(env, s, HeadDigest(env, s), HeadCount(env, s), xs, r.seal)
    ensures r.NoEvents? <==> xs == []
    ensures r.Refused? <==> !AllHaveRoom(env, HeadCount(env, s), xs)
  {
    var builder := new ChainBuilder(env, s, actor, pen);
    var ok := AddAll(builder, s, xs);
    if !ok { return Refused; }
    var seal := builder.Finish(s);
    if seal.None? { return NoEvents; }
    return Sealed(seal.value);
  }

  /** The seal for exactly the events the writes amount to, or a refusal: of a head that
      does not read, of a write nobody could verify later, or for want of numbers. */
  method ChainEvents(env: Env, s: Store, actor: Entity, pen: Pen, line: Entity, ws: seq<Write>,
                     mutable: seq<Entry>) returns (r: Outcome)
    requires Signs(env, s, actor, pen)
    ensures r.Sealed? ==> EventsOf(line, ws, mutable).Some?
                          && SealFits(env, s, HeadDigest(env, s), HeadCount(env, s), EventsOf(line, ws, mutable).value,
                                      r.seal)
    ensures r.NoEvents? <==> HeadReads(env, s) && EventsOf(line, ws, mutable) == Some([])
    ensures r.Refused? <==> !HeadReads(env, s) || EventsOf(line, ws, mutable).None?
                            || !AllHaveRoom(env, HeadCount(env, s), EventsOf(line, ws, mutable).value)
  {
    if Head(env) in s.decl && |s.decl[Head(env)].data| != HEAD_LEN { return Refused; }
    var xs := Gather(line, ws, mutable);
    if xs.None? { return Refused; }
    r := SealAll(env, s, actor, pen, xs.value);
  }
}
