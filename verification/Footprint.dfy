/** What verifying does not look at.  `Agreement.SameHeadAgree` says what two
    verified stores with one head must share; the lemmas here say what verifying reads of
    a store, so that anything else is free. */
module Footprint {
  import opened Common
  import opened Bytes
  import opened Entities
  import opened Records
  import opened Listings
  import opened Chain
  import opened Agreement

  // What is read.

  /** An author's declaration still holds the key it held. */
  predicate KeyKept(s: Store, t: Store, a: Entity) {
    a in s.decl ==> a in t.decl && t.decl[a].data == s.decl[a].data
  }

  /** A page's counter is still there, or still not, and still gives the last line. */
  predicate CounterKept(env: Env, s: Store, t: Store, p: byte) {
    var c := Counter(env, p, TYPE_ENTRY);
    && (c in s.decl <==> c in t.decl)
    && (c in s.decl && CounterParses(s.decl[c]) ==> CounterParses(t.decl[c]) && LastId(t.decl[c]) == LastId(s.decl[c]))
  }

  /** The line's declaration is signed, by whoever. */
  predicate DeclarationSigned(env: Env, t: Store, line: Entity) {
    line in t.decl && Verified(env, t, DeclKey(line), t.decl[line])
  }

  /** What the event covers is as it was, and the keys that signed it are. */
  predicate KeepsEvent(env: Env, s: Store, t: Store, e: Event) {
    && KeyKept(s, t, e.link.author)
    && if e.tag == EVENT_LINE then
         && DeclarationSigned(env, t, e.subject) && ContentRow(t, e.subject) == ContentRow(s, e.subject)
         && forall b | b in ContentRow(s, e.subject) :: KeyKept(s, t, ContentRow(s, e.subject)[b].author)
       else
         MutableTag(e.tag) || (Lookup(s, e.subject, e.party).Some? ==>
           && Lookup(t, e.subject, e.party) == Lookup(s, e.subject, e.party)
           && KeyKept(s, t, Lookup(s, e.subject, e.party).value.author))
  }

  /** t keeps what verifying reads of s besides the links and the head: what each event
      covers, the keys it is signed with, the last line of each page, and the names and
      states the last events about them say.  Every other declaration and relation may
      be anything or missing. */
  ghost predicate KeepsCovered(env: Env, s: Store, t: Store, es: seq<Event>) {
    && (forall p: byte :: CounterKept(env, s, t, p))
    && (forall e | e in es :: KeepsEvent(env, s, t, e))
    && StatesMatch(env, t, es)
  }

  lemma StillVerified(env: Env, s: Store, t: Store, k: Key, r: Record)
    requires KeyKept(s, t, r.author) && Verified(env, s, k, r)
    ensures Verified(env, t, k, r)
  {
  }

  lemma StillLineVerified(env: Env, s: Store, t: Store, e: Event)
    requires e.tag == EVENT_LINE && KeepsEvent(env, s, t, e) && LineVerified(env, s, e.subject)
    ensures LineVerified(env, t, e.subject)
  {
    forall b | b in ContentRow(t, e.subject)
      ensures Verified(env, t, RelKey(e.subject, b), ContentRow(t, e.subject)[b])
    {
      StillVerified(env, s, t, RelKey(e.subject, b), ContentRow(s, e.subject)[b]);
    }
  }

  lemma StillContent(env: Env, s: Store, t: Store, e: Event)
    requires KeepsEvent(env, s, t, e) && ContentVerified(env, s, e)
    ensures ContentVerified(env, t, e) && EventContent(t, e) == EventContent(s, e)
  {
    if e.tag == EVENT_LINE {
      StillLineVerified(env, s, t, e);
    } else if !MutableTag(e.tag) {
      StillVerified(env, s, t, RelKey(e.subject, e.party), Lookup(s, e.subject, e.party).value);
    }
  }

  lemma StillGood(env: Env, s: Store, t: Store, es: seq<Event>, i: nat)
    requires KeepsCovered(env, s, t, es) && i < |es| && EventGood(env, s, es, i)
    ensures EventGood(env, t, es, i)
  {
    assert es[i] in es;
    StillVerified(env, s, t, RelKey(Anchor(env), FromValue(i + 1)), es[i].link);
    StillContent(env, s, t, es[i]);
  }

  lemma {:induction false} SameUnreached(env: Env, s: Store, t: Store, page: nat)
    requires page <= 256 && forall p: byte :: CounterKept(env, s, t, p)
    ensures FirstUnreached(env, t, page) == FirstUnreached(env, s, page)
    decreases 256 - page
  {
    if page < 256 {
      assert CounterKept(env, s, t, page);
      SameUnreached(env, s, t, page + 1);
    }
  }

  lemma StillChained(env: Env, s: Store, t: Store, es: seq<Event>)
    requires (forall p: byte :: CounterKept(env, s, t, p)) && LinesAreChained(env, s, es)
    ensures LinesAreChained(env, t, es)
  {
    SameUnreached(env, s, t, 1);
    forall p: byte | 1 <= p < FirstUnreached(env, t, 1)
      ensures Reached(env, t, p) && CounterParses(t.decl[Counter(env, p, TYPE_ENTRY)])
    {
      assert CounterKept(env, s, t, p);
    }
    forall e
      ensures Allocated(env, t, e) <==> Allocated(env, s, e)
    {
      assert CounterKept(env, s, t, e.page);
    }
  }

  lemma StillReplays(env: Env, s: Store, t: Store, es: seq<Event>, head: Record)
    requires Replays(env, s, es, head) && KeepsCovered(env, s, t, es)
    ensures Replays(env, t, es, head)
  {
    forall i: nat | i < |es|
      ensures EventGood(env, t, es, i)
    {
      StillGood(env, s, t, es, i);
    }
    StillChained(env, s, t, es);
  }

  lemma SameEvents(env: Env, s: Store, t: Store)
    requires LinkRow(env, t) == LinkRow(env, s) && LinksParse(env, s)
    ensures LinksParse(env, t) && Events(env, t) == Events(env, s)
  {
  }

  lemma AcceptsIfReplays(env: Env, t: Store, es: seq<Event>, head: Record)
    requires LinksParse(env, t) && Events(env, t) == es
    requires Head(env) in t.decl && t.decl[Head(env)].data == head.data && Replays(env, t, es, head)
    ensures Accepts(env, t)
  {
  }

  /** Verifying looks at nothing else: a store that keeps what is read verifies,
      whatever else was added, changed or removed.  Of the head only the data is read,
      not who signed it. */
  lemma UncoveredIsFree(env: Env, s: Store, t: Store)
    requires Accepts(env, s) && Head(env) in s.decl
    requires LinkRow(env, t) == LinkRow(env, s) && KeepsCovered(env, s, t, Events(env, s))
    requires Head(env) in t.decl && t.decl[Head(env)].data == s.decl[Head(env)].data
    ensures Accepts(env, t)
  {
    SameEvents(env, s, t);
    StillReplays(env, s, t, Events(env, s), s.decl[Head(env)]);
    AcceptsIfReplays(env, t, Events(env, s), s.decl[Head(env)]);
  }

  // Declarations.

  function Redeclare(s: Store, x: Entity, r: Record): Store { s.(decl := s.decl[x := r]) }

  /** A record is never verified against a declaration that holds no key. */
  lemma NotAnAuthor(env: Env, s: Store, x: Entity, k: Key, r: Record)
    requires Verified(env, s, k, r) && x in s.decl && |s.decl[x].data| != PUBLIC_KEY_LEN
    ensures r.author != x
  {
  }

  lemma RedeclaredEvent(env: Env, s: Store, e: Event, k: Key, x: Entity, r: Record)
    requires x in s.decl && |s.decl[x].data| != PUBLIC_KEY_LEN && Verified(env, s, DeclKey(x), r)
    requires Verified(env, s, k, e.link) && ContentVerified(env, s, e)
    requires e.tag != EVENT_LINE ==> (e.subject, e.party) != (x, ZERO)
    ensures KeepsEvent(env, s, Redeclare(s, x, r), e)
  {
    var t := Redeclare(s, x, r);
    NotAnAuthor(env, s, x, k, e.link);
    NotAnAuthor(env, s, x, DeclKey(x), r);
    if e.tag == EVENT_LINE {
      NotAnAuthor(env, s, x, DeclKey(e.subject), s.decl[e.subject]);
      forall b | b in ContentRow(s, e.subject)
        ensures KeyKept(s, t, ContentRow(s, e.subject)[b].author)
      {
        NotAnAuthor(env, s, x, RelKey(e.subject, b), ContentRow(s, e.subject)[b]);
      }
    } else if !MutableTag(e.tag) {
      NotAnAuthor(env, s, x, RelKey(e.subject, e.party), Lookup(s, e.subject, e.party).value);
    }
  }

  lemma {:induction false} LatestAmong(es: seq<Event>)
    ensures forall k | k in Latest(es) :: Latest(es)[k] in es && MutableTag(Latest(es)[k].tag)
  {
    if es != [] {
      LatestAmong(es[..|es| - 1]);
      assert es == es[..|es| - 1] + [es[|es| - 1]];
    }
  }

  lemma RedeclaredStates(env: Env, s: Store, es: seq<Event>, x: Entity, r: Record)
    requires x in s.decl && |s.decl[x].data| != PUBLIC_KEY_LEN && StatesMatch(env, s, es)
    requires forall e | e in es && e.tag != EVENT_LINE :: (e.subject, e.party) != (x, ZERO)
    ensures StatesMatch(env, Redeclare(s, x, r), es)
  {
    LatestAmong(es);
    forall k | k in Latest(es)
      ensures StateMatches(env, Redeclare(s, x, r), Latest(es)[k])
    {
      var e := Latest(es)[k];
      assert StateMatches(env, s, e);
      NotAnAuthor(env, s, x, RelKey(e.subject, e.party), Lookup(s, e.subject, e.party).value);
    }
  }

  lemma RedeclaredCovered(env: Env, s: Store, es: seq<Event>, head: Record, x: Entity, r: Record)
    requires Replays(env, s, es, head) && x in s.decl && |s.decl[x].data| != PUBLIC_KEY_LEN && x.typ != TYPE_ALLOCATOR
    requires Verified(env, s, DeclKey(x), r) && forall e | e in es && e.tag != EVENT_LINE ::
             (e.subject, e.party) != (x, ZERO)
    ensures KeepsCovered(env, s, Redeclare(s, x, r), es)
  {
    RedeclaredStates(env, s, es, x, r);
    forall e | e in es
      ensures KeepsEvent(env, s, Redeclare(s, x, r), e)
    {
      var i: nat :| i < |es| && es[i] == e;
      assert EventGood(env, s, es, i);
      RedeclaredEvent(env, s, e, RelKey(Anchor(env), FromValue(i + 1)), x, r);
    }
  }

  /** The declaration of a line, which says who wrote it and when, is signed but not
      hashed: any declared actor may have signed another one. */
  lemma LineDeclarationIsFree(env: Env, s: Store, line: Entity, r: Record)
    requires Accepts(env, s) && Head(env) in s.decl
    requires line.typ == TYPE_ENTRY && line in s.decl && |s.decl[line].data| != PUBLIC_KEY_LEN
    requires forall e | e in Events(env, s) && e.tag != EVENT_LINE :: (e.subject, e.party) != (line, ZERO)
    requires Verified(env, s, DeclKey(line), r)
    ensures Accepts(env, Redeclare(s, line, r)) && Redeclare(s, line, r).decl[line] == r
  {
    RedeclaredCovered(env, s, Events(env, s), s.decl[Head(env)], line, r);
    UncoveredIsFree(env, s, Redeclare(s, line, r));
  }

  /** A declaration that no event is about and that is neither a key, a counter nor a line
      may go, or say anything: a column or a term that was never renamed, for one. */
  lemma UnrenamedIsFree(env: Env, s: Store, t: Store, x: Entity)
    requires Accepts(env, s) && Head(env) in s.decl && x in s.decl && x != Head(env)
    requires x.typ != TYPE_ALLOCATOR && |s.decl[x].data| != PUBLIC_KEY_LEN
    requires forall e | e in Events(env, s) ::
             if e.tag == EVENT_LINE then e.subject != x else (e.subject, e.party) != (x, ZERO)
    requires t.rel == s.rel && t.decl - {x} == s.decl - {x}
    ensures Accepts(env, t)
  {
    SparedCovered(env, s, t, Events(env, s), s.decl[Head(env)], x);
    assert Head(env) in s.decl - {x};
    UncoveredIsFree(env, s, t);
  }

  lemma SparedDecl(s: Store, t: Store, x: Entity, y: Entity)
    requires t.decl - {x} == s.decl - {x} && y != x
    ensures (y in t.decl <==> y in s.decl) && (y in s.decl ==> t.decl[y] == s.decl[y])
  {
    assert y in s.decl <==> y in s.decl - {x};
    assert y in t.decl <==> y in t.decl - {x};
  }

  lemma SparedVerified(env: Env, s: Store, t: Store, x: Entity, k: Key, r: Record)
    requires t.decl - {x} == s.decl - {x} && x in s.decl && |s.decl[x].data| != PUBLIC_KEY_LEN && Verified(env, s, k, r)
    ensures Verified(env, t, k, r) && KeyKept(s, t, r.author)
  {
    NotAnAuthor(env, s, x, k, r);
    SparedDecl(s, t, x, r.author);
  }

  lemma SparedEvent(env: Env, s: Store, t: Store, e: Event, k: Key, x: Entity)
    requires x in s.decl && |s.decl[x].data| != PUBLIC_KEY_LEN && t.rel == s.rel && t.decl - {x} == s.decl - {x}
    requires Verified(env, s, k, e.link) && ContentVerified(env, s, e)
    requires if e.tag == EVENT_LINE then e.subject != x else (e.subject, e.party) != (x, ZERO)
    ensures KeepsEvent(env, s, t, e)
  {
    SparedVerified(env, s, t, x, k, e.link);
    if e.tag == EVENT_LINE {
      SparedDecl(s, t, x, e.subject);
      SparedVerified(env, s, t, x, DeclKey(e.subject), s.decl[e.subject]);
      forall b | b in ContentRow(s, e.subject)
        ensures KeyKept(s, t, ContentRow(s, e.subject)[b].author)
      {
        SparedVerified(env, s, t, x, RelKey(e.subject, b), ContentRow(s, e.subject)[b]);
      }
    } else if !MutableTag(e.tag) {
      SparedLookup(s, t, x, e);
      SparedVerified(env, s, t, x, RelKey(e.subject, e.party), Lookup(s, e.subject, e.party).value);
    }
  }

  lemma SparedLookup(s: Store, t: Store, x: Entity, e: Event)
    requires t.rel == s.rel && t.decl - {x} == s.decl - {x} && (e.subject, e.party) != (x, ZERO)
    ensures Lookup(t, e.subject, e.party) == Lookup(s, e.subject, e.party)
  {
    if e.party == ZERO { SparedDecl(s, t, x, e.subject); }
  }

  lemma SparedCovered(env: Env, s: Store, t: Store, es: seq<Event>, head: Record, x: Entity)
    requires Replays(env, s, es, head) && x in s.decl && x.typ != TYPE_ALLOCATOR && |s.decl[x].data| != PUBLIC_KEY_LEN
    requires forall e | e in es :: if e.tag == EVENT_LINE then e.subject != x else (e.subject, e.party) != (x, ZERO)
    requires t.rel == s.rel && t.decl - {x} == s.decl - {x}
    ensures KeepsCovered(env, s, t, es)
  {
    forall p: byte
      ensures CounterKept(env, s, t, p)
    {
      SparedDecl(s, t, x, Counter(env, p, TYPE_ENTRY));
    }
    forall e | e in es
      ensures KeepsEvent(env, s, t, e)
    {
      var i: nat :| i < |es| && es[i] == e;
      assert EventGood(env, s, es, i);
      SparedEvent(env, s, t, e, RelKey(Anchor(env), FromValue(i + 1)), x);
    }
    LatestAmong(es);
    forall k | k in Latest(es)
      ensures StateMatches(env, t, Latest(es)[k])
    {
      var e := Latest(es)[k];
      assert StateMatches(env, s, e);
      SparedLookup(s, t, x, e);
      SparedVerified(env, s, t, x, RelKey(e.subject, e.party), Lookup(s, e.subject, e.party).value);
    }
  }

  // Relations.

  function Put(s: Store, a: Entity, b: Entity, r: Record): Store {
    s.(rel := s.rel[a := Row(s, a)[b := r]])
  }

  lemma PutKeepsRow(s: Store, a: Entity, b: Entity, r: Record, line: Entity)
    requires line != a || IsSentinel(b) ||
             (r.kind == KIND_COUNTERSIGN && (b in Row(s, a) ==> Row(s, a)[b].kind == KIND_COUNTERSIGN))
    ensures ContentRow(Put(s, a, b, r), line) == ContentRow(s, line)
  {
  }

  /** A strike, an endorsement or a sign-off written with no event is not noticed:
      the chain shows what was removed or changed, not what was added beside it. */
  lemma UnchainedRecordUnnoticed(env: Env, s: Store, a: Entity, b: Entity, r: Record)
    requires Accepts(env, s) && Head(env) in s.decl
    requires a != Anchor(env) && b != ZERO
    requires IsSentinel(b) || (r.kind == KIND_COUNTERSIGN && b !in Row(s, a))
    requires forall e | e in Events(env, s) && e.tag != EVENT_LINE :: (e.subject, e.party) != (a, b)
    ensures Accepts(env, Put(s, a, b, r))
  {
    PutKeepsCovered(env, s, Events(env, s), s.decl[Head(env)], a, b, r);
    UncoveredIsFree(env, s, Put(s, a, b, r));
  }

  /** The relation a -> b is part of no line that has an event. */
  predicate OffLines(s: Store, es: seq<Event>, a: Entity, b: Entity, r: Record) {
    || IsSentinel(b)
    || (r.kind == KIND_COUNTERSIGN && b !in Row(s, a))
    || (forall e | e in es && e.tag == EVENT_LINE :: e.subject != a)
  }

  lemma PutKeepsEvent(env: Env, s: Store, e: Event, a: Entity, b: Entity, r: Record)
    requires b != ZERO && ContentVerified(env, s, e)
    requires e.tag == EVENT_LINE ==> IsSentinel(b) || (r.kind == KIND_COUNTERSIGN && b !in Row(s, a)) || e.subject != a
    requires e.tag != EVENT_LINE ==> (e.subject, e.party) != (a, b)
    ensures KeepsEvent(env, s, Put(s, a, b, r), e)
  {
    if e.tag == EVENT_LINE { PutKeepsRow(s, a, b, r, e.subject); }
  }

  lemma PutElsewhere(env: Env, s: Store, a: Entity, b: Entity, r: Record, e: Event)
    requires b != ZERO && (e.subject, e.party) != (a, b) && StateMatches(env, s, e)
    ensures StateMatches(env, Put(s, a, b, r), e)
  {
    assert Lookup(Put(s, a, b, r), e.subject, e.party) == Lookup(s, e.subject, e.party);
  }

  lemma PutKeepsStates(env: Env, s: Store, es: seq<Event>, a: Entity, b: Entity, r: Record)
    requires b != ZERO && StatesMatch(env, s, es)
    requires forall e | e in es && e.tag != EVENT_LINE :: (e.subject, e.party) != (a, b)
    ensures StatesMatch(env, Put(s, a, b, r), es)
  {
    LatestAmong(es);
    forall k | k in Latest(es)
      ensures StateMatches(env, Put(s, a, b, r), Latest(es)[k])
    {
      PutElsewhere(env, s, a, b, r, Latest(es)[k]);
    }
  }

  lemma PutKeepsCovered(env: Env, s: Store, es: seq<Event>, head: Record, a: Entity, b: Entity, r: Record)
    requires Replays(env, s, es, head) && b != ZERO && OffLines(s, es, a, b, r)
    requires forall e | e in es && e.tag != EVENT_LINE :: (e.subject, e.party) != (a, b)
    ensures KeepsCovered(env, s, Put(s, a, b, r), es)
    ensures a != Anchor(env) ==> LinkRow(env, Put(s, a, b, r)) == LinkRow(env, s)
  {
    PutKeepsStates(env, s, es, a, b, r);
    forall e | e in es
      ensures KeepsEvent(env, s, Put(s, a, b, r), e)
    {
      var i: nat :| i < |es| && es[i] == e;
      assert EventGood(env, s, es, i);
      PutKeepsEvent(env, s, e, a, b, r);
    }
  }

  /** In particular a line nobody struck in the chain can be marked as struck. */
  lemma UnchainedStrikeUnnoticed(env: Env, s: Store, line: Entity, r: Record)
    requires Accepts(env, s) && Head(env) in s.decl && line != Anchor(env)
    requires forall e | e in Events(env, s) && e.tag != EVENT_LINE :: (e.subject, e.party) != (line, Marker(env))
    ensures Accepts(env, Put(s, line, Marker(env), r)) &&
            Lookup(Put(s, line, Marker(env), r), line, Marker(env)) == Some(r)
  {
    UnchainedRecordUnnoticed(env, s, line, Marker(env), r);
  }

  // What a link carries beyond what is hashed.

  /** Events that agree on what is hashed replay alike, provided the links are signed. */
  lemma ReplaysAlike(env: Env, s: Store, es: seq<Event>, fs: seq<Event>, head: Record)
    requires Replays(env, s, es, head) && |es| == |fs|
    requires forall i: nat | i < |es| ::
               && SameEvent(es[i], fs[i]) && i + 1 < ENTITY_COUNT
               && Verified(env, s, RelKey(Anchor(env), FromValue(i + 1)), fs[i].link)
    ensures Replays(env, s, fs, head)
  {
    forall i: nat | i < |fs|
      ensures EventGood(env, s, fs, i)
    {
      GoodAlike(env, s, es, fs, i);
    }
    SameLines(es, fs);
    MatchAlike(env, s, es, fs);
  }

  lemma GoodAlike(env: Env, s: Store, es: seq<Event>, fs: seq<Event>, i: nat)
    requires |es| == |fs| && i < |es| && EventGood(env, s, es, i)
    requires forall j: nat | j < |es| :: SameEvent(es[j], fs[j])
    requires Verified(env, s, RelKey(Anchor(env), FromValue(i + 1)), fs[i].link)
    ensures EventGood(env, s, fs, i)
  {
    assert EventContent(s, fs[i]) == EventContent(s, es[i]);
    assert Previous(fs, i) == Previous(es, i);
  }

  lemma MatchAlike(env: Env, s: Store, es: seq<Event>, fs: seq<Event>)
    requires |es| == |fs| && StatesMatch(env, s, es)
    requires forall j: nat | j < |es| :: SameEvent(es[j], fs[j])
    ensures StatesMatch(env, s, fs)
  {
    SameLatest(es, fs);
    forall k | k in Latest(fs)
      ensures StateMatches(env, s, Latest(fs)[k])
    {
      assert StateMatches(env, s, Latest(es)[k]);
    }
  }

  lemma {:induction false} ListingUpdate<T>(m: map<Entity, T>, lo: nat, hi: nat, e: Entity, x: T)
    requires e in m && hi <= ENTITY_COUNT
    ensures |Listing(m[e := x], lo, hi)| == |Listing(m, lo, hi)|
    ensures forall i | 0 <= i < |Listing(m, lo, hi)| ::
              Listing(m[e := x], lo, hi)[i] == if Listing(m, lo, hi)[i].0 == e then (e, x) else Listing(m, lo, hi)[i]
    decreases hi - lo
  {
    if lo < hi { ListingUpdate(m, lo + 1, hi, e, x); }
  }

  lemma ListingReplace<T>(m: map<Entity, T>, lo: nat, hi: nat, i: nat, x: T)
    requires hi <= ENTITY_COUNT && i < |Listing(m, lo, hi)|
    ensures var at := Listing(m, lo, hi)[i].0;
            at in m && InRange(at, lo, hi) && Listing(m[at := x], lo, hi) == Listing(m, lo, hi)[i := (at, x)]
  {
    var links := Listing(m, lo, hi);
    var at := links[i].0;
    ListingAscends(m, lo, hi);
    ListingMembers(m, lo, hi, at, links[i].1);
    assert links[i] in links;
    ListingUpdate(m, lo, hi, at, x);
    assert forall j | 0 <= j < |links| && j != i :: links[j].0 != at;
  }

  lemma RelinkedRow(env: Env, s: Store, at: Entity, r: Record)
    requires at != ZERO && r.kind == KIND_CHAIN_LINK
    ensures LinkRow(env, Put(s, Anchor(env), at, r)) == LinkRow(env, s)[at := r]
  {
  }

  lemma LinksAfterRelink(env: Env, s: Store, i: nat, r: Record)
    requires i < |Links(env, s)| && r.kind == KIND_CHAIN_LINK
    ensures Links(env, Put(s, Anchor(env), Links(env, s)[i].0, r)) == Links(env, s)[i := (Links(env, s)[i].0, r)]
  {
    ListingReplace(LinkRow(env, s), 1, ENTITY_COUNT, i, r);
    NonZero(Links(env, s)[i].0);
    RelinkedRow(env, s, Links(env, s)[i].0, r);
  }

  lemma {:induction false} ParseReplace(links: seq<(Entity, Record)>, i: nat, x: (Entity, Record))
    requires i < |links| && |x.1.data| >= LINK_HEAD_LEN
    requires Parseable(links)
    ensures Parseable(links[i := x])
    ensures ParseLinks(links[i := x]) == ParseLinks(links)[i := ParseLink(x.0, x.1)]
  {
  }

  lemma EventsFrom(env: Env, s: Store, links: seq<(Entity, Record)>)
    requires Links(env, s) == links
    requires Parseable(links)
    ensures LinksParse(env, s) && Events(env, s) == ParseLinks(links)
  {
  }

  /** The events after one link was rewritten. */
  lemma EventsAfterRelink(env: Env, s: Store, links: seq<(Entity, Record)>, i: nat, r: Record)
    requires Links(env, s) == links && i < |links|
    requires Parseable(links)
    requires r.kind == KIND_CHAIN_LINK && |r.data| >= LINK_HEAD_LEN
    ensures LinksParse(env, Put(s, Anchor(env), links[i].0, r))
    ensures Events(env, Put(s, Anchor(env), links[i].0, r)) == ParseLinks(links)[i := ParseLink(links[i].0, r)]
  {
    var x := (links[i].0, r);
    LinksAfterRelink(env, s, i, r);
    ParseReplace(links, i, x);
    EventsFrom(env, Put(s, Anchor(env), x.0, r), links[i := x]);
  }

  /** The link of a line event may name any other party and carry any tail, as long
      as some declared actor signs it. */
  lemma LineLinkIsFree(env: Env, s: Store, i: nat, r: Record, party: Entity, tail: seq<byte>)
    requires Accepts(env, s) && Head(env) in s.decl && i < |Events(env, s)| && i + 1 < ENTITY_COUNT
    requires Events(env, s)[i].tag == EVENT_LINE
    requires forall e | e in Events(env, s) :: e.subject != Anchor(env)
    requires r.kind == KIND_CHAIN_LINK && Verified(env, s, RelKey(Anchor(env), FromValue(i + 1)), r)
    requires r.data == Payload(EVENT_LINE, Events(env, s)[i].subject, party, Events(env, s)[i].digest, tail)
    ensures Accepts(env, Put(s, Anchor(env), FromValue(i + 1), r))
  {
    LineLinkFree(env, s, Links(env, s), i, r, party, tail, s.decl[Head(env)]);
  }

  lemma {:induction false} LineLinkFree(env: Env, s: Store, links: seq<(Entity, Record)>, i: nat, r: Record,
                                        party: Entity, tail: seq<byte>, head: Record)
    requires Links(env, s) == links && Parseable(links) && i < |links| && i + 1 < ENTITY_COUNT
    requires Head(env) in s.decl && s.decl[Head(env)] == head && Replays(env, s, ParseLinks(links), head)
    requires ParseLinks(links)[i].tag == EVENT_LINE && forall e | e in ParseLinks(links) :: e.subject != Anchor(env)
    requires r.kind == KIND_CHAIN_LINK && Verified(env, s, RelKey(Anchor(env), FromValue(i + 1)), r)
    requires r.data == Payload(EVENT_LINE, ParseLinks(links)[i].subject, party, ParseLinks(links)[i].digest, tail)
    ensures Accepts(env, Put(s, Anchor(env), FromValue(i + 1), r))
  {
    NumberedAt(env, s, ParseLinks(links), i);
    LineRelinked(links, i, r, party, tail);
    Relinked(env, s, links, ParseLinks(links), i, r, head);
  }

  lemma {:induction false} Relinked(env: Env, s: Store, links: seq<(Entity, Record)>, es: seq<Event>, i: nat,
                                    r: Record, head: Record)
    requires Links(env, s) == links && Parseable(links) && i < |links| && i + 1 < ENTITY_COUNT &&
             links[i].0 == FromValue(i + 1)
    requires es == ParseLinks(links) && es[i].tag == EVENT_LINE && forall e | e in es :: e.subject != Anchor(env)
    requires Head(env) in s.decl && s.decl[Head(env)] == head && Replays(env, s, es, head)
    requires r.kind == KIND_CHAIN_LINK && |r.data| >= LINK_HEAD_LEN &&
             Verified(env, s, RelKey(Anchor(env), FromValue(i + 1)), r)
    requires SameEvent(es[i], ParseLink(links[i].0, r))
    ensures Accepts(env, Put(s, Anchor(env), FromValue(i + 1), r))
  {
    var fs := es[i := ParseLink(links[i].0, r)];
    RelinkedReplays(env, s, es, fs, i, r, head);
    StillApart(es, i, ParseLink(links[i].0, r), Anchor(env));
    RelinkAccepted(env, s, links, i, links[i].0, r, fs, head);
  }

  lemma StillApart(es: seq<Event>, i: nat, e: Event, a: Entity)
    requires i < |es| && e.subject != a && forall x | x in es :: x.subject != a
    ensures forall x | x in es[i := e] :: x.subject != a
  {
  }

  lemma {:induction false} LineRelinked(links: seq<(Entity, Record)>, i: nat, r: Record, party: Entity, tail: seq<byte>)
    requires Parseable(links) && i < |links| && i + 1 < ENTITY_COUNT
    requires ParseLinks(links)[i].tag == EVENT_LINE && ParseLinks(links)[i].no == i + 1
    requires r.data == Payload(EVENT_LINE, ParseLinks(links)[i].subject, party, ParseLinks(links)[i].digest, tail)
    ensures links[i].0 == FromValue(i + 1) && |r.data| >= LINK_HEAD_LEN
    ensures SameEvent(ParseLinks(links)[i], ParseLink(links[i].0, r))
    ensures ParseLink(links[i].0, r).subject == ParseLinks(links)[i].subject
  {
    FromValueOfValue(links[i].0);
    ParsePayload(links[i].0, r, EVENT_LINE, ParseLinks(links)[i].subject, party, ParseLinks(links)[i].digest, tail);
  }

  lemma {:induction false} RelinkAccepted(env: Env, s: Store, links: seq<(Entity, Record)>, i: nat, at: Entity,
                                          r: Record, fs: seq<Event>, head: Record)
    requires Links(env, s) == links && Parseable(links) && i < |links| && links[i].0 == at
    requires r.kind == KIND_CHAIN_LINK && |r.data| >= LINK_HEAD_LEN && Head(env) in s.decl && s.decl[Head(env)] == head
    requires fs == ParseLinks(links)[i := ParseLink(at, r)]
    requires forall e | e in fs :: e.subject != Anchor(env)
    requires Replays(env, s, fs, head)
    ensures Accepts(env, Put(s, Anchor(env), at, r))
  {
    NonZeroLink(env, s, links, i);
    RelinkKeeps(env, s, fs, at, r, head);
    EventsAfterRelink(env, s, links, i, r);
    AcceptsIfReplays(env, Put(s, Anchor(env), at, r), fs, head);
  }

  lemma NonZeroLink(env: Env, s: Store, links: seq<(Entity, Record)>, i: nat)
    requires Links(env, s) == links && i < |links|
    ensures links[i].0 != ZERO
  {
    ListingAscends(LinkRow(env, s), 1, ENTITY_COUNT);
    NonZero(links[i].0);
  }

  lemma NumberedAt(env: Env, s: Store, es: seq<Event>, i: nat)
    requires i < |es| && forall i: nat | i < |es| :: EventGood(env, s, es, i)
    ensures es[i].no == i + 1
  {
    assert EventGood(env, s, es, i);
  }

  lemma RelinkKeeps(env: Env, s: Store, fs: seq<Event>, at: Entity, r: Record, head: Record)
    requires Replays(env, s, fs, head) && at != ZERO
    requires forall e | e in fs :: e.subject != Anchor(env)
    ensures Replays(env, Put(s, Anchor(env), at, r), fs, head)
  {
    PutKeepsCovered(env, s, fs, head, Anchor(env), at, r);
    StillReplays(env, s, Put(s, Anchor(env), at, r), fs, head);
  }

  lemma RelinkedReplays(env: Env, s: Store, es: seq<Event>, fs: seq<Event>, i: nat, r: Record, head: Record)
    requires Replays(env, s, es, head) && i < |es| && i + 1 < ENTITY_COUNT && |r.data| >= LINK_HEAD_LEN
    requires es[i].tag == EVENT_LINE && SameEvent(es[i], ParseLink(FromValue(i + 1), r))
    requires Verified(env, s, RelKey(Anchor(env), FromValue(i + 1)), r)
    requires fs == es[i := ParseLink(FromValue(i + 1), r)]
    ensures Replays(env, s, fs, head)
  {
    forall j: nat | j < |es|
      ensures && SameEvent(es[j], fs[j]) && j + 1 < ENTITY_COUNT
              && Verified(env, s, RelKey(Anchor(env), FromValue(j + 1)), fs[j].link)
    {
      assert EventGood(env, s, es, j);
    }
    ReplaysAlike(env, s, es, fs, head);
  }
}
