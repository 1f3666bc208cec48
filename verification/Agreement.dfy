/** Two stores that verify and end in the same head agree on everything the chain
    covers, or their event contents exhibit a hash collision. */
module Agreement {
  import opened Common
  import opened Bytes
  import opened Entities
  import opened Records
  import opened Listings
  import opened Chain

  // The hashed strings parse in one way only.

  lemma SplitEqual(a: seq<byte>, x: seq<byte>, b: seq<byte>, y: seq<byte>)
    requires |a| == |b| && a + x == b + y
    ensures a == b && x == y
  {
    assert a == (a + x)[..|a|] && b == (b + y)[..|b|];
    assert x == (a + x)[|a|..] && y == (b + y)[|b|..];
  }

  lemma KeyBytesInjective(k: Key, l: Key)
    requires KeyBytes(k) == KeyBytes(l)
    ensures k == l
  {
    KeyRoundTrip(k);
    KeyRoundTrip(l);
  }

  lemma PreimageParses(p: Digest, n: nat, tag: byte, k: Key, c: seq<byte>, p': Digest, n': nat, tag': byte, k': Key,
                       c': seq<byte>)
    requires Preimage(p, n, tag, k, c) == Preimage(p', n', tag', k', c')
    ensures p == p' && tag == tag' && k == k' && c == c'
  {
    var x, x' := p + BigEndian(n, 8) + [tag] + KeyBytes(k), p' + BigEndian(n', 8) + [tag'] + KeyBytes(k');
    SplitEqual(x, c, x', c');
    SplitEqual(p + BigEndian(n, 8) + [tag], KeyBytes(k), p' + BigEndian(n', 8) + [tag'], KeyBytes(k'));
    SplitEqual(p + BigEndian(n, 8), [tag], p' + BigEndian(n', 8), [tag']);
    SplitEqual(p, BigEndian(n, 8), p', BigEndian(n', 8));
    KeyBytesInjective(k, k');
  }

  lemma RowParses(line: Entity, b: Entity, x: seq<byte>, b': Entity, x': seq<byte>)
    requires KeyBytes(RelKey(line, b)) + x == KeyBytes(RelKey(line, b')) + x'
    ensures b == b' && x == x'
  {
    SplitEqual(KeyBytes(RelKey(line, b)), x, KeyBytes(RelKey(line, b')), x');
    KeyBytesInjective(RelKey(line, b), RelKey(line, b'));
  }

  /** The first record of a non-empty list, and the rest. */
  lemma FlattenHead(line: Entity, rows: seq<(Entity, Record)>)
    requires rows != []
    ensures Flatten(line, rows) == KeyBytes(RelKey(line, rows[0].0)) + (Encode(rows[0].1) + Flatten(line, rows[1..]))
    ensures |Flatten(line, rows)| >= KEY_LEN
  {
    Regroup(KeyBytes(RelKey(line, rows[0].0)), Encode(rows[0].1), Flatten(line, rows[1..]));
  }

  lemma {:induction false} FlattenParses(line: Entity, rows: seq<(Entity, Record)>, rows': seq<(Entity, Record)>)
    requires Flatten(line, rows) == Flatten(line, rows')
    ensures rows == rows'
  {
    if rows != [] { FlattenHead(line, rows); }
    if rows' != [] { FlattenHead(line, rows'); }
    if rows != [] && rows' != [] {
      var (b, r) := rows[0];
      var (b', r') := rows'[0];
      var x, x' := Flatten(line, rows[1..]), Flatten(line, rows'[1..]);
      RowParses(line, b, Encode(r) + x, b', Encode(r') + x');
      PrefixFree(r, x, r', x');
      FlattenParses(line, rows[1..], rows'[1..]);
      assert rows == [rows[0]] + rows[1..] && rows' == [rows'[0]] + rows'[1..];
    }
  }

  lemma NonZero(e: Entity)
    ensures e != ZERO <==> InRange(e, 1, ENTITY_COUNT)
  {
    ZeroValue(e);
  }

  /** The bytes a line's digest covers determine the line's records. */
  lemma ContentParses(line: Entity, m: map<Entity, Record>, n: map<Entity, Record>)
    requires ContentBytes(line, m) == ContentBytes(line, n)
    requires ZERO !in m && ZERO !in n
    ensures m == n
  {
    FlattenParses(line, Listing(m, 1, ENTITY_COUNT), Listing(n, 1, ENTITY_COUNT));
    forall e
      ensures e != ZERO ==> InRange(e, 1, ENTITY_COUNT)
    {
      NonZero(e);
    }
    ListingInjective(m, n, 1, ENTITY_COUNT);
  }

  lemma EncodeInjective(r: Record, q: Record)
    requires Encode(r) == Encode(q)
    ensures r == q
  {
    PrefixFree(r, [], q, []);
  }

  // Agreement.

  /** What the digest of an event fixes about the event itself.  The other end of
      a line event and the tail of an event about a fixed record are not hashed. */
  predicate SameEvent(e: Event, f: Event) {
    && e.no == f.no && e.tag == f.tag && e.subject == f.subject && e.digest == f.digest
    && (e.tag != EVENT_LINE ==> e.party == f.party)
    && (MutableTag(e.tag) ==> e.tail == f.tail)
  }

  /** And about the store: a line's records, or the one record it is about. */
  predicate SameContent(s: Store, t: Store, e: Event) {
    if e.tag == EVENT_LINE then ContentRow(s, e.subject) == ContentRow(t, e.subject)
    else MutableTag(e.tag) || Lookup(s, e.subject, e.party) == Lookup(t, e.subject, e.party)
  }

  predicate SameAt(s: Store, es: seq<Event>, t: Store, fs: seq<Event>, i: nat)
    requires i < |es| && i < |fs|
  {
    SameEvent(es[i], fs[i]) && SameContent(s, t, es[i])
  }

  /** Two different strings, both hashed for event i, with one hash. */
  ghost predicate CollisionAt(env: Env, s: Store, es: seq<Event>, t: Store, fs: seq<Event>, i: nat) {
    && i < |es| && i < |fs| && EventContent(s, es[i]).Some? && EventContent(t, fs[i]).Some?
    && EventPreimage(s, es, i) != EventPreimage(t, fs, i)
    && env.hash(EventPreimage(s, es, i)) == env.hash(EventPreimage(t, fs, i))
  }

  ghost predicate Good(env: Env, s: Store, es: seq<Event>) {
    && (forall i | 0 <= i < |es| :: |es[i].digest| == DIGEST_LEN)
    && (forall i: nat | i < |es| :: EventGood(env, s, es, i))
  }

  lemma StepBack(env: Env, s: Store, es: seq<Event>, t: Store, fs: seq<Event>, i: nat)
    requires |es| == |fs| && i < |es| && Good(env, s, es) && Good(env, t, fs)
    requires Previous(es, i + 1) == Previous(fs, i + 1)
    requires !CollisionAt(env, s, es, t, fs, i)
    ensures Previous(es, i) == Previous(fs, i)
    ensures SameAt(s, es, t, fs, i)
  {
    assert EventGood(env, s, es, i) && EventGood(env, t, fs, i);
    var e, f := es[i], fs[i];
    var p, q := Previous(es, i), Previous(fs, i);
    PreimageParses(p, e.no, e.tag, EventKey(e), EventContent(s, e).value, q, f.no, f.tag, EventKey(f),
                   EventContent(t, f).value);
    ContentsParse(s, e, t, f);
  }

  lemma ContentsParse(s: Store, e: Event, t: Store, f: Event)
    requires e.tag == f.tag && EventKey(e) == EventKey(f)
    requires EventContent(s, e).Some? && EventContent(t, f) == EventContent(s, e)
    ensures e.subject == f.subject && (e.tag != EVENT_LINE ==> e.party == f.party)
    ensures MutableTag(e.tag) ==> e.tail == f.tail
    ensures SameContent(s, t, e)
  {
    if e.tag == EVENT_LINE {
      LineContentsParse(s, t, e.subject);
    } else if !MutableTag(e.tag) {
      RecordContentsParse(Lookup(s, e.subject, e.party), Lookup(t, e.subject, e.party));
    }
  }

  lemma LineContentsParse(s: Store, t: Store, line: Entity)
    ensures ContentBytes(line, ContentRow(s, line)) == ContentBytes(line, ContentRow(t, line)) ==>
              ContentRow(s, line) == ContentRow(t, line)
  {
    if ContentBytes(line, ContentRow(s, line)) == ContentBytes(line, ContentRow(t, line)) {
      ContentParses(line, ContentRow(s, line), ContentRow(t, line));
    }
  }

  lemma RecordContentsParse(r: Option<Record>, q: Option<Record>)
    requires r.Some? && q.Some?
    ensures Encode(r.value) == Encode(q.value) ==> r == q
  {
    if Encode(r.value) == Encode(q.value) {
      EncodeInjective(r.value, q.value);
    }
  }

  lemma {:induction false} WalkBack(env: Env, s: Store, es: seq<Event>, t: Store, fs: seq<Event>, i: nat)
    requires |es| == |fs| && i <= |es| && Good(env, s, es) && Good(env, t, fs)
    requires Previous(es, |es|) == Previous(fs, |fs|)
    requires forall j: nat | j < |es| :: !CollisionAt(env, s, es, t, fs, j)
    ensures Previous(es, i) == Previous(fs, i)
    ensures forall j | i <= j < |es| :: SameAt(s, es, t, fs, j)
    decreases |es| - i
  {
    if i < |es| {
      WalkBack(env, s, es, t, fs, i + 1);
      StepBack(env, s, es, t, fs, i);
    }
  }

  lemma {:induction false} SameLatest(es: seq<Event>, fs: seq<Event>)
    requires |es| == |fs| && forall j | 0 <= j < |es| :: SameEvent(es[j], fs[j])
    ensures Latest(es).Keys == Latest(fs).Keys
    ensures forall k | k in Latest(es) :: SameEvent(Latest(es)[k], Latest(fs)[k]) && MutableTag(Latest(es)[k].tag)
    ensures forall k | k in Latest(es) :: k == RelKey(Latest(es)[k].subject, Latest(es)[k].party)
  {
    if es != [] {
      SameLatest(es[..|es| - 1], fs[..|fs| - 1]);
    }
  }

  /** The current name of a renamed entity, or the state of a vocabulary. */
  predicate SameState(s: Store, t: Store, e: Event) {
    && Lookup(s, e.subject, e.party).Some? && Lookup(t, e.subject, e.party).Some?
    && (e.tag == EVENT_DECLARE ==> Lookup(s, e.subject, e.party).value.name == Lookup(t, e.subject, e.party).value.name)
    && (e.tag == EVENT_FIELD_STATE ==>
        Lookup(s, e.subject, e.party).value.data == Lookup(t, e.subject, e.party).value.data)
  }

  predicate Agree(s: Store, es: seq<Event>, t: Store, fs: seq<Event>) {
    && |es| == |fs|
    && (forall i | 0 <= i < |es| :: SameAt(s, es, t, fs, i))
    && LineSubjects(es) == LineSubjects(fs)
    && (forall k | k in Latest(es) :: SameState(s, t, Latest(es)[k]))
  }

  lemma SameLines(es: seq<Event>, fs: seq<Event>)
    requires |es| == |fs| && forall j | 0 <= j < |es| :: SameEvent(es[j], fs[j])
    ensures LineSubjects(es) == LineSubjects(fs)
  {
    forall x | x in LineSubjects(es)
      ensures x in LineSubjects(fs)
    {
      var j :| 0 <= j < |es| && es[j].tag == EVENT_LINE && es[j].subject == x;
      assert fs[j] in fs;
    }
    forall x | x in LineSubjects(fs)
      ensures x in LineSubjects(es)
    {
      var j :| 0 <= j < |fs| && fs[j].tag == EVENT_LINE && fs[j].subject == x;
      assert es[j] in es;
    }
  }

  /** Any two stores that both verify and whose heads carry the same digest and
      count agree on the event stream, the lines, every line's records, every
      record an event is about, the current names and the vocabulary states; or
      the strings hashed for one of the events are an explicit collision. */
  lemma SameHeadAgree(env: Env, s: Store, t: Store)
    requires Accepts(env, s) && Accepts(env, t)
    requires Head(env) in s.decl && Head(env) in t.decl
    requires s.decl[Head(env)].data == t.decl[Head(env)].data
    ensures Agree(s, Events(env, s), t, Events(env, t))
            || exists i :: CollisionAt(env, s, Events(env, s), t, Events(env, t), i)
  {
    AcceptedGood(env, s);
    AcceptedGood(env, t);
    AgreeOrCollide(env, s, Events(env, s), t, Events(env, t));
  }

  lemma AgreeOrCollide(env: Env, s: Store, es: seq<Event>, t: Store, fs: seq<Event>)
    requires |es| == |fs| && Good(env, s, es) && Good(env, t, fs)
    requires StatesMatch(env, s, es) && StatesMatch(env, t, fs)
    requires Previous(es, |es|) == Previous(fs, |fs|)
    ensures Agree(s, es, t, fs) || exists i :: CollisionAt(env, s, es, t, fs, i)
  {
    if forall i: nat | i < |es| :: !CollisionAt(env, s, es, t, fs, i) {
      WalkBack(env, s, es, t, fs, 0);
      assert forall i | 0 <= i < |es| :: SameAt(s, es, t, fs, i) ==> SameEvent(es[i], fs[i]);
      SameLines(es, fs);
      SameStates(env, s, es, t, fs);
    }
  }

  lemma AcceptedGood(env: Env, s: Store)
    requires Accepts(env, s) && Head(env) in s.decl
    ensures Good(env, s, Events(env, s)) && StatesMatch(env, s, Events(env, s))
    ensures Previous(Events(env, s), |Events(env, s)|) == s.decl[Head(env)].data[..DIGEST_LEN]
    ensures |Events(env, s)| == Number(s.decl[Head(env)].data[DIGEST_LEN..])
  {
  }

  lemma SameStates(env: Env, s: Store, es: seq<Event>, t: Store, fs: seq<Event>)
    requires |es| == |fs| && forall j | 0 <= j < |es| :: SameEvent(es[j], fs[j])
    requires StatesMatch(env, s, es) && StatesMatch(env, t, fs)
    ensures forall k | k in Latest(es) :: SameState(s, t, Latest(es)[k])
  {
    SameLatest(es, fs);
    forall k | k in Latest(es)
      ensures SameState(s, t, Latest(es)[k])
    {
      assert k in Latest(fs);
      MatchedStates(env, s, t, Latest(es)[k], Latest(fs)[k]);
    }
  }

  lemma MatchedStates(env: Env, s: Store, t: Store, e: Event, f: Event)
    requires SameEvent(e, f) && MutableTag(e.tag) && StateMatches(env, s, e) && StateMatches(env, t, f)
    ensures SameState(s, t, e)
  {
  }
}
