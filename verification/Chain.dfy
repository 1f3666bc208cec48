/** The store of a log book, the event chain in it, and what verifying the chain
    asks of a store. */
module Chain {
  import opened Common
  import opened Bytes
  import opened Entities
  import opened Records
  import opened Listings

  const TYPE_FIELD: byte := 0x01
  const TYPE_TERM: byte := 0x02
  const TYPE_ENTRY: byte := 0x03
  const TYPE_ACTOR: byte := 0x04
  const TYPE_PAGE: byte := 0x07
  const TYPE_CHAIN: byte := 0xFE
  const TYPE_ALLOCATOR: byte := 0xFF

  const KIND_DECLARATION: byte := 0x00
  const KIND_TERM_OF: byte := 0x01
  const KIND_CELL: byte := 0x02
  const KIND_QUANTITY: byte := 0x03
  const KIND_DERIVED_FROM: byte := 0x04
  const KIND_PRESENCE: byte := 0x05
  const KIND_SUPERSEDED: byte := 0x06
  const KIND_VOIDED: byte := 0x07
  const KIND_SUPERSEDES: byte := 0x08
  const KIND_CHAIN_LINK: byte := 0x09
  const KIND_CHAIN_HEAD: byte := 0x0B
  const KIND_REMARK: byte := 0x0C
  const KIND_COUNTERSIGN: byte := 0x0D
  const KIND_PAGE_SIGNOFF: byte := 0x0E
  const KIND_FIELD_STATE: byte := 0x0F

  const EVENT_LINE: byte := 1
  const EVENT_STRIKE: byte := 2
  const EVENT_COUNTERSIGN: byte := 3
  const EVENT_SIGNOFF: byte := 4
  const EVENT_DECLARE: byte := 5
  const EVENT_FIELD_STATE: byte := 6

  const SCHEMA_PAGE: byte := 0
  const FIRST_ENTRY_PAGE: byte := 1

  const DIGEST_LEN := 32
  const LINK_HEAD_LEN := 41
  const HEAD_LEN := 40
  const PUBLIC_KEY_LEN := 32

  type Digest = d: seq<byte> | |d| == DIGEST_LEN witness BigEndian(0, DIGEST_LEN)

  const GENESIS: Digest := BigEndian(0, DIGEST_LEN)

  /** What the book is parameterised by: its log byte, a hash, the signature check
      (public key, payload, signature) and the function that spreads texts over
      presence buckets. */
  datatype Env = Env(
    log: byte,
    hash: seq<byte> -> Digest,
    verify: (seq<byte>, seq<byte>, seq<byte>) -> bool,
    bucket: seq<byte> -> Entity)

  type Relations = map<Entity, Record>

  /** Every record by key: declarations at (e, zero) and relations at (a, b) in the
      relation namespace, mirrors at (b, a) in the index namespace, buckets in the
      presence namespace by owner and bucket. */
  datatype Store = Store(
    decl: map<Entity, Record>,
    rel: map<Entity, Relations>,
    idx: map<Entity, Relations>,
    pres: map<(Entity, Entity), Record>)

  function RowIn(rows: map<Entity, Relations>, a: Entity): Relations {
    if a in rows then rows[a] else map[]
  }

  /** The relations of a, by target. */
  function Row(s: Store, a: Entity): Relations { RowIn(s.rel, a) }

  function RelKey(a: Entity, b: Entity): Key { Key(NS_RELATION, a, b) }

  function DeclKey(e: Entity): Key { Key(NS_RELATION, e, ZERO) }

  function IndexKey(a: Entity, b: Entity): Key { Key(NS_INDEX, b, a) }

  /** A point read in the relation namespace. */
  function Lookup(s: Store, a: Entity, b: Entity): Option<Record> {
    if b == ZERO then if a in s.decl then Some(s.decl[a]) else None
    else if b in Row(s, a) then Some(Row(s, a)[b]) else None
  }

  // Fixed entities.

  function Anchor(env: Env): Entity { Entity(env.log, SCHEMA_PAGE, TYPE_CHAIN, 0) }

  function Head(env: Env): Entity { Entity(env.log, SCHEMA_PAGE, TYPE_CHAIN, 1) }

  function Marker(env: Env): Entity { Entity(env.log, SCHEMA_PAGE, TYPE_ENTRY, 0) }

  function PageEntity(env: Env, page: byte): Entity { Entity(env.log, page, TYPE_PAGE, 0) }

  function Counter(env: Env, page: byte, typ: byte): Entity { Entity(env.log, page, TYPE_ALLOCATOR, typ) }

  function Line(env: Env, page: byte, id: byte): Entity { Entity(env.log, page, TYPE_ENTRY, id) }

  /** The anchors a line points at for bookkeeping rather than content. */
  predicate IsSentinel(e: Entity) {
    e.typ == TYPE_CHAIN || (e.typ == TYPE_ENTRY && e.id == 0)
  }

  // Signatures.

  predicate Verified(env: Env, s: Store, key: Key, r: Record) {
    && r.author in s.decl
    && |r.sig| > 0 && |s.decl[r.author].data| == PUBLIC_KEY_LEN
    && env.verify(s.decl[r.author].data, SignedPayload(key, Unsigned(r)), r.sig)
  }

  // Events.

  /** One entry of the chain as its link record spells it. */
  datatype Event = Event(no: nat, tag: byte, subject: Entity, party: Entity, digest: seq<byte>, tail: seq<byte>,
                         link: Record)

  function Payload(tag: byte, subject: Entity, party: Entity, digest: seq<byte>, tail: seq<byte>): seq<byte> {
    digest + [tag] + EntityBytes(subject) + EntityBytes(party) + tail
  }

  lemma PayloadLength(tag: byte, subject: Entity, party: Entity, digest: seq<byte>, tail: seq<byte>)
    ensures |Payload(tag, subject, party, digest, tail)| == |digest| + 9 + |tail|
  {
  }

  /** The link at (anchor, at); the entity spells the sequence number. */
  function ParseLink(at: Entity, r: Record): (e: Event)
    requires |r.data| >= LINK_HEAD_LEN
    ensures |e.digest| == DIGEST_LEN
  {
    Event(Value(at), r.data[DIGEST_LEN], DecodeEntity(r.data[DIGEST_LEN + 1..]), DecodeEntity(r.data[DIGEST_LEN + 5..]),
          r.data[..DIGEST_LEN], r.data[LINK_HEAD_LEN..], r)
  }

  lemma ParsePayload(at: Entity, r: Record, tag: byte, subject: Entity, party: Entity, digest: Digest, tail: seq<byte>)
    requires r.data == Payload(tag, subject, party, digest, tail)
    ensures |r.data| >= LINK_HEAD_LEN && ParseLink(at, r) == Event(Value(at), tag, subject, party, digest, tail, r)
  {
    assert r.data[..DIGEST_LEN] == digest;
    assert r.data[LINK_HEAD_LEN..] == tail;
  }

  function LinksOf(row: Relations): Relations {
    map b | b in row && b != ZERO && row[b].kind == KIND_CHAIN_LINK :: row[b]
  }

  /** The chain links under the anchor. */
  function LinkRow(env: Env, s: Store): Relations {
    LinksOf(Row(s, Anchor(env)))
  }

  ghost function Links(env: Env, s: Store): seq<(Entity, Record)> {
    Listing(LinkRow(env, s), 1, ENTITY_COUNT)
  }

  predicate Parseable(links: seq<(Entity, Record)>) {
    forall i | 0 <= i < |links| :: |links[i].1.data| >= LINK_HEAD_LEN
  }

  ghost predicate LinksParse(env: Env, s: Store) {
    Parseable(Links(env, s))
  }

  function ParseLinks(links: seq<(Entity, Record)>): (es: seq<Event>)
    requires Parseable(links)
    ensures |es| == |links| && forall i | 0 <= i < |es| :: es[i] == ParseLink(links[i].0, links[i].1)
  {
    if links == [] then [] else [ParseLink(links[0].0, links[0].1)] + ParseLinks(links[1..])
  }

  ghost function Events(env: Env, s: Store): seq<Event>
    requires LinksParse(env, s)
  {
    ParseLinks(Links(env, s))
  }

  /** Events about a record that may be written again later. */
  predicate MutableTag(tag: byte) {
    tag == EVENT_DECLARE || tag == EVENT_FIELD_STATE
  }

  // What an event's digest covers.

  /** The records of a line that belong to it: not the bookkeeping anchors, and not
      the endorsements, which arrive after the line's digest is fixed. */
  function Content(row: Relations): Relations {
    map b | b in row && b != ZERO && !IsSentinel(b) && row[b].kind != KIND_COUNTERSIGN :: row[b]
  }

  function ContentRow(s: Store, line: Entity): Relations { Content(Row(s, line)) }

  /** Keys and values one after the other. */
  function Flatten(line: Entity, rows: seq<(Entity, Record)>): seq<byte> {
    if rows == [] then []
    else KeyBytes(RelKey(line, rows[0].0)) + Encode(rows[0].1) + Flatten(line, rows[1..])
  }

  ghost function ContentBytes(line: Entity, row: Relations): seq<byte> {
    Flatten(line, Listing(row, 1, ENTITY_COUNT))
  }

  /** The hashed string: the digest before, the number, the tag, the key of what
      the event is about, and its content. */
  function Preimage(previous: seq<byte>, no: nat, tag: byte, key: Key, content: seq<byte>): seq<byte> {
    previous + BigEndian(no, 8) + [tag] + KeyBytes(key) + content
  }

  function EventKey(e: Event): Key {
    if e.tag == EVENT_LINE then DeclKey(e.subject) else RelKey(e.subject, e.party)
  }

  /** The content an event's digest covers, if the store still has it. */
  ghost function EventContent(s: Store, e: Event): Option<seq<byte>> {
    if e.tag == EVENT_LINE then Some(ContentBytes(e.subject, ContentRow(s, e.subject)))
    else if MutableTag(e.tag) then Some(e.tail)
    else
      match Lookup(s, e.subject, e.party)
      case None => None
      case Some(r) => Some(Encode(r))
  }

  function Previous(es: seq<Event>, i: nat): seq<byte>
    requires i <= |es|
  {
    if i == 0 then GENESIS else es[i - 1].digest
  }

  ghost function PreimageOf(s: Store, previous: seq<byte>, e: Event): seq<byte>
    requires EventContent(s, e).Some?
  {
    Preimage(previous, e.no, e.tag, EventKey(e), EventContent(s, e).value)
  }

  ghost function EventPreimage(s: Store, es: seq<Event>, i: nat): seq<byte>
    requires i < |es| && EventContent(s, es[i]).Some?
  {
    PreimageOf(s, Previous(es, i), es[i])
  }

  // What verifying asks.

  predicate LineVerified(env: Env, s: Store, line: Entity) {
    && line in s.decl && Verified(env, s, DeclKey(line), s.decl[line])
    && forall b | b in ContentRow(s, line) :: Verified(env, s, RelKey(line, b), ContentRow(s, line)[b])
  }

  predicate ContentVerified(env: Env, s: Store, e: Event) {
    if e.tag == EVENT_LINE then LineVerified(env, s, e.subject)
    else if MutableTag(e.tag) then true
    else
      match Lookup(s, e.subject, e.party)
      case None => false
      case Some(r) => Verified(env, s, RelKey(e.subject, e.party), r)
  }

  /** The event after the digest `previous` is numbered right, signed, and its digest
      is that of its content. */
  ghost predicate Sound(env: Env, s: Store, previous: seq<byte>, no: nat, e: Event) {
    && e.no == no && no < ENTITY_COUNT
    && Verified(env, s, RelKey(Anchor(env), FromValue(no)), e.link)
    && ContentVerified(env, s, e)
    && EventContent(s, e).Some?
    && e.digest == env.hash(PreimageOf(s, previous, e))
  }

  ghost predicate EventGood(env: Env, s: Store, es: seq<Event>, i: nat)
    requires i < |es|
  {
    Sound(env, s, Previous(es, i), i + 1, es[i])
  }

  /** The last event about each record that can be written again. */
  function Latest(es: seq<Event>): map<Key, Event> {
    if es == [] then map[]
    else
      var last := es[|es| - 1];
      var before := Latest(es[..|es| - 1]);
      if MutableTag(last.tag) then before[RelKey(last.subject, last.party) := last] else before
  }

  /** The two names a rename moved between. */
  function RenameTail(from: seq<byte>, to: seq<byte>): seq<byte> {
    BigEndian(|from|, 2) + from + to
  }

  function DecodeRenameTail(tail: seq<byte>): Option<(seq<byte>, seq<byte>)> {
    TakeField(tail)
  }

  /** The record as it stands is what the last event about it left. */
  predicate StateMatches(env: Env, s: Store, e: Event) {
    match Lookup(s, e.subject, e.party)
    case None => false
    case Some(r) =>
      && Verified(env, s, RelKey(e.subject, e.party), r)
      && (e.tag == EVENT_DECLARE ==>
            DecodeRenameTail(e.tail).Some? && r.name == DecodeRenameTail(e.tail).value.1)
      && (e.tag == EVENT_FIELD_STATE ==> |e.tail| == 1 && r.data == e.tail)
  }

  // Which lines the allocator has handed out.

  predicate Reached(env: Env, s: Store, page: byte) {
    Counter(env, page, TYPE_ENTRY) in s.decl
  }

  predicate CounterParses(r: Record) {
    |r.data| == 1 || |r.data| == 2
  }

  /** The highest id handed out: the counter holds the next free one, 0 meaning
      that the page is full. */
  function LastId(r: Record): byte
    requires CounterParses(r)
  {
    if r.data[0] == 0 then 0xFF else r.data[0] - 1
  }

  /** The first page from `page` on that the log never reached; 256 if none. */
  function FirstUnreached(env: Env, s: Store, page: nat): (p: nat)
    requires page <= 256
    ensures page <= p <= 256
    ensures forall q | page <= q < p :: Reached(env, s, q)
    ensures p < 256 ==> !Reached(env, s, p)
    decreases 256 - page, s
  {
    if page == 256 || !Reached(env, s, page) then page else FirstUnreached(env, s, page + 1)
  }

  predicate CountersParse(env: Env, s: Store) {
    forall p: byte | 1 <= p < FirstUnreached(env, s, 1) ::
      Reached(env, s, p) && CounterParses(s.decl[Counter(env, p, TYPE_ENTRY)])
  }

  /** A line on a reached page with an id the allocator handed out. */
  predicate Allocated(env: Env, s: Store, e: Entity) {
    && e.log == env.log && e.typ == TYPE_ENTRY && 1 <= e.page < FirstUnreached(env, s, 1)
    && Reached(env, s, e.page) && CounterParses(s.decl[Counter(env, e.page, TYPE_ENTRY)])
    && 1 <= e.id <= LastId(s.decl[Counter(env, e.page, TYPE_ENTRY)])
  }

  function LineSubjects(es: seq<Event>): set<Entity> {
    set e | e in es && e.tag == EVENT_LINE :: e.subject
  }

  /** The line events are exactly about the lines allocated. */
  ghost predicate LinesAreChained(env: Env, s: Store, es: seq<Event>) {
    CountersParse(env, s) && forall e :: e in LineSubjects(es) <==> Allocated(env, s, e)
  }

  function HeadData(digest: seq<byte>, count: nat): seq<byte> {
    digest + BigEndian(count, 8)
  }

  predicate StatesMatch(env: Env, s: Store, es: seq<Event>) {
    forall k | k in Latest(es) :: StateMatches(env, s, Latest(es)[k])
  }

  /** The events replay to the head, one by one and as a whole. */
  ghost predicate Replays(env: Env, s: Store, es: seq<Event>, head: Record) {
    && |head.data| == HEAD_LEN
    && LinesAreChained(env, s, es)
    && (forall i: nat | i < |es| :: EventGood(env, s, es, i))
    && |es| == Number(head.data[DIGEST_LEN..])
    && Previous(es, |es|) == head.data[..DIGEST_LEN]
    && StatesMatch(env, s, es)
  }

  /** What VerifyChain accepts. */
  ghost predicate Accepts(env: Env, s: Store) {
    && LinksParse(env, s)
    && if Head(env) in s.decl then Replays(env, s, Events(env, s), s.decl[Head(env)]) else Events(env, s) == []
  }
}
