/** The log book as a state machine.  A step is one committed transaction, by any
    writer; `Now` says what its preconditions and the checks around it have
    established about the store it lands on, and `Effect` what it writes. */
module Book {
  import opened Common
  import opened Bytes
  import opened Entities
  import opened Records
  import opened Chain
  import opened Transactions
  import opened Sealing

  const COUNTER_CLOSED: byte := 1
  const VOCABULARY_OPEN: byte := 0
  const VOCABULARY_CLOSED: byte := 1
  const INPUT_TERM: byte := 0
  const INPUT_NUMBER: byte := 1
  const INPUT_TEXT: byte := 2

  /** The vocabularies of column names and of actor names; id 0 is never allocated. */
  function FieldOwner(env: Env): Entity { Entity(env.log, SCHEMA_PAGE, TYPE_FIELD, 0) }

  function ActorOwner(env: Env): Entity { Entity(env.log, SCHEMA_PAGE, TYPE_ACTOR, 0) }

  // Signed records.

  /** Signed by a declared actor, for the key it is stored under. */
  predicate Signed(env: Env, s: Store, key: Key, r: Record) {
    Verified(env, s, key, r) && r.author.typ == TYPE_ACTOR
  }

  /** A relation as a writer builds it: two different endpoints, both directions. */
  predicate LinkOk(env: Env, s: Store, a: Entity, b: Entity, l: Link, kind: byte) {
    && a != ZERO && b != ZERO && a != b
    && l.fwd.kind == kind && SameBody(l.fwd, l.rev) && Signed(env, s, RelKey(a, b), l.fwd)
  }

  // The head.

  function HeadDigest(env: Env, s: Store): seq<byte> {
    if Head(env) in s.decl && |s.decl[Head(env)].data| == HEAD_LEN
      then s.decl[Head(env)].data[..DIGEST_LEN] else GENESIS
  }

  function HeadCount(env: Env, s: Store): nat {
    if Head(env) in s.decl && |s.decl[Head(env)].data| == HEAD_LEN
      then Number(s.decl[Head(env)].data[DIGEST_LEN..]) else 0
  }

  // Allocation.

  predicate IsClosed(r: Record) {
    |r.data| == 2 && r.data[1] % 2 == 1
  }

  function CounterData(next: byte, flags: byte): seq<byte> { [next, flags] }

  /** The least undeclared id from `id` on; 256 if there is none. */
  function FirstFree(env: Env, s: Store, page: byte, typ: byte, id: nat): (r: nat)
    requires id <= 256
    ensures id <= r <= 256
    ensures r < 256 ==> Entity(env.log, page, typ, r) !in s.decl
    ensures forall k: byte | id <= k < r :: Entity(env.log, page, typ, k) in s.decl
    decreases 256 - id, s
  {
    if id == 256 || Entity(env.log, page, typ, id) !in s.decl then id else FirstFree(env, s, page, typ, id + 1)
  }

  /** The id the allocator would hand out on a page; 0 if the page is closed or full. */
  function SlotOn(env: Env, s: Store, page: byte, typ: byte): byte {
    var c := Counter(env, page, typ);
    if c in s.decl && CounterParses(s.decl[c]) && (IsClosed(s.decl[c]) || s.decl[c].data[0] == 0) then 0
    else
      var start := if c in s.decl && CounterParses(s.decl[c]) then s.decl[c].data[0] else 1;
      var free := FirstFree(env, s, page, typ, start);
      if free == 256 then 0 else free
  }

  /** The entity the allocator picks: the first page with room from `page` on. */
  predicate IsSlot(env: Env, s: Store, page: byte, e: Entity) {
    && e.log == env.log && page <= e.page && e.id != 0
    && (Counter(env, e.page, e.typ) in s.decl ==> CounterParses(s.decl[Counter(env, e.page, e.typ)]))
    && e.id == SlotOn(env, s, e.page, e.typ)
    && forall p: byte | page <= p < e.page :: SlotOn(env, s, p, e.typ) == 0
  }

  /** The counter after id was handed out: 255 is the last, and 0 means full. */
  function Bumped(id: byte): byte { if id < 255 then id + 1 else 0 }

  predicate CounterFor(e: Entity, counter: Record) {
    counter.data == CounterData(Bumped(e.id), 0) && counter.author.typ == TYPE_ACTOR
  }

  // Presence buckets.

  function Pack(es: seq<Entity>): seq<byte> {
    if es == [] then [] else Pack(es[..|es| - 1]) + EntityBytes(es[|es| - 1])
  }

  /** The entities listed in a bucket; the trailing bytes that make no entity, which
      no writer leaves, are dropped. */
  function Unpack(data: seq<byte>): seq<Entity> {
    if |data| < ENTITY_LEN then []
    else Unpack(data[..|data| - ENTITY_LEN]) + [DecodeEntity(data[|data| - ENTITY_LEN..])]
  }

  function Candidates(s: Store, k: (Entity, Entity)): seq<Entity> {
    if k in s.pres then Unpack(s.pres[k].data) else []
  }

  function Without(es: seq<Entity>, e: Entity): seq<Entity> {
    if es == [] then []
    else
      var front, last := Without(es[..|es| - 1], e), es[|es| - 1];
      if last == e then front else front + [last]
  }

  function BucketKey(env: Env, owner: Entity, text: seq<byte>): (Entity, Entity) { (owner, env.bucket(text)) }

  /** No entity listed in the bucket of a text is called that. */
  predicate Unheld(env: Env, s: Store, owner: Entity, text: seq<byte>) {
    forall c | c in Candidates(s, BucketKey(env, owner, text)) :: c in s.decl && s.decl[c].name != text
  }

  // Vocabularies.

  /** The state record of a column, if it was ever closed, says open or closed. */
  predicate VocabularyIs(env: Env, s: Store, field: Entity, state: byte) {
    match Lookup(s, field, Marker(env))
    case None => state == VOCABULARY_OPEN
    case Some(r) => r.kind == KIND_FIELD_STATE && r.data == [state]
  }

  // Cells.

  datatype Cell =
    | TermCell(field: Entity, term: Entity)
    | QuantityCell(field: Entity, number: seq<byte>)
    | RemarkCell(field: Entity, text: seq<byte>)

  function Target(c: Cell): Entity { if c.TermCell? then c.term else c.field }

  function CellKind(c: Cell): byte {
    match c
    case TermCell(_, _) => KIND_CELL
    case QuantityCell(_, _) => KIND_QUANTITY
    case RemarkCell(_, _) => KIND_REMARK
  }

  function CellData(c: Cell): seq<byte> {
    match c
    case TermCell(_, _) => []
    case QuantityCell(_, n) => n
    case RemarkCell(_, t) => t
  }

  function CellInput(c: Cell): byte {
    match c
    case TermCell(_, _) => INPUT_TERM
    case QuantityCell(_, _) => INPUT_NUMBER
    case RemarkCell(_, _) => INPUT_TEXT
  }

  /** What a column holds, by its declaration. */
  function InputOf(decl: Record): byte { if |decl.data| > 0 then decl.data[0] else INPUT_TERM }

  predicate TermOf(s: Store, term: Entity, field: Entity) {
    field in Row(s, term) && Row(s, term)[field].kind == KIND_TERM_OF
  }

  predicate CellOk(s: Store, c: Cell) {
    && c.field.typ == TYPE_FIELD && c.field in s.decl && InputOf(s.decl[c.field]) == CellInput(c)
    && match c
       case TermCell(f, t) => t.typ == TYPE_TERM && t in s.decl && TermOf(s, t, f)
       case QuantityCell(_, n) => |n| == 8
       case RemarkCell(_, t) => t != []
  }

  predicate CellsOk(s: Store, cells: seq<Cell>) {
    && cells != []
    && (forall c | c in cells :: CellOk(s, c))
    && forall i, j | 0 <= i < j < |cells| :: cells[i].field != cells[j].field
  }

  /** A struck line and the record that strikes it. */
  datatype Strike = Strike(line: Entity, link: Link)

  function Forwards(row: map<Entity, Link>): Relations { map b | b in row :: row[b].fwd }

  /** The relations of a new line: one for each cell, and the line it replaces. */
  predicate RowOk(env: Env, s: Store, line: Entity, cells: seq<Cell>, prior: Option<Strike>, row: map<Entity, Link>) {
    && (forall c | c in cells ::
          Target(c) in row && LinkOk(env, s, line, Target(c), row[Target(c)], CellKind(c)) &&
            row[Target(c)].fwd.data == CellData(c))
    && (prior.Some? ==>
          prior.value.line in row && LinkOk(env, s, line, prior.value.line, row[prior.value.line], KIND_SUPERSEDES))
    && forall b | b in row :: (exists c :: c in cells && Target(c) == b) || (prior.Some? && b == prior.value.line)
  }

  /** A line that stands. */
  predicate Standing(env: Env, s: Store, line: Entity) {
    line.typ == TYPE_ENTRY && line.id != 0 && line in s.decl && Marker(env) !in Row(s, line)
  }

  predicate StrikeOk(env: Env, s: Store, x: Strike, kind: byte) {
    Standing(env, s, x.line) && LinkOk(env, s, x.line, Marker(env), x.link, kind) && |x.link.fwd.data| == ENTITY_LEN
  }

  // Steps.

  datatype Step =
    | DeclareActor(e: Entity, decl: Record)
    | Intern(owner: Entity, e: Entity, decl: Record, counter: Record, bucket: Record, termOf: Option<Link>)
    | Write(line: Entity, decl: Record, counter: Record, cells: seq<Cell>, row: map<Entity, Link>,
            prior: Option<Strike>, seal: Seal)
    | Void(strike: Strike, seal: Seal)
    | Countersign(line: Entity, actor: Entity, link: Link, seal: Seal)
    | SignOff(page: byte, counter: Record, link: Link, seal: Seal)
    | Rename(e: Entity, owner: Entity, decl: Record, pres: map<(Entity, Entity), Record>, gone: set<(Entity, Entity)>,
             seal: Seal)
    | SetVocabulary(field: Entity, link: Link, seal: Seal)
    | Derive(edges: map<Entity, map<Entity, Link>>)

  /** The events a step adds to the chain. */
  ghost function Entries(env: Env, s: Store, step: Step): seq<Entry> {
    match step
    case Write(line, _, _, _, row, prior, _) =>
      var first := Entry(EVENT_LINE, line, ZERO, ContentBytes(line, Content(Forwards(row))), []);
      if prior.None? then [first] else [first, StrikeEntry(env, prior.value)]
    case Void(x, _) => [StrikeEntry(env, x)]
    case Countersign(line, actor, l, _) => [Entry(EVENT_COUNTERSIGN, line, actor, Encode(l.fwd), [])]
    case SignOff(page, _, l, _) => [Entry(EVENT_SIGNOFF, PageEntity(env, page), Marker(env), Encode(l.fwd), [])]
    case Rename(e, _, decl, _, _, _) =>
      var tail := RenameTail(if e in s.decl then s.decl[e].name else [], decl.name);
      [Entry(EVENT_DECLARE, e, ZERO, tail, tail)]
    case SetVocabulary(f, l, _) => [Entry(EVENT_FIELD_STATE, f, Marker(env), l.fwd.data, l.fwd.data)]
    case _ => []
  }

  function StrikeEntry(env: Env, x: Strike): Entry {
    Entry(EVENT_STRIKE, x.line, Marker(env), Encode(x.link.fwd), [])
  }

  ghost predicate SealOk(env: Env, s: Store, step: Step, seal: Seal) {
    SealFits(env, s, HeadDigest(env, s), HeadCount(env, s), Entries(env, s, step), seal)
  }

  predicate DeclareActorNow(s: Store, e: Entity, decl: Record) {
    e.typ == TYPE_ACTOR && e !in s.decl && |decl.data| == PUBLIC_KEY_LEN && decl.author.typ == TYPE_ACTOR
  }

  predicate InternNow(env: Env, s: Store, owner: Entity, e: Entity, decl: Record, counter: Record, bucket: Record,
                      termOf: Option<Link>) {
    && (e.typ == TYPE_FIELD ==> owner == FieldOwner(env))
    && (e.typ == TYPE_ACTOR ==> owner == ActorOwner(env) && |decl.data| == PUBLIC_KEY_LEN)
    && (e.typ == TYPE_TERM ==> owner.typ == TYPE_FIELD)
    && (e.typ == TYPE_FIELD || e.typ == TYPE_ACTOR || e.typ == TYPE_TERM)
    && decl.name != [] && decl.author.typ == TYPE_ACTOR
    && IsSlot(env, s, SCHEMA_PAGE, e) && CounterFor(e, counter)
    && Unheld(env, s, owner, decl.name)
    && bucket.data == Pack(Candidates(s, BucketKey(env, owner, decl.name)) + [e])
    && (termOf.Some? <==> e.typ == TYPE_TERM)
    && (termOf.Some? ==>
          LinkOk(env, s, e, owner, termOf.value, KIND_TERM_OF) && VocabularyIs(env, s, owner, VOCABULARY_OPEN))
  }

  predicate WriteNow(env: Env, s: Store, line: Entity, decl: Record, counter: Record, cells: seq<Cell>,
                     row: map<Entity, Link>, prior: Option<Strike>) {
    && line.typ == TYPE_ENTRY && IsSlot(env, s, FIRST_ENTRY_PAGE, line) && CounterFor(line, counter)
    && Signed(env, s, DeclKey(line), decl)
    && CellsOk(s, cells) && RowOk(env, s, line, cells, prior, row)
    && (prior.Some? ==>
          StrikeOk(env, s, prior.value, KIND_SUPERSEDED) && prior.value.link.fwd.data == EntityBytes(line))
  }

  predicate CountersignNow(env: Env, s: Store, line: Entity, actor: Entity, l: Link) {
    && Standing(env, s, line) && s.decl[line].author != actor
    && actor.typ == TYPE_ACTOR && actor !in Row(s, line)
    && LinkOk(env, s, line, actor, l, KIND_COUNTERSIGN) && l.fwd.author == actor
  }

  predicate SignOffNow(env: Env, s: Store, page: byte, counter: Record, l: Link) {
    && FIRST_ENTRY_PAGE <= page && Marker(env) !in Row(s, PageEntity(env, page))
    && (Reached(env, s, page) ==>
          CounterParses(s.decl[Counter(env, page, TYPE_ENTRY)]) && !IsClosed(s.decl[Counter(env, page, TYPE_ENTRY)]))
    && counter.data == CounterData(if Reached(env, s, page)
                                   then s.decl[Counter(env, page, TYPE_ENTRY)].data[0] else 1, COUNTER_CLOSED)
    && counter.author.typ == TYPE_ACTOR
    && LinkOk(env, s, PageEntity(env, page), Marker(env), l, KIND_PAGE_SIGNOFF) && |l.fwd.data| == 1
  }

  /** The buckets after e moved from one text to another. */
  predicate Moved(env: Env, s: Store, e: Entity, owner: Entity, name: seq<byte>, text: seq<byte>,
                  pres: map<(Entity, Entity), Record>, gone: set<(Entity, Entity)>) {
    var from, to := BucketKey(env, owner, name), BucketKey(env, owner, text);
    var rest := Without(Candidates(s, from), e);
    if from == to then
      from in s.pres && pres.Keys == {to} && gone == {} && pres[to].data == Pack(rest + [e])
    else
      && to in pres && pres[to].data == Pack(Candidates(s, to) + [e])
      && if e !in Candidates(s, from) then pres.Keys == {to} && gone == {}
         else if rest == [] then pres.Keys == {to} && gone == {from}
         else pres.Keys == {from, to} && gone == {} && pres[from].data == Pack(rest)
  }

  predicate OwnerOf(env: Env, s: Store, e: Entity, owner: Entity) {
    if e.typ == TYPE_FIELD then owner == FieldOwner(env) else e.typ == TYPE_TERM && TermOf(s, e, owner)
  }

  predicate RenameNow(env: Env, s: Store, e: Entity, owner: Entity, decl: Record,
                      pres: map<(Entity, Entity), Record>, gone: set<(Entity, Entity)>) {
    && e in s.decl && OwnerOf(env, s, e, owner)
    && decl.name != [] && decl.name != s.decl[e].name
    && Unheld(env, s, owner, decl.name)
    && decl.kind == s.decl[e].kind && decl.data == s.decl[e].data && decl.created == s.decl[e].created
    && Signed(env, s, DeclKey(e), decl)
    && Moved(env, s, e, owner, s.decl[e].name, decl.name, pres, gone)
  }

  predicate SetVocabularyNow(env: Env, s: Store, field: Entity, l: Link) {
    && field.typ == TYPE_FIELD && field in s.decl
    && LinkOk(env, s, field, Marker(env), l, KIND_FIELD_STATE)
    && (   (l.fwd.data == [VOCABULARY_CLOSED] && VocabularyIs(env, s, field, VOCABULARY_OPEN))
        || (l.fwd.data == [VOCABULARY_OPEN] && VocabularyIs(env, s, field, VOCABULARY_CLOSED)))
  }

  predicate DeriveNow(env: Env, s: Store, edges: map<Entity, map<Entity, Link>>) {
    && (forall a | a in edges :: edges[a] != map[])
    && forall a, b | a in edges && b in edges[a] :: EdgeOk(env, s, a, b, edges[a][b])
  }

  /** One unit produced from another; the record names the execution. */
  predicate EdgeOk(env: Env, s: Store, a: Entity, b: Entity, l: Link) {
    && a.typ == TYPE_TERM && b.typ == TYPE_TERM && a in s.decl && b in s.decl
    && LinkOk(env, s, a, b, l, KIND_DERIVED_FROM) && |l.fwd.data| == ENTITY_LEN
  }

  ghost predicate Now(env: Env, s: Store, step: Step) {
    match step
    case DeclareActor(e, decl) => DeclareActorNow(s, e, decl)
    case Intern(owner, e, decl, counter, bucket, termOf) => InternNow(env, s, owner, e, decl, counter, bucket, termOf)
    case Write(line, decl, counter, cells, row, prior, seal) =>
      WriteNow(env, s, line, decl, counter, cells, row, prior) && SealOk(env, s, step, seal)
    case Void(x, seal) => StrikeOk(env, s, x, KIND_VOIDED) && SealOk(env, s, step, seal)
    case Countersign(line, actor, l, seal) => CountersignNow(env, s, line, actor, l) && SealOk(env, s, step, seal)
    case SignOff(page, counter, l, seal) => SignOffNow(env, s, page, counter, l) && SealOk(env, s, step, seal)
    case Rename(e, owner, decl, pres, gone, seal) => RenameNow(env, s, e, owner, decl, pres, gone) &&
      SealOk(env, s, step, seal)
    case SetVocabulary(f, l, seal) => SetVocabularyNow(env, s, f, l) && SealOk(env, s, step, seal)
    case Derive(edges) => DeriveNow(env, s, edges)
  }

  // What a step writes, apart from the chain.

  function Plain(env: Env, step: Step): Txn {
    match step
    case DeclareActor(e, decl) => Txn(map[e := decl], map[], map[], {})
    case Intern(owner, e, decl, counter, bucket, termOf) =>
      Txn(map[Counter(env, e.page, e.typ) := counter, e := decl],
          if termOf.Some? then map[e := map[owner := termOf.value]] else map[],
          map[BucketKey(env, owner, decl.name) := bucket], {})
    case Write(line, decl, counter, _, row, prior, _) =>
      Txn(map[Counter(env, line.page, TYPE_ENTRY) := counter, line := decl],
          if prior.None? then map[line := row]
            else map[line := row, prior.value.line := map[Marker(env) := prior.value.link]],
          map[], {})
    case Void(x, _) => Txn(map[], map[x.line := map[Marker(env) := x.link]], map[], {})
    case Countersign(line, actor, l, _) => Txn(map[], map[line := map[actor := l]], map[], {})
    case SignOff(page, counter, l, _) =>
      Txn(map[Counter(env, page, TYPE_ENTRY) := counter], map[PageEntity(env, page) := map[Marker(env) := l]], map[],
          {})
    case Rename(e, _, decl, pres, gone, _) => Txn(map[e := decl], map[], pres, gone)
    case SetVocabulary(f, l, _) => Txn(map[], map[f := map[Marker(env) := l]], map[], {})
    case Derive(edges) => Txn(map[], edges, map[], {})
  }

  predicate Chains(step: Step) {
    !step.DeclareActor? && !step.Intern? && !step.Derive?
  }

  /** The transaction with its chain links and the new head. */
  ghost function Sealed(env: Env, t: Txn, n: nat, seal: Seal): Txn
    requires n + |seal.links| < ENTITY_COUNT
  {
    t.(decl := t.decl[Head(env) := seal.head], rel := t.rel[Anchor(env) := SealRow(n, seal.links)])
  }

  ghost function Effect(env: Env, s: Store, step: Step): Txn {
    if Chains(step) && HeadCount(env, s) + |step.seal.links| < ENTITY_COUNT
    then Sealed(env, Plain(env, step), HeadCount(env, s), step.seal)
    else Plain(env, step)
  }

  ghost function Do(env: Env, s: Store, step: Step): Store {
    Commit(s, Effect(env, s, step))
  }

  function Empty(): Store { Store(map[], map[], map[], map[]) }

  // What the conditions say about the kinds of entities involved.

  /** Which kinds of entities the step declares. */
  predicate Typed(step: Step) {
    match step
    case DeclareActor(e, _) => e.typ == TYPE_ACTOR
    case Intern(_, e, _, _, _, _) => e.typ == TYPE_FIELD || e.typ == TYPE_ACTOR || e.typ == TYPE_TERM
    case Write(line, _, _, _, _, _, _) => line.typ == TYPE_ENTRY
    case Rename(e, _, _, _, _, _) => e.typ == TYPE_FIELD || e.typ == TYPE_TERM
    case _ => true
  }

  lemma NowTyped(env: Env, s: Store, step: Step)
    requires Now(env, s, step)
    ensures Typed(step)
  {
  }

  /** A chained step adds one or two events, and there are numbers left for them. */
  lemma NowNumbered(env: Env, s: Store, step: Step)
    requires Now(env, s, step) && Chains(step)
    ensures 1 <= |step.seal.links| <= 2 && |step.seal.links| == |Entries(env, s, step)|
    ensures HeadCount(env, s) + |step.seal.links| < ENTITY_COUNT
  {
    var n := |Entries(env, s, step)|;
    assert LinkFits(env, s, HeadDigest(env, s), HeadCount(env, s), Entries(env, s, step), step.seal.links[n - 1],
                    n - 1);
  }

  /** The declarations after a step. */
  lemma DeclAfter(env: Env, s: Store, step: Step)
    requires Now(env, s, step)
    ensures Do(env, s, step).decl
         == s.decl + if Chains(step) then Plain(env, step).decl[Head(env) := step.seal.head] else Plain(env, step).decl
  {
    if Chains(step) { NowNumbered(env, s, step); }
  }

  /** Which kinds of entities the step relates to others. */
  predicate Relates(step: Step, a: Entity) {
    match step
    case Intern(_, _, _, _, _, _) => a.typ == TYPE_TERM
    case Derive(_) => a.typ == TYPE_TERM
    case Write(_, _, _, _, _, _, _) => a.typ == TYPE_ENTRY
    case Void(_, _) => a.typ == TYPE_ENTRY
    case Countersign(_, _, _, _) => a.typ == TYPE_ENTRY
    case SignOff(_, _, _, _) => a.typ == TYPE_PAGE
    case SetVocabulary(_, _, _) => a.typ == TYPE_FIELD
    case _ => false
  }

  lemma DeriveRelates(env: Env, s: Store, step: Step)
    requires step.Derive? && DeriveNow(env, s, step.edges)
    ensures forall a | a in Plain(env, step).rel :: Relates(step, a)
  {
    forall a, b | a in step.edges && b in step.edges[a]
      ensures a.typ == TYPE_TERM
    {
      assert EdgeOk(env, s, a, b, step.edges[a][b]);
    }
  }

  lemma NowRelates(env: Env, s: Store, step: Step)
    requires Now(env, s, step)
    ensures forall a | a in Plain(env, step).rel :: Relates(step, a)
  {
    if step.Derive? {
      DeriveRelates(env, s, step);
    } else if step.Write? || step.Void? || step.Countersign? {
      LineRelates(env, s, step);
    } else {
      OtherRelates(env, s, step);
    }
  }

  lemma LineRelates(env: Env, s: Store, step: Step)
    requires Now(env, s, step) && (step.Write? || step.Void? || step.Countersign?)
    ensures forall a | a in Plain(env, step).rel :: Relates(step, a)
  {
  }

  lemma OtherRelates(env: Env, s: Store, step: Step)
    requires Now(env, s, step) && !step.Write? && !step.Void? && !step.Countersign? && !step.Derive?
    ensures forall a | a in Plain(env, step).rel :: Relates(step, a)
  {
  }
}
