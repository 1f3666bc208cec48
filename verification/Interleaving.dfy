/** Writers that read, build and commit at different times.

    A trace is the sequence of stores between commits.  A writer's transaction compares
    some of what it read with the store it lands on; everything else it used was read
    from some earlier store of the trace, each item from its own.  Every trace is a run
    of the book, so what `Reach` and the modules after it say of runs they say of any
    number of writers racing each other.
 */
module Interleaving {
  import opened Common
  import opened Bytes
  import opened Entities
  import opened Records
  import opened Chain
  import opened Transactions
  import opened Sealing
  import opened Book
  import opened Growth
  import opened Acceptance
  import opened Preserve
  import opened Steps
  import opened Reach
  import opened Dictionary
  import opened Stability

  // What a writer reads.

  function Current(h: seq<Store>): Store
    requires h != []
  {
    h[|h| - 1]
  }

  ghost predicate DeclaredOnce(h: seq<Store>, e: Entity) {
    exists j :: 0 <= j < |h| && e in h[j].decl
  }

  ghost predicate TakenOnce(env: Env, h: seq<Store>, p: byte, typ: byte) {
    exists j :: 0 <= j < |h| && SlotOn(env, h[j], p, typ) == 0
  }

  function StartId(env: Env, s: Store, e: Entity): byte {
    var c := Counter(env, e.page, e.typ);
    if c in s.decl && CounterParses(s.decl[c]) then s.decl[c].data[0] else 1
  }

  /** The search for a free id: pages passed over at one time or another, ids passed over
      likewise, the counter of the page as it is now, and the id still free. */
  ghost predicate SlotRead(env: Env, h: seq<Store>, page: byte, e: Entity)
    requires h != []
  {
    var s, c := Current(h), Counter(env, e.page, e.typ);
    && e.log == env.log && page <= e.page && e.id != 0 && e !in s.decl
    && (forall p: byte | page <= p < e.page :: TakenOnce(env, h, p, e.typ))
    && (c in s.decl ==> CounterParses(s.decl[c]) && !IsClosed(s.decl[c]) && s.decl[c].data[0] != 0)
    && StartId(env, s, e) <= e.id
    && forall id: byte | StartId(env, s, e) <= id < e.id :: DeclaredOnce(h, Entity(env.log, e.page, e.typ, id))
  }

  predicate SameBucket(s: Store, t: Store, k: (Entity, Entity)) {
    (k in s.pres <==> k in t.pres) && (k in s.pres ==> s.pres[k] == t.pres[k])
  }

  /** The bucket as read at time i and unchanged since; then one name after another. */
  ghost predicate BucketRead(env: Env, h: seq<Store>, i: nat, owner: Entity, text: seq<byte>)
    requires i < |h|
  {
    var k := BucketKey(env, owner, text);
    && SameBucket(h[i], Current(h), k)
    && forall c | c in Candidates(h[i], k) :: NameRead(h, i, c, text)
  }

  ghost predicate NameRead(h: seq<Store>, i: nat, c: Entity, text: seq<byte>) {
    exists j :: i <= j < |h| && c in h[j].decl && h[j].decl[c].name != text
  }

  /** No bucket is ever written with a value it held before: every value carries the time
      it was written. */
  ghost predicate Fresh(h: seq<Store>, pres: map<(Entity, Entity), Record>) {
    forall i, k | 0 <= i < |h| && k in pres && k in h[i].pres :: h[i].pres[k] != pres[k]
  }

  // When a transaction commits.

  ghost predicate InternMay(env: Env, h: seq<Store>, step: Step)
    requires h != [] && step.Intern?
  {
    var s, e, owner := Current(h), step.e, step.owner;
    && (e.typ == TYPE_FIELD ==> owner == FieldOwner(env))
    && (e.typ == TYPE_ACTOR ==> owner == ActorOwner(env) && |step.decl.data| == PUBLIC_KEY_LEN)
    && (e.typ == TYPE_TERM ==> owner.typ == TYPE_FIELD)
    && (e.typ == TYPE_FIELD || e.typ == TYPE_ACTOR || e.typ == TYPE_TERM)
    && step.decl.name != [] && step.decl.author.typ == TYPE_ACTOR
    && SlotRead(env, h, SCHEMA_PAGE, e) && CounterFor(e, step.counter)
    && (exists i: nat ::
          && i < |h| && BucketRead(env, h, i, owner, step.decl.name)
          && step.bucket.data == Pack(Candidates(h[i], BucketKey(env, owner, step.decl.name)) + [e]))
    && (step.termOf.Some? <==> e.typ == TYPE_TERM)
    && (step.termOf.Some? ==>
          LinkOk(env, s, e, owner, step.termOf.value, KIND_TERM_OF) && VocabularyIs(env, s, owner, VOCABULARY_OPEN))
    && Fresh(h, Plain(env, step).pres)
  }

  ghost predicate CellRead(h: seq<Store>, c: Cell) {
    exists j :: 0 <= j < |h| && CellOk(h[j], c)
  }

  ghost predicate StrikeMay(env: Env, h: seq<Store>, x: Strike, kind: byte)
    requires h != []
  {
    && x.line.typ == TYPE_ENTRY && x.line.id != 0 && DeclaredOnce(h, x.line)
    && Marker(env) !in Row(Current(h), x.line)
    && LinkOk(env, Current(h), x.line, Marker(env), x.link, kind) && |x.link.fwd.data| == ENTITY_LEN
  }

  ghost predicate WriteMay(env: Env, h: seq<Store>, step: Step)
    requires h != [] && step.Write?
  {
    var s := Current(h);
    && step.line.typ == TYPE_ENTRY && SlotRead(env, h, FIRST_ENTRY_PAGE, step.line) &&
       CounterFor(step.line, step.counter)
    && Signed(env, s, DeclKey(step.line), step.decl)
    && step.cells != [] && (forall c | c in step.cells :: CellRead(h, c))
    && (forall i, j | 0 <= i < j < |step.cells| :: step.cells[i].field != step.cells[j].field)
    && RowOk(env, s, step.line, step.cells, step.prior, step.row)
    && (step.prior.Some? ==>
          StrikeMay(env, h, step.prior.value, KIND_SUPERSEDED) &&
            step.prior.value.link.fwd.data == EntityBytes(step.line))
  }

  ghost predicate CountersignMay(env: Env, h: seq<Store>, step: Step)
    requires h != [] && step.Countersign?
  {
    var s := Current(h);
    && step.line.typ == TYPE_ENTRY && step.line.id != 0 && Marker(env) !in Row(s, step.line)
    && (exists j :: 0 <= j < |h| && step.line in h[j].decl && h[j].decl[step.line].author != step.actor)
    && step.actor.typ == TYPE_ACTOR && step.actor !in Row(s, step.line)
    && LinkOk(env, s, step.line, step.actor, step.link, KIND_COUNTERSIGN) && step.link.fwd.author == step.actor
  }

  /** The count the sign-off records was read before the page was closed. */
  ghost predicate CountRead(env: Env, h: seq<Store>, page: byte, l: Link) {
    exists j :: 0 <= j < |h| && l.fwd.data == [LinesOn(env, h[j], page)]
  }

  /** How many lines the allocator has handed out on a page. */
  function LinesOn(env: Env, s: Store, page: byte): byte {
    if Reached(env, s, page) && CounterParses(s.decl[Counter(env, page, TYPE_ENTRY)])
    then LastId(s.decl[Counter(env, page, TYPE_ENTRY)]) else 0
  }

  /** A rename reads everything at one time i, and the buckets it read are unchanged. */
  ghost predicate RenameMay(env: Env, h: seq<Store>, i: nat, step: Step)
    requires i < |h| && step.Rename?
  {
    && RenameNow(env, h[i], step.e, step.owner, step.decl, step.pres, step.gone)
    && SameBucket(h[i], Current(h), BucketKey(env, step.owner, step.decl.name))
    && (step.e in Candidates(h[i], BucketKey(env, step.owner, h[i].decl[step.e].name)) ==>
          SameBucket(h[i], Current(h), BucketKey(env, step.owner, h[i].decl[step.e].name)))
    && Fresh(h, step.pres)
    && SealFits(env, Current(h), HeadDigest(env, Current(h)), HeadCount(env, Current(h)), Entries(env, h[i], step),
                step.seal)
  }

  ghost predicate VocabularyMay(env: Env, h: seq<Store>, step: Step)
    requires h != [] && step.SetVocabulary?
  {
    var s := Current(h);
    && step.field.typ == TYPE_FIELD && DeclaredOnce(h, step.field)
    && LinkOk(env, s, step.field, Marker(env), step.link, KIND_FIELD_STATE)
    && (   (step.link.fwd.data == [VOCABULARY_CLOSED] && VocabularyIs(env, s, step.field, VOCABULARY_OPEN))
        || (step.link.fwd.data == [VOCABULARY_OPEN] && VocabularyIs(env, s, step.field, VOCABULARY_CLOSED)))
  }

  ghost predicate EdgeMay(env: Env, h: seq<Store>, a: Entity, b: Entity, l: Link)
    requires h != []
  {
    && a.typ == TYPE_TERM && b.typ == TYPE_TERM && DeclaredOnce(h, a) && DeclaredOnce(h, b)
    && LinkOk(env, Current(h), a, b, l, KIND_DERIVED_FROM) && |l.fwd.data| == ENTITY_LEN
  }

  ghost predicate DeriveMay(env: Env, h: seq<Store>, step: Step)
    requires h != [] && step.Derive?
  {
    && (forall a | a in step.edges :: step.edges[a] != map[])
    && forall a, b | a in step.edges && b in step.edges[a] :: EdgeMay(env, h, a, b, step.edges[a][b])
  }

  ghost predicate May(env: Env, h: seq<Store>, step: Step)
    requires h != []
  {
    var s := Current(h);
    match step
    case DeclareActor(e, decl) => DeclareActorNow(s, e, decl)
    case Intern(_, _, _, _, _, _) => InternMay(env, h, step)
    case Write(_, _, _, _, _, _, seal) => WriteMay(env, h, step) && SealOk(env, s, step, seal)
    case Void(x, seal) => StrikeMay(env, h, x, KIND_VOIDED) && SealOk(env, s, step, seal)
    case Countersign(_, _, _, seal) => CountersignMay(env, h, step) && SealOk(env, s, step, seal)
    case SignOff(page, counter, l, seal) =>
      SignOffNow(env, s, page, counter, l) && CountRead(env, h, page, l) && SealOk(env, s, step, seal)
    case Rename(_, _, _, _, _, _) => exists i: nat :: i < |h| && RenameMay(env, h, i, step)
    case SetVocabulary(_, _, seal) => VocabularyMay(env, h, step) && SealOk(env, s, step, seal)
    case Derive(_) => DeriveMay(env, h, step)
  }

  /** The stores between the commits of some writers. */
  ghost predicate Trace(env: Env, h: seq<Store>, run: seq<Step>) {
    && |h| == |run| + 1 && h[0] == Empty()
    && forall i: nat | i < |run| :: May(env, h[..i + 1], run[i]) && h[i + 1] == Do(env, h[i], run[i])
  }
}
