/** When the book lets its writers go on: a step that is not held up by the state of a
    line is held up by nothing but the room left for events and lines. */
module Progress {
  import opened Common
  import opened Bytes
  import opened Entities
  import opened Records
  import opened Chain
  import opened Transactions
  import opened Sealing
  import opened Book
  import opened Growth
  import opened Allocation
  import opened Acceptance
  import opened Steps
  import opened Reach
  import opened Dictionary
  import opened Stability
  import opened Rows
  import opened Builder

  // Whoever holds a declared key can sign.

  predicate Accepted(env: Env, key: seq<byte>, payload: seq<byte>, sig: seq<byte>) {
    0 < |sig| <= MAX_FIELD_LEN && env.verify(key, payload, sig)
  }

  ghost predicate CanSign(env: Env, key: seq<byte>, payload: seq<byte>) {
    exists sig :: Accepted(env, key, payload, sig)
  }

  ghost predicate Signer(env: Env, s: Store, actor: Entity) {
    && actor.typ == TYPE_ACTOR && actor in s.decl && |s.decl[actor].data| == PUBLIC_KEY_LEN
    && forall payload :: CanSign(env, s.decl[actor].data, payload)
  }

  lemma Sign(env: Env, s: Store, actor: Entity, key: Key, kind: byte, data: seq<byte>) returns (r: Record)
    requires Signer(env, s, actor) && |data| <= MAX_FIELD_LEN
    ensures r.kind == kind && r.author == actor && r.data == data && Signed(env, s, key, r)
  {
    var blank := Record(kind, actor, 0, [], data, []);
    assert CanSign(env, s.decl[actor].data, SignedPayload(key, Unsigned(blank)));
    var sig :| Accepted(env, s.decl[actor].data, SignedPayload(key, Unsigned(blank)), sig);
    r := blank.(sig := sig);
  }

  // Seals.

  ghost predicate RoomForEvents(env: Env, s: Store, k: nat) {
    HeadCount(env, s) + k < Value(Anchor(env))
  }

  lemma NotAnchor(env: Env, no: nat)
    requires no < Value(Anchor(env))
    ensures no < ENTITY_COUNT && FromValue(no) != Anchor(env)
  {
    LastValue(Anchor(env));
  }

  lemma {:induction false} LinkFor(env: Env, s: Store, actor: Entity, previous: seq<byte>, n: nat, xs: seq<Entry>,
                                   x: Entry)
    returns (l: Link)
    requires Signer(env, s, actor) && |previous| == DIGEST_LEN && n + |xs| + 1 < Value(Anchor(env)) && x.tail == []
    ensures LinkFits(env, s, previous, n, xs + [x], l, |xs|)
  {
    var no := n + |xs| + 1;
    NotAnchor(env, no);
    assert (xs + [x])[|xs|] == x;
    var digest := Running(env, previous, n, xs + [x], |xs| + 1);
    PayloadLength(x.tag, x.subject, x.party, digest, x.tail);
    var payload := Payload(x.tag, x.subject, x.party, digest, x.tail);
    var r := Sign(env, s, actor, RelKey(Anchor(env), FromValue(no)), KIND_CHAIN_LINK, payload);
    l := Link(r, r);
  }

  lemma {:induction false} LinksFor(env: Env, s: Store, actor: Entity, previous: seq<byte>, n: nat, xs: seq<Entry>)
    returns (links: seq<Link>)
    requires Signer(env, s, actor) && |previous| == DIGEST_LEN && n + |xs| < Value(Anchor(env))
    requires forall i | 0 <= i < |xs| :: xs[i].tail == []
    ensures LinksFit(env, s, previous, n, xs, links)
  {
    if xs == [] {
      links := [];
    } else {
      var front, x := xs[..|xs| - 1], xs[|xs| - 1];
      links := LinksFor(env, s, actor, previous, n, front);
      var l := LinkFor(env, s, actor, previous, n, front, x);
      LinksFitMore(env, s, previous, n, front, links, x, l);
      assert xs == front + [x];
      links := links + [l];
    }
  }

  lemma SealFor(env: Env, s: Store, actor: Entity, xs: seq<Entry>) returns (seal: Seal)
    requires Signer(env, s, actor) && RoomForEvents(env, s, |xs|) && forall i | 0 <= i < |xs| :: xs[i].tail == []
    ensures SealFits(env, s, HeadDigest(env, s), HeadCount(env, s), xs, seal)
  {
    var n, previous := HeadCount(env, s), HeadDigest(env, s);
    var links := LinksFor(env, s, actor, previous, n, xs);
    seal := Seal(links, Record(KIND_CHAIN_HEAD, actor, 0, [], HeadData(Running(env, previous, n, xs, |xs|), n + |xs|),
                               []));
  }

  lemma NeedsRoom(env: Env, run: seq<Step>, step: Step)
    requires Legal(env, Empty(), run) && Now(env, Exec(env, Empty(), run), step) && Chains(step)
    ensures RoomForEvents(env, Exec(env, Empty(), run), |Entries(env, Exec(env, Empty(), run), step)|)
  {
    var s := Exec(env, Empty(), run);
    ReachableBounded(env, run);
    AnchorValue(env);
    SealBounded(env, s, step);
    NowNumbered(env, s, step);
  }

  // Striking a line.

  lemma VoidStep(env: Env, s: Store, actor: Entity, line: Entity, reason: Entity) returns (step: Step)
    requires Signer(env, s, actor) && RoomForEvents(env, s, 1) && Standing(env, s, line)
    ensures step.Void? && step.strike.line == line && step.strike.link.fwd.data == EntityBytes(reason) &&
            Now(env, s, step)
  {
    var l := Sign(env, s, actor, RelKey(line, Marker(env)), KIND_VOIDED, EntityBytes(reason));
    var x := Strike(line, Link(l, l));
    var seal := SealFor(env, s, actor, [StrikeEntry(env, x)]);
    step := Void(x, seal);
  }

  /** After any run, a line that stands can be voided by anyone who can sign, for any
      reason, exactly while there is room for an event. */
  lemma VoidingEnabled(env: Env, run: seq<Step>, actor: Entity, line: Entity, reason: Entity)
    requires Legal(env, Empty(), run) && Signer(env, Exec(env, Empty(), run), actor)
    requires Standing(env, Exec(env, Empty(), run), line)
    ensures (exists step: Step ::
               && step.Void? && step.strike.line == line && step.strike.link.fwd.data == EntityBytes(reason)
               && Now(env, Exec(env, Empty(), run), step))
            <==> RoomForEvents(env, Exec(env, Empty(), run), 1)
  {
    var s := Exec(env, Empty(), run);
    if RoomForEvents(env, s, 1) {
      var step := VoidStep(env, s, actor, line, reason);
    }
    if step: Step :| step.Void? && Now(env, s, step) {
      NeedsRoom(env, run, step);
    }
  }

  // Writing a line.

  ghost predicate RoomForLine(env: Env, s: Store) {
    exists p: byte :: FIRST_ENTRY_PAGE <= p && !RuledOff(env, s, p)
  }

  lemma {:induction false} FirstOpenPage(env: Env, s: Store, p: byte) returns (q: byte)
    requires FIRST_ENTRY_PAGE <= p && !RuledOff(env, s, p)
    ensures FIRST_ENTRY_PAGE <= q <= p && !RuledOff(env, s, q)
    ensures forall o: byte | FIRST_ENTRY_PAGE <= o < q :: RuledOff(env, s, o)
    decreases p
  {
    q := p;
    if o: byte :| FIRST_ENTRY_PAGE <= o < p && !RuledOff(env, s, o) {
      q := FirstOpenPage(env, s, o);
    }
  }

  lemma NextSlot(env: Env, s: Store) returns (line: Entity)
    requires AllocInv(env, s) && RoomForLine(env, s)
    ensures line.typ == TYPE_ENTRY && IsSlot(env, s, FIRST_ENTRY_PAGE, line)
  {
    var p: byte :| FIRST_ENTRY_PAGE <= p && !RuledOff(env, s, p);
    p := FirstOpenPage(env, s, p);
    NextIsFree(env, s, p);
    forall o: byte | FIRST_ENTRY_PAGE <= o < p
      ensures SlotOn(env, s, o, TYPE_ENTRY) == 0
    {
      NextIsFree(env, s, o);
    }
    line := Line(env, p, NextId(env, s, p));
  }

  ghost predicate CellsFit(cells: seq<Cell>) {
    forall c | c in cells :: |CellData(c)| <= MAX_FIELD_LEN
  }

  /** One signed relation for each cell. */
  ghost predicate CellLink(env: Env, s: Store, line: Entity, c: Cell, row: map<Entity, Link>) {
    Target(c) in row && LinkOk(env, s, line, Target(c), row[Target(c)], CellKind(c)) &&
      row[Target(c)].fwd.data == CellData(c)
  }

  lemma LinkForCell(env: Env, s: Store, actor: Entity, line: Entity, c: Cell) returns (l: Link)
    requires Signer(env, s, actor) && line.typ == TYPE_ENTRY && CellOk(s, c) && |CellData(c)| <= MAX_FIELD_LEN
    ensures LinkOk(env, s, line, Target(c), l, CellKind(c)) && l.fwd.data == CellData(c)
  {
    var r := Sign(env, s, actor, RelKey(line, Target(c)), CellKind(c), CellData(c));
    l := Link(r, r);
  }

  lemma {:induction false} CellLinks(env: Env, s: Store, actor: Entity, line: Entity, cells: seq<Cell>, n: nat)
    returns (row: map<Entity, Link>)
    requires Signer(env, s, actor) && line.typ == TYPE_ENTRY && TermsOk(s) && CellsOk(s, cells) && CellsFit(cells) &&
             n <= |cells|
    ensures forall i | 0 <= i < n :: CellLink(env, s, line, cells[i], row)
    ensures forall b | b in row :: exists i :: 0 <= i < n && Target(cells[i]) == b
    decreases n
  {
    if n == 0 {
      row := map[];
    } else {
      var rest := CellLinks(env, s, actor, line, cells, n - 1);
      var c := cells[n - 1];
      assert c in cells;
      var l := LinkForCell(env, s, actor, line, c);
      row := rest[Target(c) := l];
      forall i | 0 <= i < n
        ensures CellLink(env, s, line, cells[i], row)
      {
        if i < n - 1 { TargetsDiffer(s, cells, i, n - 1); }
      }
      forall b | b in row
        ensures exists i :: 0 <= i < n && Target(cells[i]) == b
      {
        if b in rest && b != Target(c) {
          var i :| 0 <= i < n - 1 && Target(cells[i]) == b;
        } else {
          assert Target(cells[n - 1]) == b;
        }
      }
    }
  }

  lemma CellTargetTypes(s: Store, cells: seq<Cell>, c: Cell)
    requires CellsOk(s, cells) && c in cells
    ensures Target(c).typ == TYPE_TERM || Target(c).typ == TYPE_FIELD
  {
    assert CellOk(s, c);
  }

  lemma RowFor(env: Env, s: Store, actor: Entity, line: Entity, cells: seq<Cell>, prior: Option<Strike>)
    returns (row: map<Entity, Link>)
    requires Signer(env, s, actor) && line.typ == TYPE_ENTRY && TermsOk(s) && CellsOk(s, cells) && CellsFit(cells)
    requires prior.Some? ==> prior.value.line.typ == TYPE_ENTRY && prior.value.line != line
    ensures RowOk(env, s, line, cells, prior, row)
  {
    var plain := CellLinks(env, s, actor, line, cells, |cells|);
    CellRowOk(env, s, line, cells, plain);
    row := plain;
    if prior.Some? {
      var r := Sign(env, s, actor, RelKey(line, prior.value.line), KIND_SUPERSEDES, []);
      row := plain[prior.value.line := Link(r, r)];
      PriorRowOk(env, s, line, cells, prior.value, plain, Link(r, r));
    }
  }

  lemma CellRowOk(env: Env, s: Store, line: Entity, cells: seq<Cell>, row: map<Entity, Link>)
    requires forall i | 0 <= i < |cells| :: CellLink(env, s, line, cells[i], row)
    requires forall b | b in row :: exists i :: 0 <= i < |cells| && Target(cells[i]) == b
    ensures RowOk(env, s, line, cells, None, row)
  {
    forall c | c in cells
      ensures CellLink(env, s, line, c, row)
    {
      var i :| 0 <= i < |cells| && cells[i] == c;
    }
    forall b | b in row
      ensures exists c :: c in cells && Target(c) == b
    {
      var i :| 0 <= i < |cells| && Target(cells[i]) == b;
      assert cells[i] in cells;
    }
  }

  lemma PriorRowOk(env: Env, s: Store, line: Entity, cells: seq<Cell>, x: Strike, row: map<Entity, Link>, l: Link)
    requires RowOk(env, s, line, cells, None, row) && CellsOk(s, cells) && x.line.typ == TYPE_ENTRY
    requires LinkOk(env, s, line, x.line, l, KIND_SUPERSEDES)
    ensures RowOk(env, s, line, cells, Some(x), row[x.line := l])
  {
    forall c | c in cells
      ensures CellLink(env, s, line, c, row[x.line := l])
    {
      CellTargetTypes(s, cells, c);
      assert CellLink(env, s, line, c, row);
    }
  }

  /** How many events writing a line makes: replacing another strikes that one too. */
  function EventsOfWrite(prior: Option<Entity>): nat { if prior.None? then 1 else 2 }

  predicate WritesLine(step: Step, cells: seq<Cell>, prior: Option<Entity>) {
    && step.Write? && step.cells == cells
    && step.prior.None? == prior.None? && (prior.Some? ==> step.prior.value.line == prior.value)
  }

  lemma StrikeFor(env: Env, s: Store, actor: Entity, x: Entity, line: Entity) returns (strike: Strike)
    requires Signer(env, s, actor) && Standing(env, s, x)
    ensures strike.line == x && StrikeOk(env, s, strike, KIND_SUPERSEDED) && strike.link.fwd.data == EntityBytes(line)
  {
    var r := Sign(env, s, actor, RelKey(x, Marker(env)), KIND_SUPERSEDED, EntityBytes(line));
    strike := Strike(x, Link(r, r));
  }

  lemma WriteStepAt(env: Env, s: Store, actor: Entity, line: Entity, cells: seq<Cell>, prior: Option<Entity>)
    returns (step: Step)
    requires Signer(env, s, actor) && RoomForEvents(env, s, EventsOfWrite(prior)) && TermsOk(s)
    requires line.typ == TYPE_ENTRY && IsSlot(env, s, FIRST_ENTRY_PAGE, line)
    requires CellsOk(s, cells) && CellsFit(cells) && (prior.Some? ==> Standing(env, s, prior.value))
    ensures WritesLine(step, cells, prior) && step.line == line && Now(env, s, step)
  {
    SlotIsFree(env, s, FIRST_ENTRY_PAGE, line);
    var strike: Option<Strike> := None;
    if prior.Some? {
      var x := StrikeFor(env, s, actor, prior.value, line);
      strike := Some(x);
    }
    var row := RowFor(env, s, actor, line, cells, strike);
    var decl := Sign(env, s, actor, DeclKey(line), KIND_DECLARATION, []);
    var counter := Record(KIND_DECLARATION, actor, 0, [], CounterData(Bumped(line.id), 0), []);
    step := SealWrite(env, s, actor, line, decl, counter, cells, row, strike);
  }

  lemma SealWrite(env: Env, s: Store, actor: Entity, line: Entity, decl: Record, counter: Record, cells: seq<Cell>,
                  row: map<Entity, Link>, strike: Option<Strike>) returns (step: Step)
    requires Signer(env, s, actor) && RoomForEvents(env, s, if strike.None? then 1 else 2)
    requires WriteNow(env, s, line, decl, counter, cells, row, strike)
    ensures step.Write? && step.line == line && step.cells == cells && step.prior == strike && Now(env, s, step)
  {
    var first := Entry(EVENT_LINE, line, ZERO, ContentBytes(line, Content(Forwards(row))), []);
    var xs := if strike.None? then [first] else [first, StrikeEntry(env, strike.value)];
    var seal := SealFor(env, s, actor, xs);
    step := Write(line, decl, counter, cells, row, strike, seal);
    assert Entries(env, s, step) == xs;
  }

  /** After any run, a line of any cells, replacing a line that stands or none, can be
      written exactly while there is room for its events and a page that is neither full
      nor signed off. */
  lemma WritingEnabled(env: Env, run: seq<Step>, actor: Entity, cells: seq<Cell>, prior: Option<Entity>)
    requires Legal(env, Empty(), run) && Signer(env, Exec(env, Empty(), run), actor)
    requires CellsOk(Exec(env, Empty(), run), cells) && CellsFit(cells)
    requires prior.Some? ==> Standing(env, Exec(env, Empty(), run), prior.value)
    ensures (exists step: Step :: WritesLine(step, cells, prior) && Now(env, Exec(env, Empty(), run), step))
            <==> && RoomForEvents(env, Exec(env, Empty(), run), EventsOfWrite(prior))
                 && RoomForLine(env, Exec(env, Empty(), run))
  {
    var s := Exec(env, Empty(), run);
    EmptyInv(env);
    RunKept(env, Empty(), [], run);
    ReachableDictionary(env, run);
    if RoomForEvents(env, s, EventsOfWrite(prior)) && RoomForLine(env, s) {
      var line := NextSlot(env, s);
      var step := WriteStepAt(env, s, actor, line, cells, prior);
    }
    if step: Step :| WritesLine(step, cells, prior) && Now(env, s, step) {
      NeedsRoom(env, run, step);
      WriteEventCount(env, s, step, prior);
      SlotIsNext(env, s, step.line);
    }
  }

  lemma WriteEventCount(env: Env, s: Store, step: Step, prior: Option<Entity>)
    requires step.Write? && step.prior.None? == prior.None?
    ensures |Entries(env, s, step)| == EventsOfWrite(prior)
  {
  }

  // Interning a term.

  predicate BucketHasRoom(env: Env, s: Store, owner: Entity, text: seq<byte>) {
    ENTITY_LEN * (|Candidates(s, BucketKey(env, owner, text))| + 1) <= MAX_FIELD_LEN
  }

  ghost predicate RoomForTerm(env: Env, s: Store) {
    exists e: Entity :: e.typ == TYPE_TERM && IsSlot(env, s, SCHEMA_PAGE, e)
  }

  predicate InternsTerm(step: Step, field: Entity, text: seq<byte>) {
    step.Intern? && step.e.typ == TYPE_TERM && step.owner == field && step.decl.name == text
  }

  lemma {:induction false} Presence(actor: Entity, es: seq<Entity>) returns (bucket: Record)
    requires ENTITY_LEN * |es| <= MAX_FIELD_LEN
    ensures bucket.data == Pack(es)
  {
    UnpackPack(es);
    bucket := Record(KIND_PRESENCE, actor, 0, [], Pack(es), []);
  }

  lemma TermNow(env: Env, s: Store, field: Entity, e: Entity, decl: Record, counter: Record, bucket: Record, l: Link)
    requires field.typ == TYPE_FIELD && e.typ == TYPE_TERM && decl.name != [] && decl.author.typ == TYPE_ACTOR
    requires IsSlot(env, s, SCHEMA_PAGE, e) && CounterFor(e, counter) && Unheld(env, s, field, decl.name)
    requires bucket.data == Pack(Candidates(s, BucketKey(env, field, decl.name)) + [e])
    requires LinkOk(env, s, e, field, l, KIND_TERM_OF) && VocabularyIs(env, s, field, VOCABULARY_OPEN)
    ensures InternNow(env, s, field, e, decl, counter, bucket, Some(l))
  {
  }

  lemma TermStepAt(env: Env, s: Store, actor: Entity, field: Entity, text: seq<byte>, e: Entity) returns (step: Step)
    requires Signer(env, s, actor) && field.typ == TYPE_FIELD && 0 < |text| <= MAX_FIELD_LEN
    requires VocabularyIs(env, s, field, VOCABULARY_OPEN) && Unheld(env, s, field, text) &&
             BucketHasRoom(env, s, field, text)
    requires e.typ == TYPE_TERM && IsSlot(env, s, SCHEMA_PAGE, e)
    ensures InternsTerm(step, field, text) && step.e == e && Now(env, s, step)
  {
    var bucket := Presence(actor, Candidates(s, BucketKey(env, field, text)) + [e]);
    var r := Sign(env, s, actor, RelKey(e, field), KIND_TERM_OF, []);
    var decl := Record(KIND_DECLARATION, actor, 0, text, [], []);
    var counter := Record(KIND_DECLARATION, actor, 0, [], CounterData(Bumped(e.id), 0), []);
    TermNow(env, s, field, e, decl, counter, bucket, Link(r, r));
    step := Intern(field, e, decl, counter, bucket, Some(Link(r, r)));
  }

  /** A text can be interned in a column exactly if it is new there, the vocabulary is
      open, its bucket has room and an id is left. */
  lemma InterningEnabled(env: Env, s: Store, actor: Entity, field: Entity, text: seq<byte>)
    requires Signer(env, s, actor) && field.typ == TYPE_FIELD && 0 < |text| <= MAX_FIELD_LEN
    ensures (exists step: Step :: InternsTerm(step, field, text) && Now(env, s, step))
            <==> && VocabularyIs(env, s, field, VOCABULARY_OPEN) && Unheld(env, s, field, text)
                 && BucketHasRoom(env, s, field, text) && RoomForTerm(env, s)
  {
    if && VocabularyIs(env, s, field, VOCABULARY_OPEN) && Unheld(env, s, field, text)
       && BucketHasRoom(env, s, field, text) && RoomForTerm(env, s) {
      var e: Entity :| e.typ == TYPE_TERM && IsSlot(env, s, SCHEMA_PAGE, e);
      var step := TermStepAt(env, s, actor, field, text, e);
    }
    if step: Step :| InternsTerm(step, field, text) && Now(env, s, step) {
      UnpackPack(Candidates(s, BucketKey(env, field, text)) + [step.e]);
    }
  }

  // Signing off a page.

  lemma SignOffStepAt(env: Env, s: Store, actor: Entity, page: byte, count: byte) returns (step: Step)
    requires Signer(env, s, actor) && RoomForEvents(env, s, 1)
    requires FIRST_ENTRY_PAGE <= page && Marker(env) !in Row(s, PageEntity(env, page))
    requires Reached(env, s, page) ==> CounterParses(PageCounter(env, s, page)) && !IsClosed(PageCounter(env, s, page))
    ensures step.SignOff? && step.page == page && step.link.fwd.data == [count] && Now(env, s, step)
  {
    var r := Sign(env, s, actor, RelKey(PageEntity(env, page), Marker(env)), KIND_PAGE_SIGNOFF, [count]);
    var l := Link(r, r);
    var next := if Reached(env, s, page) then PageCounter(env, s, page).data[0] else 1;
    var counter := Record(KIND_DECLARATION, actor, 0, [], CounterData(next, COUNTER_CLOSED), []);
    var seal := SealFor(env, s, actor, [Entry(EVENT_SIGNOFF, PageEntity(env, page), Marker(env), Encode(r), [])]);
    step := SignOff(page, counter, l, seal);
  }

  // What the steps leave for the next ones.

  lemma SignerStays(env: Env, s: Store, step: Step, actor: Entity)
    requires Signer(env, s, actor) && Now(env, s, step) && !step.Rename?
    ensures Signer(env, Do(env, s, step), actor)
  {
    DeclSame(env, s, step, actor);
  }

  lemma CounterAfter(env: Env, s: Store, step: Step)
    requires Now(env, s, step) && step.Write?
    ensures var t := Do(env, s, step);
            Reached(env, t, step.line.page) &&
              PageCounter(env, t, step.line.page).data == CounterData(Bumped(step.line.id), 0)
  {
    WriteCounter(env, s, step);
    DeclAt(env, s, step, Plain(env, step).decl, Counter(env, step.line.page, TYPE_ENTRY));
  }

  lemma WriteCounter(env: Env, s: Store, step: Step)
    requires Now(env, s, step) && step.Write?
    ensures step.line.typ == TYPE_ENTRY && step.counter.data == CounterData(Bumped(step.line.id), 0)
  {
  }

  // The first two steps of a book.

  function FirstActor(env: Env): Entity { Entity(env.log, SCHEMA_PAGE, TYPE_ACTOR, 1) }

  function FirstColumn(env: Env): Entity { Entity(env.log, SCHEMA_PAGE, TYPE_FIELD, 1) }

  function Introduction(env: Env, key: seq<byte>): Step
    requires |key| == PUBLIC_KEY_LEN
  {
    DeclareActor(FirstActor(env), Record(KIND_DECLARATION, FirstActor(env), 0, [], key, []))
  }

  function Heading(env: Env, name: seq<byte>): Step
    requires |name| <= MAX_FIELD_LEN
  {
    var actor, column := FirstActor(env), FirstColumn(env);
    Intern(FieldOwner(env), column, Record(KIND_DECLARATION, actor, 0, name, [INPUT_TEXT], []),
           Record(KIND_DECLARATION, actor, 0, [], CounterData(2, 0), []),
           Record(KIND_PRESENCE, actor, 0, [], EntityBytes(column), []), None)
  }

  lemma FirstSlot(env: Env, s: Store, e: Entity)
    requires e.log == env.log && e.id == 1 && e !in s.decl && Counter(env, e.page, e.typ) !in s.decl
    ensures IsSlot(env, s, e.page, e)
  {
    assert FirstFree(env, s, e.page, e.typ, e.id) == 1;
  }

  lemma PackOne(e: Entity)
    ensures Pack([e]) == EntityBytes(e)
  {
    assert [e][..0] == [];
  }

  lemma HeadingNow(env: Env, s: Store, name: seq<byte>)
    requires 0 < |name| <= MAX_FIELD_LEN && FirstColumn(env) !in s.decl &&
             Counter(env, SCHEMA_PAGE, TYPE_FIELD) !in s.decl && s.pres == map[]
    ensures Now(env, s, Heading(env, name))
  {
    FirstSlot(env, s, FirstColumn(env));
    var none: seq<Entity> := [];
    assert none + [FirstColumn(env)] == [FirstColumn(env)];
    PackOne(FirstColumn(env));
  }

  lemma {:induction false} Prepend(env: Env, s: Store, step: Step, rest: seq<Step>)
    requires Now(env, s, step) && Legal(env, Do(env, s, step), rest)
    ensures Legal(env, s, [step] + rest) && Exec(env, s, [step] + rest) == Exec(env, Do(env, s, step), rest)
  {
    assert ([step] + rest)[1..] == rest;
  }

  lemma {:induction false} TwoSteps(env: Env, s: Store, a: Step, b: Step) returns (run: seq<Step>)
    requires Now(env, s, a) && Now(env, Do(env, s, a), b)
    ensures Legal(env, s, run) && Exec(env, s, run) == Do(env, Do(env, s, a), b)
    ensures run == [a, b]
  {
    var t := Do(env, s, a);
    Prepend(env, t, b, []);
    AloneIs(b);
    Prepend(env, s, a, [b]);
    PairIs(a, b);
    run := [a, b];
  }

  lemma AloneIs<T>(x: T)
    ensures [x] + [] == [x]
  {
  }

  lemma PairIs<T>(x: T, y: T)
    ensures [x] + [y] == [x, y]
  {
  }

  /** The store after the two. */
  ghost predicate Started(env: Env, s: Store, key: seq<byte>) {
    && s.decl.Keys == {FirstActor(env), FirstColumn(env), Counter(env, SCHEMA_PAGE, TYPE_FIELD)}
    && s.decl[FirstActor(env)].data == key && s.decl[FirstColumn(env)].data == [INPUT_TEXT]
  }

  lemma Introduced(env: Env, key: seq<byte>, s: Store)
    requires |key| == PUBLIC_KEY_LEN && s == Do(env, Empty(), Introduction(env, key))
    ensures Now(env, Empty(), Introduction(env, key))
    ensures s.decl.Keys == {FirstActor(env)} && s.decl[FirstActor(env)].data == key
    ensures s.pres == map[] && s.rel == map[]
  {
  }

  lemma Headed(env: Env, s: Store, name: seq<byte>, t: Store)
    requires 0 < |name| <= MAX_FIELD_LEN && t == Do(env, s, Heading(env, name))
    requires s.decl.Keys == {FirstActor(env)} && s.pres == map[] && s.rel == map[]
    ensures Now(env, s, Heading(env, name))
    ensures Started(env, t, s.decl[FirstActor(env)].data) && t.rel == map[]
  {
    HeadingNow(env, s, name);
    DeclAfter(env, s, Heading(env, name));
  }

  lemma Starts(env: Env, key: seq<byte>, name: seq<byte>) returns (run: seq<Step>)
    requires |key| == PUBLIC_KEY_LEN && 0 < |name| <= MAX_FIELD_LEN
    ensures Legal(env, Empty(), run) && Started(env, Exec(env, Empty(), run), key)
    ensures Exec(env, Empty(), run).rel == map[] && forall step | step in run :: !step.Derive? && !step.Rename?
  {
    var s := Do(env, Empty(), Introduction(env, key));
    Introduced(env, key, s);
    Headed(env, s, name, Do(env, s, Heading(env, name)));
    run := TwoSteps(env, Empty(), Introduction(env, key), Heading(env, name));
  }

  lemma StartedHasRoom(env: Env, s: Store, key: seq<byte>)
    requires Started(env, s, key)
    ensures RoomForEvents(env, s, 1) && RoomForLine(env, s)
  {
    AnchorValue(env);
    assert !RuledOff(env, s, FIRST_ENTRY_PAGE);
  }

  /** Whoever holds a key can start a book, give it a column and write in it: what is
      said of runs is said of something. */
  lemma BookBegins(env: Env, key: seq<byte>, name: seq<byte>, text: seq<byte>)
    requires |key| == PUBLIC_KEY_LEN && (forall payload :: CanSign(env, key, payload))
    requires 0 < |name| <= MAX_FIELD_LEN && 0 < |text| <= MAX_FIELD_LEN
    ensures exists run: seq<Step>, step: Step ::
              Legal(env, Empty(), run) && step.Write? && step.cells == [RemarkCell(FirstColumn(env), text)] &&
                Now(env, Exec(env, Empty(), run), step)
  {
    var run := Starts(env, key, name);
    EmptyInv(env);
    RunKept(env, Empty(), [], run);
    ReachableDictionary(env, run);
    var step := FirstLine(env, Exec(env, Empty(), run), key, text);
  }

  lemma FirstLine(env: Env, s: Store, key: seq<byte>, text: seq<byte>) returns (step: Step)
    requires Started(env, s, key) && AllocInv(env, s) && TermsOk(s)
    requires |key| == PUBLIC_KEY_LEN && (forall payload :: CanSign(env, key, payload)) && 0 < |text| <= MAX_FIELD_LEN
    ensures step.Write? && step.cells == [RemarkCell(FirstColumn(env), text)] && Now(env, s, step)
  {
    StartedHasRoom(env, s, key);
    var line := NextSlot(env, s);
    step := WriteStepAt(env, s, FirstActor(env), line, [RemarkCell(FirstColumn(env), text)], None);
  }
}
