/** Reading corrections back: the standing of a line, the chain it belongs to, every
    struck line, and a page without them. */
module History {
  import opened Common
  import opened Bytes
  import opened Entities
  import opened Records
  import opened Listings
  import opened Chain
  import opened Transactions
  import opened Book
  import opened Corrections

  const MAX_CORRECTION_CHAIN := 1000

  datatype Result<+T> = Ok(value: T) | Err

  datatype State = Live | Superseded(replacement: Entity) | Voided(reason: Entity)

  /** A line's standing, and who struck it. */
  datatype Status = Status(entry: Entity, state: State, author: Entity)

  function DecodeStrike(entry: Entity, r: Record): Result<Status> {
    if |r.data| != ENTITY_LEN then Err
    else
      var payload := DecodeEntity(r.data);
      if r.kind == KIND_SUPERSEDED then
        if payload == ZERO then Err else Ok(Status(entry, Superseded(payload), r.author))
      else if r.kind == KIND_VOIDED then Ok(Status(entry, Voided(payload), r.author))
      else Err
  }

  function StatusOf(env: Env, s: Store, entry: Entity): Result<Status> {
    if entry.typ != TYPE_ENTRY then Err
    else
      match Lookup(s, entry, Marker(env))
      case None => Ok(Status(entry, Live, ZERO))
      case Some(r) => DecodeStrike(entry, r)
  }

  /** In a book, a line's status always reads, and says what replaced the line. */
  lemma StatusReads(env: Env, s: Store, x: Entity)
    requires CorrInv(env, s) && x.typ == TYPE_ENTRY
    ensures StatusOf(env, s, x).Ok? && StatusOf(env, s, x).value.entry == x
    ensures StatusOf(env, s, x).value.state.Live? <==> Marker(env) !in Row(s, x)
    ensures Replacement(env, s, x)
         == if StatusOf(env, s, x).value.state.Superseded?
           then Some(StatusOf(env, s, x).value.state.replacement) else None
  {
    assert StrikeSound(env, s, x);
  }

  /** The first relation of a kind, in the order the store lists them. */
  method FirstOfKind(row: Relations, kind: byte) returns (r: Option<Entity>)
    ensures r.Some? ==> r.value in row && row[r.value].kind == kind && r.value != ZERO
    ensures r.None? ==> forall b | b in row && b != ZERO :: row[b].kind != kind
    ensures r.Some? ==> forall b | b in row && b != ZERO && row[b].kind == kind :: Value(r.value) <= Value(b)
  {
    var rels := ReadRange(row, 1, ENTITY_COUNT);
    ListingAscends(row, 1, ENTITY_COUNT);
    var i := 0;
    while i < |rels|
      invariant 0 <= i <= |rels| && forall j | 0 <= j < i :: rels[j].1.kind != kind
    {
      ListingMembers(row, 1, ENTITY_COUNT, rels[i].0, rels[i].1);
      assert rels[i] in rels;
      if rels[i].1.kind == kind {
        ZeroValue(rels[i].0);
        FirstIsLeast(row, kind, rels, i);
        return Some(rels[i].0);
      }
      i := i + 1;
    }
    NoneOfKind(row, kind, rels);
    return None;
  }

  lemma InListing(row: Relations, b: Entity)
    requires b in row && b != ZERO
    ensures (b, row[b]) in Listing(row, 1, ENTITY_COUNT)
  {
    ZeroValue(b);
    ListingMembers(row, 1, ENTITY_COUNT, b, row[b]);
  }

  lemma FirstIsLeast(row: Relations, kind: byte, rels: seq<(Entity, Record)>, i: nat)
    requires rels == Listing(row, 1, ENTITY_COUNT) && Ascends(rels) && i < |rels|
    requires forall j | 0 <= j < i :: rels[j].1.kind != kind
    ensures forall b | b in row && b != ZERO && row[b].kind == kind :: Value(rels[i].0) <= Value(b)
  {
    forall b | b in row && b != ZERO && row[b].kind == kind
      ensures Value(rels[i].0) <= Value(b)
    {
      InListing(row, b);
      var j :| 0 <= j < |rels| && rels[j] == (b, row[b]);
      assert i < j ==> Value(rels[i].0) < Value(rels[j].0);
    }
  }

  lemma NoneOfKind(row: Relations, kind: byte, rels: seq<(Entity, Record)>)
    requires rels == Listing(row, 1, ENTITY_COUNT) && forall j | 0 <= j < |rels| :: rels[j].1.kind != kind
    ensures forall b | b in row && b != ZERO :: row[b].kind != kind
  {
    forall b | b in row && b != ZERO
      ensures row[b].kind != kind
    {
      InListing(row, b);
    }
  }

  function Reversed(es: seq<Entity>): seq<Entity> {
    if es == [] then [] else Reversed(es[1..]) + [es[0]]
  }

  lemma {:induction false} ReversedMore(es: seq<Entity>, x: Entity)
    ensures Reversed(es + [x]) == [x] + Reversed(es)
  {
    if es != [] {
      assert (es + [x])[1..] == es[1..] + [x];
      ReversedMore(es[1..], x);
    }
  }

  lemma PriorFound(env: Env, s: Store, y: Entity, r: Option<Entity>)
    requires CorrInv(env, s) && y.typ == TYPE_ENTRY
    requires r.Some? ==> Supersedes(s, y, r.value)
    requires r.None? ==> forall b | b in Row(s, y) && b != ZERO :: Row(s, y)[b].kind != KIND_SUPERSEDES
    ensures Replaced(s, y) == r
    ensures r.Some? ==> r.value.typ == TYPE_ENTRY && Value(r.value) < Value(y)
  {
    assert OnePrior(s, y) && BackSound(env, s, y, ZERO);
    if r.Some? {
      assert Replaced(s, y) == r;
      ReplacedIsLine(env, s, y);
    }
  }

  /** The lines passed on the way back from entry, and where the walk is now. */
  ghost predicate BackAt(env: Env, s: Store, entry: Entity, older: seq<Entity>, seen: set<Entity>, cursor: Entity)
    requires entry.typ == TYPE_ENTRY
  {
    CorrInv(env, s) ==>
      && cursor.typ == TYPE_ENTRY && Older(env, s, entry) == Older(env, s, cursor) + Reversed(older)
      && forall z | z in seen :: Value(cursor) <= Value(z)
  }

  lemma BackStep(env: Env, s: Store, entry: Entity, older: seq<Entity>, seen: set<Entity>, cursor: Entity, x: Entity)
    requires CorrInv(env, s) && entry.typ == TYPE_ENTRY && BackAt(env, s, entry, older, seen, cursor)
    requires Replaced(s, cursor) == Some(x) && x.typ == TYPE_ENTRY && Value(x) < Value(cursor)
    ensures x !in seen && BackAt(env, s, entry, older + [x], seen + {x}, x)
  {
    ReversedMore(older, x);
    assert Older(env, s, x) + [x] + Reversed(older) == Older(env, s, x) + ([x] + Reversed(older));
  }

  lemma BackTooLong(env: Env, s: Store, entry: Entity, older: seq<Entity>, seen: set<Entity>, cursor: Entity)
    requires CorrInv(env, s) && entry.typ == TYPE_ENTRY && BackAt(env, s, entry, older, seen, cursor)
    requires Replaced(s, cursor).Some?
    ensures |Older(env, s, entry)| > |older|
  {
    ReversedLength(older);
  }

  lemma BackEnd(env: Env, s: Store, entry: Entity, older: seq<Entity>, seen: set<Entity>, cursor: Entity)
    requires CorrInv(env, s) && entry.typ == TYPE_ENTRY && BackAt(env, s, entry, older, seen, cursor)
    requires Replaced(s, cursor).None?
    ensures Older(env, s, entry) == Reversed(older)
  {
    assert Older(env, s, cursor) == [];
  }

  lemma {:induction false} ReversedLength(es: seq<Entity>)
    ensures |Reversed(es)| == |es|
  {
    if es != [] { ReversedLength(es[1..]); }
  }

  /** Back to the first line of the chain, one replacement at a time: the older lines,
      oldest first, unless there are more than a thousand. */
  method WalkBack(env: Env, s: Store, entry: Entity) returns (r: Result<seq<Entity>>)
    requires entry.typ == TYPE_ENTRY
    ensures CorrInv(env, s) ==>
              r == if |Older(env, s, entry)| <= MAX_CORRECTION_CHAIN then Ok(Older(env, s, entry)) else Err
    ensures r.Ok? ==> |r.value| <= MAX_CORRECTION_CHAIN
  {
    var seen, older, cursor := {entry}, [], entry;
    while true
      invariant |older| <= MAX_CORRECTION_CHAIN && BackAt(env, s, entry, older, seen, cursor)
      decreases MAX_CORRECTION_CHAIN - |older|
    {
      var previous := FirstOfKind(Row(s, cursor), KIND_SUPERSEDES);
      if CorrInv(env, s) { PriorFound(env, s, cursor, previous); }
      if previous.None? {
        if CorrInv(env, s) { BackEnd(env, s, entry, older, seen, cursor); }
        ReversedLength(older);
        return Ok(Reversed(older));
      }
      if CorrInv(env, s) {
        BackStep(env, s, entry, older, seen, cursor, previous.value);
        BackTooLong(env, s, entry, older, seen, cursor);
      }
      cursor := previous.value;
      if cursor in seen {
        return Err;
      }
      if |older| >= MAX_CORRECTION_CHAIN {
        return Err;
      }
      seen := seen + {cursor};
      older := older + [cursor];
    }
  }

  // Forward.

  /** The chain as far as the walk has come. */
  ghost predicate ForwardAt(env: Env, s: Store, entry: Entity, chain: seq<Entity>, seen: set<Entity>, cursor: Entity)
    requires entry.typ == TYPE_ENTRY
  {
    CorrInv(env, s) ==>
      && cursor.typ == TYPE_ENTRY && ChainOf(env, s, entry) == chain + Newer(env, s, cursor)
      && forall z | z in seen :: Value(z) <= Value(cursor)
  }

  lemma ForwardStep(env: Env, s: Store, entry: Entity, chain: seq<Entity>, seen: set<Entity>, cursor: Entity, y: Entity)
    requires CorrInv(env, s) && entry.typ == TYPE_ENTRY && ForwardAt(env, s, entry, chain, seen, cursor)
    requires Replacement(env, s, cursor) == Some(y)
    ensures y !in seen && ForwardAt(env, s, entry, chain + [y], seen + {y}, y)
    ensures |ChainOf(env, s, entry)| > |chain|
  {
    ReplacementIsLine(env, s, cursor);
    assert chain + ([y] + Newer(env, s, y)) == chain + [y] + Newer(env, s, y);
  }

  lemma ForwardBegin(env: Env, s: Store, entry: Entity)
    requires CorrInv(env, s) && entry.typ == TYPE_ENTRY
    ensures ForwardAt(env, s, entry, Older(env, s, entry) + [entry], Elements(Older(env, s, entry)) + {entry}, entry)
  {
    forall z | z in Older(env, s, entry)
      ensures Value(z) < Value(entry)
    {
      OlderSame(env, s, entry, z);
    }
  }

  function Elements(es: seq<Entity>): set<Entity> { set e | e in es }

  lemma ForwardEnd(env: Env, s: Store, entry: Entity, chain: seq<Entity>, seen: set<Entity>, cursor: Entity)
    requires CorrInv(env, s) && entry.typ == TYPE_ENTRY && ForwardAt(env, s, entry, chain, seen, cursor)
    requires Replacement(env, s, cursor).None?
    ensures ChainOf(env, s, entry) == chain
  {
    assert Newer(env, s, cursor) == [];
  }

  /** Whether the chain is short enough to be read from entry: at most a thousand
      lines, or one more if entry is the last of them. */
  ghost predicate Readable(env: Env, s: Store, entry: Entity)
    requires CorrInv(env, s) && entry.typ == TYPE_ENTRY
  {
    || |ChainOf(env, s, entry)| <= MAX_CORRECTION_CHAIN
    || (|ChainOf(env, s, entry)| == MAX_CORRECTION_CHAIN + 1 && Newer(env, s, entry) == [])
  }

  lemma ChainLength(env: Env, s: Store, entry: Entity)
    requires CorrInv(env, s) && entry.typ == TYPE_ENTRY
    ensures |ChainOf(env, s, entry)| == |Older(env, s, entry)| + 1 + |Newer(env, s, entry)|
  {
  }

  /** The whole chain a line belongs to, oldest first. */
  method History(env: Env, s: Store, entry: Entity) returns (r: Result<seq<Entity>>)
    ensures entry.typ != TYPE_ENTRY ==> r == Err
    ensures entry.typ == TYPE_ENTRY && CorrInv(env, s) ==>
              r == if Readable(env, s, entry) then Ok(ChainOf(env, s, entry)) else Err
    ensures r.Ok? ==> r.value != []
  {
    if entry.typ != TYPE_ENTRY {
      return Err;
    }
    var back := WalkBack(env, s, entry);
    if CorrInv(env, s) {
      ChainLength(env, s, entry);
      ForwardBegin(env, s, entry);
    }
    if back.Err? {
      return Err;
    }
    var chain, seen, cursor := back.value + [entry], Elements(back.value) + {entry}, entry;
    while true
      invariant 1 <= |chain| <= MAX_CORRECTION_CHAIN + 1 && ForwardAt(env, s, entry, chain, seen, cursor)
      invariant CorrInv(env, s) ==> |Older(env, s, entry)| <= MAX_CORRECTION_CHAIN
      invariant CorrInv(env, s) && |chain| > MAX_CORRECTION_CHAIN ==> cursor == entry
      decreases MAX_CORRECTION_CHAIN + 1 - |chain|
    {
      var status := StatusOf(env, s, cursor);
      if CorrInv(env, s) { StatusReads(env, s, cursor); }
      if status.Err? {
        return Err;
      }
      if !status.value.state.Superseded? {
        if CorrInv(env, s) { ForwardEnd(env, s, entry, chain, seen, cursor); }
        return Ok(chain);
      }
      if CorrInv(env, s) { ForwardStep(env, s, entry, chain, seen, cursor, status.value.state.replacement); }
      cursor := status.value.state.replacement;
      if cursor in seen {
        return Err;
      }
      if |chain| >= MAX_CORRECTION_CHAIN {
        return Err;
      }
      seen := seen + {cursor};
      chain := chain + [cursor];
    }
  }

  /** The line that stands in the place of entry: the end of its chain. */
  method Latest(env: Env, s: Store, entry: Entity) returns (r: Result<Entity>)
    ensures entry.typ == TYPE_ENTRY && CorrInv(env, s) ==>
              if Readable(env, s, entry) then
                r.Ok? && r.value in ChainOf(env, s, entry) && r.value.typ == TYPE_ENTRY &&
                  Replacement(env, s, r.value).None?
              else r == Err
  {
    var chain := History(env, s, entry);
    if chain.Err? {
      return Err;
    }
    if entry.typ == TYPE_ENTRY && CorrInv(env, s) {
      LastStands(env, s, entry);
      ChainEnd(Older(env, s, entry), entry, Newer(env, s, entry));
    }
    return Ok(chain.value[|chain.value| - 1]);
  }

  lemma ChainEnd(older: seq<Entity>, x: Entity, newer: seq<Entity>)
    ensures var chain := older + [x] + newer;
            chain[|chain| - 1] == ([x] + newer)[|newer|] && chain[|chain| - 1] in chain
  {
    var chain := older + [x] + newer;
    assert chain[|chain| - 1] in chain;
  }

  /** A chain of at most a thousand lines reads the same from every one of them; one
      line more, and only the last can be read. */
  lemma ReadFromAll(env: Env, s: Store, x: Entity, z: Entity)
    requires CorrInv(env, s) && x.typ == TYPE_ENTRY && z in ChainOf(env, s, x)
    ensures z.typ == TYPE_ENTRY && ChainOf(env, s, z) == ChainOf(env, s, x)
    ensures |ChainOf(env, s, x)| <= MAX_CORRECTION_CHAIN ==> Readable(env, s, z)
    ensures |ChainOf(env, s, x)| == MAX_CORRECTION_CHAIN + 1 ==> (Readable(env, s, z) <==> Replacement(env, s, z).None?)
    ensures |ChainOf(env, s, x)| > MAX_CORRECTION_CHAIN + 1 ==> !Readable(env, s, z)
  {
    OneChain(env, s, x, z);
  }

  // Every struck line.

  predicate StrikeKind(kind: byte) { kind == KIND_SUPERSEDED || kind == KIND_VOIDED }

  /** Only lines are struck. */
  ghost predicate OnlyLinesStruck(s: Store) {
    forall x: Entity, b: Entity | x.typ != TYPE_ENTRY && b in Row(s, x) :: !StrikeKind(Row(s, x)[b].kind)
  }

  ghost predicate InBook(env: Env, s: Store) {
    Mirrored(s) && CorrInv(env, s) && OnlyLinesStruck(s)
  }

  predicate IsStruck(env: Env, s: Store, x: Entity) { x.typ == TYPE_ENTRY && Marker(env) in Row(s, x) }

  /** What a backlink of the marker says, whichever end it is read from. */
  lemma BacklinkReads(env: Env, s: Store, a: Entity)
    requires InBook(env, s) && a in Back(s, Marker(env))
    ensures StrikeKind(Back(s, Marker(env))[a].kind) <==> IsStruck(env, s, a)
    ensures IsStruck(env, s, a) ==>
            DecodeStrike(a, Back(s, Marker(env))[a]) == StatusOf(env, s, a) && StatusOf(env, s, a).Ok?
  {
    assert MirroredAt(s, a, Marker(env));
    if a.typ == TYPE_ENTRY {
      assert StrikeSound(env, s, a);
      StatusReads(env, s, a);
    }
  }

  function StatusAt(env: Env, s: Store, x: Entity): Status {
    match StatusOf(env, s, x)
    case Ok(st) => st
    case Err => Status(x, Live, ZERO)
  }

  /** The statuses of the struck lines among some backlinks. */
  function StruckAmong(env: Env, s: Store, rels: seq<(Entity, Record)>): seq<Status> {
    if rels == [] then []
    else
      var a := rels[|rels| - 1].0;
      StruckAmong(env, s, rels[..|rels| - 1]) + if IsStruck(env, s, a) then [StatusAt(env, s, a)] else []
  }

  lemma {:induction false} StruckHas(env: Env, s: Store, rels: seq<(Entity, Record)>, p: (Entity, Record))
    requires p in rels && IsStruck(env, s, p.0)
    ensures StatusAt(env, s, p.0) in StruckAmong(env, s, rels)
  {
    if p != rels[|rels| - 1] { StruckHas(env, s, rels[..|rels| - 1], p); }
  }

  lemma {:induction false} StruckOnly(env: Env, s: Store, rels: seq<(Entity, Record)>, st: Status)
    requires CorrInv(env, s) && st in StruckAmong(env, s, rels)
    ensures IsStruck(env, s, st.entry) && StatusOf(env, s, st.entry) == Ok(st)
    ensures exists k :: 0 <= k < |rels| && rels[k].0 == st.entry
  {
    var n := |rels| - 1;
    if st in StruckAmong(env, s, rels[..n]) {
      StruckOnly(env, s, rels[..n], st);
      var k :| 0 <= k < n && rels[..n][k].0 == st.entry;
      assert rels[k].0 == st.entry;
    } else {
      StatusReads(env, s, rels[n].0);
    }
  }

  predicate InLineOrder(out: seq<Status>) {
    forall k, l | 0 <= k < l < |out| :: Value(out[k].entry) < Value(out[l].entry)
  }

  lemma {:induction false} StruckInOrder(env: Env, s: Store, rels: seq<(Entity, Record)>)
    requires CorrInv(env, s) && Ascends(rels)
    ensures InLineOrder(StruckAmong(env, s, rels))
  {
    if rels != [] {
      var n := |rels| - 1;
      var front := StruckAmong(env, s, rels[..n]);
      StruckInOrder(env, s, rels[..n]);
      if IsStruck(env, s, rels[n].0) {
        StatusReads(env, s, rels[n].0);
        forall k | 0 <= k < |front|
          ensures Value(front[k].entry) < Value(rels[n].0)
        {
          StruckOnly(env, s, rels[..n], front[k]);
          var j :| 0 <= j < n && rels[..n][j].0 == front[k].entry;
          assert rels[j].0 == front[k].entry;
        }
      }
    }
  }

  /** The status of every struck line and of nothing else, in the order of the lines. */
  ghost predicate ListsStruck(env: Env, s: Store, out: seq<Status>) {
    && (forall st | st in out :: IsStruck(env, s, st.entry) && StatusOf(env, s, st.entry) == Ok(st))
    && (forall x | IsStruck(env, s, x) :: StatusAt(env, s, x) in out)
    && InLineOrder(out)
  }

  lemma AllListed(env: Env, s: Store, rels: seq<(Entity, Record)>)
    requires InBook(env, s) && rels == Listing(Back(s, Marker(env)), 1, ENTITY_COUNT)
    ensures ListsStruck(env, s, StruckAmong(env, s, rels))
  {
    ListingAscends(Back(s, Marker(env)), 1, ENTITY_COUNT);
    StruckInOrder(env, s, rels);
    forall st | st in StruckAmong(env, s, rels)
      ensures IsStruck(env, s, st.entry) && StatusOf(env, s, st.entry) == Ok(st)
    {
      StruckOnly(env, s, rels, st);
    }
    forall x | IsStruck(env, s, x)
      ensures StatusAt(env, s, x) in StruckAmong(env, s, rels)
    {
      assert MirroredAt(s, x, Marker(env));
      InListing(Back(s, Marker(env)), x);
      StruckHas(env, s, rels, (x, Back(s, Marker(env))[x]));
    }
  }

  /** Every struck line of the log, from one scan of the marker's backlinks. */
  method CorrectionLog(env: Env, s: Store) returns (r: Result<seq<Status>>)
    ensures InBook(env, s) ==> r.Ok? && ListsStruck(env, s, r.value)
  {
    var rels := ReadRange(Back(s, Marker(env)), 1, ENTITY_COUNT);
    var out := [];
    var i := 0;
    while i < |rels|
      invariant 0 <= i <= |rels|
      invariant InBook(env, s) ==> out == StruckAmong(env, s, rels[..i])
    {
      var (a, rec) := rels[i];
      ListingMembers(Back(s, Marker(env)), 1, ENTITY_COUNT, a, rec);
      assert rels[i] in rels;
      assert rels[..i + 1][..i] == rels[..i];
      if InBook(env, s) { BacklinkReads(env, s, a); }
      if StrikeKind(rec.kind) {
        var status := DecodeStrike(a, rec);
        if status.Err? {
          return Err;
        }
        out := out + [status.value];
      }
      i := i + 1;
    }
    assert rels[..i] == rels;
    if InBook(env, s) { AllListed(env, s, rels); }
    return Ok(out);
  }

  // A page as it stands.

  /** The lines declared on a page up to an id, in line order. */
  function LinesUpTo(env: Env, s: Store, page: byte, n: nat): seq<Entity>
    requires n <= 256
  {
    if n == 0 then []
    else
      var line := Line(env, page, n - 1);
      LinesUpTo(env, s, page, n - 1) + if line in s.decl then [line] else []
  }

  function PageLines(env: Env, s: Store, page: byte): seq<Entity> { LinesUpTo(env, s, page, 256) }

  function Keep(lines: seq<Entity>, gone: set<Entity>): seq<Entity> {
    if lines == [] then []
    else Keep(lines[..|lines| - 1], gone) + if lines[|lines| - 1] in gone then [] else [lines[|lines| - 1]]
  }

  /** The lines of a page that stand. */
  ghost function Standing(env: Env, s: Store, lines: seq<Entity>): seq<Entity> {
    if lines == [] then []
    else Standing(env, s, lines[..|lines| - 1]) + if IsStruck(env, s, lines[|lines| - 1])
      then [] else [lines[|lines| - 1]]
  }

  lemma {:induction false} KeepIsStanding(env: Env, s: Store, lines: seq<Entity>, gone: set<Entity>)
    requires forall x | x in lines :: x in gone <==> IsStruck(env, s, x)
    ensures Keep(lines, gone) == Standing(env, s, lines)
  {
    if lines != [] { KeepIsStanding(env, s, lines[..|lines| - 1], gone); }
  }

  /** Page without the struck lines, from one scan of the marker rather than a read for
      each line. */
  method LivePage(env: Env, s: Store, page: byte) returns (r: Result<seq<Entity>>)
    ensures InBook(env, s) ==> r == Ok(Standing(env, s, PageLines(env, s, page)))
  {
    var lines := PageLines(env, s, page);
    var struck := CorrectionLog(env, s);
    if struck.Err? {
      return Err;
    }
    var gone := set st | st in struck.value :: st.entry;
    var live := [];
    var i := 0;
    while i < |lines|
      invariant 0 <= i <= |lines| && live == Keep(lines[..i], gone)
    {
      assert lines[..i + 1][..i] == lines[..i];
      if lines[i] !in gone {
        live := live + [lines[i]];
      }
      i := i + 1;
    }
    assert lines[..i] == lines;
    if InBook(env, s) {
      GoneIsStruck(env, s, struck.value);
      KeepIsStanding(env, s, lines, gone);
    }
    return Ok(live);
  }

  lemma GoneIsStruck(env: Env, s: Store, out: seq<Status>)
    requires CorrInv(env, s) && ListsStruck(env, s, out)
    ensures forall x :: x in (set st | st in out :: st.entry) <==> IsStruck(env, s, x)
  {
    forall x | IsStruck(env, s, x)
      ensures x in (set st | st in out :: st.entry)
    {
      StatusReads(env, s, x);
      assert StatusAt(env, s, x) in out;
    }
  }
}
