/** A correction chain too long to be read from its older lines can be written. */
module LongChain {
  import opened Common
  import opened Bytes
  import opened Entities
  import opened Records
  import opened Chain
  import opened Transactions
  import opened Sealing
  import opened Book
  import opened Growth
  import opened Allocation
  import opened Acceptance
  import opened Preserve
  import opened Steps
  import opened Reach
  import opened Corrections
  import opened Dictionary
  import opened Stability
  import opened Rows
  import opened Progress
  import History

  // Where the next line goes.

  /** The next line is number i of page p: the pages before are full, those after not
      reached. */
  ghost predicate NextIs(env: Env, s: Store, p: byte, i: byte) {
    && FIRST_ENTRY_PAGE <= p && 1 <= i
    && (forall q: byte | FIRST_ENTRY_PAGE <= q < p :: RuledOff(env, s, q))
    && (if i == 1 then !Reached(env, s, p) else Reached(env, s, p) && PageCounter(env, s, p).data == CounterData(i, 0))
    && (forall q: byte | p < q :: !Reached(env, s, q))
  }

  lemma NextIsSlot(env: Env, s: Store, p: byte, i: byte)
    requires AllocInv(env, s) && NextIs(env, s, p, i)
    ensures IsSlot(env, s, FIRST_ENTRY_PAGE, Line(env, p, i))
  {
    NextIsFree(env, s, p);
    forall q: byte | FIRST_ENTRY_PAGE <= q < p
      ensures SlotOn(env, s, q, TYPE_ENTRY) == 0
    {
      NextIsFree(env, s, q);
    }
  }

  function PageAfter(p: byte, i: byte): nat { if i < 255 then p else p + 1 }

  function IdAfter(i: byte): byte { if i < 255 then i + 1 else 1 }

  /** The counter of a page is in t what it is in s. */
  predicate SameCounter(env: Env, s: Store, t: Store, q: byte) {
    && (Reached(env, t, q) <==> Reached(env, s, q))
    && (Reached(env, s, q) ==> PageCounter(env, t, q) == PageCounter(env, s, q))
  }

  lemma OtherCounters(env: Env, s: Store, step: Step, q: byte)
    requires Now(env, s, step) && step.Write? && q != step.line.page
    ensures SameCounter(env, s, Do(env, s, step), q)
  {
    var d := Plain(env, step).decl;
    WriteCounter(env, s, step);
    assert Counter(env, q, TYPE_ENTRY) !in d;
    DeclAt(env, s, step, d, Counter(env, q, TYPE_ENTRY));
  }

  lemma RuledOffStays(env: Env, s: Store, t: Store, q: byte)
    requires SameCounter(env, s, t, q)
    ensures RuledOff(env, t, q) <==> RuledOff(env, s, q)
  {
  }

  lemma NextOn(env: Env, s: Store, t: Store, p: byte, i: byte)
    requires NextIs(env, s, p, i) && PageAfter(p, i) < 256 && forall q: byte | q != p :: SameCounter(env, s, t, q)
    requires Reached(env, t, p) && PageCounter(env, t, p).data == CounterData(Bumped(i), 0)
    ensures NextIs(env, t, PageAfter(p, i), IdAfter(i))
  {
    forall q: byte | FIRST_ENTRY_PAGE <= q < p
      ensures RuledOff(env, t, q)
    {
      RuledOffStays(env, s, t, q);
    }
    forall q: byte | p < q
      ensures !Reached(env, t, q)
    {
      assert SameCounter(env, s, t, q);
    }
  }

  lemma NextMoves(env: Env, s: Store, step: Step, p: byte, i: byte)
    requires NextIs(env, s, p, i) && PageAfter(p, i) < 256 && Now(env, s, step) && step.Write? &&
             step.line == Line(env, p, i)
    ensures NextIs(env, Do(env, s, step), PageAfter(p, i), IdAfter(i))
  {
    CounterAfter(env, s, step);
    forall q: byte | q != p
      ensures SameCounter(env, s, Do(env, s, step), q)
    {
      OtherCounters(env, s, step, q);
    }
    NextOn(env, s, Do(env, s, step), p, i);
  }

  // Replacing a line.

  lemma SupersedesKept(env: Env, s: Store, t: Store, z: Entity, w: Entity)
    requires Grows(s, t) && CorrInv(env, t) && NoOrphans(t) && LinesOk(env, t) && z.typ == TYPE_ENTRY && z in s.decl
    ensures Supersedes(t, z, w) <==> Supersedes(s, z, w)
  {
    if Supersedes(t, z, w) {
      assert BackSound(env, t, z, w);
      assert HandedOut(env, t, w);
      assert w in ContentRow(t, z);
    }
  }

  lemma ReplacedKept(env: Env, s: Store, t: Store, z: Entity)
    requires Grows(s, t) && CorrInv(env, s) && CorrInv(env, t) && NoOrphans(t) && LinesOk(env, t) &&
             z.typ == TYPE_ENTRY && z in s.decl
    ensures Replaced(t, z) == Replaced(s, z)
  {
    forall w
      ensures Supersedes(t, z, w) <==> Supersedes(s, z, w)
    {
      SupersedesKept(env, s, t, z, w);
    }
    assert OnePrior(s, z) && OnePrior(t, z);
  }

  lemma {:induction false} OlderKept(env: Env, s: Store, t: Store, z: Entity)
    requires Grows(s, t) && CorrInv(env, s) && CorrInv(env, t) && NoOrphans(s) && NoOrphans(t) && LinesOk(env, t)
    requires z.typ == TYPE_ENTRY && z in s.decl
    ensures Older(env, t, z) == Older(env, s, z)
    decreases Value(z)
  {
    ReplacedKept(env, s, t, z);
    if Replaced(s, z).Some? {
      var x := Replaced(s, z).value;
      ReplacedIsLine(env, s, z);
      assert BackSound(env, s, z, x);
      OlderKept(env, s, t, x);
    }
  }

  lemma OlderOfNew(env: Env, s: Store, t: Store, x: Entity, y: Entity)
    requires Grows(s, t) && CorrInv(env, s) && CorrInv(env, t) && NoOrphans(s) && NoOrphans(t) && LinesOk(env, t)
    requires x.typ == TYPE_ENTRY && x in s.decl && y.typ == TYPE_ENTRY && Supersedes(t, y, x)
    ensures Older(env, t, y) == Older(env, s, x) + [x]
  {
    assert OnePrior(t, y);
    assert Replaced(t, y) == Some(x);
    OlderKept(env, s, t, x);
  }

  // A chain that grows.

  /** Someone can sign, and there is a cell to write. */
  ghost predicate Able(env: Env, s: Store, actor: Entity, c: Cell) {
    Signer(env, s, actor) && CellOk(s, c) && |CellData(c)| <= MAX_FIELD_LEN
  }

  /** n + 1 lines are written, all but the first replacing another. */
  ghost predicate Placed(env: Env, s: Store, n: nat, p: byte, i: byte) {
    NextIs(env, s, p, i) && 255 * (p - 1) + i == n + 2 && HeadCount(env, s) == 2 * n + 1
  }

  /** A standing line with n older ones in its chain. */
  ghost predicate Chained(env: Env, s: Store, x: Entity, n: nat) {
    CorrInv(env, s) && Standing(env, s, x) && |Older(env, s, x)| == n
  }

  ghost predicate Grown(env: Env, s: Store, actor: Entity, c: Cell, x: Entity, n: nat, p: byte, i: byte) {
    Able(env, s, actor, c) && Placed(env, s, n, p, i) && Chained(env, s, x, n)
  }

  lemma {:induction false} ThenStep(env: Env, s: Store, run: seq<Step>, step: Step)
    requires Legal(env, s, run) && Now(env, Exec(env, s, run), step)
    ensures Legal(env, s, run + [step]) && Exec(env, s, run + [step]) == Do(env, Exec(env, s, run), step)
    decreases |run|
  {
    if run == [] {
      Prepend(env, s, step, []);
      assert [step] + [] == run + [step];
    } else {
      ThenStep(env, Do(env, s, run[0]), run[1..], step);
      Prepend(env, s, run[0], run[1..] + [step]);
      AfterHead(run, step);
    }
  }

  lemma OneCell(s: Store, c: Cell)
    requires CellOk(s, c)
    ensures CellsOk(s, [c])
  {
  }

  /** The new line stands, and says what it replaces. */
  lemma NewStands(env: Env, s: Store, es: seq<Event>, step: Step)
    requires BookInv(env, s, es) && step.Write? && Now(env, s, step)
    ensures Standing(env, Do(env, s, step), step.line)
    ensures step.prior.Some? ==> Supersedes(Do(env, s, step), step.line, step.prior.value.line)
  {
    NewLineIsNew(env, s, step);
    StepLands(env, s, es, step);
    NewLineRow(env, s, Do(env, s, step), |es|, step);
    DeclAfter(env, s, step);
    NoMarker(env, s, step);
  }

  lemma NoMarker(env: Env, s: Store, step: Step)
    requires step.Write? && Now(env, s, step)
    ensures Marker(env) !in Forwards(step.row) && step.line.id != 0 && step.line in Plain(env, step).decl
    ensures step.prior.Some? ==>
              step.prior.value.line in step.row && step.row[step.prior.value.line].fwd.kind == KIND_SUPERSEDES
  {
    RowKinds(env, s, step.line, step.cells, step.prior, step.row);
  }

  lemma HeadMoves(env: Env, s: Store, es: seq<Event>, step: Step)
    requires BookInv(env, s, es) && Now(env, s, step) && step.Write?
    ensures HeadCount(env, Do(env, s, step)) == HeadCount(env, s) + if step.prior.None? then 1 else 2
  {
    StepKept(env, s, es, step);
    HeadIs(env, s, es);
    HeadIs(env, Do(env, s, step), EventsAfter(env, s, es, step));
    AfterLength(env, s, es, step);
    NowNumbered(env, s, step);
    WriteEventCount(env, s, step, if step.prior.None? then None else Some(ZERO));
  }

  lemma Invariants(env: Env, run: seq<Step>) returns (es: seq<Event>)
    requires Legal(env, Empty(), run)
    ensures var s := Exec(env, Empty(), run); BookInv(env, s, es) && DictInv(env, s) && CorrInv(env, s)
  {
    EmptyInv(env);
    RunKept(env, Empty(), [], run);
    ReachableDictionary(env, run);
    ReachableCorr(env, run);
    es := Told(env, Empty(), [], run);
  }

  /** What stays from one step to the next. */
  lemma StillAble(env: Env, s: Store, es: seq<Event>, step: Step, actor: Entity, c: Cell)
    requires BookInv(env, s, es) && DictInv(env, s) && Now(env, s, step) && step.Write? && Able(env, s, actor, c)
    ensures Able(env, Do(env, s, step), actor, c)
  {
    SignerStays(env, s, step, actor);
    CellStays(env, s, es, step, c);
  }

  lemma PlacedHasRoom(env: Env, s: Store, n: nat, p: byte, i: byte)
    requires AllocInv(env, s) && Placed(env, s, n, p, i) && n < 1000
    ensures RoomForEvents(env, s, 2) && IsSlot(env, s, FIRST_ENTRY_PAGE, Line(env, p, i))
  {
    NextIsSlot(env, s, p, i);
    AnchorValue(env);
  }

  lemma ReplaceStep(env: Env, s: Store, actor: Entity, c: Cell, x: Entity, n: nat, p: byte, i: byte)
    returns (step: Step)
    requires AllocInv(env, s) && TermsOk(s) && Able(env, s, actor, c)
    requires Placed(env, s, n, p, i) && n < 1000 && Standing(env, s, x)
    ensures step.Write? && step.line == Line(env, p, i) && step.prior.Some? && step.prior.value.line == x &&
            Now(env, s, step)
  {
    PlacedHasRoom(env, s, n, p, i);
    OneCell(s, c);
    step := WriteStepAt(env, s, actor, Line(env, p, i), [c], Some(x));
  }

  lemma OneOlder(env: Env, s: Store, es: seq<Event>, step: Step, es': seq<Event>)
    requires BookInv(env, s, es) && CorrInv(env, s) && Now(env, s, step) && step.Write? && step.prior.Some?
    requires BookInv(env, Do(env, s, step), es') && CorrInv(env, Do(env, s, step))
    ensures step.prior.value.line.typ == TYPE_ENTRY && step.line.typ == TYPE_ENTRY
    ensures |Older(env, Do(env, s, step), step.line)| == |Older(env, s, step.prior.value.line)| + 1
  {
    NewStands(env, s, es, step);
    StepGrows(env, s, step);
    PriorIsLine(env, s, step);
    OlderOfNew(env, s, Do(env, s, step), step.prior.value.line, step.line);
  }

  lemma PriorIsLine(env: Env, s: Store, step: Step)
    requires Now(env, s, step) && step.Write? && step.prior.Some?
    ensures step.prior.value.line.typ == TYPE_ENTRY && step.prior.value.line in s.decl && step.line.typ == TYPE_ENTRY
  {
  }

  lemma PageBound(p: byte, i: byte, n: nat)
    requires 255 * (p - 1) + i == n + 2 && n < 1000 && 1 <= p && 1 <= i
    ensures PageAfter(p, i) < 256 && 255 * (PageAfter(p, i) - 1) + IdAfter(i) == n + 3
  {
  }

  lemma PlacedOn(env: Env, s: Store, es: seq<Event>, step: Step, n: nat, p: byte, i: byte)
    requires BookInv(env, s, es) && Placed(env, s, n, p, i) && n < 1000
    requires Now(env, s, step) && step.Write? && step.line == Line(env, p, i) && step.prior.Some?
    ensures PageAfter(p, i) < 256 && Placed(env, Do(env, s, step), n + 1, PageAfter(p, i), IdAfter(i))
  {
    PageBound(p, i, n);
    NextMoves(env, s, step, p, i);
    HeadMoves(env, s, es, step);
  }

  lemma ChainedOn(env: Env, s: Store, es: seq<Event>, step: Step, es': seq<Event>, x: Entity, n: nat)
    requires BookInv(env, s, es) && Chained(env, s, x, n) && BookInv(env, Do(env, s, step), es') &&
             CorrInv(env, Do(env, s, step))
    requires Now(env, s, step) && step.Write? && step.prior.Some? && step.prior.value.line == x
    ensures Chained(env, Do(env, s, step), step.line, n + 1)
  {
    NewStands(env, s, es, step);
    OneOlder(env, s, es, step, es');
  }

  lemma {:induction false} GrowOne(env: Env, run: seq<Step>, actor: Entity, c: Cell, x: Entity, n: nat, p: byte,
                                   i: byte)
    returns (step: Step)
    requires Legal(env, Empty(), run) && Grown(env, Exec(env, Empty(), run), actor, c, x, n, p, i) && n < 1000
    ensures Legal(env, Empty(), run + [step]) && PageAfter(p, i) < 256 && step.Write?
    ensures Grown(env, Exec(env, Empty(), run + [step]), actor, c, step.line, n + 1, PageAfter(p, i), IdAfter(i))
  {
    var s := Exec(env, Empty(), run);
    var es := Invariants(env, run);
    step := ReplaceStep(env, s, actor, c, x, n, p, i);
    ThenStep(env, Empty(), run, step);
    var es' := Invariants(env, run + [step]);
    StillAble(env, s, es, step, actor, c);
    PlacedOn(env, s, es, step, n, p, i);
    ChainedOn(env, s, es, step, es', x, n);
  }

  /** Where a run has brought a chain. */
  datatype Tip = Tip(run: seq<Step>, x: Entity, p: byte, i: byte)

  ghost predicate At(env: Env, actor: Entity, c: Cell, n: nat, tip: Tip) {
    Legal(env, Empty(), tip.run) && Grown(env, Exec(env, Empty(), tip.run), actor, c, tip.x, n, tip.p, tip.i)
  }

  lemma {:induction false} GrowTip(env: Env, actor: Entity, c: Cell, n: nat, tip: Tip) returns (next: Tip)
    requires At(env, actor, c, n, tip) && n < 1000
    ensures At(env, actor, c, n + 1, next)
  {
    var step := GrowOne(env, tip.run, actor, c, tip.x, n, tip.p, tip.i);
    next := Tip(tip.run + [step], step.line, PageAfter(tip.p, tip.i), IdAfter(tip.i));
  }

  lemma {:induction false} GrowTo(env: Env, actor: Entity, c: Cell, tip: Tip, n: nat) returns (next: Tip)
    requires At(env, actor, c, 0, tip) && n <= 1000
    ensures At(env, actor, c, n, next)
    decreases n
  {
    next := tip;
    if n > 0 {
      var before := GrowTo(env, actor, c, tip, n - 1);
      next := GrowTip(env, actor, c, n - 1, before);
    }
  }

  // From nothing.

  lemma FirstPlaced(env: Env, s: Store, key: seq<byte>)
    requires Started(env, s, key)
    ensures NextIs(env, s, FIRST_ENTRY_PAGE, 1) && HeadCount(env, s) == 0
  {
  }

  lemma NoPriorRow(env: Env, s: Store, step: Step)
    requires step.Write? && step.prior.None? && Now(env, s, step)
    ensures forall x | x in Forwards(step.row) :: Forwards(step.row)[x].kind != KIND_SUPERSEDES
  {
    RowKinds(env, s, step.line, step.cells, step.prior, step.row);
  }

  lemma ReplacesNothing(env: Env, s: Store, es: seq<Event>, step: Step)
    requires BookInv(env, s, es) && step.Write? && step.prior.None? && Now(env, s, step)
    ensures Replaced(Do(env, s, step), step.line) == None
  {
    NewLineIsNew(env, s, step);
    StepLands(env, s, es, step);
    NewLineRow(env, s, Do(env, s, step), |es|, step);
    NoPriorRow(env, s, step);
  }

  lemma ChainedFirst(env: Env, t: Store, x: Entity)
    requires CorrInv(env, t) && Standing(env, t, x) && Replaced(t, x) == None
    ensures Chained(env, t, x, 0)
  {
  }

  lemma NothingOlder(env: Env, s: Store, es: seq<Event>, step: Step)
    requires BookInv(env, s, es) && step.Write? && step.prior.None? && Now(env, s, step) &&
             CorrInv(env, Do(env, s, step))
    ensures Chained(env, Do(env, s, step), step.line, 0)
  {
    NewStands(env, s, es, step);
    ReplacesNothing(env, s, es, step);
    ChainedFirst(env, Do(env, s, step), step.line);
  }

  lemma FirstStep(env: Env, s: Store, key: seq<byte>, c: Cell) returns (step: Step)
    requires AllocInv(env, s) && TermsOk(s) && Started(env, s, key) && Able(env, s, FirstActor(env), c)
    ensures step.Write? && step.prior.None? && step.line == Line(env, FIRST_ENTRY_PAGE, 1) && Now(env, s, step)
  {
    StartedHasRoom(env, s, key);
    FirstSlot(env, s, Line(env, FIRST_ENTRY_PAGE, 1));
    OneCell(s, c);
    step := WriteStepAt(env, s, FirstActor(env), Line(env, FIRST_ENTRY_PAGE, 1), [c], None);
  }

  lemma PlacedFirst(env: Env, s: Store, es: seq<Event>, key: seq<byte>, step: Step)
    requires BookInv(env, s, es) && Started(env, s, key)
    requires Now(env, s, step) && step.Write? && step.line == Line(env, FIRST_ENTRY_PAGE, 1) && step.prior.None?
    ensures Placed(env, Do(env, s, step), 0, FIRST_ENTRY_PAGE, 2)
  {
    FirstPlaced(env, s, key);
    NextMoves(env, s, step, FIRST_ENTRY_PAGE, 1);
    HeadMoves(env, s, es, step);
  }

  lemma {:induction false} FirstGrown(env: Env, run: seq<Step>, key: seq<byte>, c: Cell) returns (step: Step)
    requires Legal(env, Empty(), run) && Started(env, Exec(env, Empty(), run), key)
    requires Able(env, Exec(env, Empty(), run), FirstActor(env), c)
    ensures Legal(env, Empty(), run + [step]) && step.Write?
    ensures Grown(env, Exec(env, Empty(), run + [step]), FirstActor(env), c, step.line, 0, FIRST_ENTRY_PAGE, 2)
  {
    var s := Exec(env, Empty(), run);
    var es := Invariants(env, run);
    step := FirstStep(env, s, key, c);
    ThenStep(env, Empty(), run, step);
    var es' := Invariants(env, run + [step]);
    StillAble(env, s, es, step, FirstActor(env), c);
    PlacedFirst(env, s, es, key, step);
    NothingOlder(env, s, es, step);
  }

  lemma LastOfChain(env: Env, s: Store, x: Entity, n: nat)
    requires Chained(env, s, x, n) && n > 0
    ensures |ChainOf(env, s, x)| == n + 1 && ChainOf(env, s, x)[0] != x && ChainOf(env, s, x)[0] in ChainOf(env, s, x)
  {
    var z := Older(env, s, x)[0];
    OlderSame(env, s, x, z);
    assert ChainOf(env, s, x)[0] == z;
  }

  lemma {:induction false} LongRun(env: Env, key: seq<byte>, name: seq<byte>, text: seq<byte>, n: nat)
    returns (run: seq<Step>, last: Entity)
    requires |key| == PUBLIC_KEY_LEN && (forall payload :: CanSign(env, key, payload)) && n <= 1000
    requires 0 < |name| <= MAX_FIELD_LEN && 0 < |text| <= MAX_FIELD_LEN
    ensures Legal(env, Empty(), run) && Chained(env, Exec(env, Empty(), run), last, n)
  {
    var c := RemarkCell(FirstColumn(env), text);
    var begun := Starts(env, key, name);
    FirstAble(env, Exec(env, Empty(), begun), key, text);
    var step := FirstGrown(env, begun, key, c);
    var tip := GrowTo(env, FirstActor(env), c, Tip(begun + [step], step.line, FIRST_ENTRY_PAGE, 2), n);
    run, last := tip.run, tip.x;
  }

  lemma FirstAble(env: Env, s: Store, key: seq<byte>, text: seq<byte>)
    requires Started(env, s, key) && |key| == PUBLIC_KEY_LEN && (forall payload :: CanSign(env, key, payload))
    requires 0 < |text| <= MAX_FIELD_LEN
    ensures Able(env, s, FirstActor(env), RemarkCell(FirstColumn(env), text))
  {
  }

  /** Whoever holds a key can write a chain of one line more than can be walked: it reads
      from its last line, and not from its first. */
  lemma {:induction false} ChainTooLong(env: Env, key: seq<byte>, name: seq<byte>, text: seq<byte>)
    returns (run: seq<Step>, first: Entity, last: Entity)
    requires |key| == PUBLIC_KEY_LEN && (forall payload :: CanSign(env, key, payload))
    requires 0 < |name| <= MAX_FIELD_LEN && 0 < |text| <= MAX_FIELD_LEN
    ensures Legal(env, Empty(), run) && CorrInv(env, Exec(env, Empty(), run)) && last.typ == TYPE_ENTRY &&
            first.typ == TYPE_ENTRY
    ensures var s := Exec(env, Empty(), run);
            && |ChainOf(env, s, last)| == History.MAX_CORRECTION_CHAIN + 1 && first in ChainOf(env, s, last)
            && History.Readable(env, s, last) && !History.Readable(env, s, first)
  {
    run, last := LongRun(env, key, name, text, History.MAX_CORRECTION_CHAIN);
    var s := Exec(env, Empty(), run);
    LastOfChain(env, s, last, History.MAX_CORRECTION_CHAIN);
    first := ChainOf(env, s, last)[0];
    Unreadable(env, s, last, first);
  }

  lemma Unreadable(env: Env, s: Store, last: Entity, first: Entity)
    requires CorrInv(env, s) && Standing(env, s, last) && |ChainOf(env, s, last)| == History.MAX_CORRECTION_CHAIN + 1
    requires first in ChainOf(env, s, last) && first != last
    ensures first.typ == TYPE_ENTRY && History.Readable(env, s, last) && !History.Readable(env, s, first)
  {
    History.ReadFromAll(env, s, last, last);
    History.ReadFromAll(env, s, last, first);
    OneChain(env, s, last, first);
    assert Replacement(env, s, last).None?;
    OnlyLastStands(env, s, last, first);
  }

  /** One line of a chain has nothing after it. */
  lemma OnlyLastStands(env: Env, s: Store, x: Entity, z: Entity)
    requires CorrInv(env, s) && x.typ == TYPE_ENTRY && z in ChainOf(env, s, x) && Replacement(env, s, x).None? && z != x
    ensures z.typ == TYPE_ENTRY && Replacement(env, s, z).Some?
  {
    assert z in Older(env, s, x);
    OlderReplaced(env, s, x, z);
  }

  lemma {:induction false} OlderReplaced(env: Env, s: Store, y: Entity, z: Entity)
    requires CorrInv(env, s) && y.typ == TYPE_ENTRY && z in Older(env, s, y)
    ensures z.typ == TYPE_ENTRY && Replacement(env, s, z).Some?
    decreases Value(y)
  {
    var x := Replaced(s, y).value;
    ReplacedIsLine(env, s, y);
    TwoWays(env, s, x, y);
    if z != x { OlderReplaced(env, s, x, z); }
  }
}
