/** A line keeps the cells it was written with, and its row reads back as exactly those
    cells, under the names their columns and terms have now. */
module Rows {
  import opened Common
  import opened Bytes
  import opened Entities
  import opened Records
  import opened Listings
  import opened Chain
  import opened Transactions
  import opened Sealing
  import opened Book
  import opened Growth
  import opened Acceptance
  import opened Preserve
  import opened Steps
  import opened Reach
  import opened Dictionary
  import opened Stability
  import History

  // Numbers in cells.

  const WORD := 0x1_0000_0000_0000_0000

  /** A 64-bit signed number as eight bytes. */
  function NumberBytes(n: int): (data: seq<byte>)
    requires -WORD / 2 <= n < WORD / 2
    ensures |data| == 8
  {
    BigEndian(if n < 0 then n + WORD else n, 8)
  }

  function SignedNumber(data: seq<byte>): int {
    var n := Number(data);
    if n < WORD / 2 then n else n - WORD
  }

  lemma WordPower()
    ensures Pow256(8) == WORD
  {
    assert Pow256(2) == 0x1_0000;
    assert Pow256(4) == 0x1_0000_0000;
    assert Pow256(6) == 0x1_0000_0000_0000;
  }

  lemma NumberReadsBack(n: int)
    requires -WORD / 2 <= n < WORD / 2
    ensures SignedNumber(NumberBytes(n)) == n
  {
    WordPower();
    NumberOfBigEndian(if n < 0 then n + WORD else n, 8);
  }

  // The cells of a line.

  predicate IsCellKind(kind: byte) { kind == KIND_CELL || kind == KIND_QUANTITY || kind == KIND_REMARK }

  predicate HasCell(row: Relations, c: Cell) {
    Target(c) in row && row[Target(c)].kind == CellKind(c) && row[Target(c)].data == CellData(c)
  }

  predicate IsTarget(cells: seq<Cell>, b: Entity) { exists c :: c in cells && Target(c) == b }

  /** The relations of a line that are cells are those of the cells, and no others. */
  ghost predicate Holds(s: Store, line: Entity, cells: seq<Cell>) {
    && CellsOk(s, cells)
    && (forall c | c in cells :: HasCell(Row(s, line), c))
    && (forall b | b in Row(s, line) && IsCellKind(Row(s, line)[b].kind) :: IsTarget(cells, b))
  }

  /** Different cells of a line point at different things. */
  lemma TargetsDiffer(s: Store, cells: seq<Cell>, i: nat, j: nat)
    requires TermsOk(s) && CellsOk(s, cells) && i < j < |cells|
    ensures Target(cells[i]) != Target(cells[j])
  {
    assert CellOk(s, cells[i]) && CellOk(s, cells[j]);
    if cells[i].TermCell? && cells[j].TermCell? { OneOwner(s, cells[i].term); }
  }

  // A new line holds its cells.

  lemma NewRowHolds(env: Env, s: Store, line: Entity, cells: seq<Cell>, prior: Option<Strike>, row: map<Entity, Link>)
    requires RowOk(env, s, line, cells, prior, row)
    ensures forall c | c in cells :: HasCell(Forwards(row), c)
    ensures forall b | b in row && IsCellKind(row[b].fwd.kind) :: IsTarget(cells, b)
  {
    forall c | c in cells
      ensures HasCell(Forwards(row), c)
    {
      assert LinkOk(env, s, line, Target(c), row[Target(c)], CellKind(c));
    }
  }

  lemma NewLineRow(env: Env, s: Store, t: Store, n: nat, step: Step)
    requires step.Write? && step.line.typ == TYPE_ENTRY && Row(s, step.line) == map[]
    requires step.prior.Some? ==> step.prior.value.line != step.line
    requires Lands(env, s, t, Plain(env, step), n, Some(step.seal))
    ensures Row(t, step.line) == Forwards(step.row)
  {
    assert Row(t, step.line) == Row(s, step.line) + Forward(Plain(env, step), step.line);
  }

  lemma NewLineIsNew(env: Env, s: Store, step: Step)
    requires step.Write? && Now(env, s, step) && NoOrphans(s)
    ensures step.line.typ == TYPE_ENTRY && step.line !in s.decl && Row(s, step.line) == map[]
    ensures step.prior.Some? ==> step.prior.value.line != step.line
    ensures CellsOk(s, step.cells) && RowOk(env, s, step.line, step.cells, step.prior, step.row)
  {
    SlotIsFree(env, s, FIRST_ENTRY_PAGE, step.line);
  }

  lemma WriteHolds(env: Env, s: Store, es: seq<Event>, step: Step)
    requires BookInv(env, s, es) && DictInv(env, s) && step.Write? && Now(env, s, step)
    ensures Holds(Do(env, s, step), step.line, step.cells) && step.line in Do(env, s, step).decl &&
            step.line.typ == TYPE_ENTRY
  {
    NewLineIsNew(env, s, step);
    StepLands(env, s, es, step);
    NewLineRow(env, s, Do(env, s, step), |es|, step);
    NewRowHolds(env, s, step.line, step.cells, step.prior, step.row);
    CellsStay(env, s, es, step, step.cells);
    DeclAfter(env, s, step);
  }

  lemma CellsStay(env: Env, s: Store, es: seq<Event>, step: Step, cells: seq<Cell>)
    requires BookInv(env, s, es) && DictInv(env, s) && Now(env, s, step) && CellsOk(s, cells)
    ensures CellsOk(Do(env, s, step), cells)
  {
    forall c | c in cells
      ensures CellOk(Do(env, s, step), c)
    {
      CellStays(env, s, es, step, c);
    }
  }

  // And goes on holding them.

  /** No cell is added to a line that exists. */
  ghost predicate AddsNoCell(s: Store, p: Txn) {
    forall a: Entity, b: Entity | a in p.rel && a.typ == TYPE_ENTRY && a in s.decl && b in p.rel[a] ::
      !IsCellKind(p.rel[a][b].fwd.kind)
  }

  lemma WriteAddsNoCell(env: Env, s: Store, step: Step)
    requires step.Write? && step.line !in s.decl &&
             (step.prior.Some? ==> step.prior.value.link.fwd.kind == KIND_SUPERSEDED)
    ensures AddsNoCell(s, Plain(env, step))
  {
  }

  lemma MarkAddsNoCell(env: Env, s: Store, step: Step)
    requires Now(env, s, step) && (step.Void? || step.Countersign?)
    ensures AddsNoCell(s, Plain(env, step))
  {
  }

  lemma OtherAddsNoCell(env: Env, s: Store, step: Step)
    requires Now(env, s, step) && !step.Write? && !step.Void? && !step.Countersign?
    ensures AddsNoCell(s, Plain(env, step))
  {
    NowRelates(env, s, step);
    assert forall a | Relates(step, a) :: a.typ != TYPE_ENTRY;
  }

  lemma StepAddsNoCell(env: Env, s: Store, step: Step)
    requires Now(env, s, step)
    ensures AddsNoCell(s, Plain(env, step))
  {
    if step.Write? {
      SlotIsFree(env, s, FIRST_ENTRY_PAGE, step.line);
      WriteAddsNoCell(env, s, step);
    } else if step.Void? || step.Countersign? {
      MarkAddsNoCell(env, s, step);
    } else {
      OtherAddsNoCell(env, s, step);
    }
  }

  lemma NoCellLands(env: Env, s: Store, t: Store, p: Txn, n: nat, seal: Option<Seal>, line: Entity)
    requires Lands(env, s, t, p, n, seal) && AddsNoCell(s, p) && line.typ == TYPE_ENTRY && line in s.decl
    ensures forall b | b in Row(t, line) && IsCellKind(Row(t, line)[b].kind) ::
            b in Row(s, line) && (Row(s, line)[b].kind == Row(t, line)[b].kind)
  {
    assert Row(t, line) == Row(s, line) + Forward(p, line);
  }

  lemma NoCellAdded(env: Env, s: Store, step: Step, line: Entity)
    requires Now(env, s, step) && line.typ == TYPE_ENTRY && line in s.decl
    ensures var t := Do(env, s, step);
            forall b | b in Row(t, line) && IsCellKind(Row(t, line)[b].kind) ::
              b in Row(s, line) && Row(s, line)[b].kind == Row(t, line)[b].kind
  {
    StepAddsNoCell(env, s, step);
    if Chains(step) {
      NowNumbered(env, s, step);
      DoChained(env, s, step);
    } else {
      DoPlain(env, s, step);
    }
    NoCellLands(env, s, Do(env, s, step), Plain(env, step), HeadCount(env, s), SealOf(step), line);
  }

  lemma StaysHeld(s: Store, t: Store, line: Entity, cells: seq<Cell>)
    requires Holds(s, line, cells) && CellsOk(t, cells) && KeepsRecords(s, t) && line.typ == TYPE_ENTRY
    requires forall b | b in Row(t, line) && IsCellKind(Row(t, line)[b].kind) ::
             b in Row(s, line) && Row(s, line)[b].kind == Row(t, line)[b].kind
    ensures Holds(t, line, cells)
  {
    forall c | c in cells
      ensures HasCell(Row(t, line), c)
    {
      assert HasCell(Row(s, line), c);
    }
  }

  lemma StepHolds(env: Env, s: Store, es: seq<Event>, step: Step, line: Entity, cells: seq<Cell>)
    requires BookInv(env, s, es) && DictInv(env, s) && Now(env, s, step) && Holds(s, line, cells) &&
             line.typ == TYPE_ENTRY && line in s.decl
    ensures Holds(Do(env, s, step), line, cells) && line in Do(env, s, step).decl
  {
    CellsStay(env, s, es, step, cells);
    StepGrows(env, s, step);
    NoCellAdded(env, s, step, line);
    StaysHeld(s, Do(env, s, step), line, cells);
    DeclStays(env, s, step, line);
  }

  lemma {:induction false} RunHolds(env: Env, s: Store, es: seq<Event>, run: seq<Step>, line: Entity, cells: seq<Cell>)
    requires BookInv(env, s, es) && DictInv(env, s) && Legal(env, s, run) && Holds(s, line, cells) &&
             line.typ == TYPE_ENTRY && line in s.decl
    ensures Holds(Exec(env, s, run), line, cells)
    decreases |run|
  {
    if run != [] {
      StepHolds(env, s, es, run[0], line, cells);
      StepKept(env, s, es, run[0]);
      StepDict(env, s, es, run[0]);
      RunHolds(env, Do(env, s, run[0]), EventsAfter(env, s, es, run[0]), run[1..], line, cells);
    }
  }

  lemma FirstHolds(env: Env, s: Store, es: seq<Event>, run: seq<Step>)
    requires BookInv(env, s, es) && DictInv(env, s) && Legal(env, s, run) && run != [] && run[0].Write?
    ensures Holds(Exec(env, s, run), run[0].line, run[0].cells)
  {
    WriteHolds(env, s, es, run[0]);
    StepKept(env, s, es, run[0]);
    StepDict(env, s, es, run[0]);
    RunHolds(env, Do(env, s, run[0]), EventsAfter(env, s, es, run[0]), run[1..], run[0].line, run[0].cells);
  }

  lemma {:induction false} SplitRun(env: Env, s: Store, run: seq<Step>, i: nat)
    requires Legal(env, s, run) && i <= |run|
    ensures Legal(env, s, run[..i]) && Legal(env, Exec(env, s, run[..i]), run[i..])
    ensures Exec(env, s, run) == Exec(env, Exec(env, s, run[..i]), run[i..])
    decreases i
  {
    if i == 0 {
      assert run[0..] == run;
    } else {
      SplitRun(env, Do(env, s, run[0]), run[1..], i - 1);
      assert run[..i][1..] == run[1..][..i - 1] && run[1..][i - 1..] == run[i..];
    }
  }

  /** Every line written in a run still holds exactly its cells at the end of it. */
  lemma ReachableHolds(env: Env, run: seq<Step>, i: nat)
    requires Legal(env, Empty(), run) && i < |run| && run[i].Write?
    ensures Holds(Exec(env, Empty(), run), run[i].line, run[i].cells)
  {
    SplitRun(env, Empty(), run, i);
    EmptyInv(env);
    EmptyDict(env);
    RunKept(env, Empty(), [], run[..i]);
    RunDict(env, Empty(), [], run[..i]);
    FirstHolds(env, Exec(env, Empty(), run[..i]), Told(env, Empty(), [], run[..i]), run[i..]);
  }
}
