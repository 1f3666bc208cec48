/** The row of a line gives back the cells it was written with. */
module Readback {
  import opened Common
  import opened Bytes
  import opened Entities
  import opened Records
  import opened Listings
  import opened Chain
  import opened Book
  import opened Reach
  import opened Dictionary
  import opened Rows
  import opened Journals

  // Cells and their targets.

  lemma TargetReads(s: Store, line: Entity, cells: seq<Cell>, c: Cell)
    requires TermsOk(s) && Holds(s, line, cells) && c in cells
    ensures var b := Target(c);
            b in Row(s, line) && PointsRight(b, Row(s, line)[b]) && Showable(s, b, Row(s, line)[b]) && b != ZERO
  {
    assert HasCell(Row(s, line), c) && CellOk(s, c);
    if c.TermCell? { assert TermOf(s, c.term, c.field); }
  }

  /** Reading a line never fails. */
  lemma RowShowable(s: Store, line: Entity, cells: seq<Cell>)
    requires TermsOk(s) && Holds(s, line, cells)
    ensures forall b | b in Row(s, line) :: PointsRight(b, Row(s, line)[b]) && Showable(s, b, Row(s, line)[b])
  {
    forall b | b in Row(s, line)
      ensures PointsRight(b, Row(s, line)[b]) && Showable(s, b, Row(s, line)[b])
    {
      if IsCellKind(Row(s, line)[b].kind) {
        assert IsTarget(cells, b);
        var c :| c in cells && Target(c) == b;
        TargetReads(s, line, cells, c);
      }
    }
  }

  // Counting.

  function Sources(rels: seq<(Entity, Record)>): seq<Entity> { seq(|rels|, i requires 0 <= i < |rels| => rels[i].0) }

  function Targets(cells: seq<Cell>): seq<Entity> { seq(|cells|, i requires 0 <= i < |cells| => Target(cells[i])) }

  lemma {:induction false} CellRelsMembers(rels: seq<(Entity, Record)>, p: (Entity, Record))
    ensures p in CellRels(rels) <==> p in rels && IsCellKind(p.1.kind)
  {
    if rels != [] {
      CellRelsMembers(rels[..|rels| - 1], p);
      assert rels == rels[..|rels| - 1] + [rels[|rels| - 1]];
    }
  }

  lemma {:induction false} CellRelsAscend(rels: seq<(Entity, Record)>)
    requires Ascends(rels)
    ensures Ascends(CellRels(rels))
  {
    if rels != [] {
      var n := |rels| - 1;
      CellRelsAscend(rels[..n]);
      forall i | 0 <= i < |CellRels(rels[..n])|
        ensures Value(CellRels(rels[..n])[i].0) < Value(rels[n].0)
      {
        CellRelsMembers(rels[..n], CellRels(rels[..n])[i]);
        assert CellRels(rels[..n])[i] in rels[..n];
        var j :| 0 <= j < n && rels[j] == CellRels(rels[..n])[i];
      }
    }
  }

  ghost function CellsListed(s: Store, line: Entity): seq<(Entity, Record)> {
    CellRels(Listing(Row(s, line), 1, ENTITY_COUNT))
  }

  lemma ListedCell(s: Store, line: Entity, p: (Entity, Record))
    ensures p in CellsListed(s, line) <==>
            p.0 != ZERO && p.0 in Row(s, line) && Row(s, line)[p.0] == p.1 && IsCellKind(p.1.kind)
  {
    CellRelsMembers(Listing(Row(s, line), 1, ENTITY_COUNT), p);
    ListingMembers(Row(s, line), 1, ENTITY_COUNT, p.0, p.1);
    ZeroValue(p.0);
  }

  lemma SameTargets(s: Store, line: Entity, cells: seq<Cell>, b: Entity)
    requires TermsOk(s) && Holds(s, line, cells)
    ensures b in Sources(CellsListed(s, line)) <==> b in Targets(cells)
  {
    var rels := CellsListed(s, line);
    if b in Sources(rels) {
      var i :| 0 <= i < |rels| && rels[i].0 == b;
      ListedCell(s, line, rels[i]);
      assert IsTarget(cells, b);
      var c :| c in cells && Target(c) == b;
      var j :| 0 <= j < |cells| && cells[j] == c;
      assert Targets(cells)[j] == b;
    }
    if b in Targets(cells) {
      var j :| 0 <= j < |cells| && Target(cells[j]) == b;
      TargetReads(s, line, cells, cells[j]);
      assert HasCell(Row(s, line), cells[j]);
      ListedCell(s, line, (b, Row(s, line)[b]));
      var i :| 0 <= i < |rels| && rels[i] == (b, Row(s, line)[b]);
      assert Sources(rels)[i] == b;
    }
  }

  lemma SameCount(s: Store, line: Entity, cells: seq<Cell>)
    requires TermsOk(s) && Holds(s, line, cells)
    ensures |CellsListed(s, line)| == |cells|
  {
    var rels := CellsListed(s, line);
    ListingAscends(Row(s, line), 1, ENTITY_COUNT);
    CellRelsAscend(Listing(Row(s, line), 1, ENTITY_COUNT));
    forall i, j | 0 <= i < j < |cells|
      ensures Targets(cells)[i] != Targets(cells)[j]
    {
      TargetsDiffer(s, cells, i, j);
    }
    CountElements(Sources(rels));
    CountElements(Targets(cells));
    forall b
      ensures b in Elements(Sources(rels)) <==> b in Elements(Targets(cells))
    {
      SameTargets(s, line, cells, b);
    }
    assert Elements(Sources(rels)) == Elements(Targets(cells));
  }

  // What the row says.

  /** x shows c: its column by its present name, and its value. */
  predicate Says(s: Store, x: RowCell, c: Cell) {
    && x.field == c.field && c.field in s.decl && x.name == s.decl[c.field].name
    && match c
       case TermCell(_, t) => x.TermShown? && x.term == t && t in s.decl && x.text == s.decl[t].name
       case QuantityCell(_, n) => x.NumberShown? && x.number == SignedNumber(n)
       case RemarkCell(_, text) => x.RemarkShown? && x.text == text
  }

  lemma ReadsIsSays(s: Store, row: Relations, c: Cell, x: RowCell)
    requires TermsOk(s) && CellOk(s, c) && HasCell(row, c) && Reads(s, Target(c), row[Target(c)], x)
    ensures Says(s, x, c)
  {
    if c.TermCell? { OneOwner(s, c.term); }
  }

  /** However a line's row was read, it says each cell the line was written with, once,
      and nothing else. */
  lemma RowGivesBack(s: Store, line: Entity, cells: seq<Cell>, xs: seq<RowCell>)
    requires TermsOk(s) && Holds(s, line, cells) && ReadsAll(s, CellsListed(s, line), xs)
    ensures |xs| == |cells|
    ensures forall c | c in cells :: exists x :: x in xs && Says(s, x, c)
    ensures forall x | x in xs :: exists c :: c in cells && Says(s, x, c)
  {
    SameCount(s, line, cells);
    forall c | c in cells
      ensures exists x :: x in xs && Says(s, x, c)
    {
      var x := CellShown(s, line, cells, xs, c);
    }
    forall x | x in xs
      ensures exists c :: c in cells && Says(s, x, c)
    {
      var c := ShownCell(s, line, cells, xs, x);
    }
  }

  lemma CellShown(s: Store, line: Entity, cells: seq<Cell>, xs: seq<RowCell>, c: Cell) returns (x: RowCell)
    requires TermsOk(s) && Holds(s, line, cells) && ReadsAll(s, CellsListed(s, line), xs) && c in cells
    ensures x in xs && Says(s, x, c)
  {
    var rels, b := CellsListed(s, line), Target(c);
    assert HasCell(Row(s, line), c) && CellOk(s, c);
    TargetReads(s, line, cells, c);
    ListedCell(s, line, (b, Row(s, line)[b]));
    var i :| 0 <= i < |rels| && rels[i] == (b, Row(s, line)[b]);
    x := xs[i];
    ReadsIsSays(s, Row(s, line), c, x);
  }

  lemma ShownCell(s: Store, line: Entity, cells: seq<Cell>, xs: seq<RowCell>, x: RowCell) returns (c: Cell)
    requires TermsOk(s) && Holds(s, line, cells) && ReadsAll(s, CellsListed(s, line), xs) && x in xs
    ensures c in cells && Says(s, x, c)
  {
    var rels := CellsListed(s, line);
    var i :| 0 <= i < |xs| && xs[i] == x;
    ListedCell(s, line, rels[i]);
    assert IsTarget(cells, rels[i].0);
    c :| c in cells && Target(c) == rels[i].0;
    assert HasCell(Row(s, line), c) && CellOk(s, c);
    ReadsIsSays(s, Row(s, line), c, x);
  }

  /** After any run, reading a line that was written in it succeeds and gives back the
      cells it was written with. */
  lemma WrittenReadsBack(env: Env, run: seq<Step>, i: nat, xs: seq<RowCell>)
    requires Legal(env, Empty(), run) && i < |run| && run[i].Write?
    requires ReadsAll(Exec(env, Empty(), run), CellsListed(Exec(env, Empty(), run), run[i].line), xs)
    ensures var s, cells := Exec(env, Empty(), run), run[i].cells;
            && |xs| == |cells|
            && (forall c | c in cells :: exists x :: x in xs && Says(s, x, c))
            && (forall x | x in xs :: exists c :: c in cells && Says(s, x, c))
    ensures var s := Exec(env, Empty(), run);
            forall b | b in Row(s, run[i].line) ::
              PointsRight(b, Row(s, run[i].line)[b]) && Showable(s, b, Row(s, run[i].line)[b])
  {
    ReachableHolds(env, run, i);
    ReachableDictionary(env, run);
    RowShowable(Exec(env, Empty(), run), run[i].line, run[i].cells);
    RowGivesBack(Exec(env, Empty(), run), run[i].line, run[i].cells, xs);
  }
}
