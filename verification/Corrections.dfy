/** Corrections: a struck line stays struck, and replacements form chains that never
    meet and never return. */
module Corrections {
  import opened Common
  import opened Bytes
  import opened Entities
  import opened Records
  import opened Listings
  import opened Chain
  import opened Transactions
  import opened Sealing
  import opened Book
  import opened Growth
  import opened Allocation
  import opened Acceptance
  import opened Preserve
  import opened Steps
  import opened Reach

  predicate Supersedes(s: Store, y: Entity, x: Entity) {
    x in Row(s, y) && Row(s, y)[x].kind == KIND_SUPERSEDES
  }

  /** Line y was written after x, and says that it replaces it. */
  predicate Replaces(s: Store, y: Entity, x: Entity) {
    y.typ == TYPE_ENTRY && y in s.decl && Value(x) < Value(y) && Supersedes(s, y, x)
  }

  /** A strike is one of the two kinds, and names the line it made way for. */
  predicate StrikeSound(env: Env, s: Store, x: Entity) {
    Marker(env) in Row(s, x) ==>
      var r := Row(s, x)[Marker(env)];
      && |r.data| == ENTITY_LEN
      && (r.kind == KIND_VOIDED || (r.kind == KIND_SUPERSEDED && Replaces(s, DecodeEntity(r.data), x)))
  }

  predicate BackSound(env: Env, s: Store, y: Entity, x: Entity) {
    Supersedes(s, y, x) ==>
      && x.typ == TYPE_ENTRY && Marker(env) in Row(s, x)
      && Row(s, x)[Marker(env)].kind == KIND_SUPERSEDED && Row(s, x)[Marker(env)].data == EntityBytes(y)
  }

  ghost predicate OnePrior(s: Store, y: Entity) {
    forall x, x' | Supersedes(s, y, x) && Supersedes(s, y, x') :: x == x'
  }

  ghost predicate CorrInv(env: Env, s: Store) {
    && (forall x: Entity | x.typ == TYPE_ENTRY :: StrikeSound(env, s, x))
    && (forall y: Entity, x: Entity | y.typ == TYPE_ENTRY :: BackSound(env, s, y, x))
    && (forall y: Entity | y.typ == TYPE_ENTRY :: OnePrior(s, y))
  }

  // Steps.

  /** The record at (x, b) is new in t. */
  predicate Adds(s: Store, t: Store, x: Entity, b: Entity) { b in Row(t, x) && b !in Row(s, x) }

  lemma ReplacesStays(s: Store, t: Store, y: Entity, x: Entity)
    requires Grows(s, t) && Replaces(s, y, x)
    ensures Replaces(t, y, x)
  {
  }

  ghost predicate AddsSound(env: Env, s: Store, t: Store) {
    && (forall x: Entity | x.typ == TYPE_ENTRY && Adds(s, t, x, Marker(env)) :: StrikeSound(env, t, x))
    && (forall y: Entity, x: Entity | y.typ == TYPE_ENTRY && Adds(s, t, y, x) :: BackSound(env, t, y, x))
    && (forall y: Entity, x: Entity | y.typ == TYPE_ENTRY && Adds(s, t, y, x) && Supersedes(t, y, x) :: OnePrior(t, y))
  }

  lemma StrikeStays(env: Env, s: Store, t: Store, x: Entity)
    requires CorrInv(env, s) && Grows(s, t) && AddsSound(env, s, t) && x.typ == TYPE_ENTRY
    ensures StrikeSound(env, t, x)
  {
    if Marker(env) in Row(s, x) {
      assert StrikeSound(env, s, x);
      var r := Row(s, x)[Marker(env)];
      if r.kind == KIND_SUPERSEDED { ReplacesStays(s, t, DecodeEntity(r.data), x); }
    } else if Marker(env) in Row(t, x) {
      assert Adds(s, t, x, Marker(env));
    }
  }

  lemma BackStays(env: Env, s: Store, t: Store, y: Entity, x: Entity)
    requires CorrInv(env, s) && Grows(s, t) && AddsSound(env, s, t) && y.typ == TYPE_ENTRY
    ensures BackSound(env, t, y, x)
  {
    if x in Row(s, y) {
      assert BackSound(env, s, y, x);
    } else if x in Row(t, y) {
      assert Adds(s, t, y, x);
    }
  }

  lemma PriorStays(env: Env, s: Store, t: Store, y: Entity)
    requires CorrInv(env, s) && Grows(s, t) && AddsSound(env, s, t) && y.typ == TYPE_ENTRY
    ensures OnePrior(t, y)
  {
    if x :| Adds(s, t, y, x) && Supersedes(t, y, x) {
    } else {
      forall x, x' | Supersedes(t, y, x) && Supersedes(t, y, x')
        ensures x == x'
      {
        assert !Adds(s, t, y, x) && !Adds(s, t, y, x');
        assert Supersedes(s, y, x) && Supersedes(s, y, x');
        assert OnePrior(s, y);
      }
    }
  }

  lemma CorrKept(env: Env, s: Store, t: Store)
    requires CorrInv(env, s) && Grows(s, t) && AddsSound(env, s, t)
    ensures CorrInv(env, t)
  {
    forall x: Entity | x.typ == TYPE_ENTRY
      ensures StrikeSound(env, t, x)
    {
      StrikeStays(env, s, t, x);
    }
    forall y: Entity, x: Entity | y.typ == TYPE_ENTRY
      ensures BackSound(env, t, y, x)
    {
      BackStays(env, s, t, y, x);
    }
    forall y: Entity | y.typ == TYPE_ENTRY
      ensures OnePrior(t, y)
    {
      PriorStays(env, s, t, y);
    }
  }

  /** What a transaction adds to the rows of lines is neither a strike nor a
      replacement. */
  ghost predicate NoCorrection(env: Env, p: Txn) {
    forall x: Entity, b: Entity | x in p.rel && x.typ == TYPE_ENTRY && b in p.rel[x] ::
      b != Marker(env) && p.rel[x][b].fwd.kind != KIND_SUPERSEDES
  }

  lemma NoCorrectionAdds(env: Env, s: Store, t: Store, p: Txn, n: nat, seal: Option<Seal>)
    requires Lands(env, s, t, p, n, seal) && NoCorrection(env, p)
    ensures AddsSound(env, s, t)
  {
    forall x: Entity, b: Entity | x.typ == TYPE_ENTRY && Adds(s, t, x, b)
      ensures b != Marker(env) && !Supersedes(t, x, b)
    {
      assert Row(t, x) == Row(s, x) + Forward(p, x);
    }
  }

  lemma VoidAdds(env: Env, s: Store, t: Store, p: Txn, n: nat, seal: Option<Seal>, x: Strike)
    requires Lands(env, s, t, p, n, seal) && p.rel == map[x.line := map[Marker(env) := x.link]]
    requires x.link.fwd.kind == KIND_VOIDED && |x.link.fwd.data| == ENTITY_LEN
    ensures AddsSound(env, s, t)
  {
    forall y: Entity, b: Entity | y.typ == TYPE_ENTRY && Adds(s, t, y, b)
      ensures y == x.line && b == Marker(env) && Row(t, y)[b] == x.link.fwd
    {
      assert Row(t, y) == Row(s, y) + Forward(p, y);
    }
  }

  /** The rows a new line brings. */
  ghost predicate LineRows(env: Env, s: Store, t: Store, line: Entity, row: Relations, prior: Option<Strike>) {
    && Row(t, line) == row
    && (forall x: Entity | x.typ == TYPE_ENTRY && x != line :: Row(t, x) == Row(s, x) + StrikeRow(env, prior, x))
  }

  function StrikeRow(env: Env, prior: Option<Strike>, x: Entity): Relations {
    if prior.Some? && x == prior.value.line then map[Marker(env) := prior.value.link.fwd] else map[]
  }

  lemma AddedAt(env: Env, s: Store, t: Store, line: Entity, row: Relations, prior: Option<Strike>, x: Entity, b: Entity)
    requires LineRows(env, s, t, line, row, prior) && x.typ == TYPE_ENTRY && Adds(s, t, x, b)
    ensures || (x == line && b in row && Row(t, x)[b] == row[b])
            || (x != line && prior.Some? && x == prior.value.line && b == Marker(env) &&
                Row(t, x)[b] == prior.value.link.fwd)
  {
  }

  /** The two halves of a correction point at each other. */
  ghost predicate CorrectionOk(env: Env, line: Entity, row: Relations, prior: Option<Strike>) {
    && Marker(env) !in row
    && (forall b | b in row && row[b].kind == KIND_SUPERSEDES :: prior.Some? && b == prior.value.line)
    && (prior.Some? ==>
          && prior.value.line in row && row[prior.value.line].kind == KIND_SUPERSEDES
          && prior.value.line.typ == TYPE_ENTRY && prior.value.line != line && Value(prior.value.line) < Value(line)
          && prior.value.link.fwd.kind == KIND_SUPERSEDED && prior.value.link.fwd.data == EntityBytes(line))
  }

  lemma StruckAfter(env: Env, s: Store, t: Store, line: Entity, row: Relations, prior: Option<Strike>)
    requires LineRows(env, s, t, line, row, prior) && prior.Some? && CorrectionOk(env, line, row, prior)
    ensures Marker(env) in Row(t, prior.value.line) && Row(t, prior.value.line)[Marker(env)] == prior.value.link.fwd
  {
  }

  lemma WriteAdds(env: Env, s: Store, t: Store, line: Entity, row: Relations, prior: Option<Strike>)
    requires LineRows(env, s, t, line, row, prior) && line.typ == TYPE_ENTRY && line in t.decl
    requires CorrectionOk(env, line, row, prior)
    ensures AddsSound(env, s, t)
  {
    if prior.Some? { StruckAfter(env, s, t, line, row, prior); }
    assert DecodeEntity(EntityBytes(line)) == line;
    forall x: Entity | x.typ == TYPE_ENTRY && Adds(s, t, x, Marker(env))
      ensures StrikeSound(env, t, x)
    {
      AddedAt(env, s, t, line, row, prior, x, Marker(env));
    }
    forall y: Entity, x: Entity | y.typ == TYPE_ENTRY && Adds(s, t, y, x)
      ensures BackSound(env, t, y, x) && (Supersedes(t, y, x) ==> y == line)
    {
      AddedAt(env, s, t, line, row, prior, y, x);
    }
  }

  lemma WriteForward(env: Env, step: Step, x: Entity)
    requires step.Write? && (step.prior.Some? ==> step.prior.value.line != step.line)
    ensures Forward(Plain(env, step), x) == if x == step.line then Forwards(step.row) else StrikeRow(env, step.prior, x)
  {
  }

  lemma WriteRows(env: Env, s: Store, t: Store, n: nat, step: Step)
    requires step.Write? && Row(s, step.line) == map[] && Lands(env, s, t, Plain(env, step), n, Some(step.seal))
    requires step.line.typ == TYPE_ENTRY && (step.prior.Some? ==> step.prior.value.line != step.line)
    ensures LineRows(env, s, t, step.line, Forwards(step.row), step.prior)
  {
    var p := Plain(env, step);
    forall x: Entity | x.typ == TYPE_ENTRY
      ensures Row(t, x) == Row(s, x) + if x == step.line then Forwards(step.row) else StrikeRow(env, step.prior, x)
    {
      WriteForward(env, step, x);
      assert Row(t, x) == Row(s, x) + Forward(p, x);
    }
  }

  /** Only the line being replaced is linked as replaced. */
  lemma RowKinds(env: Env, s: Store, line: Entity, cells: seq<Cell>, prior: Option<Strike>, row: map<Entity, Link>)
    requires RowOk(env, s, line, cells, prior, row) && CellsOk(s, cells) &&
             (prior.Some? ==> prior.value.line.typ == TYPE_ENTRY && prior.value.line.id != 0)
    ensures Marker(env) !in row
    ensures forall b | b in row && row[b].fwd.kind == KIND_SUPERSEDES :: prior.Some? && b == prior.value.line
  {
    forall b | b in row
      ensures b != Marker(env) && (row[b].fwd.kind == KIND_SUPERSEDES ==> prior.Some? && b == prior.value.line)
    {
      if c :| c in cells && Target(c) == b {
        assert CellOk(s, c);
        assert LinkOk(env, s, line, Target(c), row[Target(c)], CellKind(c));
      }
    }
  }

  lemma WriteCorr(env: Env, s: Store, t: Store, n: nat, step: Step)
    requires step.Write? && WriteNow(env, s, step.line, step.decl, step.counter, step.cells, step.row, step.prior)
    requires Lands(env, s, t, Plain(env, step), n, Some(step.seal)) && NoOrphans(s) && AllocInv(env, s)
    ensures AddsSound(env, s, t)
  {
    SlotIsFree(env, s, FIRST_ENTRY_PAGE, step.line);
    WriteRows(env, s, t, n, step);
    RowKinds(env, s, step.line, step.cells, step.prior, step.row);
    if step.prior.Some? { NewLineIsLast(env, s, step.line, step.prior.value.line); }
    WriteAdds(env, s, t, step.line, Forwards(step.row), step.prior);
  }

  lemma OtherNoCorrection(env: Env, s: Store, step: Step)
    requires Now(env, s, step) && !step.Write? && !step.Void?
    ensures NoCorrection(env, Plain(env, step))
  {
    if step.Derive? {
      forall a, b | a in step.edges && b in step.edges[a]
        ensures a.typ == TYPE_TERM
      {
        assert EdgeOk(env, s, a, b, step.edges[a][b]);
      }
    }
  }

  lemma ChainedCorr(env: Env, s: Store, t: Store, n: nat, step: Step)
    requires Now(env, s, step) && Chains(step) && NoOrphans(s) && AllocInv(env, s)
    requires Lands(env, s, t, Plain(env, step), n, Some(step.seal))
    ensures AddsSound(env, s, t)
  {
    if step.Write? {
      WriteCorr(env, s, t, n, step);
    } else if step.Void? {
      VoidAdds(env, s, t, Plain(env, step), n, Some(step.seal), step.strike);
    } else {
      OtherNoCorrection(env, s, step);
      NoCorrectionAdds(env, s, t, Plain(env, step), n, Some(step.seal));
    }
  }

  lemma StepCorr(env: Env, s: Store, es: seq<Event>, step: Step)
    requires BookInv(env, s, es) && CorrInv(env, s) && Now(env, s, step)
    ensures CorrInv(env, Do(env, s, step))
  {
    StepGrows(env, s, step);
    if Chains(step) {
      StepLands(env, s, es, step);
      ChainedCorr(env, s, Do(env, s, step), |es|, step);
    } else {
      DoPlain(env, s, step);
      OtherNoCorrection(env, s, step);
      NoCorrectionAdds(env, s, Do(env, s, step), Plain(env, step), HeadCount(env, s), None);
    }
    CorrKept(env, s, Do(env, s, step));
  }

  lemma {:induction false} RunCorr(env: Env, s: Store, es: seq<Event>, run: seq<Step>)
    requires BookInv(env, s, es) && CorrInv(env, s) && Legal(env, s, run)
    ensures CorrInv(env, Exec(env, s, run))
    decreases |run|
  {
    if run != [] {
      StepKept(env, s, es, run[0]);
      StepCorr(env, s, es, run[0]);
      RunCorr(env, Do(env, s, run[0]), EventsAfter(env, s, es, run[0]), run[1..]);
    }
  }

  lemma EmptyCorr(env: Env)
    ensures CorrInv(env, Empty())
  {
  }

  lemma ReachableCorr(env: Env, run: seq<Step>)
    requires Legal(env, Empty(), run)
    ensures CorrInv(env, Exec(env, Empty(), run))
  {
    EmptyInv(env);
    EmptyCorr(env);
    RunCorr(env, Empty(), [], run);
  }

  // Chains of corrections.

  /** The line that replaced x, if one did. */
  function Replacement(env: Env, s: Store, x: Entity): Option<Entity> {
    if Marker(env) in Row(s, x) && Row(s, x)[Marker(env)].kind == KIND_SUPERSEDED &&
      |Row(s, x)[Marker(env)].data| == ENTITY_LEN
    then Some(DecodeEntity(Row(s, x)[Marker(env)].data)) else None
  }

  /** The line y replaced, if it replaced one. */
  ghost function Replaced(s: Store, y: Entity): (r: Option<Entity>)
    ensures r.Some? ==> Supersedes(s, y, r.value)
    ensures r.None? ==> forall x :: !Supersedes(s, y, x)
  {
    if exists x :: Supersedes(s, y, x) then
      var x :| Supersedes(s, y, x);
      Some(x)
    else None
  }

  /** The two ends of a replacement agree, and the replacement is the later line. */
  lemma TwoWays(env: Env, s: Store, x: Entity, y: Entity)
    requires CorrInv(env, s) && x.typ == TYPE_ENTRY && y.typ == TYPE_ENTRY
    ensures Replacement(env, s, x) == Some(y) <==> Replaced(s, y) == Some(x)
    ensures Replacement(env, s, x) == Some(y) ==> Value(x) < Value(y)
  {
    assert StrikeSound(env, s, x) && BackSound(env, s, y, x) && OnePrior(s, y);
    assert DecodeEntity(EntityBytes(y)) == y;
  }

  lemma ReplacementIsLine(env: Env, s: Store, x: Entity)
    requires CorrInv(env, s) && x.typ == TYPE_ENTRY && Replacement(env, s, x).Some?
    ensures Replacement(env, s, x).value.typ == TYPE_ENTRY && Replacement(env, s, x).value in s.decl
    ensures Value(x) < Value(Replacement(env, s, x).value)
  {
    assert StrikeSound(env, s, x);
  }

  lemma ReplacedIsLine(env: Env, s: Store, y: Entity)
    requires CorrInv(env, s) && y.typ == TYPE_ENTRY && Replaced(s, y).Some?
    ensures Replaced(s, y).value.typ == TYPE_ENTRY && Value(Replaced(s, y).value) < Value(y)
  {
    var x := Replaced(s, y).value;
    assert BackSound(env, s, y, x);
    TwoWays(env, s, x, y);
  }

  /** The lines after x in its chain. */
  ghost function Newer(env: Env, s: Store, x: Entity): seq<Entity>
    requires CorrInv(env, s) && x.typ == TYPE_ENTRY
    decreases ENTITY_COUNT - Value(x)
  {
    match Replacement(env, s, x)
    case None => []
    case Some(y) =>
      ReplacementIsLine(env, s, x);
      [y] + Newer(env, s, y)
  }

  /** The lines before y in its chain, oldest first. */
  ghost function Older(env: Env, s: Store, y: Entity): seq<Entity>
    requires CorrInv(env, s) && y.typ == TYPE_ENTRY
    decreases Value(y)
  {
    match Replaced(s, y)
    case None => []
    case Some(x) =>
      ReplacedIsLine(env, s, y);
      Older(env, s, x) + [x]
  }

  ghost function ChainOf(env: Env, s: Store, x: Entity): seq<Entity>
    requires CorrInv(env, s) && x.typ == TYPE_ENTRY
  {
    Older(env, s, x) + [x] + Newer(env, s, x)
  }

  lemma NextSame(env: Env, s: Store, x: Entity, y: Entity)
    requires CorrInv(env, s) && x.typ == TYPE_ENTRY && y.typ == TYPE_ENTRY && Replacement(env, s, x) == Some(y)
    ensures ChainOf(env, s, x) == ChainOf(env, s, y)
  {
    TwoWays(env, s, x, y);
    assert Older(env, s, y) == Older(env, s, x) + [x];
    assert Newer(env, s, x) == [y] + Newer(env, s, y);
  }

  lemma {:induction false} NewerSame(env: Env, s: Store, x: Entity, z: Entity)
    requires CorrInv(env, s) && x.typ == TYPE_ENTRY && z in Newer(env, s, x)
    ensures z.typ == TYPE_ENTRY && Value(x) < Value(z) && ChainOf(env, s, z) == ChainOf(env, s, x)
    decreases ENTITY_COUNT - Value(x)
  {
    var y := Replacement(env, s, x).value;
    ReplacementIsLine(env, s, x);
    NextSame(env, s, x, y);
    if z != y { NewerSame(env, s, y, z); }
  }

  lemma {:induction false} OlderSame(env: Env, s: Store, y: Entity, z: Entity)
    requires CorrInv(env, s) && y.typ == TYPE_ENTRY && z in Older(env, s, y)
    ensures z.typ == TYPE_ENTRY && Value(z) < Value(y) && ChainOf(env, s, z) == ChainOf(env, s, y)
    decreases Value(y)
  {
    var x := Replaced(s, y).value;
    ReplacedIsLine(env, s, y);
    TwoWays(env, s, x, y);
    NextSame(env, s, x, y);
    if z != x { OlderSame(env, s, x, z); }
  }

  /** Chains do not meet: every member of a chain has that chain. */
  lemma OneChain(env: Env, s: Store, x: Entity, z: Entity)
    requires CorrInv(env, s) && x.typ == TYPE_ENTRY && z in ChainOf(env, s, x)
    ensures z.typ == TYPE_ENTRY && ChainOf(env, s, z) == ChainOf(env, s, x)
  {
    if z in Newer(env, s, x) {
      NewerSame(env, s, x, z);
    } else if z in Older(env, s, x) {
      OlderSame(env, s, x, z);
    }
  }

  predicate Rising(es: seq<Entity>) {
    forall i, j | 0 <= i < j < |es| :: Value(es[i]) < Value(es[j])
  }

  lemma {:induction false} NewerRises(env: Env, s: Store, x: Entity)
    requires CorrInv(env, s) && x.typ == TYPE_ENTRY
    ensures Rising([x] + Newer(env, s, x))
    decreases ENTITY_COUNT - Value(x)
  {
    if Replacement(env, s, x).Some? {
      var y := Replacement(env, s, x).value;
      ReplacementIsLine(env, s, x);
      NewerRises(env, s, y);
      RiseFrom(x, [y] + Newer(env, s, y));
    }
  }

  lemma RiseFrom(x: Entity, es: seq<Entity>)
    requires Rising(es) && es != [] && Value(x) < Value(es[0])
    ensures Rising([x] + es)
  {
    forall j | 0 <= j < |es|
      ensures Value(x) < Value(es[j])
    {
      assert j > 0 ==> Value(es[0]) < Value(es[j]);
    }
  }

  lemma {:induction false} OlderRises(env: Env, s: Store, y: Entity)
    requires CorrInv(env, s) && y.typ == TYPE_ENTRY
    ensures Rising(Older(env, s, y) + [y])
    decreases Value(y)
  {
    if Replaced(s, y).Some? {
      var x := Replaced(s, y).value;
      ReplacedIsLine(env, s, y);
      OlderRises(env, s, x);
      RiseTo(Older(env, s, x) + [x], y);
    }
  }

  lemma RiseTo(es: seq<Entity>, y: Entity)
    requires Rising(es) && es != [] && Value(es[|es| - 1]) < Value(y)
    ensures Rising(es + [y])
  {
    forall j | 0 <= j < |es|
      ensures Value(es[j]) < Value(y)
    {
      assert j < |es| - 1 ==> Value(es[j]) < Value(es[|es| - 1]);
    }
  }

  /** Nothing replaced the last of a chain. */
  lemma {:induction false} LastStands(env: Env, s: Store, x: Entity)
    requires CorrInv(env, s) && x.typ == TYPE_ENTRY
    ensures var last := ([x] + Newer(env, s, x))[|Newer(env, s, x)|];
            last.typ == TYPE_ENTRY && Replacement(env, s, last).None?
    decreases ENTITY_COUNT - Value(x)
  {
    if Replacement(env, s, x).Some? {
      var y := Replacement(env, s, x).value;
      ReplacementIsLine(env, s, x);
      LastStands(env, s, y);
      assert ([x] + Newer(env, s, x))[|Newer(env, s, x)|] == ([y] + Newer(env, s, y))[|Newer(env, s, y)|];
    }
  }
}
