/** The genealogy kept as relations of the book, and why it answers what the plain
    log of units answers. */
module Genealogy {
  import opened Common
  import opened Bytes
  import opened Entities
  import opened Records
  import opened Listings
  import opened Chain
  import opened Transactions
  import opened Sealing
  import opened Book
  import opened Acceptance
  import opened Preserve
  import opened Reach
  import opened Mirroring
  import opened Corrections
  import opened Dictionary
  import opened Caches
  import Marks
  import UnitLog
  import L = Lineage

  /** The relation says a was produced from b. */
  predicate Derives(s: Store, a: Entity, b: Entity) {
    b in Row(s, a) && Row(s, a)[b].kind == KIND_DERIVED_FROM
  }

  /** The same, read from the index. */
  predicate Feeds(s: Store, b: Entity, a: Entity) {
    a in Back(s, b) && Back(s, b)[a].kind == KIND_DERIVED_FROM
  }

  predicate Recorded(step: Step, a: Entity, b: Entity) {
    step.Derive? && a in step.edges && b in step.edges[a]
  }

  predicate RecordedIn(run: seq<Step>, a: Entity, b: Entity) {
    exists i :: 0 <= i < |run| && Recorded(run[i], a, b)
  }

  ghost predicate UnitsOnly(s: Store) {
    forall a, b | Derives(s, a, b) :: a.typ == TYPE_TERM && b.typ == TYPE_TERM
  }

  // One step.

  /** Neither writes a derivation nor lands on one. */
  ghost predicate Apart(p: Txn) {
    forall a, b | a in p.rel && b in p.rel[a] ::
      p.rel[a][b].fwd.kind != KIND_DERIVED_FROM && (a.typ != TYPE_TERM || b.typ != TYPE_TERM)
  }

  lemma OneApart(p: Txn, x: Entity, y: Entity, l: Link)
    requires p.rel == map[x := map[y := l]] && l.fwd.kind != KIND_DERIVED_FROM &&
             (x.typ != TYPE_TERM || y.typ != TYPE_TERM)
    ensures Apart(p)
  {
  }

  lemma RowApart(p: Txn, line: Entity, row: map<Entity, Link>)
    requires p.rel == map[line := row] && line.typ == TYPE_ENTRY
    requires forall b | b in row :: row[b].fwd.kind != KIND_DERIVED_FROM
    ensures Apart(p)
  {
  }

  lemma TwoRowsApart(p: Txn, line: Entity, row: map<Entity, Link>, x: Entity, y: Entity, l: Link)
    requires p.rel == map[line := row, x := map[y := l]] && line.typ == x.typ == TYPE_ENTRY &&
             l.fwd.kind != KIND_DERIVED_FROM
    requires forall b | b in row :: row[b].fwd.kind != KIND_DERIVED_FROM
    ensures Apart(p)
  {
  }

  lemma NewRowKinds(env: Env, s: Store, line: Entity, cells: seq<Cell>, prior: Option<Strike>, row: map<Entity, Link>)
    requires RowOk(env, s, line, cells, prior, row)
    ensures forall b | b in row :: row[b].fwd.kind != KIND_DERIVED_FROM
  {
    forall b | b in row
      ensures row[b].fwd.kind != KIND_DERIVED_FROM
    {
      if c :| c in cells && Target(c) == b {
        assert LinkOk(env, s, line, Target(c), row[Target(c)], CellKind(c));
      }
    }
  }

  lemma WriteApart(env: Env, step: Step)
    requires step.Write? && step.line.typ == TYPE_ENTRY && forall b | b in step.row ::
             step.row[b].fwd.kind != KIND_DERIVED_FROM
    requires step.prior.Some? ==>
             step.prior.value.line.typ == TYPE_ENTRY && step.prior.value.link.fwd.kind == KIND_SUPERSEDED
    ensures Apart(Plain(env, step))
  {
    if step.prior.None? {
      RowApart(Plain(env, step), step.line, step.row);
    } else {
      TwoRowsApart(Plain(env, step), step.line, step.row, step.prior.value.line, Marker(env), step.prior.value.link);
    }
  }

  lemma InternApart(env: Env, step: Step)
    requires step.Intern? && (step.termOf.Some? ==>
                              step.termOf.value.fwd.kind == KIND_TERM_OF && step.owner.typ == TYPE_FIELD)
    ensures Apart(Plain(env, step))
  {
    if step.termOf.Some? { OneApart(Plain(env, step), step.e, step.owner, step.termOf.value); }
  }

  lemma MarkApart(env: Env, s: Store, step: Step)
    requires Now(env, s, step) && (step.Void? || step.Countersign? || step.SignOff? || step.SetVocabulary?)
    ensures Apart(Plain(env, step))
  {
    match step
    case Void(x, _) => OneApart(Plain(env, step), x.line, Marker(env), x.link);
    case Countersign(line, actor, l, _) => OneApart(Plain(env, step), line, actor, l);
    case SignOff(page, _, l, _) => OneApart(Plain(env, step), PageEntity(env, page), Marker(env), l);
    case SetVocabulary(f, l, _) => OneApart(Plain(env, step), f, Marker(env), l);
  }

  lemma OtherApart(env: Env, s: Store, step: Step)
    requires Now(env, s, step) && !step.Derive?
    ensures Apart(Plain(env, step))
  {
    if step.Write? {
      NewRowKinds(env, s, step.line, step.cells, step.prior, step.row);
      WriteApart(env, step);
    } else if step.Intern? {
      InternApart(env, step);
    } else if step.Void? || step.Countersign? || step.SignOff? || step.SetVocabulary? {
      MarkApart(env, s, step);
    }
  }

  lemma ApartStep(env: Env, s: Store, t: Store, p: Txn, n: nat, seal: Option<Seal>, a: Entity, b: Entity)
    requires UnitsOnly(s) && Lands(env, s, t, p, n, seal) && Apart(p)
    requires seal.Some? ==> forall j | 0 <= j < |seal.value.links| :: seal.value.links[j].fwd.kind == KIND_CHAIN_LINK
    ensures Derives(t, a, b) <==> Derives(s, a, b)
  {
    if seal.Some? { ForwardRowKinds(n, seal.value.links); }
    assert a != Anchor(env) ==> Row(t, a) == Row(s, a) + Forward(p, a);
    assert Derives(s, a, b) ==> a.typ == TYPE_TERM && b.typ == TYPE_TERM;
  }

  lemma EdgeFacts(env: Env, s: Store, edges: map<Entity, map<Entity, Link>>, a: Entity, b: Entity)
    requires DeriveNow(env, s, edges) && a in edges && b in edges[a]
    ensures a.typ == TYPE_TERM && b.typ == TYPE_TERM && edges[a][b].fwd.kind == KIND_DERIVED_FROM
  {
    assert EdgeOk(env, s, a, b, edges[a][b]);
  }

  lemma DeriveStep(env: Env, s: Store, step: Step, a: Entity, b: Entity)
    requires step.Derive? && DeriveNow(env, s, step.edges)
    ensures Derives(Do(env, s, step), a, b) <==> Derives(s, a, b) || Recorded(step, a, b)
    ensures Recorded(step, a, b) ==> a.typ == TYPE_TERM && b.typ == TYPE_TERM
  {
    if Recorded(step, a, b) { EdgeFacts(env, s, step.edges, a, b); }
    EdgesLand(s, Plain(env, step), a, b);
  }

  lemma EdgesLand(s: Store, p: Txn, a: Entity, b: Entity)
    requires a in p.rel && b in p.rel[a] ==> p.rel[a][b].fwd.kind == KIND_DERIVED_FROM
    ensures Derives(Commit(s, p), a, b) <==> Derives(s, a, b) || (a in p.rel && b in p.rel[a])
  {
    RowAfter(s, p, a);
  }

  lemma StepDerives(env: Env, s: Store, step: Step, a: Entity, b: Entity)
    requires Now(env, s, step) && UnitsOnly(s)
    ensures Derives(Do(env, s, step), a, b) <==> Derives(s, a, b) || Recorded(step, a, b)
    ensures Recorded(step, a, b) ==> a.typ == TYPE_TERM && b.typ == TYPE_TERM
  {
    if step.Derive? {
      DeriveStep(env, s, step, a, b);
    } else {
      OtherStep(env, s, step, a, b);
    }
  }

  lemma OtherStep(env: Env, s: Store, step: Step, a: Entity, b: Entity)
    requires Now(env, s, step) && UnitsOnly(s) && !step.Derive?
    ensures Derives(Do(env, s, step), a, b) <==> Derives(s, a, b)
  {
    OtherApart(env, s, step);
    if Chains(step) {
      NowNumbered(env, s, step);
      DoChained(env, s, step);
      Marks.LinkKinds(env, s, step);
    } else {
      DoPlain(env, s, step);
    }
    ApartStep(env, s, Do(env, s, step), Plain(env, step), HeadCount(env, s), SealOf(step), a, b);
  }

  lemma StepUnits(env: Env, s: Store, step: Step)
    requires Now(env, s, step) && UnitsOnly(s)
    ensures UnitsOnly(Do(env, s, step))
  {
    forall a, b | Derives(Do(env, s, step), a, b)
      ensures a.typ == TYPE_TERM && b.typ == TYPE_TERM
    {
      StepDerives(env, s, step, a, b);
    }
  }

  // Whole runs.

  lemma FirstOrLater(run: seq<Step>, a: Entity, b: Entity)
    requires run != []
    ensures RecordedIn(run, a, b) <==> Recorded(run[0], a, b) || RecordedIn(run[1..], a, b)
  {
    if RecordedIn(run, a, b) {
      var i :| 0 <= i < |run| && Recorded(run[i], a, b);
      assert i > 0 ==> run[1..][i - 1] == run[i];
    }
    if RecordedIn(run[1..], a, b) {
      var i :| 0 <= i < |run[1..]| && Recorded(run[1..][i], a, b);
      assert run[i + 1] == run[1..][i];
    }
  }

  lemma {:induction false} RunDerives(env: Env, s: Store, run: seq<Step>, a: Entity, b: Entity)
    requires Legal(env, s, run) && UnitsOnly(s)
    ensures Derives(Exec(env, s, run), a, b) <==> Derives(s, a, b) || RecordedIn(run, a, b)
    decreases |run|
  {
    if run != [] {
      StepDerives(env, s, run[0], a, b);
      StepUnits(env, s, run[0]);
      RunDerives(env, Do(env, s, run[0]), run[1..], a, b);
      FirstOrLater(run, a, b);
    }
  }

  /** After any run the derivations in the store are the recorded ones, and the
      index holds the same pairs. */
  lemma ReachableDerives(env: Env, run: seq<Step>, a: Entity, b: Entity)
    requires Legal(env, Empty(), run)
    ensures Derives(Exec(env, Empty(), run), a, b) <==> RecordedIn(run, a, b)
    ensures Feeds(Exec(env, Empty(), run), b, a) <==> RecordedIn(run, a, b)
  {
    RunDerives(env, Empty(), run, a, b);
    ReachableMirrored(env, run);
    assert MirroredAt(Exec(env, Empty(), run), a, b);
  }

  // Tracing.

  /** What scanning the relations of a unit gives, in some order. */
  ghost predicate ReadsParents(g: L.Graph<Entity>, s: Store) {
    forall u, v :: v in g(u) <==> Derives(s, u, v)
  }

  ghost predicate ReadsChildren(g: L.Graph<Entity>, s: Store) {
    forall u, v :: v in g(u) <==> Feeds(s, u, v)
  }

  /** The other ends of the derivations in a listing. */
  function Derivations(rels: seq<(Entity, Record)>): seq<Entity> {
    if rels == [] then []
    else (if rels[0].1.kind == KIND_DERIVED_FROM then [rels[0].0] else []) + Derivations(rels[1..])
  }

  ghost function Parents(s: Store): L.Graph<Entity> { u => Derivations(Listing(Row(s, u), 1, ENTITY_COUNT)) }

  ghost function Children(s: Store): L.Graph<Entity> { u => Derivations(Listing(Back(s, u), 1, ENTITY_COUNT)) }

  lemma {:induction false} DerivationsAre(rels: seq<(Entity, Record)>, v: Entity)
    ensures v in Derivations(rels) <==> exists r: Record :: (v, r) in rels && r.kind == KIND_DERIVED_FROM
  {
    if rels != [] {
      DerivationsAre(rels[1..], v);
      assert rels == [rels[0]] + rels[1..];
      if v in Derivations(rels) && v !in Derivations(rels[1..]) { assert (v, rels[0].1) in rels; }
    }
  }

  lemma ListedDerivations(row: Relations, v: Entity)
    ensures v in Derivations(Listing(row, 1, ENTITY_COUNT))
            <==> v != ZERO && v in row && row[v].kind == KIND_DERIVED_FROM
  {
    var rels := Listing(row, 1, ENTITY_COUNT);
    DerivationsAre(rels, v);
    LastValue(v);
    ZeroValue(v);
    forall r: Record
      ensures (v, r) in rels <==> v != ZERO && v in row && row[v] == r
    {
      ListingMembers(row, 1, ENTITY_COUNT, v, r);
    }
  }

  /** Listing a row and keeping the derivations reads them all. */
  lemma {:induction false} ListingReads(env: Env, run: seq<Step>)
    requires Legal(env, Empty(), run)
    ensures ReadsParents(Parents(Exec(env, Empty(), run)), Exec(env, Empty(), run))
    ensures ReadsChildren(Children(Exec(env, Empty(), run)), Exec(env, Empty(), run))
  {
    var s := Exec(env, Empty(), run);
    forall u, v
      ensures v in Parents(s)(u) <==> Derives(s, u, v)
      ensures v in Children(s)(u) <==> Feeds(s, u, v)
    {
      ListedDerivations(Row(s, u), v);
      ListedDerivations(Back(s, u), v);
      ReachableDerives(env, run, u, v);
      ReachableDerives(env, run, v, u);
      RecordedUnits(env, Empty(), run, u, v);
      RecordedUnits(env, Empty(), run, v, u);
    }
  }

  lemma {:induction false} RecordedUnits(env: Env, s: Store, run: seq<Step>, a: Entity, b: Entity)
    requires Legal(env, s, run)
    ensures RecordedIn(run, a, b) ==> a.typ == TYPE_TERM && b.typ == TYPE_TERM
    decreases |run|
  {
    if run != [] {
      if Recorded(run[0], a, b) { EdgeFacts(env, s, run[0].edges, a, b); }
      RecordedUnits(env, Do(env, s, run[0]), run[1..], a, b);
      FirstOrLater(run, a, b);
    }
  }

  /** One unit is an ancestor of another exactly when the other is its descendant,
      at every depth. */
  lemma AncestorsAreConverse(env: Env, run: seq<Step>, up: L.Graph<Entity>, down: L.Graph<Entity>, x: Entity,
                             y: Entity, k: nat)
    requires Legal(env, Empty(), run)
    requires ReadsParents(up, Exec(env, Empty(), run)) && ReadsChildren(down, Exec(env, Empty(), run))
    ensures x in L.Within(up, y, k) <==> y in L.Within(down, x, k)
  {
    forall u, v
      ensures v in up(u) <==> u in down(v)
    {
      ReachableDerives(env, run, u, v);
    }
    L.Duality(up, down, y, x, k);
  }

  // Two genealogies of the same executions.

  predicate MadeIn(calls: seq<UnitLog.Call>, output: UnitLog.Id, input: UnitLog.Id) {
    exists i :: 0 <= i < |calls| && UnitLog.Made(calls[i], output, input)
  }

  /** The log after recording each execution in turn. */
  ghost predicate Logged(calls: seq<UnitLog.Call>, logs: seq<seq<UnitLog.Entry>>) {
    && |logs| == |calls| + 1 && logs[0] == []
    && forall i | 0 <= i < |calls| :: UnitLog.Relates(logs[i], logs[i + 1], calls[i])
  }

  lemma {:induction false} LogDerives(calls: seq<UnitLog.Call>, logs: seq<seq<UnitLog.Entry>>, n: nat, u: UnitLog.Id,
                                      v: UnitLog.Id)
    requires Logged(calls, logs) && n <= |calls|
    ensures v in UnitLog.Related(logs[n], u, UnitLog.Output) <==> MadeIn(calls[..n], u, v)
    ensures u in UnitLog.Related(logs[n], v, UnitLog.Input) <==> MadeIn(calls[..n], u, v)
    decreases n
  {
    if n > 0 {
      LogDerives(calls, logs, n - 1, u, v);
      assert UnitLog.Relates(logs[n - 1], logs[n - 1 + 1], calls[n - 1]);
      OneMoreCall(calls, n, u, v);
    }
  }

  lemma OneMoreCall(calls: seq<UnitLog.Call>, n: nat, u: UnitLog.Id, v: UnitLog.Id)
    requires 0 < n <= |calls|
    ensures MadeIn(calls[..n], u, v) <==> MadeIn(calls[..n - 1], u, v) || UnitLog.Made(calls[n - 1], u, v)
  {
    if MadeIn(calls[..n], u, v) {
      var i :| 0 <= i < n && UnitLog.Made(calls[..n][i], u, v);
      assert i < n - 1 ==> calls[..n - 1][i] == calls[..n][i];
    }
    if MadeIn(calls[..n - 1], u, v) {
      var i :| 0 <= i < n - 1 && UnitLog.Made(calls[..n - 1][i], u, v);
      assert calls[..n][i] == calls[..n - 1][i];
    }
    assert calls[..n][n - 1] == calls[n - 1];
  }

  // Units and the ids they hold.

  function NameIn(s: Store): Entity -> Text { e => if e in s.decl then s.decl[e].name else [] }

  function UnitsOf(s: Store, column: Entity): set<Entity> {
    set e | e in s.decl && e.typ == TYPE_TERM && TermOf(s, e, column)
  }

  ghost predicate Held(s: Store, column: Entity, id: UnitLog.Id) {
    exists e :: IsTerm(s, e, column, id)
  }

  ghost predicate AllHeld(s: Store, column: Entity, c: UnitLog.Call) {
    forall id | id in c.inputs + c.outputs :: Held(s, column, id)
  }

  type Pairs = (UnitLog.Id, UnitLog.Id) -> bool

  /** Two units that hold ids of a pair. */
  ghost predicate Paired(s: Store, column: Entity, made: Pairs, a: Entity, b: Entity) {
    exists u, v :: made(u, v) && IsTerm(s, a, column, u) && IsTerm(s, b, column, v)
  }

  lemma OneHolder(env: Env, s: Store, column: Entity, a: Entity, b: Entity, id: UnitLog.Id)
    requires DictInv(env, s) && IsTerm(s, a, column, id) && IsTerm(s, b, column, id)
    ensures a == b
  {
    TextsDiffer(env, s, a, b, column);
  }

  lemma UnitsDiffer(env: Env, s: Store, column: Entity)
    requires DictInv(env, s)
    ensures L.Different(NameIn(s), UnitsOf(s, column))
  {
    forall a, b | a in UnitsOf(s, column) && b in UnitsOf(s, column) && NameIn(s)(a) == NameIn(s)(b)
      ensures a == b
    {
      OneHolder(env, s, column, a, b, s.decl[a].name);
    }
  }

  /** A graph of ids whose edges are held by units is the graph of the units. */
  lemma SameUnits(env: Env, s: Store, column: Entity, made: Pairs, g: L.Graph<Entity>, h: L.Graph<UnitLog.Id>)
    requires DictInv(env, s) && forall u, v | made(u, v) :: Held(s, column, v)
    requires forall a, b :: b in g(a) <==> Paired(s, column, made, a, b)
    requires forall u, v :: v in h(u) <==> made(u, v)
    ensures L.SameGraph(UnitsOf(s, column), NameIn(s), g, h)
  {
    UnitsDiffer(env, s, column);
    forall a | a in UnitsOf(s, column)
      ensures Elements(g(a)) <= UnitsOf(s, column)
      ensures Elements(h(NameIn(s)(a))) == L.Image(NameIn(s), Elements(g(a)))
    {
      SameNeighbours(env, s, column, made, g, h, a);
    }
  }

  lemma SameNeighbours(env: Env, s: Store, column: Entity, made: Pairs, g: L.Graph<Entity>, h: L.Graph<UnitLog.Id>,
                       a: Entity)
    requires DictInv(env, s) && (forall u, v | made(u, v) :: Held(s, column, v)) && a in UnitsOf(s, column)
    requires forall b :: b in g(a) <==> Paired(s, column, made, a, b)
    requires forall v :: v in h(NameIn(s)(a)) <==> made(NameIn(s)(a), v)
    ensures Elements(g(a)) <= UnitsOf(s, column)
    ensures Elements(h(NameIn(s)(a))) == L.Image(NameIn(s), Elements(g(a)))
  {
    var id := NameIn(s)(a);
    forall b | b in g(a)
      ensures b in UnitsOf(s, column) && NameIn(s)(b) in h(id)
    {
      var u, v :| made(u, v) && IsTerm(s, a, column, u) && IsTerm(s, b, column, v);
    }
    forall v | v in h(id)
      ensures v in L.Image(NameIn(s), Elements(g(a)))
    {
      assert made(id, v);
      var b :| IsTerm(s, b, column, v);
      assert Paired(s, column, made, a, b);
    }
  }

  // A run and the executions it records.

  function Outward(calls: seq<UnitLog.Call>): Pairs { (u, v) => MadeIn(calls, u, v) }

  function Inward(calls: seq<UnitLog.Call>): Pairs { (u, v) => MadeIn(calls, v, u) }

  function OfCall(c: UnitLog.Call): Pairs { (u, v) => UnitLog.Made(c, u, v) }

  /** The step writes the pairs of the execution, its units being declared. */
  ghost predicate RecordsCall(s: Store, column: Entity, step: Step, c: UnitLog.Call) {
    && step.Derive? && AllHeld(s, column, c)
    && forall a, b :: Recorded(step, a, b) <==> Paired(s, column, OfCall(c), a, b)
  }

  /** Any other step that renames no unit. */
  predicate Beside(s: Store, column: Entity, step: Step) {
    !step.Derive? && !(step.Rename? && TermOf(s, step.e, column))
  }

  ghost predicate Marked(s: Store, column: Entity, step: Step, c: Option<UnitLog.Call>) {
    if c.Some? then RecordsCall(s, column, step, c.value) else Beside(s, column, step)
  }

  /** Each step records an execution, or is beside the genealogy. */
  ghost predicate Follows(env: Env, s: Store, column: Entity, run: seq<Step>, calls: seq<Option<UnitLog.Call>>)
    decreases |run|
  {
    |calls| == |run| &&
    (run == [] || (&& Now(env, s, run[0]) && Marked(s, column, run[0], calls[0])
                   && Follows(env, Do(env, s, run[0]), column, run[1..], calls[1..])))
  }

  /** The executions that were recorded, in order. */
  function Executions(calls: seq<Option<UnitLog.Call>>): seq<UnitLog.Call> {
    if calls == [] then []
    else (if calls[0].Some? then [calls[0].value] else []) + Executions(calls[1..])
  }

  lemma {:induction false} FollowsIsLegal(env: Env, s: Store, column: Entity, run: seq<Step>,
                                          calls: seq<Option<UnitLog.Call>>)
    requires Follows(env, s, column, run, calls)
    ensures Legal(env, s, run)
    decreases |run|
  {
    if run != [] { FollowsIsLegal(env, Do(env, s, run[0]), column, run[1..], calls[1..]); }
  }

  /** A unit keeps its id. */
  lemma UnitStep(env: Env, s: Store, es: seq<Event>, column: Entity, step: Step, e: Entity, id: UnitLog.Id)
    requires BookInv(env, s, es) && DictInv(env, s) && Now(env, s, step) && IsTerm(s, e, column, id)
    requires step.Derive? || Beside(s, column, step)
    ensures IsTerm(Do(env, s, step), e, column, id)
  {
    TermStaysTerm(env, s, es, step, e, column, id);
  }

  lemma {:induction false} DictOn(env: Env, s: Store, es: seq<Event>, step: Step) returns (es': seq<Event>)
    requires BookInv(env, s, es) && DictInv(env, s) && Now(env, s, step)
    ensures BookInv(env, Do(env, s, step), es') && DictInv(env, Do(env, s, step))
  {
    StepKept(env, s, es, step);
    StepDict(env, s, es, step);
    es' := EventsAfter(env, s, es, step);
  }

  lemma {:induction false} UnitStays(env: Env, s: Store, es: seq<Event>, column: Entity, run: seq<Step>,
                                     calls: seq<Option<UnitLog.Call>>, e: Entity, id: UnitLog.Id)
    requires BookInv(env, s, es) && DictInv(env, s) && Follows(env, s, column, run, calls) && IsTerm(s, e, column, id)
    ensures IsTerm(Exec(env, s, run), e, column, id)
    decreases |run|
  {
    if run != [] {
      UnitStep(env, s, es, column, run[0], e, id);
      var es' := DictOn(env, s, es, run[0]);
      UnitStays(env, Do(env, s, run[0]), es', column, run[1..], calls[1..], e, id);
    }
  }

  lemma {:induction false} HeldStays(env: Env, s: Store, es: seq<Event>, column: Entity, run: seq<Step>,
                                     calls: seq<Option<UnitLog.Call>>, c: UnitLog.Call)
    requires BookInv(env, s, es) && DictInv(env, s) && Follows(env, s, column, run, calls) && AllHeld(s, column, c)
    ensures AllHeld(Exec(env, s, run), column, c)
  {
    forall id | id in c.inputs + c.outputs
      ensures Held(Exec(env, s, run), column, id)
    {
      var e :| IsTerm(s, e, column, id);
      UnitStays(env, s, es, column, run, calls, e, id);
    }
  }

  /** The pairs of an execution are held by the same units later on. */
  lemma {:induction false} PairStays(env: Env, s: Store, es: seq<Event>, column: Entity, run: seq<Step>,
                                     calls: seq<Option<UnitLog.Call>>, c: UnitLog.Call, a: Entity, b: Entity)
    requires BookInv(env, s, es) && DictInv(env, s) && Follows(env, s, column, run, calls) && AllHeld(s, column, c)
    requires DictInv(env, Exec(env, s, run))
    ensures Paired(s, column, OfCall(c), a, b) <==> Paired(Exec(env, s, run), column, OfCall(c), a, b)
  {
    var t := Exec(env, s, run);
    if Paired(s, column, OfCall(c), a, b) {
      var u, v :| UnitLog.Made(c, u, v) && IsTerm(s, a, column, u) && IsTerm(s, b, column, v);
      UnitStays(env, s, es, column, run, calls, a, u);
      UnitStays(env, s, es, column, run, calls, b, v);
      assert OfCall(c)(u, v);
    }
    if Paired(t, column, OfCall(c), a, b) {
      var u, v :| UnitLog.Made(c, u, v) && IsTerm(t, a, column, u) && IsTerm(t, b, column, v);
      assert Held(s, column, u) && Held(s, column, v);
      var x :| IsTerm(s, x, column, u);
      var y :| IsTerm(s, y, column, v);
      UnitStays(env, s, es, column, run, calls, x, u);
      UnitStays(env, s, es, column, run, calls, y, v);
      OneHolder(env, t, column, a, x, u);
      OneHolder(env, t, column, b, y, v);
      assert OfCall(c)(u, v);
    }
  }

  /** The run recorded these pairs, each unit still holding its id. */
  ghost predicate SameExecutions(s: Store, column: Entity, run: seq<Step>, calls: seq<UnitLog.Call>) {
    && (forall c | c in calls :: AllHeld(s, column, c))
    && forall a, b :: RecordedIn(run, a, b) <==> Paired(s, column, Outward(calls), a, b)
  }

  lemma FirstMade(c: UnitLog.Call, rest: seq<UnitLog.Call>, u: UnitLog.Id, v: UnitLog.Id)
    ensures MadeIn([c] + rest, u, v) <==> UnitLog.Made(c, u, v) || MadeIn(rest, u, v)
  {
    var calls := [c] + rest;
    if MadeIn(calls, u, v) {
      var i :| 0 <= i < |calls| && UnitLog.Made(calls[i], u, v);
      assert i > 0 ==> rest[i - 1] == calls[i];
    }
    if MadeIn(rest, u, v) {
      var i :| 0 <= i < |rest| && UnitLog.Made(rest[i], u, v);
      assert calls[i + 1] == rest[i];
    }
    assert calls[0] == c;
  }

  lemma FirstPaired(s: Store, column: Entity, c: UnitLog.Call, rest: seq<UnitLog.Call>, a: Entity, b: Entity)
    ensures Paired(s, column, Outward([c] + rest), a, b)
            <==> Paired(s, column, OfCall(c), a, b) || Paired(s, column, Outward(rest), a, b)
  {
    forall u, v
      ensures Outward([c] + rest)(u, v) <==> OfCall(c)(u, v) || Outward(rest)(u, v)
    {
      FirstMade(c, rest, u, v);
    }
  }

  lemma {:induction false} FirstSame(env: Env, s: Store, es: seq<Event>, column: Entity, run: seq<Step>,
                                     calls: seq<Option<UnitLog.Call>>, c: UnitLog.Call, step: Step)
    requires BookInv(env, s, es) && DictInv(env, s) && RecordsCall(s, column, step, c) && Now(env, s, step)
    requires Follows(env, Do(env, s, step), column, run, calls) && DictInv(env, Exec(env, s, [step] + run))
    requires SameExecutions(Exec(env, s, [step] + run), column, run, Executions(calls))
    ensures SameExecutions(Exec(env, s, [step] + run), column, [step] + run, [c] + Executions(calls))
  {
    var t, all := Exec(env, s, [step] + run), [step] + run;
    assert all[1..] == run;
    var marks := [Some(c)] + calls;
    assert marks[1..] == calls && Follows(env, s, column, all, marks);
    HeldStays(env, s, es, column, all, marks, c);
    forall a, b
      ensures RecordedIn(all, a, b) <==> Paired(t, column, Outward([c] + Executions(calls)), a, b)
    {
      FirstOrLater(all, a, b);
      PairStays(env, s, es, column, all, marks, c, a, b);
      FirstPaired(t, column, c, Executions(calls), a, b);
    }
  }

  lemma NothingPaired(s: Store, column: Entity, run: seq<Step>)
    requires run == []
    ensures SameExecutions(s, column, run, [])
  {
  }

  lemma {:induction false} BesideSame(s: Store, column: Entity, run: seq<Step>, calls: seq<UnitLog.Call>)
    requires run != [] && !run[0].Derive? && SameExecutions(s, column, run[1..], calls)
    ensures SameExecutions(s, column, run, calls)
  {
    forall a, b
      ensures RecordedIn(run, a, b) <==> RecordedIn(run[1..], a, b)
    {
      FirstOrLater(run, a, b);
    }
  }

  lemma {:induction false} FollowsOne(env: Env, s: Store, es: seq<Event>, column: Entity, run: seq<Step>,
                                      calls: seq<Option<UnitLog.Call>>)
    requires BookInv(env, s, es) && DictInv(env, s) && Follows(env, s, column, run, calls) && run != []
    requires SameExecutions(Exec(env, s, run), column, run[1..], Executions(calls[1..]))
    requires DictInv(env, Exec(env, s, run))
    ensures SameExecutions(Exec(env, s, run), column, run, Executions(calls))
  {
    if calls[0].Some? {
      assert run == [run[0]] + run[1..];
      FirstSame(env, s, es, column, run[1..], calls[1..], calls[0].value, run[0]);
    } else {
      BesideSame(Exec(env, s, run), column, run, Executions(calls[1..]));
      assert [] + Executions(calls[1..]) == Executions(calls[1..]);
    }
  }

  /** However the executions were interleaved with other steps, what the run recorded is
      theirs. */
  lemma {:induction false} FollowsSame(env: Env, s: Store, es: seq<Event>, column: Entity, run: seq<Step>,
                                       calls: seq<Option<UnitLog.Call>>)
    requires BookInv(env, s, es) && DictInv(env, s) && Follows(env, s, column, run, calls)
    ensures SameExecutions(Exec(env, s, run), column, run, Executions(calls)) && DictInv(env, Exec(env, s, run))
    decreases |run|
  {
    if run == [] {
      NothingPaired(s, column, run);
    } else {
      var es' := DictOn(env, s, es, run[0]);
      FollowsSame(env, Do(env, s, run[0]), es', column, run[1..], calls[1..]);
      FollowsOne(env, s, es, column, run, calls);
    }
  }

  lemma {:induction false} RunSame(env: Env, column: Entity, run: seq<Step>, calls: seq<Option<UnitLog.Call>>)
    requires Follows(env, Empty(), column, run, calls)
    ensures Legal(env, Empty(), run) && DictInv(env, Exec(env, Empty(), run))
    ensures SameExecutions(Exec(env, Empty(), run), column, run, Executions(calls))
  {
    EmptyInv(env);
    EmptyDict(env);
    FollowsIsLegal(env, Empty(), column, run, calls);
    FollowsSame(env, Empty(), [], column, run, calls);
  }

  lemma MadeAreHeld(s: Store, column: Entity, calls: seq<UnitLog.Call>, u: UnitLog.Id, v: UnitLog.Id)
    requires (forall c | c in calls :: AllHeld(s, column, c)) && MadeIn(calls, u, v)
    ensures Held(s, column, u) && Held(s, column, v)
  {
    var i :| 0 <= i < |calls| && UnitLog.Made(calls[i], u, v);
    assert calls[i] in calls;
    assert u in calls[i].inputs + calls[i].outputs && v in calls[i].inputs + calls[i].outputs;
  }

  lemma TurnedPair(s: Store, column: Entity, calls: seq<UnitLog.Call>, a: Entity, b: Entity)
    ensures Paired(s, column, Inward(calls), a, b) <==> Paired(s, column, Outward(calls), b, a)
  {
    if Paired(s, column, Inward(calls), a, b) {
      var u, v :| MadeIn(calls, v, u) && IsTerm(s, a, column, u) && IsTerm(s, b, column, v);
      assert Outward(calls)(v, u);
    }
    if Paired(s, column, Outward(calls), b, a) {
      var v, u :| MadeIn(calls, v, u) && IsTerm(s, b, column, v) && IsTerm(s, a, column, u);
      assert Inward(calls)(u, v);
    }
  }

  /** The ancestors the book finds, as texts, are an answer of the log of units: the same
      units, nearest first, each once, at every depth. */
  lemma {:induction false} SameAncestors(env: Env, column: Entity, run: seq<Step>, calls: seq<Option<UnitLog.Call>>,
                                         logs: seq<seq<UnitLog.Entry>>, up: L.Graph<Entity>, e: Entity, depth: nat,
                                         result: seq<Entity>)
    requires Follows(env, Empty(), column, run, calls) && Logged(Executions(calls), logs)
    requires ReadsParents(up, Exec(env, Empty(), run)) && e in UnitsOf(Exec(env, Empty(), run), column)
    requires L.IsTrace(up, e, depth, result)
    ensures var s := Exec(env, Empty(), run);
            L.IsTrace(UnitLog.Sources(logs[|logs| - 1]), s.decl[e].name, depth, L.Mapped(NameIn(s), result))
  {
    var s, made, n := Exec(env, Empty(), run), Executions(calls), |Executions(calls)|;
    var h := UnitLog.Sources(logs[n]);
    RunSame(env, column, run, calls);
    assert made[..n] == made;
    forall u, v
      ensures v in h(u) <==> Outward(made)(u, v)
      ensures Outward(made)(u, v) ==> Held(s, column, v)
    {
      LogDerives(made, logs, n, u, v);
      if MadeIn(made, u, v) { MadeAreHeld(s, column, made, u, v); }
    }
    forall a, b
      ensures b in up(a) <==> Paired(s, column, Outward(made), a, b)
    {
      ReachableDerives(env, run, a, b);
    }
    SameUnits(env, s, column, Outward(made), up, h);
    L.SameTrace(UnitsOf(s, column), NameIn(s), up, h, e, depth, result);
  }

  /** And so are the descendants. */
  lemma {:induction false} SameDescendants(env: Env, column: Entity, run: seq<Step>, calls: seq<Option<UnitLog.Call>>,
                                           logs: seq<seq<UnitLog.Entry>>, down: L.Graph<Entity>, e: Entity, depth: nat,
                                           result: seq<Entity>)
    requires Follows(env, Empty(), column, run, calls) && Logged(Executions(calls), logs)
    requires ReadsChildren(down, Exec(env, Empty(), run)) && e in UnitsOf(Exec(env, Empty(), run), column)
    requires L.IsTrace(down, e, depth, result)
    ensures var s := Exec(env, Empty(), run);
            L.IsTrace(UnitLog.Consumers(logs[|logs| - 1]), s.decl[e].name, depth, L.Mapped(NameIn(s), result))
  {
    var s, made, n := Exec(env, Empty(), run), Executions(calls), |Executions(calls)|;
    var h := UnitLog.Consumers(logs[n]);
    RunSame(env, column, run, calls);
    assert made[..n] == made;
    forall u, v
      ensures v in h(u) <==> Inward(made)(u, v)
      ensures Inward(made)(u, v) ==> Held(s, column, v)
    {
      LogDerives(made, logs, n, v, u);
      if MadeIn(made, v, u) { MadeAreHeld(s, column, made, v, u); }
    }
    forall a, b
      ensures b in down(a) <==> Paired(s, column, Inward(made), a, b)
    {
      ReachableDerives(env, run, b, a);
      TurnedPair(s, column, made, a, b);
    }
    SameUnits(env, s, column, Inward(made), down, h);
    L.SameTrace(UnitsOf(s, column), NameIn(s), down, h, e, depth, result);
  }

  // Where they differ.

  lemma {:induction false} NeverFromItself(env: Env, s: Store, run: seq<Step>, a: Entity)
    requires Legal(env, s, run)
    ensures !RecordedIn(run, a, a)
    decreases |run|
  {
    if run != [] {
      assert Recorded(run[0], a, a) ==> EdgeOk(env, s, a, a, run[0].edges[a][a]);
      NeverFromItself(env, Do(env, s, run[0]), run[1..], a);
      FirstOrLater(run, a, a);
    }
  }
}
