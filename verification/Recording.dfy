/** What an execution needs to be recorded as relations of the book, and which of the two
    genealogies accepts which. */
module Recording {
  import opened Common
  import opened Bytes
  import opened Entities
  import opened Records
  import opened Chain
  import opened Transactions
  import opened Sealing
  import opened Book
  import opened Dictionary
  import opened Caches
  import opened Builder
  import opened Progress
  import opened Genealogy
  import UnitLog

  // One edge for each pair.

  type Edges = map<Entity, map<Entity, Link>>

  predicate Linked(edges: Edges, a: Entity, b: Entity) { a in edges && b in edges[a] }

  /** The relation that a was produced from b, naming the execution. */
  function EdgeLink(pen: Pen, instance: Entity, a: Entity, b: Entity): Link {
    var data := EntityBytes(instance);
    Link(pen(RelKey(a, b), KIND_DERIVED_FROM, data), pen(IndexKey(a, b), KIND_DERIVED_FROM, data))
  }

  ghost predicate Drawn(edges: Edges, pen: Pen, instance: Entity) {
    && (forall a | a in edges :: edges[a] != map[])
    && forall a, b | Linked(edges, a, b) :: edges[a][b] == EdgeLink(pen, instance, a, b)
  }

  function WithEdge(edges: Edges, a: Entity, b: Entity, l: Link): Edges {
    edges[a := (if a in edges then edges[a] else map[])[b := l]]
  }

  lemma DrawnMore(edges: Edges, pen: Pen, instance: Entity, a: Entity, b: Entity)
    requires Drawn(edges, pen, instance)
    ensures var more := WithEdge(edges, a, b, EdgeLink(pen, instance, a, b));
            && Drawn(more, pen, instance)
            && forall x, y :: Linked(more, x, y) <==> Linked(edges, x, y) || (x == a && y == b)
  {
    var l := EdgeLink(pen, instance, a, b);
    var more := WithEdge(edges, a, b, l);
    assert b in more[a];
    forall x, y
      ensures Linked(more, x, y) <==> Linked(edges, x, y) || (x == a && y == b)
      ensures Linked(more, x, y) ==> more[x][y] == if x == a && y == b then l else edges[x][y]
    {
    }
  }

  /** The edges of an output, unless it is an input too. */
  method LinkOutput(pen: Pen, instance: Entity, edges: Edges, output: Entity, inputs: seq<Entity>)
    returns (r: Option<Edges>)
    requires Drawn(edges, pen, instance)
    ensures r.None? <==> output in inputs
    ensures r.Some? ==> Drawn(r.value, pen, instance)
    ensures r.Some? ==> forall a, b :: Linked(r.value, a, b) <==> Linked(edges, a, b) || (a == output && b in inputs)
  {
    var more := edges;
    for i := 0 to |inputs|
      invariant output !in inputs[..i] && Drawn(more, pen, instance)
      invariant forall a, b :: Linked(more, a, b) <==> Linked(edges, a, b) || (a == output && b in inputs[..i])
    {
      if inputs[i] == output { return None; }
      DrawnMore(more, pen, instance, output, inputs[i]);
      assert inputs[..i + 1] == inputs[..i] + [inputs[i]];
      more := WithEdge(more, output, inputs[i], EdgeLink(pen, instance, output, inputs[i]));
    }
    assert inputs[..|inputs|] == inputs;
    return Some(more);
  }

  /** Every output is linked to every input; nothing is, if a unit is both. */
  method LinkUnits(pen: Pen, instance: Entity, outputs: seq<Entity>, inputs: seq<Entity>) returns (r: Option<Edges>)
    ensures r.None? <==> exists e :: e in outputs && e in inputs
    ensures r.Some? ==> Drawn(r.value, pen, instance)
    ensures r.Some? ==> forall a, b :: Linked(r.value, a, b) <==> a in outputs && b in inputs
  {
    var edges: Edges := map[];
    for i := 0 to |outputs|
      invariant (forall e | e in outputs[..i] :: e !in inputs) && Drawn(edges, pen, instance)
      invariant forall a, b :: Linked(edges, a, b) <==> a in outputs[..i] && b in inputs
    {
      var more := LinkOutput(pen, instance, edges, outputs[i], inputs);
      if more.None? {
        assert outputs[i] in outputs;
        return None;
      }
      assert outputs[..i + 1] == outputs[..i] + [outputs[i]];
      edges := more.value;
    }
    assert outputs[..|outputs|] == outputs;
    return Some(edges);
  }

  /** The edges a transaction may hold. */
  lemma DrawnNow(env: Env, s: Store, actor: Entity, pen: Pen, instance: Entity, edges: Edges)
    requires Signs(env, s, actor, pen) && Drawn(edges, pen, instance)
    requires forall a, b | Linked(edges, a, b) :: a.typ == b.typ == TYPE_TERM && a in s.decl && b in s.decl && a != b
    ensures DeriveNow(env, s, edges)
  {
    forall a, b | Linked(edges, a, b)
      ensures EdgeOk(env, s, a, b, edges[a][b])
    {
      DrawnLink(env, s, actor, pen, instance, a, b);
    }
  }

  lemma DrawnLink(env: Env, s: Store, actor: Entity, pen: Pen, instance: Entity, a: Entity, b: Entity)
    requires Signs(env, s, actor, pen) && a.typ == b.typ == TYPE_TERM && a in s.decl && b in s.decl && a != b
    ensures EdgeOk(env, s, a, b, EdgeLink(pen, instance, a, b))
  {
    var l, data := EdgeLink(pen, instance, a, b), EntityBytes(instance);
    assert SignedBy(env, s, actor, RelKey(a, b), KIND_DERIVED_FROM, data, l.fwd);
    assert SignedBy(env, s, actor, IndexKey(a, b), KIND_DERIVED_FROM, data, l.rev);
  }

  // Somebody who can sign has a pen.

  ghost function SignedRecord(env: Env, s: Store, actor: Entity, key: Key, kind: byte, data: seq<byte>): (r: Record)
    requires Signer(env, s, actor) && |data| <= MAX_FIELD_LEN
    ensures SignedBy(env, s, actor, key, kind, data, r)
  {
    var blank := Record(kind, actor, 0, [], data, []);
    assert CanSign(env, s.decl[actor].data, SignedPayload(key, Unsigned(blank)));
    var sig :| Accepted(env, s.decl[actor].data, SignedPayload(key, Unsigned(blank)), sig);
    blank.(sig := sig)
  }

  ghost function PenOf(env: Env, s: Store, actor: Entity): (pen: Pen)
    requires Signer(env, s, actor)
    ensures Signs(env, s, actor, pen)
  {
    (key, kind, data) =>
      if |data| <= MAX_FIELD_LEN then SignedRecord(env, s, actor, key, kind, data)
      else Record(kind, actor, 0, [], [], [])
  }

  function EdgesOf(pen: Pen, instance: Entity, outputs: set<Entity>, inputs: set<Entity>): Edges {
    map a | a in outputs && inputs != {} :: map b | b in inputs :: EdgeLink(pen, instance, a, b)
  }

  lemma EdgesOfPairs(pen: Pen, instance: Entity, outputs: set<Entity>, inputs: set<Entity>)
    ensures Drawn(EdgesOf(pen, instance, outputs, inputs), pen, instance)
    ensures forall a, b :: Linked(EdgesOf(pen, instance, outputs, inputs), a, b) <==> a in outputs && b in inputs
  {
    var edges := EdgesOf(pen, instance, outputs, inputs);
    forall a | a in edges
      ensures edges[a] != map[]
    {
      var b :| b in inputs;
      assert b in edges[a];
    }
  }

  // Which executions can be recorded.

  /** The units that hold some ids. */
  function Holders(s: Store, column: Entity, ids: seq<UnitLog.Id>): set<Entity> {
    set e | e in UnitsOf(s, column) && s.decl[e].name in ids
  }

  predicate OnBothSides(c: UnitLog.Call) { exists id :: id in c.inputs && id in c.outputs }

  /** The step records the execution, and each of its relations names the instance. */
  ghost predicate RecordsAs(s: Store, column: Entity, step: Step, c: UnitLog.Call, instance: Entity) {
    && RecordsCall(s, column, step, c)
    && forall a, b | Recorded(step, a, b) :: step.edges[a][b].fwd.data == EntityBytes(instance)
  }

  lemma HoldersPaired(s: Store, column: Entity, c: UnitLog.Call, a: Entity, b: Entity)
    ensures Paired(s, column, OfCall(c), a, b) <==>
            a in Holders(s, column, c.outputs) && b in Holders(s, column, c.inputs)
  {
    if a in Holders(s, column, c.outputs) && b in Holders(s, column, c.inputs) {
      assert OfCall(c)(s.decl[a].name, s.decl[b].name);
      assert IsTerm(s, a, column, s.decl[a].name) && IsTerm(s, b, column, s.decl[b].name);
    }
    if Paired(s, column, OfCall(c), a, b) {
      var u, v :| OfCall(c)(u, v) && IsTerm(s, a, column, u) && IsTerm(s, b, column, v);
    }
  }

  lemma RecordStep(env: Env, s: Store, actor: Entity, column: Entity, instance: Entity, c: UnitLog.Call)
    returns (step: Step)
    requires Signer(env, s, actor) && AllHeld(s, column, c) && !OnBothSides(c)
    ensures RecordsAs(s, column, step, c, instance) && Now(env, s, step)
  {
    var pen := PenOf(env, s, actor);
    var outputs, inputs := Holders(s, column, c.outputs), Holders(s, column, c.inputs);
    var edges := EdgesOf(pen, instance, outputs, inputs);
    EdgesOfPairs(pen, instance, outputs, inputs);
    LinkedRecords(env, s, actor, pen, column, instance, c, edges);
    step := Derive(edges);
  }

  lemma DrawnData(env: Env, s: Store, actor: Entity, pen: Pen, instance: Entity, a: Entity, b: Entity)
    requires Signs(env, s, actor, pen)
    ensures EdgeLink(pen, instance, a, b).fwd.data == EntityBytes(instance)
  {
    var l, data := EdgeLink(pen, instance, a, b), EntityBytes(instance);
    assert SignedBy(env, s, actor, RelKey(a, b), KIND_DERIVED_FROM, data, l.fwd);
  }

  lemma SelfPair(s: Store, column: Entity, c: UnitLog.Call, step: Step) returns (e: Entity)
    requires RecordsCall(s, column, step, c) && OnBothSides(c)
    ensures Recorded(step, e, e)
  {
    var id :| id in c.inputs && id in c.outputs;
    assert id in c.inputs + c.outputs;
    e :| IsTerm(s, e, column, id);
    assert OfCall(c)(id, id);
    assert Paired(s, column, OfCall(c), e, e);
  }

  lemma NeverBothSides(env: Env, s: Store, column: Entity, c: UnitLog.Call, step: Step)
    requires RecordsCall(s, column, step, c) && Now(env, s, step)
    ensures !OnBothSides(c)
  {
    forall e
      ensures !Recorded(step, e, e)
    {
      assert Recorded(step, e, e) ==> EdgeOk(env, s, e, e, step.edges[e][e]);
    }
    if OnBothSides(c) {
      var e := SelfPair(s, column, c, step);
    }
  }

  /** An execution whose units are declared can be recorded exactly if no unit is both
      consumed and produced. */
  lemma RecordingEnabled(env: Env, s: Store, actor: Entity, column: Entity, instance: Entity, c: UnitLog.Call)
    requires Signer(env, s, actor) && AllHeld(s, column, c)
    ensures (exists step :: RecordsAs(s, column, step, c, instance) && Now(env, s, step)) <==> !OnBothSides(c)
  {
    if !OnBothSides(c) {
      var step := RecordStep(env, s, actor, column, instance, c);
    }
    if step :| RecordsAs(s, column, step, c, instance) && Now(env, s, step) {
      NeverBothSides(env, s, column, c, step);
    }
  }

  /** The units some ids stand for, unless one is empty. */
  method ResolveUnits(env: Env, s: Store, column: Entity, ids: seq<UnitLog.Id>) returns (r: Option<seq<Entity>>)
    requires DictInv(env, s) && forall id | id in ids :: Held(s, column, id)
    ensures r.None? <==> [] in ids
    ensures r.Some? ==> |r.value| == |ids| && forall i | 0 <= i < |ids| :: IsTerm(s, r.value[i], column, ids[i])
  {
    var es: seq<Entity> := [];
    for i := 0 to |ids|
      invariant |es| == i && [] !in ids[..i] && forall j | 0 <= j < i :: IsTerm(s, es[j], column, ids[j])
    {
      if ids[i] == [] { return None; }
      HeldResolves(env, s, column, ids[i]);
      var e := Holder(env, s, column, ids[i]);
      es := es + [e.value];
    }
    assert ids[..|ids|] == ids;
    return Some(es);
  }

  lemma HeldResolves(env: Env, s: Store, column: Entity, id: UnitLog.Id)
    requires DictInv(env, s) && Held(s, column, id)
    ensures var e := Holder(env, s, column, id); e.Some? && IsTerm(s, e.value, column, id)
  {
    var e :| IsTerm(s, e, column, id);
    HolderIs(env, s, column, e);
  }

  lemma ResolvedPairs(env: Env, s: Store, column: Entity, ids: seq<UnitLog.Id>, es: seq<Entity>, a: Entity)
    requires DictInv(env, s) && |es| == |ids| && forall i | 0 <= i < |ids| :: IsTerm(s, es[i], column, ids[i])
    ensures a in es <==> a in Holders(s, column, ids)
  {
    if a in Holders(s, column, ids) {
      var i :| 0 <= i < |ids| && ids[i] == s.decl[a].name;
      OneHolder(env, s, column, a, es[i], ids[i]);
    }
  }

  lemma SidesMeet(s: Store, column: Entity, c: UnitLog.Call)
    requires AllHeld(s, column, c)
    ensures OnBothSides(c) <==> exists e :: e in Holders(s, column, c.outputs) && e in Holders(s, column, c.inputs)
  {
    if OnBothSides(c) {
      var id :| id in c.inputs && id in c.outputs;
      assert id in c.inputs + c.outputs;
      var e :| IsTerm(s, e, column, id);
      assert e in Holders(s, column, c.outputs) && e in Holders(s, column, c.inputs);
    }
  }

  lemma LinkedRecords(env: Env, s: Store, actor: Entity, pen: Pen, column: Entity, instance: Entity, c: UnitLog.Call,
                      edges: Edges)
    requires Signs(env, s, actor, pen) && Drawn(edges, pen, instance) && AllHeld(s, column, c) && !OnBothSides(c)
    requires forall a, b ::
      Linked(edges, a, b) <==> a in Holders(s, column, c.outputs) && b in Holders(s, column, c.inputs)
    ensures RecordsAs(s, column, Derive(edges), c, instance) && Now(env, s, Derive(edges))
  {
    DrawnNow(env, s, actor, pen, instance, edges);
    forall a, b
      ensures Recorded(Derive(edges), a, b) <==> Paired(s, column, OfCall(c), a, b)
      ensures Recorded(Derive(edges), a, b) ==> edges[a][b].fwd.data == EntityBytes(instance)
    {
      HoldersPaired(s, column, c, a, b);
      if Linked(edges, a, b) { DrawnData(env, s, actor, pen, instance, a, b); }
    }
  }

  lemma NoEmptyId(c: UnitLog.Call)
    ensures (forall id | id in c.inputs + c.outputs :: id != []) <==> [] !in c.inputs && [] !in c.outputs
  {
    assert [] in c.inputs || [] in c.outputs ==> [] in c.inputs + c.outputs;
  }

  /** Resolves the units of an execution and links them, all in one step. */
  method RecordExecution(env: Env, s: Store, ghost actor: Entity, pen: Pen, column: Entity, instance: Entity,
                         c: UnitLog.Call) returns (r: Option<Step>)
    requires Signs(env, s, actor, pen) && DictInv(env, s) && AllHeld(s, column, c)
    ensures r.Some? <==> NamesUnits(c) && !OnBothSides(c)
    ensures r.Some? ==> RecordsAs(s, column, r.value, c, instance) && Now(env, s, r.value)
  {
    NoEmptyId(c);
    if c.instance == [] || (c.inputs == [] && c.outputs == []) { return None; }
    var inputs := ResolveUnits(env, s, column, c.inputs);
    if inputs.None? { return None; }
    var outputs := ResolveUnits(env, s, column, c.outputs);
    if outputs.None? { return None; }
    SidesMeet(s, column, c);
    forall a
      ensures a in inputs.value <==> a in Holders(s, column, c.inputs)
      ensures a in outputs.value <==> a in Holders(s, column, c.outputs)
    {
      ResolvedPairs(env, s, column, c.inputs, inputs.value, a);
      ResolvedPairs(env, s, column, c.outputs, outputs.value, a);
    }
    var edges := LinkUnits(pen, instance, outputs.value, inputs.value);
    if edges.None? { return None; }
    LinkedRecords(env, s, actor, pen, column, instance, c, edges.value);
    return Some(Derive(edges.value));
  }

  // What each of the two accepts.

  predicate HasComma(c: UnitLog.Call) { exists id :: id in c.inputs + c.outputs && UnitLog.COMMA in id }

  predicate NamesUnits(c: UnitLog.Call) {
    c.instance != [] && (c.inputs != [] || c.outputs != []) && forall id | id in c.inputs + c.outputs :: id != []
  }

  /** The book takes the execution, its units and its instance being declared. */
  ghost predicate BookAccepts(env: Env, s: Store, column: Entity, instance: Entity, c: UnitLog.Call) {
    NamesUnits(c) && exists step :: RecordsAs(s, column, step, c, instance) && Now(env, s, step)
  }

  /** The log of units refuses ids with a comma and the book units on both sides; they
      agree on everything else. */
  lemma AcceptanceDiffers(env: Env, s: Store, actor: Entity, column: Entity, instance: Entity, c: UnitLog.Call)
    requires Signer(env, s, actor) && AllHeld(s, column, c)
    ensures BookAccepts(env, s, column, instance, c) <==> NamesUnits(c) && !OnBothSides(c)
    ensures UnitLog.Accepted(c) <==> NamesUnits(c) && !HasComma(c)
    ensures (BookAccepts(env, s, column, instance, c) <==> UnitLog.Accepted(c))
            <==> (NamesUnits(c) ==> (OnBothSides(c) <==> HasComma(c)))
  {
    RecordingEnabled(env, s, actor, column, instance, c);
  }

  /** One of each: the log alone takes the first, the book alone the second. */
  lemma TwoDifferences(env: Env, s: Store, actor: Entity, column: Entity, instance: Entity, x: UnitLog.Call,
                       y: UnitLog.Call)
    requires x == UnitLog.Call([1], [[118]], [[118]]) && y == UnitLog.Call([1], [[97, UnitLog.COMMA, 98]], [[99]])
    requires Signer(env, s, actor) && AllHeld(s, column, x) && AllHeld(s, column, y)
    ensures UnitLog.Accepted(x) && !BookAccepts(env, s, column, instance, x)
    ensures !UnitLog.Accepted(y) && BookAccepts(env, s, column, instance, y)
  {
    AcceptanceDiffers(env, s, actor, column, instance, x);
    AcceptanceDiffers(env, s, actor, column, instance, y);
    assert x.inputs[0] in x.inputs && x.outputs[0] in x.outputs;
    var cut := y.inputs[0];
    assert cut in y.inputs + y.outputs && cut[1] == UnitLog.COMMA;
  }
}
