/** The writes of one atomic transaction, and the two directions of a relation. */
module Transactions {
  import opened Entities
  import opened Records
  import opened Chain

  /** A relation is written twice: under (a, b), and mirrored under (b, a). */
  datatype Link = Link(fwd: Record, rev: Record)

  /** Two records that say the same; only the time stamps and the signatures, which
      cover the key, may differ. */
  predicate SameBody(r: Record, q: Record) {
    r.kind == q.kind && r.author == q.author && r.name == q.name && r.data == q.data
  }

  datatype Txn = Txn(
    decl: map<Entity, Record>,
    rel: map<Entity, map<Entity, Link>>,
    pres: map<(Entity, Entity), Record>,
    gone: set<(Entity, Entity)>)

  predicate Mirrors(t: Txn) {
    forall a, b | a in t.rel && b in t.rel[a] :: SameBody(t.rel[a][b].fwd, t.rel[a][b].rev)
  }

  /** What t writes under (a, _). */
  function Forward(t: Txn, a: Entity): Relations {
    if a in t.rel then map b | b in t.rel[a] :: t.rel[a][b].fwd else map[]
  }

  /** What t writes under (b, _) in the index. */
  function Backward(t: Txn, b: Entity): Relations {
    map a | a in t.rel && b in t.rel[a] :: t.rel[a][b].rev
  }

  function Targets(t: Txn): set<Entity> {
    set a, b | a in t.rel && b in t.rel[a] :: b
  }

  function Commit(s: Store, t: Txn): Store {
    Store(
      s.decl + t.decl,
      map a | a in s.rel.Keys + t.rel.Keys :: Row(s, a) + Forward(t, a),
      map b | b in s.idx.Keys + Targets(t) :: Back(s, b) + Backward(t, b),
      (s.pres - t.gone) + t.pres)
  }

  /** The relations pointing at b, by source. */
  function Back(s: Store, b: Entity): Relations { RowIn(s.idx, b) }

  lemma RowAfter(s: Store, t: Txn, a: Entity)
    ensures Row(Commit(s, t), a) == Row(s, a) + Forward(t, a)
  {
  }

  lemma BackAfter(s: Store, t: Txn, b: Entity)
    ensures Back(Commit(s, t), b) == Back(s, b) + Backward(t, b)
  {
    if b !in Targets(t) { assert Backward(t, b) == map[]; }
  }

  /** The relation a -> b reads the same from both ends. */
  predicate MirroredAt(s: Store, a: Entity, b: Entity) {
    && (b in Row(s, a) <==> a in Back(s, b))
    && (b in Row(s, a) ==> SameBody(Row(s, a)[b], Back(s, b)[a]))
  }

  /** The index is the converse of the relations. */
  ghost predicate Mirrored(s: Store) {
    forall a, b :: MirroredAt(s, a, b)
  }

  lemma MirrorKept(s: Store, t: Txn)
    requires Mirrored(s) && Mirrors(t)
    ensures Mirrored(Commit(s, t))
  {
    forall a, b
      ensures MirroredAt(Commit(s, t), a, b)
    {
      assert MirroredAt(s, a, b);
      RowAfter(s, t, a);
      BackAfter(s, t, b);
    }
  }
}
