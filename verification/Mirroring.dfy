/** The index namespace is the converse of the relation namespace in every store a
    run reaches. */
module Mirroring {
  import opened Common
  import opened Bytes
  import opened Entities
  import opened Records
  import opened Listings
  import opened Chain
  import opened Transactions
  import opened Sealing
  import opened Book
  import opened Reach

  lemma {:induction false} SealRowBodies(n: nat, links: seq<Link>)
    requires n + |links| < ENTITY_COUNT && forall j | 0 <= j < |links| :: SameBody(links[j].fwd, links[j].rev)
    ensures forall b | b in SealRow(n, links) :: SameBody(SealRow(n, links)[b].fwd, SealRow(n, links)[b].rev)
  {
    if links != [] { SealRowBodies(n, links[..|links| - 1]); }
  }

  lemma SealBodies(env: Env, s: Store, previous: seq<byte>, n: nat, xs: seq<Entry>, seal: Seal)
    requires SealFits(env, s, previous, n, xs, seal)
    ensures forall j | 0 <= j < |seal.links| :: SameBody(seal.links[j].fwd, seal.links[j].rev)
  {
    forall j: nat | j < |seal.links|
      ensures SameBody(seal.links[j].fwd, seal.links[j].rev)
    {
      assert LinkFits(env, s, previous, n, xs, seal.links[j], j);
    }
  }

  lemma RowBodies(env: Env, s: Store, line: Entity, cells: seq<Cell>, prior: Option<Strike>, row: map<Entity, Link>)
    requires RowOk(env, s, line, cells, prior, row)
    ensures forall b | b in row :: SameBody(row[b].fwd, row[b].rev)
  {
    forall b | b in row
      ensures SameBody(row[b].fwd, row[b].rev)
    {
      if c :| c in cells && Target(c) == b {
        assert LinkOk(env, s, line, Target(c), row[Target(c)], CellKind(c));
      }
    }
  }

  lemma WriteMirrors(env: Env, step: Step)
    requires step.Write? && forall b | b in step.row :: SameBody(step.row[b].fwd, step.row[b].rev)
    requires step.prior.Some? ==> SameBody(step.prior.value.link.fwd, step.prior.value.link.rev)
    ensures Mirrors(Plain(env, step))
  {
  }

  lemma DeriveMirrors(env: Env, s: Store, step: Step)
    requires step.Derive? && DeriveNow(env, s, step.edges)
    ensures Mirrors(Plain(env, step))
  {
    forall a, b | a in step.edges && b in step.edges[a]
      ensures SameBody(step.edges[a][b].fwd, step.edges[a][b].rev)
    {
      assert EdgeOk(env, s, a, b, step.edges[a][b]);
    }
  }

  lemma OtherMirrors(env: Env, s: Store, step: Step)
    requires !step.Write? && !step.Derive? && Now(env, s, step)
    ensures Mirrors(Plain(env, step))
  {
  }

  lemma PlainMirrors(env: Env, s: Store, step: Step)
    requires Now(env, s, step)
    ensures Mirrors(Plain(env, step))
  {
    if step.Write? {
      RowBodies(env, s, step.line, step.cells, step.prior, step.row);
      WriteMirrors(env, step);
    } else if step.Derive? {
      DeriveMirrors(env, s, step);
    } else {
      OtherMirrors(env, s, step);
    }
  }

  lemma SealedMirrors(env: Env, p: Txn, n: nat, seal: Seal)
    requires Mirrors(p) && n + |seal.links| < ENTITY_COUNT
    requires forall j | 0 <= j < |seal.links| :: SameBody(seal.links[j].fwd, seal.links[j].rev)
    ensures Mirrors(Sealed(env, p, n, seal))
  {
    SealRowBodies(n, seal.links);
  }

  lemma LinksSameBody(env: Env, s: Store, step: Step)
    requires Now(env, s, step) && Chains(step)
    ensures forall j | 0 <= j < |step.seal.links| :: SameBody(step.seal.links[j].fwd, step.seal.links[j].rev)
  {
    SealBodies(env, s, HeadDigest(env, s), HeadCount(env, s), Entries(env, s, step), step.seal);
  }

  lemma ChainedMirrors(env: Env, s: Store, step: Step)
    requires Chains(step) && HeadCount(env, s) + |step.seal.links| < ENTITY_COUNT && Mirrors(Plain(env, step))
    requires forall j | 0 <= j < |step.seal.links| :: SameBody(step.seal.links[j].fwd, step.seal.links[j].rev)
    ensures Mirrors(Effect(env, s, step))
  {
    SealedMirrors(env, Plain(env, step), HeadCount(env, s), step.seal);
  }

  lemma StepMirrored(env: Env, s: Store, step: Step)
    requires Mirrored(s) && Now(env, s, step)
    ensures Mirrored(Do(env, s, step))
  {
    PlainMirrors(env, s, step);
    if Chains(step) {
      NowNumbered(env, s, step);
      LinksSameBody(env, s, step);
      ChainedMirrors(env, s, step);
    }
    MirrorKept(s, Effect(env, s, step));
  }

  lemma {:induction false} RunMirrored(env: Env, s: Store, run: seq<Step>)
    requires Mirrored(s) && Legal(env, s, run)
    ensures Mirrored(Exec(env, s, run))
    decreases |run|
  {
    if run != [] {
      StepMirrored(env, s, run[0]);
      RunMirrored(env, Do(env, s, run[0]), run[1..]);
    }
  }

  /** Backlinks is the converse of Relations, with the same kind, author, name and
      data at both ends, after any run. */
  lemma ReachableMirrored(env: Env, run: seq<Step>)
    requires Legal(env, Empty(), run)
    ensures Mirrored(Exec(env, Empty(), run))
  {
    RunMirrored(env, Empty(), run);
  }
}
