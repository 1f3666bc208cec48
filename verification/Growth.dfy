/** What every step of the book leaves alone: keys of actors, lines and their
    content, and every record hanging off a line or a page. */
module Growth {
  import opened Common
  import opened Bytes
  import opened Entities
  import opened Records
  import opened Chain
  import opened Transactions
  import opened Sealing
  import opened Book

  predicate Fixed(x: Entity) { x.typ == TYPE_ENTRY || x.typ == TYPE_PAGE }

  ghost predicate KeepsKeys(s: Store, t: Store) {
    forall a: Entity | a.typ == TYPE_ACTOR && a in s.decl :: a in t.decl && t.decl[a] == s.decl[a]
  }

  ghost predicate KeepsLines(s: Store, t: Store) {
    forall x: Entity | x.typ == TYPE_ENTRY && x in s.decl ::
      x in t.decl && t.decl[x] == s.decl[x] && ContentRow(t, x) == ContentRow(s, x)
  }

  ghost predicate KeepsRecords(s: Store, t: Store) {
    forall x, b | Fixed(x) && b in Row(s, x) :: b in Row(t, x) && Row(t, x)[b] == Row(s, x)[b]
  }

  ghost predicate Grows(s: Store, t: Store) {
    KeepsKeys(s, t) && KeepsLines(s, t) && KeepsRecords(s, t)
  }

  /** A transaction that declares no actor or line again, writes no record of a line
      or a page again, and adds to a line only marks and endorsements. */
  ghost predicate Careful(s: Store, t: Txn) {
    && (forall a | a in t.decl && (a.typ == TYPE_ACTOR || a.typ == TYPE_ENTRY) :: a !in s.decl)
    && (forall a, b | a in t.rel && Fixed(a) && b in t.rel[a] :: b !in Row(s, a))
    && (forall a, b | a in t.rel && a.typ == TYPE_ENTRY && a in s.decl && b in t.rel[a] ::
          IsSentinel(b) || t.rel[a][b].fwd.kind == KIND_COUNTERSIGN)
  }

  lemma ContentKept(row: Relations, more: Relations)
    requires forall b | b in more :: b !in row && (IsSentinel(b) || more[b].kind == KIND_COUNTERSIGN)
    ensures Content(row + more) == Content(row)
  {
  }

  lemma CarefulGrows(s: Store, t: Txn)
    requires Careful(s, t)
    ensures Grows(s, Commit(s, t))
  {
    var s' := Commit(s, t);
    forall x: Entity | x.typ == TYPE_ENTRY && x in s.decl
      ensures x in s'.decl && s'.decl[x] == s.decl[x] && ContentRow(s', x) == ContentRow(s, x)
    {
      RowAfter(s, t, x);
      ContentKept(Row(s, x), Forward(t, x));
    }
    forall x, b | Fixed(x) && b in Row(s, x)
      ensures b in Row(s', x) && Row(s', x)[b] == Row(s, x)[b]
    {
      RowAfter(s, t, x);
    }
  }

  lemma SealCareful(env: Env, s: Store, t: Txn, n: nat, seal: Seal)
    requires Careful(s, t) && n + |seal.links| < ENTITY_COUNT
    ensures Careful(s, Sealed(env, t, n, seal))
  {
  }

  // The steps are careful.

  lemma SlotIsFree(env: Env, s: Store, page: byte, e: Entity)
    requires IsSlot(env, s, page, e)
    ensures e !in s.decl
  {
  }

  /** No relation hangs off a line before it is written. */
  ghost predicate NoOrphans(s: Store) {
    forall a: Entity | a.typ == TYPE_ENTRY && a !in s.decl :: Row(s, a) == map[]
  }

  lemma WriteCareful(env: Env, s: Store, step: Step)
    requires step.Write? && step.line.typ == TYPE_ENTRY && step.line !in s.decl && NoOrphans(s)
    requires step.prior.Some? ==> Standing(env, s, step.prior.value.line)
    ensures Careful(s, Plain(env, step))
  {
  }

  lemma InternCareful(env: Env, s: Store, step: Step)
    requires step.Intern? && step.e !in s.decl && step.e.typ != TYPE_ENTRY && step.e.typ != TYPE_PAGE
    ensures Careful(s, Plain(env, step))
  {
  }

  lemma InternIsFresh(env: Env, s: Store, step: Step)
    requires step.Intern? && Now(env, s, step)
    ensures step.e !in s.decl && step.e.typ != TYPE_ENTRY && step.e.typ != TYPE_PAGE
  {
    SlotIsFree(env, s, SCHEMA_PAGE, step.e);
  }

  lemma VoidCareful(env: Env, s: Store, step: Step)
    requires step.Void? && StrikeOk(env, s, step.strike, KIND_VOIDED)
    ensures Careful(s, Plain(env, step))
  {
  }

  lemma CountersignCareful(env: Env, s: Store, step: Step)
    requires step.Countersign? && CountersignNow(env, s, step.line, step.actor, step.link)
    ensures Careful(s, Plain(env, step))
  {
  }

  lemma SignOffCareful(env: Env, s: Store, step: Step)
    requires step.SignOff? && SignOffNow(env, s, step.page, step.counter, step.link)
    ensures Careful(s, Plain(env, step))
  {
  }

  lemma RenameCareful(env: Env, s: Store, step: Step)
    requires step.Rename? && RenameNow(env, s, step.e, step.owner, step.decl, step.pres, step.gone)
    ensures Careful(s, Plain(env, step))
  {
  }

  lemma SetVocabularyCareful(env: Env, s: Store, step: Step)
    requires step.SetVocabulary? && SetVocabularyNow(env, s, step.field, step.link)
    ensures Careful(s, Plain(env, step))
  {
  }

  lemma DeriveCareful(env: Env, s: Store, step: Step)
    requires step.Derive? && DeriveNow(env, s, step.edges)
    ensures Careful(s, Plain(env, step))
  {
    forall a, b | a in step.edges && b in step.edges[a]
      ensures a.typ == TYPE_TERM
    {
      assert EdgeOk(env, s, a, b, step.edges[a][b]);
    }
  }

  lemma SchemaCareful(env: Env, s: Store, step: Step)
    requires Now(env, s, step) && (!Chains(step) || step.Rename? || step.SetVocabulary?)
    ensures Careful(s, Plain(env, step))
  {
    match step {
      case DeclareActor(_, _) =>
      case Intern(_, _, _, _, _, _) =>
        InternIsFresh(env, s, step);
        InternCareful(env, s, step);
      case Rename(_, _, _, _, _, _) => RenameCareful(env, s, step);
      case SetVocabulary(_, _, _) => SetVocabularyCareful(env, s, step);
      case Derive(_) => DeriveCareful(env, s, step);
    }
  }

  lemma EntryCareful(env: Env, s: Store, step: Step)
    requires Now(env, s, step) && NoOrphans(s) && (step.Write? || step.Void? || step.Countersign? || step.SignOff?)
    ensures Careful(s, Plain(env, step))
  {
    match step {
      case Write(line, _, _, _, _, _, _) =>
        SlotIsFree(env, s, FIRST_ENTRY_PAGE, line);
        WriteCareful(env, s, step);
      case Void(_, _) => VoidCareful(env, s, step);
      case Countersign(_, _, _, _) => CountersignCareful(env, s, step);
      case SignOff(_, _, _, _) => SignOffCareful(env, s, step);
    }
  }

  lemma StepCareful(env: Env, s: Store, step: Step)
    requires Careful(s, Plain(env, step))
    ensures Careful(s, Effect(env, s, step))
  {
    if Chains(step) && HeadCount(env, s) + |step.seal.links| < ENTITY_COUNT {
      SealCareful(env, s, Plain(env, step), HeadCount(env, s), step.seal);
    }
  }

  lemma StepGrows(env: Env, s: Store, step: Step)
    requires Now(env, s, step) && NoOrphans(s)
    ensures Grows(s, Do(env, s, step))
  {
    if step.Write? || step.Void? || step.Countersign? || step.SignOff? {
      EntryCareful(env, s, step);
    } else {
      SchemaCareful(env, s, step);
    }
    StepCareful(env, s, step);
    CarefulGrows(s, Effect(env, s, step));
  }
}
