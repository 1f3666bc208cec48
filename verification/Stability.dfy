/** What a writer read and did not have to compare still holds when it commits. */
module Stability {
  import opened Common
  import opened Bytes
  import opened Entities
  import opened Records
  import opened Chain
  import opened Transactions
  import opened Sealing
  import opened Book
  import opened Growth
  import opened Acceptance
  import opened Preserve
  import opened Steps
  import opened Reach
  import opened Dictionary

  // Declarations.

  /** e is declared in t as the transaction says, or as it was. */
  predicate DeclaredAs(s: Store, t: Store, d: map<Entity, Record>, e: Entity) {
    if e in d then e in t.decl && t.decl[e] == d[e]
    else (e in t.decl <==> e in s.decl) && (e in s.decl ==> t.decl[e] == s.decl[e])
  }

  lemma DeclAt(env: Env, s: Store, step: Step, d: map<Entity, Record>, e: Entity)
    requires Now(env, s, step) && d == Plain(env, step).decl && e != Head(env)
    ensures DeclaredAs(s, Do(env, s, step), d, e)
  {
    DeclAfter(env, s, step);
  }

  lemma DeclStays(env: Env, s: Store, step: Step, e: Entity)
    requires Now(env, s, step) && e in s.decl
    ensures e in Do(env, s, step).decl
  {
    DeclAfter(env, s, step);
  }

  /** Kinds of entities whose declaration only a rename rewrites. */
  predicate Lasting(e: Entity) { Named(e) || e.typ == TYPE_ENTRY }

  /** What a step declares is new, except what it renames. */
  lemma {:induction false} PlainDeclares(env: Env, s: Store, step: Step, e: Entity)
    requires Now(env, s, step) && Lasting(e) && e in s.decl && !(step.Rename? && step.e == e)
    ensures e !in Plain(env, step).decl
  {
    if step.Intern? {
      SlotIsFree(env, s, SCHEMA_PAGE, step.e);
    } else if step.Write? {
      SlotIsFree(env, s, FIRST_ENTRY_PAGE, step.line);
    }
  }

  lemma DeclSame(env: Env, s: Store, step: Step, e: Entity)
    requires Now(env, s, step) && Lasting(e) && e in s.decl && !(step.Rename? && step.e == e)
    ensures e in Do(env, s, step).decl && Do(env, s, step).decl[e] == s.decl[e]
  {
    PlainDeclares(env, s, step, e);
    DeclAt(env, s, step, Plain(env, step).decl, e);
  }

  lemma RenameKeepsData(env: Env, s: Store, step: Step)
    requires step.Rename? && Now(env, s, step)
    ensures step.e in Do(env, s, step).decl && Do(env, s, step).decl[step.e].data == s.decl[step.e].data
  {
    DeclAt(env, s, step, map[step.e := step.decl], step.e);
  }

  lemma DataSame(env: Env, s: Store, step: Step, e: Entity)
    requires Now(env, s, step) && Lasting(e) && e in s.decl
    ensures e in Do(env, s, step).decl && Do(env, s, step).decl[e].data == s.decl[e].data
  {
    if step.Rename? && step.e == e {
      RenameKeepsData(env, s, step);
    } else {
      DeclSame(env, s, step, e);
    }
  }

  // Slots.

  /** The counter is closed, or where it was. */
  ghost predicate CounterKept(env: Env, s: Store, t: Store, p: byte, typ: byte) {
    var c := Counter(env, p, typ);
    || (c in t.decl && CounterParses(t.decl[c]) && IsClosed(t.decl[c]))
    || ((c in s.decl <==> c in t.decl) && (c in s.decl ==> t.decl[c] == s.decl[c]))
  }

  lemma SlotStaysTaken(env: Env, s: Store, t: Store, p: byte, typ: byte)
    requires SlotOn(env, s, p, typ) == 0 && forall e | e in s.decl :: e in t.decl
    requires CounterKept(env, s, t, p, typ)
    ensures SlotOn(env, t, p, typ) == 0
  {
  }

  lemma CounterCloses(env: Env, s: Store, step: Step)
    requires step.SignOff? && Now(env, s, step)
    ensures CounterKept(env, s, Do(env, s, step), step.page, TYPE_ENTRY)
  {
    ClosingCounter(env, s, step);
    DeclAt(env, s, step, Plain(env, step).decl, Counter(env, step.page, TYPE_ENTRY));
  }

  lemma ClosingCounter(env: Env, s: Store, step: Step)
    requires step.SignOff? && SignOffNow(env, s, step.page, step.counter, step.link)
    ensures IsClosed(step.counter) && CounterParses(step.counter)
    ensures Counter(env, step.page, TYPE_ENTRY) in Plain(env, step).decl
    ensures Plain(env, step).decl[Counter(env, step.page, TYPE_ENTRY)] == step.counter
  {
  }

  lemma CounterUnmoved(env: Env, s: Store, step: Step, p: byte, typ: byte)
    requires Now(env, s, step) && Counter(env, p, typ) !in Plain(env, step).decl
    ensures CounterKept(env, s, Do(env, s, step), p, typ)
  {
    DeclAt(env, s, step, Plain(env, step).decl, Counter(env, p, typ));
  }

  lemma CounterMoves(env: Env, s: Store, step: Step, p: byte, typ: byte)
    requires Now(env, s, step) && SlotOn(env, s, p, typ) == 0
    ensures CounterKept(env, s, Do(env, s, step), p, typ)
  {
    if step.SignOff? && step.page == p && typ == TYPE_ENTRY {
      CounterCloses(env, s, step);
    } else {
      NowTyped(env, s, step);
      CounterElsewhere(env, s, step, p, typ);
      CounterUnmoved(env, s, step, p, typ);
    }
  }

  lemma CounterElsewhere(env: Env, s: Store, step: Step, p: byte, typ: byte)
    requires Now(env, s, step) && Typed(step) && SlotOn(env, s, p, typ) == 0
    requires !(step.SignOff? && step.page == p && typ == TYPE_ENTRY)
    ensures Counter(env, p, typ) !in Plain(env, step).decl
  {
  }

  lemma SlotStays(env: Env, s: Store, step: Step, p: byte, typ: byte)
    requires Now(env, s, step) && SlotOn(env, s, p, typ) == 0
    ensures SlotOn(env, Do(env, s, step), p, typ) == 0
  {
    CounterMoves(env, s, step, p, typ);
    forall e | e in s.decl
      ensures e in Do(env, s, step).decl
    {
      DeclStays(env, s, step, e);
    }
    SlotStaysTaken(env, s, Do(env, s, step), p, typ);
  }

  // Terms.

  lemma TermStays(env: Env, s: Store, es: seq<Event>, step: Step, e: Entity, f: Entity)
    requires BookInv(env, s, es) && DictInv(env, s) && Now(env, s, step) && e.typ == TYPE_TERM && TermOf(s, e, f)
    ensures TermOf(Do(env, s, step), e, f)
  {
    if Chains(step) {
      StepLands(env, s, es, step);
      ChainedTermStays(env, s, Do(env, s, step), |es|, step, e, f);
    } else {
      DoPlain(env, s, step);
      PlainTermStays(env, s, Do(env, s, step), HeadCount(env, s), step, e, f);
    }
  }

  lemma ChainedTermStays(env: Env, s: Store, t: Store, n: nat, step: Step, e: Entity, f: Entity)
    requires Now(env, s, step) && Chains(step) && Lands(env, s, t, Plain(env, step), n, Some(step.seal))
    requires e.typ == TYPE_TERM && TermOf(s, e, f)
    ensures TermOf(t, e, f)
  {
    NowRelates(env, s, step);
    assert forall a | Relates(step, a) :: a.typ != TYPE_TERM;
    TermsUntouched(env, s, t, Plain(env, step), n, Some(step.seal));
  }

  lemma PlainTermStays(env: Env, s: Store, t: Store, n: nat, step: Step, e: Entity, f: Entity)
    requires Now(env, s, step) && !Chains(step) && Lands(env, s, t, Plain(env, step), n, None)
    requires DictInv(env, s) && e.typ == TYPE_TERM && TermOf(s, e, f)
    ensures TermOf(t, e, f)
  {
    if step.Intern? {
      InternIsFresh(env, s, step);
      FreshTerm(s, step.e, e, f);
      assert Row(t, e) == Row(s, e) + Forward(Plain(env, step), e);
    } else {
      AloofRows(env, s, t, n, None, step);
    }
  }

  lemma FreshTerm(s: Store, x: Entity, e: Entity, f: Entity)
    requires TermsOk(s) && x !in s.decl && e.typ == TYPE_TERM && TermOf(s, e, f)
    ensures e != x
  {
    assert TermOk(s, e);
  }

  /** What a writer read about a cell's column and term. */
  lemma CellStays(env: Env, s: Store, es: seq<Event>, step: Step, c: Cell)
    requires BookInv(env, s, es) && DictInv(env, s) && Now(env, s, step) && CellOk(s, c)
    ensures CellOk(Do(env, s, step), c)
  {
    DataSame(env, s, step, c.field);
    if c.TermCell? {
      DeclStays(env, s, step, c.term);
      TermStays(env, s, es, step, c.term, c.field);
    }
  }

  // Names.

  /** A name changes only together with the bucket it is listed in. */
  lemma NameStays(env: Env, s: Store, step: Step, k: (Entity, Entity), c: Entity)
    requires DictInv(env, s) && Now(env, s, step) && k in s.pres && c in Candidates(s, k)
    requires k in Do(env, s, step).pres && Do(env, s, step).pres[k] == s.pres[k]
    requires step.Rename? && step.e == c && k in step.pres ==> step.pres[k] != s.pres[k]
    ensures c in s.decl && Lasting(c) && c in Do(env, s, step).decl && Do(env, s, step).decl[c] == s.decl[c]
  {
    assert BucketOk(env, s, k, Candidates(s, k));
    assert ListedRight(env, s, k, c);
    if step.Rename? && step.e == c {
      PresAfter(env, s, step);
      RenameTouches(env, s, step, k);
    } else {
      DeclSame(env, s, step, c);
    }
  }

  /** The bucket an entity leaves is deleted or written again. */
  lemma RenameTouches(env: Env, s: Store, step: Step, k: (Entity, Entity))
    requires step.Rename? && RenameNow(env, s, step.e, step.owner, step.decl, step.pres, step.gone)
    requires DictInv(env, s) && k in s.pres && step.e in Candidates(s, k)
    ensures k in step.pres || k in step.gone
    ensures k in step.gone ==> k !in step.pres
  {
    if k != BucketKey(env, step.owner, s.decl[step.e].name) { NotElsewhere(env, s, step.e, step.owner, k); }
    WithoutMembers(Candidates(s, k), step.e, step.e);
  }
}
