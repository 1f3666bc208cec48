/** Line numbers: the lines of a page are 1..last with no holes, lines are handed
    out in key order, and a page that was ruled off stays ruled off. */
module Allocation {
  import opened Bytes
  import opened Entities
  import opened Records
  import opened Chain
  import opened Transactions
  import opened Sealing
  import opened Book

  function PageCounter(env: Env, s: Store, p: byte): Record
    requires Reached(env, s, p)
  {
    s.decl[Counter(env, p, TYPE_ENTRY)]
  }

  ghost predicate CountersOk(env: Env, s: Store) {
    forall p: byte | Reached(env, s, p) :: CounterParses(PageCounter(env, s, p))
  }

  /** Line e has an id between 1 and the last one handed out on its page. */
  predicate HandedOut(env: Env, s: Store, e: Entity) {
    && e.log == env.log && FIRST_ENTRY_PAGE <= e.page && Reached(env, s, e.page)
    && CounterParses(PageCounter(env, s, e.page)) && 1 <= e.id <= LastId(PageCounter(env, s, e.page))
  }

  ghost predicate LinesOk(env: Env, s: Store) {
    forall e: Entity | e.typ == TYPE_ENTRY :: e in s.decl <==> HandedOut(env, s, e)
  }

  /** The page takes no more lines. */
  predicate RuledOff(env: Env, s: Store, p: byte) {
    && Reached(env, s, p) && CounterParses(PageCounter(env, s, p))
    && (IsClosed(PageCounter(env, s, p)) || PageCounter(env, s, p).data[0] == 0)
  }

  ghost predicate PagesInOrder(env: Env, s: Store) {
    forall e: Entity, q: byte | e.typ == TYPE_ENTRY && e in s.decl && FIRST_ENTRY_PAGE <= q < e.page ::
      RuledOff(env, s, q)
  }

  ghost predicate AllocInv(env: Env, s: Store) {
    CountersOk(env, s) && LinesOk(env, s) && PagesInOrder(env, s)
  }

  // The slot the allocator picks.

  function NextId(env: Env, s: Store, p: byte): byte
    requires Reached(env, s, p) ==> CounterParses(PageCounter(env, s, p))
  {
    if Reached(env, s, p) then PageCounter(env, s, p).data[0] else 1
  }

  lemma NextIsFree(env: Env, s: Store, p: byte)
    requires CountersOk(env, s) && LinesOk(env, s) && FIRST_ENTRY_PAGE <= p
    ensures SlotOn(env, s, p, TYPE_ENTRY) == if RuledOff(env, s, p) then 0 else NextId(env, s, p)
  {
    if !RuledOff(env, s, p) {
      assert !HandedOut(env, s, Line(env, p, NextId(env, s, p)));
    }
  }

  lemma SlotIsNext(env: Env, s: Store, line: Entity)
    requires AllocInv(env, s) && line.typ == TYPE_ENTRY && IsSlot(env, s, FIRST_ENTRY_PAGE, line)
    ensures !RuledOff(env, s, line.page) && line.id == NextId(env, s, line.page)
    ensures forall q: byte | FIRST_ENTRY_PAGE <= q < line.page :: RuledOff(env, s, q)
  {
    NextIsFree(env, s, line.page);
    forall q: byte | FIRST_ENTRY_PAGE <= q < line.page
      ensures RuledOff(env, s, q)
    {
      NextIsFree(env, s, q);
      assert SlotOn(env, s, q, TYPE_ENTRY) == 0;
    }
  }

  /** A new line comes after every line there is. */
  lemma NewLineIsLast(env: Env, s: Store, line: Entity, x: Entity)
    requires AllocInv(env, s) && line.typ == TYPE_ENTRY && IsSlot(env, s, FIRST_ENTRY_PAGE, line)
    requires x.typ == TYPE_ENTRY && x in s.decl
    ensures Value(x) < Value(line)
  {
    SlotIsNext(env, s, line);
    assert HandedOut(env, s, x);
    ValueDigits(x);
    ValueDigits(line);
    assert line.page < x.page ==> RuledOff(env, s, line.page);
  }

  // Steps keep the invariant.

  predicate IsEntryCounter(a: Entity) { a.typ == TYPE_ALLOCATOR && a.id == TYPE_ENTRY }

  /** A transaction that declares no line and moves no page counter. */
  predicate Aside(t: Txn) {
    forall a | a in t.decl :: a.typ != TYPE_ENTRY && !IsEntryCounter(a)
  }

  ghost predicate SamePages(env: Env, s: Store, t: Store) {
    && (forall e: Entity | e.typ == TYPE_ENTRY :: e in s.decl <==> e in t.decl)
    && (forall p: byte :: Reached(env, s, p) <==> Reached(env, t, p))
    && (forall p: byte | Reached(env, s, p) :: PageCounter(env, t, p) == PageCounter(env, s, p))
  }

  lemma AsideSamePages(env: Env, s: Store, t: Txn)
    requires Aside(t)
    ensures SamePages(env, s, Commit(s, t))
  {
  }

  lemma SamePagesKeep(env: Env, s: Store, t: Store)
    requires SamePages(env, s, t) && AllocInv(env, s)
    ensures AllocInv(env, t)
  {
    forall e: Entity | e.typ == TYPE_ENTRY
      ensures HandedOut(env, t, e) <==> HandedOut(env, s, e)
    {
    }
    forall p: byte
      ensures RuledOff(env, t, p) <==> RuledOff(env, s, p)
    {
    }
  }

  /** t is s with one page counter moved, and at most one line more. */
  ghost predicate PageMoved(env: Env, s: Store, t: Store, p: byte, counter: Record) {
    && Reached(env, t, p) && PageCounter(env, t, p) == counter
    && (forall q: byte | q != p :: Reached(env, t, q) <==> Reached(env, s, q))
    && (forall q: byte | q != p && Reached(env, s, q) :: PageCounter(env, t, q) == PageCounter(env, s, q))
  }

  lemma ElsewhereSame(env: Env, s: Store, t: Store, p: byte, counter: Record, q: byte)
    requires PageMoved(env, s, t, p, counter) && q != p
    ensures RuledOff(env, t, q) <==> RuledOff(env, s, q)
    ensures forall id: byte :: HandedOut(env, t, Line(env, q, id)) <==> HandedOut(env, s, Line(env, q, id))
  {
  }

  lemma WritePages(env: Env, s: Store, t: Store, line: Entity, counter: Record)
    requires AllocInv(env, s) && line.typ == TYPE_ENTRY && line.log == env.log && FIRST_ENTRY_PAGE <= line.page
    requires !RuledOff(env, s, line.page) && line.id == NextId(env, s, line.page)
    requires forall q: byte | FIRST_ENTRY_PAGE <= q < line.page :: RuledOff(env, s, q)
    requires PageMoved(env, s, t, line.page, counter) && counter.data == CounterData(Bumped(line.id), 0)
    requires forall e: Entity | e.typ == TYPE_ENTRY :: e in t.decl <==> e in s.decl || e == line
    ensures AllocInv(env, t)
  {
    forall e: Entity | e.typ == TYPE_ENTRY
      ensures e in t.decl <==> HandedOut(env, t, e)
    {
      if e.page == line.page {
        assert e in s.decl <==> HandedOut(env, s, e);
      } else {
        ElsewhereSame(env, s, t, line.page, counter, e.page);
      }
    }
    forall e: Entity, q: byte | e.typ == TYPE_ENTRY && e in t.decl && FIRST_ENTRY_PAGE <= q < e.page
      ensures RuledOff(env, t, q)
    {
      if e in s.decl { assert RuledOff(env, s, q); }
      assert RuledOff(env, s, q);
      ElsewhereSame(env, s, t, line.page, counter, q);
    }
  }

  lemma SignOffPages(env: Env, s: Store, t: Store, p: byte, counter: Record)
    requires AllocInv(env, s) && FIRST_ENTRY_PAGE <= p && (Reached(env, s, p) ==> !IsClosed(PageCounter(env, s, p)))
    requires PageMoved(env, s, t, p, counter) && counter.data == CounterData(NextId(env, s, p), COUNTER_CLOSED)
    requires forall e: Entity | e.typ == TYPE_ENTRY :: e in t.decl <==> e in s.decl
    ensures AllocInv(env, t)
  {
    forall e: Entity | e.typ == TYPE_ENTRY
      ensures HandedOut(env, t, e) <==> HandedOut(env, s, e)
    {
      if e.page != p { ElsewhereSame(env, s, t, p, counter, e.page); }
    }
    forall q: byte | RuledOff(env, s, q)
      ensures RuledOff(env, t, q)
    {
      if q != p { ElsewhereSame(env, s, t, p, counter, q); }
    }
  }

  lemma WriteAlloc(env: Env, s: Store, step: Step)
    requires AllocInv(env, s) && step.Write? && Now(env, s, step)
    ensures AllocInv(env, Do(env, s, step))
  {
    SlotIsNext(env, s, step.line);
    DeclAfter(env, s, step);
    WriteMoves(env, s, Do(env, s, step), step.line, step.counter, step.decl, step.seal.head);
    WritePages(env, s, Do(env, s, step), step.line, step.counter);
  }

  lemma WriteMoves(env: Env, s: Store, t: Store, line: Entity, counter: Record, decl: Record, head: Record)
    requires line.typ == TYPE_ENTRY
    requires t.decl == s.decl + map[Counter(env, line.page, TYPE_ENTRY) := counter, line := decl][Head(env) := head]
    ensures PageMoved(env, s, t, line.page, counter)
    ensures forall e: Entity | e.typ == TYPE_ENTRY :: e in t.decl <==> e in s.decl || e == line
  {
  }

  lemma SignOffAlloc(env: Env, s: Store, step: Step)
    requires AllocInv(env, s) && step.SignOff? && Now(env, s, step)
    ensures AllocInv(env, Do(env, s, step))
  {
    DeclAfter(env, s, step);
    SignOffMoves(env, s, Do(env, s, step), step.page, step.counter, step.seal.head);
    SignOffPages(env, s, Do(env, s, step), step.page, step.counter);
  }

  lemma SignOffMoves(env: Env, s: Store, t: Store, p: byte, counter: Record, head: Record)
    requires t.decl == s.decl + map[Counter(env, p, TYPE_ENTRY) := counter][Head(env) := head]
    ensures PageMoved(env, s, t, p, counter)
    ensures forall e: Entity | e.typ == TYPE_ENTRY :: e in t.decl <==> e in s.decl
  {
  }

  lemma StepAside(env: Env, s: Store, step: Step)
    requires Typed(step) && !step.Write? && !step.SignOff?
    ensures Aside(Effect(env, s, step))
  {
  }

  lemma StepAlloc(env: Env, s: Store, step: Step)
    requires AllocInv(env, s) && Now(env, s, step)
    ensures AllocInv(env, Do(env, s, step))
  {
    if step.Write? {
      WriteAlloc(env, s, step);
    } else if step.SignOff? {
      SignOffAlloc(env, s, step);
    } else {
      NowTyped(env, s, step);
      StepAside(env, s, step);
      AsideSamePages(env, s, Effect(env, s, step));
      SamePagesKeep(env, s, Do(env, s, step));
    }
  }

  /** Page p has the counter and the lines it had. */
  ghost predicate SamePage(env: Env, s: Store, t: Store, p: byte) {
    && (Reached(env, s, p) <==> Reached(env, t, p))
    && (Reached(env, s, p) ==> PageCounter(env, t, p) == PageCounter(env, s, p))
    && forall id: byte :: Line(env, p, id) in t.decl <==> Line(env, p, id) in s.decl
  }

  lemma WriteElsewhere(env: Env, s: Store, step: Step, p: byte)
    requires step.Write? && Now(env, s, step) && p != step.line.page
    ensures SamePage(env, s, Do(env, s, step), p)
  {
    DeclAfter(env, s, step);
    WriteMoves(env, s, Do(env, s, step), step.line, step.counter, step.decl, step.seal.head);
  }

  lemma SignOffElsewhere(env: Env, s: Store, step: Step, p: byte)
    requires step.SignOff? && Now(env, s, step) && p != step.page
    ensures SamePage(env, s, Do(env, s, step), p)
  {
    DeclAfter(env, s, step);
    SignOffMoves(env, s, Do(env, s, step), step.page, step.counter, step.seal.head);
  }

  /** A closed page stays closed and gains no line. */
  lemma ClosedStays(env: Env, s: Store, step: Step, p: byte)
    requires AllocInv(env, s) && Now(env, s, step)
    requires Reached(env, s, p) && IsClosed(PageCounter(env, s, p))
    ensures SamePage(env, s, Do(env, s, step), p)
  {
    if step.Write? {
      SlotIsNext(env, s, step.line);
      assert p == step.line.page ==> RuledOff(env, s, p);
      WriteElsewhere(env, s, step, p);
    } else if step.SignOff? {
      SignOffElsewhere(env, s, step, p);
    } else {
      NowTyped(env, s, step);
      StepAside(env, s, step);
      AsideSamePages(env, s, Effect(env, s, step));
    }
  }

  /** The walk over the pages finds exactly the declared lines. */
  lemma AllocatedIsDeclared(env: Env, s: Store)
    requires AllocInv(env, s)
    ensures CountersParse(env, s)
    ensures forall e: Entity :: Allocated(env, s, e) <==> e.typ == TYPE_ENTRY && e in s.decl
  {
    forall e: Entity
      ensures Allocated(env, s, e) <==> e.typ == TYPE_ENTRY && e in s.decl
    {
      if e.typ == TYPE_ENTRY && e in s.decl {
        assert HandedOut(env, s, e);
        var u := FirstUnreached(env, s, 1);
        assert u < e.page ==> RuledOff(env, s, u);
      }
      if Allocated(env, s, e) { assert HandedOut(env, s, e); }
    }
  }
}
