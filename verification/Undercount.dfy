/** A trace of racing writers in which a sign-off records fewer lines than its page has. */
module Undercount {
  import opened Common
  import opened Bytes
  import opened Entities
  import opened Records
  import opened Chain
  import opened Transactions
  import opened Sealing
  import opened Book
  import opened Growth
  import opened Allocation
  import opened Acceptance
  import opened Preserve
  import opened Steps
  import opened Reach
  import opened Dictionary
  import opened Stability
  import opened Interleaving
  import opened Racing
  import opened Progress

  // A writer that reads everything at the last moment.

  lemma SlotIsRead(env: Env, h: seq<Store>, page: byte, e: Entity)
    requires h != [] && IsSlot(env, Current(h), page, e)
    ensures SlotRead(env, h, page, e)
  {
    var s, n := Current(h), |h| - 1;
    SlotIsFree(env, s, page, e);
    forall p: byte | page <= p < e.page
      ensures TakenOnce(env, h, p, e.typ)
    {
      assert SlotOn(env, h[n], p, e.typ) == 0;
    }
    forall id: byte | StartId(env, s, e) <= id < e.id
      ensures DeclaredOnce(h, Entity(env.log, e.page, e.typ, id))
    {
      assert Entity(env.log, e.page, e.typ, id) in h[n].decl;
    }
  }

  lemma CellsAreRead(h: seq<Store>, cells: seq<Cell>)
    requires h != [] && CellsOk(Current(h), cells)
    ensures forall c | c in cells :: CellRead(h, c)
  {
    forall c | c in cells
      ensures CellRead(h, c)
    {
      assert CellOk(h[|h| - 1], c);
    }
  }

  lemma StrikeIsMay(env: Env, h: seq<Store>, x: Strike, kind: byte)
    requires h != [] && StrikeOk(env, Current(h), x, kind)
    ensures StrikeMay(env, h, x, kind)
  {
    assert x.line in h[|h| - 1].decl;
  }

  lemma WriteIsMay(env: Env, h: seq<Store>, step: Step)
    requires h != [] && step.Write? && Now(env, Current(h), step)
    ensures May(env, h, step)
  {
    SlotIsRead(env, h, FIRST_ENTRY_PAGE, step.line);
    CellsAreRead(h, step.cells);
    if step.prior.Some? { StrikeIsMay(env, h, step.prior.value, KIND_SUPERSEDED); }
  }

  lemma BucketIsRead(env: Env, h: seq<Store>, owner: Entity, text: seq<byte>)
    requires h != [] && Unheld(env, Current(h), owner, text)
    ensures BucketRead(env, h, |h| - 1, owner, text)
  {
    var i := |h| - 1;
    forall c | c in Candidates(h[i], BucketKey(env, owner, text))
      ensures NameRead(h, i, c, text)
    {
      assert c in h[i].decl && h[i].decl[c].name != text;
    }
  }

  lemma InternIsMay(env: Env, h: seq<Store>, step: Step)
    requires h != [] && step.Intern? && Now(env, Current(h), step) && Fresh(h, Plain(env, step).pres)
    ensures May(env, h, step)
  {
    SlotIsRead(env, h, SCHEMA_PAGE, step.e);
    BucketIsRead(env, h, step.owner, step.decl.name);
  }

  // Traces, one commit at a time.

  lemma SameMay(env: Env, g: seq<Store>, h: seq<Store>, a: Step, b: Step)
    requires g != [] && g == h && a == b && May(env, h, b)
    ensures May(env, g, a)
  {
  }

  /** g and more are h and run with one commit added. */
  ghost predicate OneMore(env: Env, h: seq<Store>, run: seq<Step>, g: seq<Store>, more: seq<Step>) {
    && |h| == |run| + 1 && |g| == |h| + 1 && |more| == |run| + 1 && g[..|h|] == h && more[..|run|] == run
    && g[|h|] == Do(env, Current(h), more[|run|])
  }

  lemma StoresSoFar(h: seq<Store>, g: seq<Store>, n: nat)
    requires n <= |h| <= |g| && g[..|h|] == h
    ensures g[..n] == h[..n]
  {
    assert g[..n] == g[..|h|][..n];
  }

  lemma EachMay(env: Env, h: seq<Store>, run: seq<Step>, g: seq<Store>, more: seq<Step>, i: nat)
    requires OneMore(env, h, run, g, more) && i < |more| && Trace(env, h, run) && May(env, h, more[|run|])
    ensures May(env, g[..i + 1], more[i])
  {
    StoresSoFar(h, g, i + 1);
    if i < |run| {
      assert more[i] == run[i];
      SameMay(env, g[..i + 1], h[..i + 1], more[i], run[i]);
    } else {
      assert h[..i + 1] == h;
      SameMay(env, g[..i + 1], h, more[i], more[|run|]);
    }
  }

  lemma SamePlace<T>(h: seq<T>, g: seq<T>, i: nat)
    requires i < |h| <= |g| && g[..|h|] == h
    ensures g[i] == h[i]
  {
    assert g[..|h|][i] == h[i];
  }

  /** One store comes from another by a step. */
  ghost predicate Moves(env: Env, s: Store, step: Step, t: Store) { t == Do(env, s, step) }

  lemma SameMoves(env: Env, s: Store, step: Step, t: Store, s': Store, step': Step, t': Store)
    requires Moves(env, s, step, t) && s == s' && step == step' && t == t'
    ensures Moves(env, s', step', t')
  {
  }

  lemma EachMove(env: Env, h: seq<Store>, run: seq<Step>, g: seq<Store>, more: seq<Step>, i: nat)
    requires |h| == |run| + 1 && |g| == |h| + 1 && |more| == |run| + 1 && g[..|h|] == h && more[..|run|] == run
    requires i < |run| && Moves(env, h[i], run[i], h[i + 1])
    ensures Moves(env, g[i], more[i], g[i + 1])
  {
    SamePlace(h, g, i);
    SamePlace(h, g, i + 1);
    SamePlace(run, more, i);
    SameMoves(env, h[i], run[i], h[i + 1], g[i], more[i], g[i + 1]);
  }

  lemma MovesOn(env: Env, h: seq<Store>, run: seq<Step>, g: seq<Store>, more: seq<Step>)
    requires OneMore(env, h, run, g, more) && forall i: nat | i < |run| :: Moves(env, h[i], run[i], h[i + 1])
    ensures forall i: nat | i < |more| :: Moves(env, g[i], more[i], g[i + 1])
  {
    SamePlace(h, g, |run|);
    forall i: nat | i < |more|
      ensures Moves(env, g[i], more[i], g[i + 1])
    {
      if i < |run| {
        EachMove(env, h, run, g, more, i);
      } else {
        SameMoves(env, Current(h), more[|run|], g[|h|], g[i], more[i], g[i + 1]);
      }
    }
  }

  lemma MaysOn(env: Env, h: seq<Store>, run: seq<Step>, g: seq<Store>, more: seq<Step>)
    requires OneMore(env, h, run, g, more) && Trace(env, h, run) && May(env, h, more[|run|])
    ensures forall i: nat | i < |more| :: May(env, g[..i + 1], more[i])
  {
    forall i: nat | i < |more|
      ensures May(env, g[..i + 1], more[i])
    {
      EachMay(env, h, run, g, more, i);
    }
  }

  lemma TraceOn(env: Env, h: seq<Store>, run: seq<Step>, g: seq<Store>, more: seq<Step>)
    requires OneMore(env, h, run, g, more) && Trace(env, h, run) && May(env, h, more[|run|])
    ensures Trace(env, g, more)
  {
    MaysOn(env, h, run, g, more);
    SamePlace(h, g, 0);
    MovesOn(env, h, run, g, more);
    TraceOf(env, g, more);
  }

  lemma TraceMore(env: Env, h: seq<Store>, run: seq<Step>, step: Step, t: Store)
    requires Trace(env, h, run) && May(env, h, step) && t == Do(env, Current(h), step)
    ensures Trace(env, h + [t], run + [step])
  {
    TraceOn(env, h, run, h + [t], run + [step]);
  }

  lemma TraceOf(env: Env, g: seq<Store>, more: seq<Step>)
    requires |g| == |more| + 1 && g[0] == Empty()
    requires forall i: nat | i < |more| :: May(env, g[..i + 1], more[i])
    requires forall i: nat | i < |more| :: Moves(env, g[i], more[i], g[i + 1])
    ensures Trace(env, g, more)
  {
  }

  lemma StartTrace(env: Env)
    ensures Trace(env, [Empty()], [])
  {
  }

  /** The first two commits of a book, and nothing related yet. */
  lemma Begun(env: Env, key: seq<byte>, name: seq<byte>) returns (h: seq<Store>, run: seq<Step>)
    requires |key| == PUBLIC_KEY_LEN && 0 < |name| <= MAX_FIELD_LEN
    ensures Trace(env, h, run) && |run| == 2 && Started(env, Current(h), key) && Current(h).rel == map[]
  {
    var h0 := [Empty()];
    StartTrace(env);
    var one := Introduction(env, key);
    var s := Do(env, Empty(), one);
    TraceMore(env, h0, [], one, s);
    Introduced(env, key, s);
    var two, t := HeadingTrace(env, h0 + [s], [] + [one], name);
    h, run := h0 + [s] + [t], [] + [one] + [two];
  }

  lemma FirstIntern(env: Env, h: seq<Store>, run: seq<Step>, step: Step, t: Store)
    requires Trace(env, h, run) && step.Intern? && Now(env, Current(h), step) && t == Do(env, Current(h), step)
    requires forall i | 0 <= i < |h| :: h[i].pres == map[]
    ensures Trace(env, h + [t], run + [step])
  {
    InternIsMay(env, h, step);
    TraceMore(env, h, run, step, t);
  }

  lemma HeadingStep(env: Env, s: Store, name: seq<byte>) returns (step: Step, t: Store)
    requires 0 < |name| <= MAX_FIELD_LEN && s.decl.Keys == {FirstActor(env)} && s.pres == map[] && s.rel == map[]
    ensures step.Intern? && Now(env, s, step) && t == Do(env, s, step)
    ensures Started(env, t, s.decl[FirstActor(env)].data) && t.rel == map[]
  {
    step := Heading(env, name);
    t := Do(env, s, step);
    Headed(env, s, name, t);
  }

  lemma NoBuckets(env: Env, h: seq<Store>, run: seq<Step>)
    requires Trace(env, h, run) && |run| == 1 && Current(h).pres == map[]
    ensures forall i | 0 <= i < |h| :: h[i].pres == map[]
  {
    assert h[0].pres == map[];
  }

  lemma HeadingTrace(env: Env, h: seq<Store>, run: seq<Step>, name: seq<byte>) returns (step: Step, t: Store)
    requires Trace(env, h, run) && |run| == 1 && 0 < |name| <= MAX_FIELD_LEN
    requires var s := Current(h); s.decl.Keys == {FirstActor(env)} && s.pres == map[] && s.rel == map[]
    ensures Trace(env, h + [t], run + [step])
    ensures Started(env, t, Current(h).decl[FirstActor(env)].data) && t.rel == map[]
  {
    step, t := HeadingStep(env, Current(h), name);
    NoBuckets(env, h, run);
    FirstIntern(env, h, run, step, t);
  }

  // Then a line, and the sign-off.

  function FirstLineOf(env: Env): Entity { Line(env, FIRST_ENTRY_PAGE, 1) }

  lemma LineTrace(env: Env, h: seq<Store>, run: seq<Step>, key: seq<byte>, text: seq<byte>) returns (step: Step)
    requires Trace(env, h, run) && Started(env, Current(h), key) && AllocInv(env, Current(h)) && TermsOk(Current(h))
    requires |key| == PUBLIC_KEY_LEN && (forall payload :: CanSign(env, key, payload)) && 0 < |text| <= MAX_FIELD_LEN
    ensures step.Write? && step.prior.None? && step.line == FirstLineOf(env)
    ensures Now(env, Current(h), step) && May(env, h, step)
  {
    var s := Current(h);
    StartedHasRoom(env, s, key);
    FirstSlot(env, s, FirstLineOf(env));
    step := WriteStepAt(env, s, FirstActor(env), FirstLineOf(env), [RemarkCell(FirstColumn(env), text)], None);
    WriteIsMay(env, h, step);
  }

  lemma StillRoom(env: Env, s: Store, es: seq<Event>, step: Step)
    requires BookInv(env, s, es) && es == [] && Now(env, s, step) && step.Write? && step.prior.None?
    ensures RoomForEvents(env, Do(env, s, step), 1)
  {
    StepKept(env, s, es, step);
    HeadIs(env, Do(env, s, step), EventsAfter(env, s, es, step));
    AfterLength(env, s, es, step);
    WriteEventCount(env, s, step, None);
    NowNumbered(env, s, step);
    AnchorValue(env);
  }

  lemma PageUnmarked(env: Env, s: Store, es: seq<Event>, step: Step, page: byte)
    requires HeadOk(env, s, es) && Now(env, s, step) && step.Write? && s.rel == map[]
    ensures Row(Do(env, s, step), PageEntity(env, page)) == map[]
  {
    StepLands(env, s, es, step);
    NowRelates(env, s, step);
    UnrelatedRow(env, s, Do(env, s, step), Plain(env, step), |es|, Some(step.seal), PageEntity(env, page));
  }

  lemma UnrelatedRow(env: Env, s: Store, t: Store, p: Txn, n: nat, seal: Option<Seal>, a: Entity)
    requires Lands(env, s, t, p, n, seal) && a != Anchor(env) && a !in p.rel && s.rel == map[]
    ensures Row(t, a) == map[]
  {
    assert Row(t, a) == Row(s, a) + Forward(p, a);
  }

  lemma SignOffTrace(env: Env, h: seq<Store>, run: seq<Step>, page: byte, count: byte, j: nat, actor: Entity)
    returns (step: Step)
    requires Trace(env, h, run) && Signer(env, Current(h), actor) && RoomForEvents(env, Current(h), 1)
    requires FIRST_ENTRY_PAGE <= page && Row(Current(h), PageEntity(env, page)) == map[]
    requires Reached(env, Current(h), page) && PageCounter(env, Current(h), page).data == CounterData(2, 0)
    requires j < |h| && count == LinesOn(env, h[j], page)
    ensures step.SignOff? && step.page == page && step.link.fwd.data == [count] && May(env, h, step)
  {
    step := SignOffStepAt(env, Current(h), actor, page, count);
    assert step.link.fwd.data == [LinesOn(env, h[j], page)];
  }

  /** The page is signed off with the count read before its line was written: the record
      says none, and there is one. */
  lemma CountTooLow(env: Env, key: seq<byte>, name: seq<byte>, text: seq<byte>)
    returns (h: seq<Store>, run: seq<Step>, j: nat, n: nat, count: byte)
    requires |key| == PUBLIC_KEY_LEN && (forall payload :: CanSign(env, key, payload))
    requires 0 < |name| <= MAX_FIELD_LEN && 0 < |text| <= MAX_FIELD_LEN
    ensures Trace(env, h, run) && j <= n < |run| && run[n].SignOff? && FIRST_ENTRY_PAGE <= run[n].page
    ensures run[n].link.fwd.data == [count] && count == LinesOn(env, h[j], run[n].page)
    ensures count < LinesOn(env, h[n + 1], run[n].page)
  {
    var h2, run2 := Begun(env, key, name);
    var h3, run3 := LineThen(env, h2, run2, key, text);
    count := LinesOn(env, h2[2], FIRST_ENTRY_PAGE);
    assert h3[2] == h2[2];
    var step := SignOffTrace(env, h3, run3, FIRST_ENTRY_PAGE, count, 2, FirstActor(env));
    TraceMore(env, h3, run3, step, Do(env, Current(h3), step));
    h, run, j, n := h3 + [Do(env, Current(h3), step)], run3 + [step], 2, 3;
    SignOffCount(env, h, run, j, n, count);
    assert WritesOn(run[2], FIRST_ENTRY_PAGE);
  }

  lemma LineThen(env: Env, h: seq<Store>, run: seq<Step>, key: seq<byte>, text: seq<byte>)
    returns (g: seq<Store>, more: seq<Step>)
    requires Trace(env, h, run) && |run| == 2 && Started(env, Current(h), key) && Current(h).rel == map[]
    requires |key| == PUBLIC_KEY_LEN && (forall payload :: CanSign(env, key, payload)) && 0 < |text| <= MAX_FIELD_LEN
    ensures Trace(env, g, more) && |more| == 3 && g[..3] == h && WritesOn(more[2], FIRST_ENTRY_PAGE)
    ensures Signer(env, Current(g), FirstActor(env)) && RoomForEvents(env, Current(g), 1)
    ensures Row(Current(g), PageEntity(env, FIRST_ENTRY_PAGE)) == map[]
    ensures Reached(env, Current(g), FIRST_ENTRY_PAGE) &&
            PageCounter(env, Current(g), FIRST_ENTRY_PAGE).data == CounterData(2, 0)
  {
    var s := Current(h);
    TraceIsRun(env, h, run);
    EmptyInv(env);
    RunKept(env, Empty(), [], run);
    ReachableDictionary(env, run);
    var es := Told(env, Empty(), [], run);
    HeadIs(env, s, es);
    var step := LineTrace(env, h, run, key, text);
    StillRoom(env, s, es, step);
    PageUnmarked(env, s, es, step, FIRST_ENTRY_PAGE);
    CounterAfter(env, s, step);
    SignerStays(env, s, step, FirstActor(env));
    TraceMore(env, h, run, step, Do(env, s, step));
    g, more := h + [Do(env, s, step)], run + [step];
  }
}
