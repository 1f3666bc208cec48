/** A book with two units, one produced from the other: what is said of the two
    genealogies is said of something. */
module TwoUnits {
  import opened Common
  import opened Bytes
  import opened Entities
  import opened Records
  import opened Chain
  import opened Transactions
  import opened Sealing
  import opened Book
  import opened Allocation
  import opened Preserve
  import opened Reach
  import opened Dictionary
  import opened Stability
  import opened Caches
  import opened Progress
  import opened Genealogy
  import opened Recording
  import UnitLog
  import L = Lineage

  // Two terms of the first column.

  function UnitAt(env: Env, id: byte): Entity { Entity(env.log, SCHEMA_PAGE, TYPE_TERM, id) }

  function UnitCounter(env: Env): Entity { Counter(env, SCHEMA_PAGE, TYPE_TERM) }

  /** None or one of them is declared, and nobody touched the column. */
  ghost predicate UnitsSoFar(env: Env, s: Store, some: bool) {
    && (forall e | e in s.decl && e.typ == TYPE_TERM :: some && e == UnitAt(env, 1))
    && (some <==> UnitCounter(env) in s.decl) && (some ==> s.decl[UnitCounter(env)].data == CounterData(2, 0))
    && Row(s, FirstColumn(env)) == map[]
  }

  lemma CandidatesAre(env: Env, s: Store, text: seq<byte>)
    requires DictInv(env, s)
    ensures var cs := Candidates(s, BucketKey(env, FirstColumn(env), text));
            NoRepeat(cs) && forall c | c in cs :: c in s.decl && c.typ == TYPE_TERM && TermOf(s, c, FirstColumn(env))
  {
    var k := BucketKey(env, FirstColumn(env), text);
    var cs := Candidates(s, k);
    if k in s.pres {
      assert BucketOk(env, s, k, cs);
      forall c | c in cs
        ensures c in s.decl && c.typ == TYPE_TERM && TermOf(s, c, FirstColumn(env))
      {
        assert ListedRight(env, s, k, c);
      }
    }
  }

  lemma FewCandidates(env: Env, s: Store, some: bool, text: seq<byte>)
    requires DictInv(env, s) && UnitsSoFar(env, s, some)
    requires forall e | e in s.decl && e.typ == TYPE_TERM :: s.decl[e].name != text
    ensures Unheld(env, s, FirstColumn(env), text) && BucketHasRoom(env, s, FirstColumn(env), text)
  {
    CandidatesAre(env, s, text);
    var cs := Candidates(s, BucketKey(env, FirstColumn(env), text));
    AtMostOne(cs, UnitAt(env, 1));
  }

  lemma AtMostOne<T>(xs: seq<T>, x: T)
    requires NoRepeat(xs) && forall y | y in xs :: y == x
    ensures |xs| <= 1
  {
    CountElements(xs);
    assert Elements(xs) == {} || Elements(xs) == {x};
  }

  lemma NextIsFree(env: Env, s: Store, some: bool)
    requires UnitsSoFar(env, s, some)
    ensures IsSlot(env, s, SCHEMA_PAGE, UnitAt(env, if some then 2 else 1))
  {
    var id: byte := if some then 2 else 1;
    assert FirstFree(env, s, SCHEMA_PAGE, TYPE_TERM, id) == id;
  }

  lemma NextUnit(env: Env, s: Store, some: bool, text: seq<byte>) returns (step: Step)
    requires DictInv(env, s) && UnitsSoFar(env, s, some) && Signer(env, s, FirstActor(env))
    requires 0 < |text| <= MAX_FIELD_LEN && forall e | e in s.decl && e.typ == TYPE_TERM :: s.decl[e].name != text
    ensures InternsTerm(step, FirstColumn(env), text) && step.e == UnitAt(env, if some then 2 else 1)
    ensures Now(env, s, step)
  {
    FewCandidates(env, s, some, text);
    NextIsFree(env, s, some);
    step := TermStepAt(env, s, FirstActor(env), FirstColumn(env), text, UnitAt(env, if some then 2 else 1));
  }

  lemma OneSoFar(env: Env, s: Store, step: Step)
    requires UnitsSoFar(env, s, false) && step.Intern? && step.e == UnitAt(env, 1) && Now(env, s, step)
    ensures UnitsSoFar(env, Do(env, s, step), true)
  {
    DeclAfter(env, s, step);
    RowAfter(s, Plain(env, step), FirstColumn(env));
  }

  // The run.

  lemma {:induction false} FollowsFirst(env: Env, s: Store, column: Entity, step: Step, c: Option<UnitLog.Call>,
                                        run: seq<Step>, calls: seq<Option<UnitLog.Call>>)
    requires Now(env, s, step) && Marked(s, column, step, c) && Follows(env, Do(env, s, step), column, run, calls)
    ensures Follows(env, s, column, [step] + run, [c] + calls)
    ensures Exec(env, s, [step] + run) == Exec(env, Do(env, s, step), run)
  {
    assert ([step] + run)[1..] == run && ([c] + calls)[1..] == calls;
  }

  lemma {:induction false} AllBeside(env: Env, s: Store, column: Entity, run: seq<Step>)
    returns (calls: seq<Option<UnitLog.Call>>)
    requires Legal(env, s, run) && forall step | step in run :: !step.Derive? && !step.Rename?
    ensures Follows(env, s, column, run, calls) && Executions(calls) == []
    decreases |run|
  {
    if run == [] {
      calls := [];
    } else {
      var rest := AllBeside(env, Do(env, s, run[0]), column, run[1..]);
      FollowsFirst(env, s, column, run[0], None, run[1..], rest);
      Whole(run);
      calls := [None] + rest;
      assert calls[1..] == rest;
    }
  }

  lemma Whole<T>(xs: seq<T>)
    requires xs != []
    ensures [xs[0]] + xs[1..] == xs
  {
  }

  lemma {:induction false} FollowsThen(env: Env, s: Store, column: Entity, run: seq<Step>,
                                       calls: seq<Option<UnitLog.Call>>, step: Step, c: Option<UnitLog.Call>)
    requires Follows(env, s, column, run, calls) && Now(env, Exec(env, s, run), step)
    requires Marked(Exec(env, s, run), column, step, c)
    ensures Follows(env, s, column, run + [step], calls + [c])
    ensures Exec(env, s, run + [step]) == Do(env, Exec(env, s, run), step)
    decreases |run|
  {
    if run == [] {
      FollowsFirst(env, s, column, step, c, [], []);
      assert [step] + [] == run + [step] && [c] + [] == calls + [c];
    } else {
      FollowsThen(env, Do(env, s, run[0]), column, run[1..], calls[1..], step, c);
      FollowsFirst(env, s, column, run[0], calls[0], run[1..] + [step], calls[1..] + [c]);
      AfterHead(run, step);
      AfterHead(calls, c);
    }
  }

  lemma {:induction false} ExecutionsThen(calls: seq<Option<UnitLog.Call>>, c: Option<UnitLog.Call>)
    ensures Executions(calls + [c]) == Executions(calls) + if c.Some? then [c.value] else []
  {
    if calls != [] {
      ExecutionsThen(calls[1..], c);
      assert (calls + [c])[1..] == calls[1..] + [c];
    }
  }

  lemma OneLogged(c: UnitLog.Call, u: UnitLog.Id, v: UnitLog.Id) returns (log: seq<UnitLog.Entry>)
    requires c.outputs == [u] && c.inputs == [v] && UnitLog.ValidId(u) && UnitLog.ValidId(v)
    ensures UnitLog.Relates([], log, c)
  {
    var none: seq<UnitLog.Id> := [];
    var made := [] + [UnitLog.Entry(u, UnitLog.Output, UnitLog.Joined([v]))];
    log := made + [UnitLog.Entry(v, UnitLog.Input, UnitLog.Joined([u]))];
    UnitLog.EntryAdds([], [], none, UnitLog.Output, c.inputs, u);
    UnitLog.EntryAdds(made, made, none, UnitLog.Input, c.outputs, v);
    assert none + [u] == c.outputs && none + [v] == c.inputs;
    UnitLog.BothSides([], made, log, c);
  }

  ghost predicate Arrived(env: Env, run: seq<Step>, calls: seq<Option<UnitLog.Call>>, s: Store) {
    Follows(env, Empty(), FirstColumn(env), run, calls) && s == Exec(env, Empty(), run)
  }

  lemma StepOn(env: Env, run: seq<Step>, calls: seq<Option<UnitLog.Call>>, s: Store, step: Step,
               c: Option<UnitLog.Call>)
    requires Arrived(env, run, calls, s) && Now(env, s, step) && Marked(s, FirstColumn(env), step, c)
    ensures Arrived(env, run + [step], calls + [c], Do(env, s, step))
  {
    FollowsThen(env, Empty(), FirstColumn(env), run, calls, step, c);
  }

  lemma ArrivedDict(env: Env, run: seq<Step>, calls: seq<Option<UnitLog.Call>>, s: Store) returns (es: seq<Event>)
    requires Arrived(env, run, calls, s)
    ensures DictInv(env, s) && BookInv(env, s, es)
  {
    FollowsIsLegal(env, Empty(), FirstColumn(env), run, calls);
    ReachableDictionary(env, run);
    EmptyInv(env);
    RunKept(env, Empty(), [], run);
    es := Told(env, Empty(), [], run);
  }

  lemma DeclareUnit(env: Env, run: seq<Step>, calls: seq<Option<UnitLog.Call>>, s: Store, some: bool, text: seq<byte>)
    returns (step: Step)
    requires Arrived(env, run, calls, s) && UnitsSoFar(env, s, some) && Signer(env, s, FirstActor(env))
    requires 0 < |text| <= MAX_FIELD_LEN && forall e | e in s.decl && e.typ == TYPE_TERM :: s.decl[e].name != text
    ensures InternsTerm(step, FirstColumn(env), text) && step.e == UnitAt(env, if some then 2 else 1)
    ensures Now(env, s, step) && Arrived(env, run + [step], calls + [None], Do(env, s, step))
    ensures IsTerm(Do(env, s, step), step.e, FirstColumn(env), text) && Signer(env, Do(env, s, step), FirstActor(env))
  {
    var es := ArrivedDict(env, run, calls, s);
    step := NextUnit(env, s, some, text);
    StepOn(env, run, calls, s, step, None);
    InternedIsRead(env, s, step);
    SignerStays(env, s, step, FirstActor(env));
  }

  lemma StartedUnits(env: Env, s: Store, key: seq<byte>)
    requires Started(env, s, key) && s.rel == map[]
    requires |key| == PUBLIC_KEY_LEN && forall payload :: CanSign(env, key, payload)
    ensures UnitsSoFar(env, s, false) && Signer(env, s, FirstActor(env))
  {
  }

  /** What the two units say of themselves. */
  ghost predicate BothDeclared(env: Env, s: Store, u: UnitLog.Id, v: UnitLog.Id) {
    && IsTerm(s, UnitAt(env, 1), FirstColumn(env), u) && IsTerm(s, UnitAt(env, 2), FirstColumn(env), v)
    && Signer(env, s, FirstActor(env))
  }

  lemma SecondUnit(env: Env, run: seq<Step>, calls: seq<Option<UnitLog.Call>>, s: Store, u: UnitLog.Id, v: UnitLog.Id)
    returns (step: Step)
    requires Arrived(env, run, calls, s) && UnitsSoFar(env, s, true) && Signer(env, s, FirstActor(env))
    requires IsTerm(s, UnitAt(env, 1), FirstColumn(env), u) && 0 < |v| <= MAX_FIELD_LEN && u != v
    ensures Now(env, s, step) && Arrived(env, run + [step], calls + [None], Do(env, s, step))
    ensures BothDeclared(env, Do(env, s, step), u, v)
  {
    var es := ArrivedDict(env, run, calls, s);
    step := DeclareUnit(env, run, calls, s, true, v);
    UnitStep(env, s, es, FirstColumn(env), step, UnitAt(env, 1), u);
  }

  /** Two units are declared under different ids. */
  lemma DeclareTwo(env: Env, key: seq<byte>, name: seq<byte>, u: UnitLog.Id, v: UnitLog.Id)
    returns (run: seq<Step>, calls: seq<Option<UnitLog.Call>>, s: Store)
    requires |key| == PUBLIC_KEY_LEN && (forall payload :: CanSign(env, key, payload)) && 0 < |name| <= MAX_FIELD_LEN
    requires 0 < |u| <= MAX_FIELD_LEN && 0 < |v| <= MAX_FIELD_LEN && u != v
    ensures Arrived(env, run, calls, s) && Executions(calls) == [] && BothDeclared(env, s, u, v)
  {
    var begun := Starts(env, key, name);
    var none := AllBeside(env, Empty(), FirstColumn(env), begun);
    var s0 := Exec(env, Empty(), begun);
    StartedUnits(env, s0, key);
    var one := DeclareUnit(env, begun, none, s0, false, u);
    OneSoFar(env, s0, one);
    var s1 := Do(env, s0, one);
    var two := SecondUnit(env, begun + [one], none + [None], s1, u, v);
    run, calls, s := begun + [one] + [two], none + [None] + [None], Do(env, s1, two);
    ExecutionsThen(none, None);
    ExecutionsThen(none + [None], None);
  }

  lemma RecordOne(env: Env, run: seq<Step>, calls: seq<Option<UnitLog.Call>>, s: Store, c: UnitLog.Call)
    returns (step: Step)
    requires |c.outputs| == |c.inputs| == 1 && c.outputs != c.inputs
    requires Arrived(env, run, calls, s) && BothDeclared(env, s, c.outputs[0], c.inputs[0])
    ensures Now(env, s, step) && RecordsCall(s, FirstColumn(env), step, c)
    ensures Arrived(env, run + [step], calls + [Some(c)], Do(env, s, step))
  {
    forall id | id in c.inputs + c.outputs
      ensures Held(s, FirstColumn(env), id)
    {
      assert IsTerm(s, if id == c.outputs[0] then UnitAt(env, 1) else UnitAt(env, 2), FirstColumn(env), id);
    }
    step := RecordStep(env, s, FirstActor(env), FirstColumn(env), UnitAt(env, 1), c);
    StepOn(env, run, calls, s, step, Some(c));
  }

  lemma LogOne(c: UnitLog.Call) returns (logs: seq<seq<UnitLog.Entry>>)
    requires |c.outputs| == |c.inputs| == 1 && UnitLog.Accepted(c)
    ensures Logged([c], logs)
  {
    assert c.outputs[0] in c.inputs + c.outputs && c.inputs[0] in c.inputs + c.outputs;
    var log := OneLogged(c, c.outputs[0], c.inputs[0]);
    logs := [[], log];
  }

  lemma StoredPair(env: Env, s: Store, step: Step, c: UnitLog.Call)
    requires |c.outputs| == |c.inputs| == 1 && BothDeclared(env, s, c.outputs[0], c.inputs[0])
    requires RecordsCall(s, FirstColumn(env), step, c) && Now(env, s, step)
    ensures Derives(Do(env, s, step), UnitAt(env, 1), UnitAt(env, 2))
  {
    assert OfCall(c)(c.outputs[0], c.inputs[0]);
    assert Paired(s, FirstColumn(env), OfCall(c), UnitAt(env, 1), UnitAt(env, 2));
    DeriveStep(env, s, step, UnitAt(env, 1), UnitAt(env, 2));
  }

  /** An execution that produces one unit from another is recorded in a book and in the log
      of units: all that the comparison of the two requires is met, with an edge to walk. */
  lemma BothRecord(env: Env, key: seq<byte>, name: seq<byte>, c: UnitLog.Call)
    returns (run: seq<Step>, calls: seq<Option<UnitLog.Call>>, logs: seq<seq<UnitLog.Entry>>)
    requires |key| == PUBLIC_KEY_LEN && (forall payload :: CanSign(env, key, payload)) && 0 < |name| <= MAX_FIELD_LEN
    requires |c.outputs| == |c.inputs| == 1 && c.outputs != c.inputs && UnitLog.Accepted(c)
    requires |c.outputs[0]| <= MAX_FIELD_LEN && |c.inputs[0]| <= MAX_FIELD_LEN
    ensures Follows(env, Empty(), FirstColumn(env), run, calls) && Executions(calls) == [c] && Logged([c], logs)
    ensures var s := Exec(env, Empty(), run);
            && UnitAt(env, 1) in UnitsOf(s, FirstColumn(env)) && Derives(s, UnitAt(env, 1), UnitAt(env, 2))
            && ReadsParents(Parents(s), s) && ReadsChildren(Children(s), s)
  {
    ValidSides(c);
    var before, marks, s := DeclareTwo(env, key, name, c.outputs[0], c.inputs[0]);
    var step := RecordOne(env, before, marks, s, c);
    run, calls := before + [step], marks + [Some(c)];
    ExecutionsThen(marks, Some(c));
    assert [] + [c] == [c];
    StoredPair(env, s, step, c);
    var es := ArrivedDict(env, before, marks, s);
    UnitStep(env, s, es, FirstColumn(env), step, UnitAt(env, 1), c.outputs[0]);
    FollowsIsLegal(env, Empty(), FirstColumn(env), run, calls);
    ListingReads(env, run);
    logs := LogOne(c);
  }

  lemma ValidSides(c: UnitLog.Call)
    requires |c.outputs| == |c.inputs| == 1 && UnitLog.Accepted(c)
    ensures c.outputs[0] != [] && c.inputs[0] != []
  {
    assert c.outputs[0] in c.inputs + c.outputs && c.inputs[0] in c.inputs + c.outputs;
  }
}
