/** A journal through any sequence of its calls, among steps of other writers: every answer
    is the one it would give without remembering anything. */
module Sessions {
  import opened Common
  import opened Bytes
  import opened Entities
  import opened Records
  import opened Listings
  import opened Chain
  import opened Transactions
  import opened Sealing
  import opened Book
  import opened Growth
  import opened Acceptance
  import opened Preserve
  import opened Steps
  import opened Reach
  import opened Dictionary
  import opened Stability
  import opened Caches
  import opened Rows
  import opened Journals

  // What the stores of a session have in common.

  /** The step declares a term under the owner of the column names. */
  predicate UnderColumns(env: Env, step: Step) {
    step.Intern? && step.e.typ == TYPE_TERM && step.owner == FieldOwner(env)
  }

  /** No term is listed among the columns. */
  ghost predicate ColumnsOnly(env: Env, s: Store) {
    forall e: Entity | e.typ == TYPE_TERM :: !TermOf(s, e, FieldOwner(env))
  }

  /** The cells of every line point at terms and columns. */
  ghost predicate RowsRight(s: Store) {
    forall line: Entity | line.typ == TYPE_ENTRY :: RowRight(Row(s, line))
  }

  ghost predicate Good(env: Env, s: Store, es: seq<Event>) {
    BookInv(env, s, es) && DictInv(env, s) && ColumnsOnly(env, s) && RowsRight(s)
  }

  lemma ChainedTermOf(env: Env, s: Store, es: seq<Event>, step: Step, e: Entity, f: Entity)
    requires HeadOk(env, s, es) && DictInv(env, s) && Now(env, s, step) && Chains(step) && e.typ == TYPE_TERM
    ensures TermOf(Do(env, s, step), e, f) ==> TermOf(s, e, f)
  {
    StepLands(env, s, es, step);
    if step.Rename? {
      RenameLands(env, s, Do(env, s, step), |es|, step);
    } else {
      AloofRows(env, s, Do(env, s, step), |es|, Some(step.seal), step);
    }
  }

  lemma PlainTermOf(env: Env, s: Store, step: Step, e: Entity, f: Entity)
    requires DictInv(env, s) && Now(env, s, step) && !Chains(step) && e.typ == TYPE_TERM
    ensures TermOf(Do(env, s, step), e, f) ==> TermOf(s, e, f) || (step.Intern? && step.e == e && step.owner == f)
  {
    if step.Intern? {
      InternTermOf(env, s, step, e, f);
    } else {
      DoPlain(env, s, step);
      AloofRows(env, s, Do(env, s, step), HeadCount(env, s), None, step);
    }
  }

  lemma InternTermOf(env: Env, s: Store, step: Step, e: Entity, f: Entity)
    requires step.Intern?
    ensures TermOf(Do(env, s, step), e, f) ==> TermOf(s, e, f) || (step.e == e && step.owner == f)
  {
    RowAfter(s, Plain(env, step), e);
  }

  lemma ColumnsStep(env: Env, s: Store, es: seq<Event>, step: Step)
    requires HeadOk(env, s, es) && DictInv(env, s) && Now(env, s, step) && ColumnsOnly(env, s) &&
             !UnderColumns(env, step)
    ensures ColumnsOnly(env, Do(env, s, step))
  {
    forall e: Entity | e.typ == TYPE_TERM
      ensures !TermOf(Do(env, s, step), e, FieldOwner(env))
    {
      if Chains(step) {
        ChainedTermOf(env, s, es, step, e, FieldOwner(env));
      } else {
        PlainTermOf(env, s, step, e, FieldOwner(env));
      }
    }
  }

  lemma HeldRowRight(s: Store, line: Entity, cells: seq<Cell>)
    requires Holds(s, line, cells)
    ensures RowRight(Row(s, line))
  {
    forall b | b in Row(s, line)
      ensures PointsRight(b, Row(s, line)[b])
    {
      if IsCellKind(Row(s, line)[b].kind) {
        var c :| c in cells && Target(c) == b;
        assert CellOk(s, c) && HasCell(Row(s, line), c);
      }
    }
  }

  lemma OldRowRight(env: Env, s: Store, step: Step, line: Entity)
    requires Now(env, s, step) && line.typ == TYPE_ENTRY && line in s.decl && RowRight(Row(s, line))
    ensures RowRight(Row(Do(env, s, step), line))
  {
    NoCellAdded(env, s, step, line);
    var row := Row(Do(env, s, step), line);
    forall b | b in row
      ensures PointsRight(b, row[b])
    {
      assert IsCellKind(row[b].kind) ==> PointsRight(b, Row(s, line)[b]);
    }
  }

  lemma OnlyWriteDeclares(env: Env, s: Store, step: Step, line: Entity)
    requires Now(env, s, step) && line.typ == TYPE_ENTRY && line in Do(env, s, step).decl && line !in s.decl
    ensures step.Write? && step.line == line
  {
    NowTyped(env, s, step);
    LinesOf(env, step, Plain(env, step).decl, line);
    DeclAt(env, s, step, Plain(env, step).decl, line);
  }

  lemma LinesOf(env: Env, step: Step, d: map<Entity, Record>, line: Entity)
    requires Typed(step) && d == Plain(env, step).decl && line.typ == TYPE_ENTRY
    ensures line in d ==> step.Write? && step.line == line
  {
  }

  lemma RowsStep(env: Env, s: Store, es: seq<Event>, step: Step)
    requires BookInv(env, s, es) && DictInv(env, s) && Now(env, s, step) && RowsRight(s)
    ensures RowsRight(Do(env, s, step))
  {
    StepKept(env, s, es, step);
    var t := Do(env, s, step);
    forall line: Entity | line.typ == TYPE_ENTRY
      ensures RowRight(Row(t, line))
    {
      if line in s.decl {
        OldRowRight(env, s, step, line);
      } else if line in t.decl {
        OnlyWriteDeclares(env, s, step, line);
        Rows.WriteHolds(env, s, es, step);
        HeldRowRight(t, line, step.cells);
      } else {
        assert Row(t, line) == map[];
      }
    }
  }

  lemma GoodStep(env: Env, s: Store, es: seq<Event>, step: Step)
    requires Good(env, s, es) && Now(env, s, step) && !UnderColumns(env, step)
    ensures Good(env, Do(env, s, step), EventsAfter(env, s, es, step))
  {
    StepKept(env, s, es, step);
    StepDict(env, s, es, step);
    ColumnsStep(env, s, es, step);
    RowsStep(env, s, es, step);
  }

  lemma GoodStart(env: Env)
    ensures Good(env, Empty(), [])
  {
    EmptyInv(env);
    EmptyDict(env);
  }

  // Calls and what they answer.

  /** What happens next: the journal is asked something, needs a column or a term and
      perhaps declares it, renames something, or somebody else takes a step. */
  datatype Call =
    | AskInput(field: Entity)
    | AskName(field: Entity)
    | AskTerm(term: Entity)
    | AskRow(line: Entity)
    | NeedField(name: Text, wanted: Option<byte>, made: Option<Step>)
    | NeedTerm(field: Entity, text: Text, made: Option<Step>)
    | OwnRename(step: Step)
    | Elsewhere(step: Step)

  datatype Answer =
    | InputIs(input: Option<byte>)
    | NameIs(name: Option<Text>)
    | TermIs(info: Option<TermInfo>)
    | RowIs(row: Option<seq<RowCell>>)
    | EntityIs(e: Option<Entity>)
    | Done

  ghost function After(env: Env, s: Store, call: Call): Store {
    match call
    case NeedField(name, _, made) => Interning(env, s, FieldOwner(env), name, made)
    case NeedTerm(field, text, made) => Interning(env, s, field, text, made)
    case OwnRename(step) => Do(env, s, step)
    case Elsewhere(step) => Do(env, s, step)
    case _ => s
  }

  /** The steps are possible, nobody else renames, names are asked of columns only, and
      terms are not declared under the owner of the column names. */
  ghost predicate Allowed(env: Env, s: Store, call: Call) {
    match call
    case AskInput(_) => true
    case AskName(field) => field.typ == TYPE_FIELD
    case AskTerm(term) => term.typ == TYPE_TERM
    case AskRow(_) => true
    case NeedField(name, _, made) => Makes(env, s, FieldOwner(env), TYPE_FIELD, name, made)
    case NeedTerm(field, text, made) => field != FieldOwner(env) && Makes(env, s, field, TYPE_TERM, text, made)
    case OwnRename(step) => step.Rename? && Now(env, s, step)
    case Elsewhere(step) => !step.Rename? && !UnderColumns(env, step) && Now(env, s, step)
  }

  /** The answer read from the store t alone. */
  ghost predicate Right(env: Env, t: Store, call: Call, a: Answer) {
    match call
    case AskInput(field) => a == InputIs(ReadInput(t, field))
    case AskName(field) => a == NameIs(ReadName(t, field))
    case AskTerm(term) => a.TermIs? && RightTerm(t, term, a.info)
    case AskRow(line) => a.RowIs? && RightRow(t, line, a.row)
    case NeedField(name, wanted, _) => a == EntityIs(FieldRead(env, t, name, wanted))
    case NeedTerm(field, text, _) => a == EntityIs(TermRead(env, t, field, text))
    case OwnRename(_) => a == Done
    case Elsewhere(_) => a == Done
  }

  function TermRead(env: Env, s: Store, field: Entity, text: Text): Option<Entity> {
    if field.typ == TYPE_FIELD && text != [] then Holder(env, s, field, text) else None
  }

  ghost predicate RightTerm(s: Store, term: Entity, info: Option<TermInfo>) {
    && (info.Some? ==> info.value.term == term && IsTerm(s, term, info.value.field, info.value.text))
    && (info.None? ==> term !in s.decl || forall f | f != ZERO :: !TermOf(s, term, f))
  }

  ghost predicate RightRow(s: Store, line: Entity, row: Option<seq<RowCell>>) {
    && (row.Some? ==> ReadsAll(s, CellRels(Listing(Row(s, line), 1, ENTITY_COUNT)), row.value))
    && (row.None? ==> line.typ != TYPE_ENTRY || exists b :: b in Row(s, line) && !Showable(s, b, Row(s, line)[b]))
  }

  // One call.

  lemma GoodInterning(env: Env, s: Store, es: seq<Event>, owner: Entity, typ: byte, text: Text, made: Option<Step>)
    returns (es': seq<Event>)
    requires Good(env, s, es) && Makes(env, s, owner, typ, text, made) &&
             (typ == TYPE_TERM ==> owner != FieldOwner(env))
    ensures Good(env, Interning(env, s, owner, text, made), es')
  {
    es' := es;
    if made.Some? && Holder(env, s, owner, text).None? {
      GoodStep(env, s, es, made.value);
      es' := EventsAfter(env, s, es, made.value);
    }
  }

  lemma GoodAfter(env: Env, s: Store, es: seq<Event>, call: Call) returns (es': seq<Event>)
    requires Good(env, s, es) && Allowed(env, s, call)
    ensures Good(env, After(env, s, call), es')
  {
    match call
    case NeedField(name, _, made) => es' := GoodInterning(env, s, es, FieldOwner(env), TYPE_FIELD, name, made);
    case NeedTerm(field, text, made) => es' := GoodInterning(env, s, es, field, TYPE_TERM, text, made);
    case OwnRename(step) =>
      GoodStep(env, s, es, step);
      es' := EventsAfter(env, s, es, step);
    case Elsewhere(step) =>
      GoodStep(env, s, es, step);
      es' := EventsAfter(env, s, es, step);
    case _ => es' := es;
  }

  /** What is listed among the columns is a column. */
  lemma ColumnFound(env: Env, s: Store, name: Text)
    requires DictInv(env, s) && ColumnsOnly(env, s)
    ensures var e := Holder(env, s, FieldOwner(env), name); e.Some? ==> e.value.typ == TYPE_FIELD
  {
    var k := BucketKey(env, FieldOwner(env), name);
    var e := Holder(env, s, FieldOwner(env), name);
    FirstNamedIs(s, Candidates(s, k), name);
    if e.Some? {
      assert BucketOk(env, s, k, Candidates(s, k));
      assert ListedRight(env, s, k, e.value);
    }
  }

  lemma TermFound(env: Env, s: Store, field: Entity, text: Text)
    requires DictInv(env, s) && field.typ == TYPE_FIELD && field != FieldOwner(env)
    ensures var e := Holder(env, s, field, text); e.Some? ==> e.value.typ == TYPE_TERM
  {
    var k := BucketKey(env, field, text);
    var e := Holder(env, s, field, text);
    FirstNamedIs(s, Candidates(s, k), text);
    if e.Some? {
      assert BucketOk(env, s, k, Candidates(s, k));
      assert ListedRight(env, s, k, e.value);
    }
  }

  predicate Asks(call: Call) { call.AskInput? || call.AskName? || call.AskTerm? || call.AskRow? }

  /** A question answered. */
  method Ask(journal: Journal, s: Store, call: Call) returns (a: Answer)
    requires Coherent(s, journal.View()) && TermsOk(s) && RowsRight(s)
    requires Asks(call) && (call.AskName? ==> call.field.typ == TYPE_FIELD) &&
             (call.AskTerm? ==> call.term.typ == TYPE_TERM)
    modifies journal
    ensures Coherent(s, journal.View())
    ensures forall env :: Right(env, s, call, a)
  {
    match call
    case AskInput(field) =>
      var r := journal.FieldInput(s, field);
      return InputIs(r);
    case AskName(field) =>
      var r := journal.FieldName(s, field);
      return NameIs(r);
    case AskTerm(term) =>
      var r := journal.ResolveTerm(s, term);
      return TermIs(r);
    case AskRow(line) =>
      var r := journal.ReadRow(s, line);
      return RowIs(r);
  }

  /** A column or a term found or declared. */
  method Need(journal: Journal, env: Env, s: Store, t: Store, ghost es: seq<Event>, call: Call) returns (a: Answer)
    requires Coherent(s, journal.View()) && Good(env, s, es) && Allowed(env, s, call) && t == After(env, s, call)
    requires (call.NeedField? || call.NeedTerm?) && DictInv(env, t) && ColumnsOnly(env, t)
    modifies journal
    ensures Coherent(t, journal.View()) && Right(env, t, call, a)
  {
    match call
    case NeedField(name, wanted, made) =>
      var r := journal.Field(env, s, t, es, name, wanted, made);
      ColumnFound(env, t, name);
      return EntityIs(r);
    case NeedTerm(field, text, made) =>
      var r := journal.Term(env, s, es, field, text, made);
      if r.Some? { TermFound(env, t, field, text); }
      return EntityIs(r);
  }

  /** A rename of its own, or a step of somebody else. */
  method Note(journal: Journal, env: Env, s: Store, ghost es: seq<Event>, call: Call) returns (a: Answer)
    requires Coherent(s, journal.View()) && Good(env, s, es) && Allowed(env, s, call)
    requires call.OwnRename? || call.Elsewhere?
    modifies journal
    ensures Coherent(After(env, s, call), journal.View()) && a == Done
  {
    if call.OwnRename? {
      var step := call.step;
      RenameRenames(env, s, es, step);
      journal.RenameCached(s, Do(env, s, step), step.e, step.owner, s.decl[step.e].name, step.decl.name);
    } else {
      StepCoherent(env, s, es, call.step, journal.View());
    }
    return Done;
  }

  method Reply(journal: Journal, env: Env, s: Store, t: Store, ghost es: seq<Event>, call: Call)
    returns (a: Answer, ghost es': seq<Event>)
    requires Coherent(s, journal.View()) && Good(env, s, es) && Allowed(env, s, call) && t == After(env, s, call)
    modifies journal
    ensures Coherent(t, journal.View()) && Good(env, t, es') && Right(env, t, call, a)
  {
    es' := GoodAfter(env, s, es, call);
    if Asks(call) {
      a := Ask(journal, s, call);
    } else if call.NeedField? || call.NeedTerm? {
      a := Need(journal, env, s, t, es, call);
    } else {
      a := Note(journal, env, s, es, call);
    }
  }

  // A session.

  /** The stores a session goes through. */
  ghost predicate Session(env: Env, stores: seq<Store>, calls: seq<Call>) {
    && |stores| == |calls| + 1
    && forall i | 0 <= i < |calls| ::
       Allowed(env, stores[i], calls[i]) && stores[i + 1] == After(env, stores[i], calls[i])
  }

  ghost predicate AllRight(env: Env, stores: seq<Store>, calls: seq<Call>, answers: seq<Answer>)
    requires |answers| <= |calls| < |stores|
  {
    forall i | 0 <= i < |answers| :: Right(env, stores[i + 1], calls[i], answers[i])
  }

  lemma OneMoreRight(env: Env, stores: seq<Store>, calls: seq<Call>, answers: seq<Answer>, a: Answer)
    requires |answers| < |calls| < |stores| && AllRight(env, stores, calls, answers)
    requires Right(env, stores[|answers| + 1], calls[|answers|], a)
    ensures AllRight(env, stores, calls, answers + [a])
  {
  }

  /** Whatever a journal is asked and does, and whatever others do between short of renaming,
      each answer is the one read from the store as it is then. */
  method Serve(env: Env, stores: seq<Store>, ghost start: seq<Event>, calls: seq<Call>) returns (answers: seq<Answer>)
    requires Session(env, stores, calls) && Good(env, stores[0], start)
    ensures |answers| == |calls| && AllRight(env, stores, calls, answers)
  {
    var journal := new Journal();
    ghost var es := start;
    answers := [];
    for i := 0 to |calls|
      invariant |answers| == i && Coherent(stores[i], journal.View()) && Good(env, stores[i], es)
      invariant AllRight(env, stores, calls, answers)
    {
      var s, call := stores[i], calls[i];
      var a;
      a, es := Reply(journal, env, s, stores[i + 1], es, call);
      OneMoreRight(env, stores, calls, answers, a);
      answers := answers + [a];
    }
  }

  /** Every store a run reaches is one a session can start from, if no term was declared
      under the owner of the column names. */
  lemma {:induction false} GoodRun(env: Env, s: Store, es: seq<Event>, run: seq<Step>) returns (es': seq<Event>)
    requires Good(env, s, es) && Legal(env, s, run) && forall step | step in run :: !UnderColumns(env, step)
    ensures Good(env, Exec(env, s, run), es')
    decreases |run|
  {
    es' := es;
    if run != [] {
      GoodStep(env, s, es, run[0]);
      es' := GoodRun(env, Do(env, s, run[0]), EventsAfter(env, s, es, run[0]), run[1..]);
    }
  }

  lemma ReachableGood(env: Env, run: seq<Step>) returns (es: seq<Event>)
    requires Legal(env, Empty(), run) && forall step | step in run :: !UnderColumns(env, step)
    ensures Good(env, Exec(env, Empty(), run), es)
  {
    GoodStart(env);
    es := GoodRun(env, Empty(), [], run);
  }
}
