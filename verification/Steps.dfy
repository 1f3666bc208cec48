/** The invariant of the chain, step by step. */
module Steps {
  import opened Common
  import opened Bytes
  import opened Entities
  import opened Records
  import opened Listings
  import opened Chain
  import opened Transactions
  import opened Sealing
  import opened Book
  import opened Growth
  import opened Allocation
  import opened Acceptance
  import opened Preserve

  lemma HeadIs(env: Env, s: Store, es: seq<Event>)
    requires HeadOk(env, s, es)
    ensures HeadCount(env, s) == |es| && HeadDigest(env, s) == Previous(es, |es|)
  {
  }

  predicate EntryShapes(env: Env, xs: seq<Entry>) {
    forall j | 0 <= j < |xs| :: ShapeOk(env, xs[j].tag, xs[j].subject, xs[j].party)
  }

  lemma {:induction false} ShapesAfter(env: Env, es: seq<Event>, xs: seq<Entry>, seal: Seal)
    requires ShapesOk(env, es) && EntryShapes(env, xs) && |seal.links| == |xs| && 1 <= |xs| <= 2
    ensures ShapesOk(env, Extended(env, es, xs, seal))
  {
    ExtendedParts(env, es, xs, seal);
    var fs := Extended(env, es, xs, seal);
    forall i | 0 <= i < |fs|
      ensures ShapeOk(env, fs[i].tag, fs[i].subject, fs[i].party)
    {
      if i < |es| {
        assert fs[i] == fs[..|es|][i];
      } else {
        assert fs[|es| + (i - |es|)] == NewEvent(env, Previous(es, |es|), |es|, xs, seal.links[i - |es|], i - |es|);
      }
    }
  }

  lemma SealAuthors(env: Env, s: Store, previous: seq<byte>, n: nat, xs: seq<Entry>, seal: Seal)
    requires SealFits(env, s, previous, n, xs, seal)
    ensures forall j | 0 <= j < |seal.links| :: seal.links[j].fwd.author.typ == TYPE_ACTOR
  {
    forall j: nat | j < |seal.links|
      ensures seal.links[j].fwd.author.typ == TYPE_ACTOR
    {
      assert LinkFits(env, s, previous, n, xs, seal.links[j], j);
    }
  }

  lemma KeptSpelling(env: Env, s: Store, t: Store, es: seq<Event>, xs: seq<Entry>, p: Txn, seal: Seal)
    requires Extends(env, s, es, xs, seal) && Lands(env, s, t, p, |es|, Some(seal))
    ensures Spells(LinkRow(env, t), Extended(env, es, xs, seal))
  {
    SpellsAfter(env, s, t, es, xs, seal);
  }

  lemma KeptHead(env: Env, s: Store, t: Store, es: seq<Event>, xs: seq<Entry>, p: Txn, seal: Seal)
    requires Extends(env, s, es, xs, seal) && Lands(env, s, t, p, |es|, Some(seal))
    ensures HeadOk(env, t, Extended(env, es, xs, seal))
  {
    DigestLength(env, s, es);
    HeadAfter(env, s, t, es, xs, seal);
  }

  lemma KeptRecords(env: Env, s: Store, t: Store, es: seq<Event>, xs: seq<Entry>, p: Txn, seal: Seal)
    requires AuthorsOk(s) && NoOrphans(s) && SealFits(env, s, Previous(es, |es|), |es|, xs, seal)
    requires Lands(env, s, t, p, |es|, Some(seal)) && Attributed(p)
    requires forall a: Entity | a in p.rel && a.typ == TYPE_ENTRY :: a in t.decl
    ensures AuthorsOk(t) && NoOrphans(t)
  {
    SealAuthors(env, s, Previous(es, |es|), |es|, xs, seal);
    AuthorsAfter(env, s, t, p, |es|, Some(seal));
    OrphansAfter(env, s, t, p, |es|, Some(seal));
  }

  /** What is left to show of a step once its entries are known to hold. */
  lemma {:induction false} ChainKept(env: Env, s: Store, t: Store, es: seq<Event>, xs: seq<Entry>, p: Txn, seal: Seal)
    requires Extends(env, s, es, xs, seal) && Lands(env, s, t, p, |es|, Some(seal)) && Grows(s, t)
    requires (forall j | 0 <= j < |xs| :: EntryHolds(env, t, xs[j])) && EntryShapes(env, xs)
    requires Attributed(p) && forall a: Entity | a in p.rel && a.typ == TYPE_ENTRY :: a in t.decl
    requires StatesMatch(env, t, Extended(env, es, xs, seal)) && LinesChained(t, Extended(env, es, xs, seal))
    ensures ChainInv(env, t, Extended(env, es, xs, seal))
  {
    KeptSpelling(env, s, t, es, xs, p, seal);
    KeptHead(env, s, t, es, xs, p, seal);
    KeptRecords(env, s, t, es, xs, p, seal);
    AllGoodAfter(env, s, t, es, xs, seal);
    ShapesAfter(env, es, xs, seal);
  }

  // What each step writes, once it has landed.

  /** The record written at (a, b) is there, and verifies. */
  lemma WrittenHolds(env: Env, s: Store, t: Store, p: Txn, n: nat, seal: Option<Seal>, a: Entity, b: Entity, tag: byte)
    requires Lands(env, s, t, p, n, seal) && KeepsKeys(s, t) && a != Anchor(env) && b != ZERO
    requires a in p.rel && b in p.rel[a] && Signed(env, s, RelKey(a, b), p.rel[a][b].fwd)
    requires tag != EVENT_LINE && !MutableTag(tag)
    ensures EntryHolds(env, t, Entry(tag, a, b, Encode(p.rel[a][b].fwd), []))
  {
    assert Row(t, a) == Row(s, a) + Forward(p, a);
    KeyKept(env, s, t, RelKey(a, b), p.rel[a][b].fwd);
  }

  lemma RowSigned(env: Env, s: Store, line: Entity, cells: seq<Cell>, prior: Option<Strike>, row: map<Entity, Link>,
                  b: Entity)
    requires RowOk(env, s, line, cells, prior, row) && b in row
    ensures Signed(env, s, RelKey(line, b), row[b].fwd)
  {
    if exists c :: c in cells && Target(c) == b {
      var c :| c in cells && Target(c) == b;
      assert LinkOk(env, s, line, Target(c), row[Target(c)], CellKind(c));
    }
  }

  lemma LineHolds(env: Env, s: Store, t: Store, p: Txn, n: nat, seal: Option<Seal>, line: Entity,
                  row: map<Entity, Link>)
    requires Lands(env, s, t, p, n, seal) && KeepsKeys(s, t) && line.typ == TYPE_ENTRY
    requires line in p.decl && line in t.decl && t.decl[line] == p.decl[line] &&
             Signed(env, s, DeclKey(line), p.decl[line])
    requires line in p.rel && p.rel[line] == row && Row(s, line) == map[]
    requires forall b | b in row :: Signed(env, s, RelKey(line, b), row[b].fwd)
    ensures EntryHolds(env, t, Entry(EVENT_LINE, line, ZERO, ContentBytes(line, Content(Forwards(row))), []))
  {
    assert Row(t, line) == Row(s, line) + Forward(p, line);
    assert Row(t, line) == Forwards(row);
    KeyKept(env, s, t, DeclKey(line), p.decl[line]);
    forall b | b in ContentRow(t, line)
      ensures Verified(env, t, RelKey(line, b), ContentRow(t, line)[b])
    {
      KeyKept(env, s, t, RelKey(line, b), row[b].fwd);
    }
  }

  // Steps that touch no name and no vocabulary.

  predicate QuietDecl(p: Txn) {
    forall x | x in p.decl :: x.typ != TYPE_FIELD && x.typ != TYPE_TERM
  }

  predicate QuietRel(p: Txn) {
    forall a | a in p.rel :: a.typ != TYPE_FIELD
  }

  lemma QuietKeeps(env: Env, s: Store, t: Store, p: Txn, n: nat, seal: Option<Seal>)
    requires Lands(env, s, t, p, n, seal) && QuietDecl(p) && QuietRel(p)
    ensures KeepsNames(s, t, ZERO) && KeepsStates(env, s, t, ZERO)
  {
    forall f: Entity | f.typ == TYPE_FIELD
      ensures Row(t, f) == Row(s, f)
    {
      assert Row(t, f) == Row(s, f) + Forward(p, f);
    }
  }

  lemma {:induction false} StatesAfter(env: Env, s: Store, t: Store, es: seq<Event>, xs: seq<Entry>, seal: Seal)
    requires AuthorsOk(s) && ShapesOk(env, es) && StatesMatch(env, s, es)
    requires KeepsKeys(s, t) && KeepsNames(s, t, ZERO) && KeepsStates(env, s, t, ZERO)
    requires |seal.links| == |xs| && 1 <= |xs| <= 2 && forall j | 0 <= j < |xs| :: !MutableTag(xs[j].tag)
    ensures StatesMatch(env, t, Extended(env, es, xs, seal))
  {
    StatesStay(env, s, t, es);
    var e := NewEvent(env, Previous(es, |es|), |es|, xs, seal.links[0], 0);
    StatesMore(env, t, es, e);
    if |xs| == 2 {
      var f := NewEvent(env, Previous(es, |es|), |es|, xs, seal.links[1], 1);
      StatesMore(env, t, es + [e], f);
      AppendTwo(es, e, f);
    }
  }

  lemma {:induction false} LinesAfterOne(env: Env, es: seq<Event>, xs: seq<Entry>, seal: Seal)
    requires |seal.links| == |xs| == 1
    ensures LineSubjects(Extended(env, es, xs, seal)) == LineSubjects(es) + if xs[0].tag == EVENT_LINE
            then {xs[0].subject} else {}
  {
    LinesMore(es, NewEvent(env, Previous(es, |es|), |es|, xs, seal.links[0], 0));
  }

  lemma {:induction false} LinesAfterTwo(env: Env, es: seq<Event>, xs: seq<Entry>, seal: Seal)
    requires |seal.links| == |xs| == 2 && xs[1].tag != EVENT_LINE
    ensures LineSubjects(Extended(env, es, xs, seal)) == LineSubjects(es) + if xs[0].tag == EVENT_LINE
            then {xs[0].subject} else {}
  {
    var e := NewEvent(env, Previous(es, |es|), |es|, xs, seal.links[0], 0);
    var f := NewEvent(env, Previous(es, |es|), |es|, xs, seal.links[1], 1);
    LinesMore(es, e);
    LinesMore(es + [e], f);
    AppendTwo(es, e, f);
  }

  lemma NoteStates(env: Env, s: Store, t: Store, es: seq<Event>, xs: seq<Entry>, p: Txn, seal: Seal)
    requires AuthorsOk(s) && ShapesOk(env, es) && StatesMatch(env, s, es) && KeepsKeys(s, t)
    requires Lands(env, s, t, p, |es|, Some(seal)) && QuietDecl(p) && QuietRel(p)
    requires |seal.links| == |xs| && 1 <= |xs| <= 2 && forall j | 0 <= j < |xs| :: !MutableTag(xs[j].tag)
    ensures StatesMatch(env, t, Extended(env, es, xs, seal))
  {
    QuietKeeps(env, s, t, p, |es|, Some(seal));
    StatesAfter(env, s, t, es, xs, seal);
  }

  lemma NoteLines(env: Env, s: Store, t: Store, es: seq<Event>, xs: seq<Entry>, p: Txn, seal: Seal)
    requires LinesChained(s, es) && Lands(env, s, t, p, |es|, Some(seal))
    requires forall y | y in p.decl :: y.typ != TYPE_ENTRY
    requires |seal.links| == |xs| == 1 && xs[0].tag != EVENT_LINE
    ensures LinesChained(t, Extended(env, es, xs, seal))
  {
    LinesAfterOne(env, es, xs, seal);
  }

  /** A mark on a line or a page: one record, one event. */
  ghost predicate IsNote(env: Env, s: Store, xs: seq<Entry>, p: Txn) {
    && |xs| == 1 && xs[0].tag != EVENT_LINE && EntryShapes(env, xs)
    && (forall j | 0 <= j < |xs| :: !MutableTag(xs[j].tag))
    && Attributed(p) && QuietDecl(p) && QuietRel(p)
    && (forall y | y in p.decl :: y.typ != TYPE_ENTRY)
    && (forall a: Entity | a in p.rel && a.typ == TYPE_ENTRY :: a in s.decl)
  }

  lemma {:induction false} NoteKept(env: Env, s: Store, t: Store, es: seq<Event>, xs: seq<Entry>, p: Txn, seal: Seal)
    requires Extends(env, s, es, xs, seal) && Lands(env, s, t, p, |es|, Some(seal)) && Grows(s, t)
    requires IsNote(env, s, xs, p)
    requires forall j | 0 <= j < |xs| :: EntryHolds(env, t, xs[j])
    ensures ChainInv(env, t, Extended(env, es, xs, seal))
  {
    NoteStates(env, s, t, es, xs, p, seal);
    NoteLines(env, s, t, es, xs, p, seal);
    ChainKept(env, s, t, es, xs, p, seal);
  }

  lemma SingleHolds(env: Env, t: Store, xs: seq<Entry>)
    requires |xs| == 1 && EntryHolds(env, t, xs[0])
    ensures forall j | 0 <= j < |xs| :: EntryHolds(env, t, xs[j])
  {
    forall j | 0 <= j < |xs|
      ensures EntryHolds(env, t, xs[j])
    {
      assert j == 0;
    }
  }

  lemma PairHolds(env: Env, t: Store, xs: seq<Entry>)
    requires |xs| == 2 && EntryHolds(env, t, xs[0]) && EntryHolds(env, t, xs[1])
    ensures forall j | 0 <= j < |xs| :: EntryHolds(env, t, xs[j])
  {
    forall j | 0 <= j < |xs|
      ensures EntryHolds(env, t, xs[j])
    {
      assert j == 0 || j == 1;
    }
  }

  // The steps that chain an event.

  lemma VoidIsNote(env: Env, s: Store, step: Step)
    requires step.Void? && StrikeOk(env, s, step.strike, KIND_VOIDED)
    ensures IsNote(env, s, Entries(env, s, step), Plain(env, step))
  {
  }

  lemma VoidHolds(env: Env, s: Store, t: Store, n: nat, step: Step)
    requires step.Void? && StrikeOk(env, s, step.strike, KIND_VOIDED)
    requires Lands(env, s, t, Plain(env, step), n, Some(step.seal)) && KeepsKeys(s, t)
    ensures forall j | 0 <= j < |Entries(env, s, step)| :: EntryHolds(env, t, Entries(env, s, step)[j])
  {
    WrittenHolds(env, s, t, Plain(env, step), n, Some(step.seal), step.strike.line, Marker(env), EVENT_STRIKE);
    SingleHolds(env, t, Entries(env, s, step));
  }

  lemma CountersignIsNote(env: Env, s: Store, step: Step)
    requires step.Countersign? && CountersignNow(env, s, step.line, step.actor, step.link)
    ensures IsNote(env, s, Entries(env, s, step), Plain(env, step))
  {
  }

  lemma CountersignHolds(env: Env, s: Store, t: Store, n: nat, step: Step)
    requires step.Countersign? && CountersignNow(env, s, step.line, step.actor, step.link)
    requires Lands(env, s, t, Plain(env, step), n, Some(step.seal)) && KeepsKeys(s, t)
    ensures forall j | 0 <= j < |Entries(env, s, step)| :: EntryHolds(env, t, Entries(env, s, step)[j])
  {
    WrittenHolds(env, s, t, Plain(env, step), n, Some(step.seal), step.line, step.actor, EVENT_COUNTERSIGN);
    SingleHolds(env, t, Entries(env, s, step));
  }

  lemma SignOffIsNote(env: Env, s: Store, step: Step)
    requires step.SignOff? && SignOffNow(env, s, step.page, step.counter, step.link)
    ensures IsNote(env, s, Entries(env, s, step), Plain(env, step))
  {
  }

  lemma SignOffHolds(env: Env, s: Store, t: Store, n: nat, step: Step)
    requires step.SignOff? && SignOffNow(env, s, step.page, step.counter, step.link)
    requires Lands(env, s, t, Plain(env, step), n, Some(step.seal)) && KeepsKeys(s, t)
    ensures forall j | 0 <= j < |Entries(env, s, step)| :: EntryHolds(env, t, Entries(env, s, step)[j])
  {
    WrittenHolds(env, s, t, Plain(env, step), n, Some(step.seal), PageEntity(env, step.page), Marker(env),
                 EVENT_SIGNOFF);
    SingleHolds(env, t, Entries(env, s, step));
  }

  // Writing a line, alone or in place of another.

  lemma WriteTxn(env: Env, s: Store, step: Step)
    requires step.Write? && WriteNow(env, s, step.line, step.decl, step.counter, step.cells, step.row, step.prior)
    ensures var p := Plain(env, step);
            && Attributed(p) && QuietDecl(p) && QuietRel(p)
            && (forall a: Entity | a in p.rel && a.typ == TYPE_ENTRY :: a in s.decl || a == step.line)
            && (forall y: Entity | y in p.decl && y.typ == TYPE_ENTRY :: y == step.line)
            && step.line in p.decl
  {
    forall b | b in step.row
      ensures step.row[b].fwd.author.typ == TYPE_ACTOR
    {
      RowSigned(env, s, step.line, step.cells, step.prior, step.row, b);
    }
  }

  lemma WriteShapes(env: Env, s: Store, step: Step)
    requires step.Write? && step.line.typ == TYPE_ENTRY &&
             (step.prior.Some? ==> step.prior.value.line.typ == TYPE_ENTRY)
    ensures EntryShapes(env, Entries(env, s, step))
    ensures forall j | 0 <= j < |Entries(env, s, step)| :: !MutableTag(Entries(env, s, step)[j].tag)
  {
  }

  lemma WriteLineHolds(env: Env, s: Store, t: Store, n: nat, step: Step)
    requires step.Write? && WriteNow(env, s, step.line, step.decl, step.counter, step.cells, step.row, step.prior)
    requires Lands(env, s, t, Plain(env, step), n, Some(step.seal)) && KeepsKeys(s, t) && Row(s, step.line) == map[]
    requires step.prior.Some? ==> step.prior.value.line != step.line
    ensures EntryHolds(env, t, Entries(env, s, step)[0])
  {
    forall b | b in step.row
      ensures Signed(env, s, RelKey(step.line, b), step.row[b].fwd)
    {
      RowSigned(env, s, step.line, step.cells, step.prior, step.row, b);
    }
    LineHolds(env, s, t, Plain(env, step), n, Some(step.seal), step.line, step.row);
  }

  lemma WriteStrikeHolds(env: Env, s: Store, t: Store, n: nat, step: Step)
    requires step.Write? && step.prior.Some? && StrikeOk(env, s, step.prior.value, KIND_SUPERSEDED)
    requires Lands(env, s, t, Plain(env, step), n, Some(step.seal)) && KeepsKeys(s, t)
    ensures EntryHolds(env, t, Entries(env, s, step)[1])
  {
    WrittenHolds(env, s, t, Plain(env, step), n, Some(step.seal), step.prior.value.line, Marker(env), EVENT_STRIKE);
  }

  lemma WriteHolds(env: Env, s: Store, t: Store, n: nat, step: Step)
    requires step.Write? && WriteNow(env, s, step.line, step.decl, step.counter, step.cells, step.row, step.prior)
    requires Lands(env, s, t, Plain(env, step), n, Some(step.seal)) && KeepsKeys(s, t) && NoOrphans(s)
    ensures forall j | 0 <= j < |Entries(env, s, step)| :: EntryHolds(env, t, Entries(env, s, step)[j])
  {
    SlotIsFree(env, s, FIRST_ENTRY_PAGE, step.line);
    WriteLineHolds(env, s, t, n, step);
    if step.prior.Some? {
      WriteStrikeHolds(env, s, t, n, step);
      PairHolds(env, t, Entries(env, s, step));
    } else {
      SingleHolds(env, t, Entries(env, s, step));
    }
  }

  lemma {:induction false} WriteSubjects(env: Env, s: Store, es: seq<Event>, step: Step)
    requires step.Write? && |step.seal.links| == |Entries(env, s, step)|
    ensures LineSubjects(Extended(env, es, Entries(env, s, step), step.seal)) == LineSubjects(es) + {step.line}
  {
    if step.prior.Some? {
      LinesAfterTwo(env, es, Entries(env, s, step), step.seal);
    } else {
      LinesAfterOne(env, es, Entries(env, s, step), step.seal);
    }
  }

  lemma WriteLines(env: Env, s: Store, t: Store, es: seq<Event>, fs: seq<Event>, p: Txn, line: Entity, head: Record)
    requires LinesChained(s, es) && line.typ == TYPE_ENTRY && LineSubjects(fs) == LineSubjects(es) + {line}
    requires t.decl == s.decl + p.decl[Head(env) := head] && line in p.decl
    requires forall y: Entity | y in p.decl && y.typ == TYPE_ENTRY :: y == line
    ensures LinesChained(t, fs)
  {
  }

  lemma {:induction false} WriteKept(env: Env, s: Store, t: Store, es: seq<Event>, step: Step)
    requires step.Write? && WriteNow(env, s, step.line, step.decl, step.counter, step.cells, step.row, step.prior)
    requires Extends(env, s, es, Entries(env, s, step), step.seal)
    requires Lands(env, s, t, Plain(env, step), |es|, Some(step.seal)) && Grows(s, t)
    ensures ChainInv(env, t, Extended(env, es, Entries(env, s, step), step.seal))
  {
    WriteTxn(env, s, step);
    WriteShapes(env, s, step);
    WriteHolds(env, s, t, |es|, step);
    WriteSubjects(env, s, es, step);
    LineStepKept(env, s, t, es, Entries(env, s, step), Plain(env, step), step.seal, step.line);
  }

  /** The same for any transaction that writes one line. */
  lemma {:induction false} LineStepKept(env: Env, s: Store, t: Store, es: seq<Event>, xs: seq<Entry>, p: Txn,
                                        seal: Seal, line: Entity)
    requires Extends(env, s, es, xs, seal) && Lands(env, s, t, p, |es|, Some(seal)) && Grows(s, t)
    requires Attributed(p) && QuietDecl(p) && QuietRel(p) && line.typ == TYPE_ENTRY && line in p.decl
    requires forall a: Entity | a in p.rel && a.typ == TYPE_ENTRY :: a in s.decl || a == line
    requires forall y: Entity | y in p.decl && y.typ == TYPE_ENTRY :: y == line
    requires EntryShapes(env, xs) && forall j | 0 <= j < |xs| :: !MutableTag(xs[j].tag)
    requires forall j | 0 <= j < |xs| :: EntryHolds(env, t, xs[j])
    requires LineSubjects(Extended(env, es, xs, seal)) == LineSubjects(es) + {line}
    ensures ChainInv(env, t, Extended(env, es, xs, seal))
  {
    NoteStates(env, s, t, es, xs, p, seal);
    WriteLines(env, s, t, es, Extended(env, es, xs, seal), p, line, seal.head);
    ChainKept(env, s, t, es, xs, p, seal);
  }

  // Renames and vocabulary changes.

  /** One event that carries its own content, about the one record that changed: the
      declaration of x, or the state of column y. */
  ghost predicate IsRewrite(env: Env, xs: seq<Entry>, p: Txn, x: Entity, y: Entity) {
    && |xs| == 1 && EntryShapes(env, xs) && MutableTag(xs[0].tag) && xs[0].content == xs[0].tail
    && (if xs[0].tag == EVENT_DECLARE then x == xs[0].subject && y == ZERO else y == xs[0].subject && x == ZERO)
    && Attributed(p)
    && (forall a: Entity | a in p.rel :: a.typ != TYPE_ENTRY)
    && (forall a: Entity | a in p.decl :: a.typ != TYPE_ENTRY)
    && (forall a: Entity | a in p.decl && (a.typ == TYPE_FIELD || a.typ == TYPE_TERM) :: a == x)
    && (forall a: Entity | a in p.rel && a.typ == TYPE_FIELD :: a == y)
  }

  lemma RewriteKeeps(env: Env, s: Store, t: Store, xs: seq<Entry>, p: Txn, n: nat, seal: Option<Seal>, x: Entity,
                     y: Entity)
    requires Lands(env, s, t, p, n, seal) && IsRewrite(env, xs, p, x, y)
    ensures KeepsNames(s, t, x) && KeepsStates(env, s, t, y)
  {
    forall f: Entity | f.typ == TYPE_FIELD && f != y
      ensures Row(t, f) == Row(s, f)
    {
      assert Row(t, f) == Row(s, f) + Forward(p, f);
    }
  }

  lemma {:induction false} RewriteKept(env: Env, s: Store, t: Store, es: seq<Event>, xs: seq<Entry>, p: Txn,
                                       seal: Seal, x: Entity, y: Entity)
    requires Extends(env, s, es, xs, seal) && Lands(env, s, t, p, |es|, Some(seal)) && Grows(s, t)
    requires IsRewrite(env, xs, p, x, y)
    requires StateMatches(env, t, NewEvent(env, Previous(es, |es|), |es|, xs, seal.links[0], 0))
    ensures ChainInv(env, t, Extended(env, es, xs, seal))
  {
    RewriteKeeps(env, s, t, xs, p, |es|, Some(seal), x, y);
    StatesRewritten(env, s, t, es, NewEvent(env, Previous(es, |es|), |es|, xs, seal.links[0], 0), x, y);
    NoteLines(env, s, t, es, xs, p, seal);
    SingleHolds(env, t, xs);
    ChainKept(env, s, t, es, xs, p, seal);
  }

  lemma RenameDecoded(from: seq<byte>, to: seq<byte>)
    requires |from| <= MAX_FIELD_LEN
    ensures DecodeRenameTail(RenameTail(from, to)) == Some((from, to))
  {
    TakePrefixed(from, to);
  }

  lemma RenamedMatches(env: Env, t: Store, e: Event, from: seq<byte>, r: Record)
    requires e.tag == EVENT_DECLARE && e.party == ZERO && e.tail == RenameTail(from, r.name) && |from| <= MAX_FIELD_LEN
    requires e.subject in t.decl && t.decl[e.subject] == r && Verified(env, t, DeclKey(e.subject), r)
    ensures StateMatches(env, t, e)
  {
    RenameDecoded(from, r.name);
  }

  lemma RenameIsRewrite(env: Env, s: Store, step: Step)
    requires step.Rename? && (step.e.typ == TYPE_FIELD || step.e.typ == TYPE_TERM) && step.decl.author.typ == TYPE_ACTOR
    ensures IsRewrite(env, Entries(env, s, step), Plain(env, step), step.e, ZERO)
  {
  }

  lemma RenameMatches(env: Env, s: Store, t: Store, n: nat, step: Step, previous: seq<byte>)
    requires step.Rename? && step.e in s.decl && Signed(env, s, DeclKey(step.e), step.decl) && KeepsKeys(s, t)
    requires step.e in t.decl && t.decl[step.e] == step.decl && |step.seal.links| == 1
    ensures StateMatches(env, t, NewEvent(env, previous, n, Entries(env, s, step), step.seal.links[0], 0))
  {
    KeyKept(env, s, t, DeclKey(step.e), step.decl);
    RenamedMatches(env, t, NewEvent(env, previous, n, Entries(env, s, step), step.seal.links[0], 0),
                   s.decl[step.e].name, step.decl);
  }

  lemma RenameDeclares(env: Env, s: Store, t: Store, n: nat, step: Step)
    requires step.Rename? && step.e.typ != TYPE_CHAIN && Lands(env, s, t, Plain(env, step), n, Some(step.seal))
    ensures step.e in t.decl && t.decl[step.e] == step.decl
  {
  }

  lemma {:induction false} RenameKept(env: Env, s: Store, t: Store, es: seq<Event>, step: Step)
    requires step.Rename? && (step.e.typ == TYPE_FIELD || step.e.typ == TYPE_TERM)
    requires step.e in s.decl && Signed(env, s, DeclKey(step.e), step.decl)
    requires Extends(env, s, es, Entries(env, s, step), step.seal)
    requires Lands(env, s, t, Plain(env, step), |es|, Some(step.seal)) && Grows(s, t)
    ensures ChainInv(env, t, Extended(env, es, Entries(env, s, step), step.seal))
  {
    RenameIsRewrite(env, s, step);
    RenameDeclares(env, s, t, |es|, step);
    RenameMatches(env, s, t, |es|, step, Previous(es, |es|));
    RewriteKept(env, s, t, es, Entries(env, s, step), Plain(env, step), step.seal, step.e, ZERO);
  }

  lemma VocabularyIsRewrite(env: Env, s: Store, step: Step)
    requires step.SetVocabulary? && step.field.typ == TYPE_FIELD && step.link.fwd.author.typ == TYPE_ACTOR
    ensures IsRewrite(env, Entries(env, s, step), Plain(env, step), ZERO, step.field)
  {
  }

  lemma VocabularyMatches(env: Env, s: Store, t: Store, n: nat, step: Step, previous: seq<byte>)
    requires step.SetVocabulary? && SetVocabularyNow(env, s, step.field, step.link) && KeepsKeys(s, t)
    requires Row(t, step.field) == Row(s, step.field) + Forward(Plain(env, step), step.field) && |step.seal.links| == 1
    ensures StateMatches(env, t, NewEvent(env, previous, n, Entries(env, s, step), step.seal.links[0], 0))
  {
    KeyKept(env, s, t, RelKey(step.field, Marker(env)), step.link.fwd);
    assert Lookup(t, step.field, Marker(env)) == Some(step.link.fwd);
  }

  lemma {:induction false} SetVocabularyKept(env: Env, s: Store, t: Store, es: seq<Event>, step: Step)
    requires step.SetVocabulary? && SetVocabularyNow(env, s, step.field, step.link)
    requires Extends(env, s, es, Entries(env, s, step), step.seal)
    requires Lands(env, s, t, Plain(env, step), |es|, Some(step.seal)) && Grows(s, t)
    ensures ChainInv(env, t, Extended(env, es, Entries(env, s, step), step.seal))
  {
    VocabularyIsRewrite(env, s, step);
    VocabularyMatches(env, s, t, |es|, step, Previous(es, |es|));
    RewriteKept(env, s, t, es, Entries(env, s, step), Plain(env, step), step.seal, ZERO, step.field);
  }

  // The steps that chain nothing.

  lemma PlainKept(env: Env, s: Store, t: Store, es: seq<Event>, p: Txn, n: nat)
    requires ChainInv(env, s, es) && Lands(env, s, t, p, n, None) && Grows(s, t) && Attributed(p)
    requires Head(env) !in p.decl && KeepsNames(s, t, ZERO) && KeepsStates(env, s, t, ZERO)
    requires forall a: Entity | a in p.rel :: a.typ != TYPE_ENTRY
    requires forall a: Entity | a in p.decl :: a.typ != TYPE_ENTRY
    ensures ChainInv(env, t, es)
  {
    OldSound(env, s, t, es);
    StatesStay(env, s, t, es);
    AuthorsAfter(env, s, t, p, n, None);
    OrphansAfter(env, s, t, p, n, None);
  }

  /** A transaction that declares new schema entities and relates terms. */
  ghost predicate IsSchema(env: Env, s: Store, p: Txn) {
    && Attributed(p) && Head(env) !in p.decl
    && (forall a: Entity | a in p.rel :: a.typ == TYPE_TERM)
    && (forall a: Entity | a in p.decl :: a.typ != TYPE_ENTRY)
    && (forall a: Entity | a in p.decl && (a.typ == TYPE_FIELD || a.typ == TYPE_TERM) :: a !in s.decl)
  }

  lemma SchemaKeeps(env: Env, s: Store, t: Store, p: Txn, n: nat)
    requires Lands(env, s, t, p, n, None) && IsSchema(env, s, p)
    ensures KeepsNames(s, t, ZERO) && KeepsStates(env, s, t, ZERO)
  {
    forall f: Entity | f.typ == TYPE_FIELD
      ensures Row(t, f) == Row(s, f)
    {
      assert Row(t, f) == Row(s, f) + Forward(p, f);
    }
  }

  lemma SchemaKept(env: Env, s: Store, t: Store, es: seq<Event>, p: Txn, n: nat)
    requires ChainInv(env, s, es) && Lands(env, s, t, p, n, None) && Grows(s, t) && IsSchema(env, s, p)
    ensures ChainInv(env, t, es)
  {
    SchemaKeeps(env, s, t, p, n);
    PlainKept(env, s, t, es, p, n);
  }

  lemma DeclareIsSchema(env: Env, s: Store, step: Step)
    requires step.DeclareActor? && DeclareActorNow(s, step.e, step.decl)
    ensures IsSchema(env, s, Plain(env, step))
  {
  }

  lemma InternIsSchema(env: Env, s: Store, step: Step)
    requires step.Intern? && Typed(step) && step.e !in s.decl
    requires step.decl.author.typ == TYPE_ACTOR && step.counter.author.typ == TYPE_ACTOR
    requires step.termOf.Some? ==> step.e.typ == TYPE_TERM && step.termOf.value.fwd.author.typ == TYPE_ACTOR
    ensures IsSchema(env, s, Plain(env, step))
  {
  }

  lemma DeriveIsSchema(env: Env, s: Store, step: Step)
    requires step.Derive? && DeriveNow(env, s, step.edges)
    ensures IsSchema(env, s, Plain(env, step))
  {
    forall a, b | a in step.edges && b in step.edges[a]
      ensures a.typ == TYPE_TERM && step.edges[a][b].fwd.author.typ == TYPE_ACTOR
    {
      assert EdgeOk(env, s, a, b, step.edges[a][b]);
    }
  }
}
