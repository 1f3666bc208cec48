/** The events worked out from a step's writes are the events of the step: nothing the
    steps write after the fact goes unchained. */
module Described {
  import opened Common
  import opened Bytes
  import opened Entities
  import opened Records
  import opened Listings
  import opened Chain
  import opened Transactions
  import opened Sealing
  import opened Book
  import opened Growth
  import opened Builder

  // Sweeping.

  predicate IsEvent(line: Entity, covered: set<Key>, w: Builder.Write) {
    w.0 !in covered && Standalone(line, w)
  }

  lemma {:induction false} NoneSwept(line: Entity, covered: set<Key>, ws: seq<Builder.Write>)
    requires forall i | 0 <= i < |ws| :: !IsEvent(line, covered, ws[i])
    ensures Swept(line, covered, ws) == Some([])
  {
    if ws != [] { NoneSwept(line, covered, ws[..|ws| - 1]); }
  }

  lemma {:induction false} OneSwept(line: Entity, covered: set<Key>, ws: seq<Builder.Write>, i: nat)
    requires i < |ws| && IsEvent(line, covered, ws[i]) && TagFor(ws[i].1.kind).Some?
    requires forall j | 0 <= j < |ws| && j != i :: !IsEvent(line, covered, ws[j])
    ensures Swept(line, covered, ws) == Some([WriteEntry(ws[i], TagFor(ws[i].1.kind).value)])
  {
    var n := |ws| - 1;
    if i == n {
      NoneSwept(line, covered, ws[..n]);
      var none: seq<Entry> := [];
      assert none + [WriteEntry(ws[i], TagFor(ws[i].1.kind).value)] == [WriteEntry(ws[i], TagFor(ws[i].1.kind).value)];
    } else {
      OneSwept(line, covered, ws[..n], i);
    }
  }

  // The writes of a transaction.

  /** A write of a relation of the transaction, or of another entity's declaration. */
  predicate Belongs(line: Entity, rel: map<Entity, map<Entity, Link>>, w: Builder.Write) {
    if w.0.b == ZERO then w.0.a != line
    else w.0.a in rel && w.0.b in rel[w.0.a] && w.1 == rel[w.0.a][w.0.b].fwd
  }

  /** The writes in the relation namespace are the relations of the transaction, each
      once; what they say of other namespaces does not matter. */
  ghost predicate Lists(ws: seq<Builder.Write>, line: Entity, rel: map<Entity, map<Entity, Link>>) {
    && (forall w | w in ws && w.0.ns == NS_RELATION :: Belongs(line, rel, w))
    && (forall a, b | a in rel && b in rel[a] :: (RelKey(a, b), rel[a][b].fwd) in ws)
    && (forall i, j | 0 <= i < j < |ws| && ws[i].0.ns == NS_RELATION && ws[i].0.b != ZERO :: ws[i].0 != ws[j].0)
  }

  // The content of a new line.

  lemma {:induction false} ContentsMembers(line: Entity, ws: seq<Builder.Write>, m: Relations, b: Entity)
    requires forall w | w in ws && OfLine(line, w) :: w.0.b in m && m[w.0.b] == w.1
    ensures b in Contents(line, ws) <==> exists w :: w in ws && OfLine(line, w) && w.0.b == b
    ensures b in Contents(line, ws) ==> b in m && m[b] == Contents(line, ws)[b]
  {
    if ws != [] {
      var n := |ws| - 1;
      ContentsMembers(line, ws[..n], m, b);
      assert ws == ws[..n] + [ws[n]];
    }
  }

  lemma LineContents(line: Entity, ws: seq<Builder.Write>, rel: map<Entity, map<Entity, Link>>)
    requires Lists(ws, line, rel) && line in rel && ZERO !in rel[line]
    requires forall b | b in rel[line] :: rel[line][b].fwd.kind != KIND_COUNTERSIGN
    ensures Contents(line, ws) == Content(Forwards(rel[line]))
  {
    var m := Forwards(rel[line]);
    forall w | w in ws && OfLine(line, w)
      ensures w.0.b in m && m[w.0.b] == w.1
    {
      assert Belongs(line, rel, w);
    }
    forall b
      ensures b in Contents(line, ws) <==> b in Content(m)
      ensures b in Contents(line, ws) ==> Contents(line, ws)[b] == m[b]
    {
      ContentsMembers(line, ws, m, b);
      if b in rel[line] && !IsSentinel(b) {
        assert (RelKey(line, b), rel[line][b].fwd) in ws && OfLine(line, (RelKey(line, b), rel[line][b].fwd));
      }
    }
  }

  lemma RowNotMarked(env: Env, s: Store, line: Entity, cells: seq<Cell>, prior: Option<Strike>, row: map<Entity, Link>)
    requires RowOk(env, s, line, cells, prior, row)
    ensures ZERO !in row && forall b | b in row :: row[b].fwd.kind != KIND_COUNTERSIGN
  {
    forall b | b in row
      ensures b != ZERO && row[b].fwd.kind != KIND_COUNTERSIGN
    {
      if c :| c in cells && Target(c) == b {
        assert LinkOk(env, s, line, Target(c), row[Target(c)], CellKind(c));
      }
    }
  }

  // One relation besides the line.

  /** The only relation that is an event is a -> b. */
  ghost predicate OnlyEvent(line: Entity, rel: map<Entity, map<Entity, Link>>, a: Entity, b: Entity) {
    && a in rel && b in rel[a] && Standalone(line, (RelKey(a, b), rel[a][b].fwd))
    && forall x, y | x in rel && y in rel[x] && Standalone(line, (RelKey(x, y), rel[x][y].fwd)) :: x == a && y == b
  }

  lemma OneEvent(line: Entity, ws: seq<Builder.Write>, rel: map<Entity, map<Entity, Link>>, a: Entity, b: Entity)
    requires Lists(ws, line, rel) && OnlyEvent(line, rel, a, b) && TagFor(rel[a][b].fwd.kind).Some?
    ensures Swept(line, {}, ws) == Some([Entry(TagFor(rel[a][b].fwd.kind).value, a, b, Encode(rel[a][b].fwd), [])])
  {
    var w := (RelKey(a, b), rel[a][b].fwd);
    assert w in ws;
    var i :| 0 <= i < |ws| && ws[i] == w;
    forall j | 0 <= j < |ws| && j != i
      ensures !IsEvent(line, {}, ws[j])
    {
      assert ws[j].0 != ws[i].0;
      assert ws[j].0.ns == NS_RELATION ==> Belongs(line, rel, ws[j]);
      assert ws[j].0.ns == NS_RELATION ==> ws[j].0 == RelKey(ws[j].0.a, ws[j].0.b);
    }
    OneSwept(line, {}, ws, i);
  }

  lemma NoEvent(line: Entity, covered: set<Key>, ws: seq<Builder.Write>, rel: map<Entity, map<Entity, Link>>)
    requires Lists(ws, line, rel)
    requires forall x, y | x in rel && y in rel[x] ::
             RelKey(x, y) in covered || !Standalone(line, (RelKey(x, y), rel[x][y].fwd))
    ensures Swept(line, covered, ws) == Some([])
  {
    forall j | 0 <= j < |ws|
      ensures !IsEvent(line, covered, ws[j])
    {
      assert ws[j].0.ns == NS_RELATION ==> Belongs(line, rel, ws[j]);
      assert ws[j].0.ns == NS_RELATION ==> ws[j].0 == RelKey(ws[j].0.a, ws[j].0.b);
    }
    NoneSwept(line, covered, ws);
  }

  // The steps.

  lemma PlainLine(env: Env, s: Store, step: Step, ws: seq<Builder.Write>)
    requires step.Write? && step.line.typ == TYPE_ENTRY && RowOk(env, s, step.line, step.cells, step.prior, step.row)
    requires Lists(ws, step.line, Plain(env, step).rel) && (step.prior.Some? ==> step.prior.value.line != step.line)
    ensures Contents(step.line, ws) == Content(Forwards(step.row))
  {
    RowNotMarked(env, s, step.line, step.cells, step.prior, step.row);
    assert Plain(env, step).rel[step.line] == step.row;
    LineContents(step.line, ws, Plain(env, step).rel);
  }

  lemma WriteSwept(env: Env, s: Store, step: Step, ws: seq<Builder.Write>)
    requires step.Write? && step.line.typ == TYPE_ENTRY && Lists(ws, step.line, Plain(env, step).rel)
    requires step.prior.Some? ==>
             step.prior.value.line != step.line && StrikeOk(env, s, step.prior.value, KIND_SUPERSEDED)
    ensures Swept(step.line, {}, ws) == Some(if step.prior.None? then [] else [StrikeEntry(env, step.prior.value)])
  {
    if step.prior.None? {
      NoEvent(step.line, {}, ws, Plain(env, step).rel);
    } else {
      OneEvent(step.line, ws, Plain(env, step).rel, step.prior.value.line, Marker(env));
    }
  }

  lemma WriteFacts(env: Env, s: Store, step: Step)
    requires step.Write? && Now(env, s, step)
    ensures step.line.typ == TYPE_ENTRY && RowOk(env, s, step.line, step.cells, step.prior, step.row)
    ensures step.prior.Some? ==>
              step.prior.value.line != step.line && StrikeOk(env, s, step.prior.value, KIND_SUPERSEDED)
  {
    SlotIsFree(env, s, FIRST_ENTRY_PAGE, step.line);
  }

  lemma LineFirst(line: Entity, ws: seq<Builder.Write>, row: Relations, xs: seq<Entry>)
    requires line != ZERO && Swept(line, {}, ws) == Some(xs) && Contents(line, ws) == Content(row)
    ensures EventsOf(line, ws, []) == Some([Entry(EVENT_LINE, line, ZERO, ContentBytes(line, Content(row)), [])] + xs)
  {
    var none: seq<Entry> := [];
    var first := [Entry(EVENT_LINE, line, ZERO, ContentBytes(line, Content(row)), [])];
    assert Covered(none) == {};
    assert first + none == first;
  }

  lemma WriteEntries(env: Env, s: Store, step: Step, xs: seq<Entry>)
    requires step.Write? && xs == if step.prior.None? then [] else [StrikeEntry(env, step.prior.value)]
    ensures Entries(env, s, step)
         == [Entry(EVENT_LINE, step.line, ZERO, ContentBytes(step.line, Content(Forwards(step.row))), [])] + xs
  {
  }

  /** A line and the strike it puts on another are what its writes amount to. */
  lemma WriteDescribed(env: Env, s: Store, step: Step, ws: seq<Builder.Write>)
    requires step.Write? && Now(env, s, step) && Lists(ws, step.line, Plain(env, step).rel)
    ensures EventsOf(step.line, ws, []) == Some(Entries(env, s, step))
  {
    WriteFacts(env, s, step);
    PlainLine(env, s, step, ws);
    WriteSwept(env, s, step, ws);
    var xs := if step.prior.None? then [] else [StrikeEntry(env, step.prior.value)];
    LineFirst(step.line, ws, Forwards(step.row), xs);
    WriteEntries(env, s, step, xs);
  }

  /** A transaction of one relation that is an event. */
  lemma OneRelation(ws: seq<Builder.Write>, a: Entity, b: Entity, l: Link, tag: byte)
    requires Lists(ws, ZERO, map[a := map[b := l]]) && TagFor(l.fwd.kind) == Some(tag)
    requires a != ZERO && b != ZERO && a.typ != TYPE_CHAIN && b.typ != TYPE_CHAIN
    ensures EventsOf(ZERO, ws, []) == Some([Entry(tag, a, b, Encode(l.fwd), [])])
  {
    OneEvent(ZERO, ws, map[a := map[b := l]], a, b);
    var none: seq<Entry> := [];
    assert Covered(none) == {};
    var xs := [Entry(tag, a, b, Encode(l.fwd), [])];
    assert none + none + xs == xs;
  }

  lemma VoidDescribed(env: Env, s: Store, step: Step, ws: seq<Builder.Write>)
    requires step.Void? && StrikeOk(env, s, step.strike, KIND_VOIDED) && Lists(ws, ZERO, Plain(env, step).rel)
    ensures EventsOf(ZERO, ws, []) == Some(Entries(env, s, step))
  {
    OneRelation(ws, step.strike.line, Marker(env), step.strike.link, EVENT_STRIKE);
  }

  lemma CountersignDescribed(env: Env, s: Store, step: Step, ws: seq<Builder.Write>)
    requires step.Countersign? && CountersignNow(env, s, step.line, step.actor, step.link) &&
             Lists(ws, ZERO, Plain(env, step).rel)
    ensures EventsOf(ZERO, ws, []) == Some(Entries(env, s, step))
  {
    OneRelation(ws, step.line, step.actor, step.link, EVENT_COUNTERSIGN);
  }

  lemma SignOffDescribed(env: Env, s: Store, step: Step, ws: seq<Builder.Write>)
    requires step.SignOff? && SignOffNow(env, s, step.page, step.counter, step.link) &&
             Lists(ws, ZERO, Plain(env, step).rel)
    ensures EventsOf(ZERO, ws, []) == Some(Entries(env, s, step))
  {
    OneRelation(ws, PageEntity(env, step.page), Marker(env), step.link, EVENT_SIGNOFF);
  }

  /** So are a strike, an endorsement and a sign-off. */
  lemma MarkDescribed(env: Env, s: Store, step: Step, ws: seq<Builder.Write>)
    requires Now(env, s, step) && (step.Void? || step.Countersign? || step.SignOff?) &&
             Lists(ws, ZERO, Plain(env, step).rel)
    ensures EventsOf(ZERO, ws, []) == Some(Entries(env, s, step))
  {
    if step.Void? {
      VoidDescribed(env, s, step, ws);
    } else if step.Countersign? {
      CountersignDescribed(env, s, step, ws);
    } else {
      SignOffDescribed(env, s, step, ws);
    }
  }

  lemma NothingElse(ws: seq<Builder.Write>, x: Entry)
    requires Swept(ZERO, Covered([x]), ws) == Some([])
    ensures EventsOf(ZERO, ws, [x]) == Some([x])
  {
    var none: seq<Entry> := [];
    assert none + [x] + none == [x];
  }

  lemma RenameDescribed(env: Env, step: Step, ws: seq<Builder.Write>, x: Entry)
    requires step.Rename? && Lists(ws, ZERO, Plain(env, step).rel)
    ensures EventsOf(ZERO, ws, [x]) == Some([x])
  {
    NoEvent(ZERO, Covered([x]), ws, map[]);
    NothingElse(ws, x);
  }

  lemma VocabularyDescribed(env: Env, step: Step, ws: seq<Builder.Write>, x: Entry)
    requires step.SetVocabulary? && Lists(ws, ZERO, Plain(env, step).rel) && x.subject == step.field &&
             x.party == Marker(env)
    ensures EventsOf(ZERO, ws, [x]) == Some([x])
  {
    assert x in [x] && RelKey(x.subject, x.party) in Covered([x]);
    NoEvent(ZERO, Covered([x]), ws, Plain(env, step).rel);
    NothingElse(ws, x);
  }

  /** A rename or a change of vocabulary is described by its writer, and counted once. */
  lemma RewriteDescribed(env: Env, s: Store, step: Step, ws: seq<Builder.Write>)
    requires (step.Rename? || step.SetVocabulary?) && Lists(ws, ZERO, Plain(env, step).rel)
    ensures EventsOf(ZERO, ws, Entries(env, s, step)) == Some(Entries(env, s, step))
  {
    var x := Entries(env, s, step)[0];
    assert Entries(env, s, step) == [x];
    if step.Rename? { RenameDescribed(env, step, ws, x); } else { VocabularyDescribed(env, step, ws, x); }
  }
}
