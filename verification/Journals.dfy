/** A journal: a reader and writer of the book that remembers the dictionary. */
module Journals {
  import opened Common
  import opened Bytes
  import opened Entities
  import opened Records
  import opened Listings
  import opened Chain
  import opened Book
  import opened Reach
  import opened Dictionary
  import opened Caches
  import opened Rows
  import History

  // A row as it is shown.

  /** A column of a line as read back, under the name the column has now. */
  datatype RowCell =
    | TermShown(field: Entity, name: Text, term: Entity, text: Text)
    | NumberShown(field: Entity, name: Text, number: int)
    | RemarkShown(field: Entity, name: Text, text: Text)

  /** x is how the relation to b reads without any cache. */
  predicate Reads(s: Store, b: Entity, r: Record, x: RowCell) {
    && x.field in s.decl && x.name == s.decl[x.field].name
    && match x
       case TermShown(field, _, term, text) => r.kind == KIND_CELL && term == b && b in s.decl &&
         text == s.decl[b].name && TermOf(s, b, field)
       case NumberShown(field, _, number) => r.kind == KIND_QUANTITY && field == b && |r.data| == 8 &&
         number == SignedNumber(r.data)
       case RemarkShown(field, _, text) => r.kind == KIND_REMARK && field == b && text == r.data
  }

  function CellRels(rels: seq<(Entity, Record)>): seq<(Entity, Record)> {
    if rels == [] then []
    else
      var front, last := CellRels(rels[..|rels| - 1]), rels[|rels| - 1];
      if IsCellKind(last.1.kind) then front + [last] else front
  }

  predicate ReadsAll(s: Store, rels: seq<(Entity, Record)>, xs: seq<RowCell>) {
    |xs| == |rels| && forall i | 0 <= i < |xs| :: Reads(s, rels[i].0, rels[i].1, xs[i])
  }

  /** The relation can be shown. */
  predicate Showable(s: Store, b: Entity, r: Record) {
    && (r.kind == KIND_CELL ==> b in s.decl && exists f ::
        f in Row(s, b) && f != ZERO && f in s.decl && TermOf(s, b, f))
    && (r.kind == KIND_QUANTITY ==> b in s.decl && |r.data| == 8)
    && (r.kind == KIND_REMARK ==> b in s.decl)
  }

  /** Cells point at terms, numbers and remarks at columns. */
  predicate PointsRight(b: Entity, r: Record) {
    && (r.kind == KIND_CELL ==> b.typ == TYPE_TERM)
    && (r.kind == KIND_QUANTITY || r.kind == KIND_REMARK ==> b.typ == TYPE_FIELD)
  }

  ghost predicate RowRight(row: Relations) { forall b | b in row :: PointsRight(b, row[b]) }

  lemma {:induction false} MoreRels(rels: seq<(Entity, Record)>, i: nat)
    requires i < |rels|
    ensures CellRels(rels[..i + 1]) == if IsCellKind(rels[i].1.kind)
            then CellRels(rels[..i]) + [rels[i]] else CellRels(rels[..i])
  {
    assert rels[..i + 1][..i] == rels[..i];
  }

  lemma MoreRead(s: Store, rels: seq<(Entity, Record)>, xs: seq<RowCell>, rel: (Entity, Record), x: RowCell)
    requires ReadsAll(s, rels, xs) && Reads(s, rel.0, rel.1, x)
    ensures ReadsAll(s, rels + [rel], xs + [x])
  {
  }

  // Remembering.

  /** Keeping the name of an entity that is not a column would spoil the cache: its text
      would then be looked up as a column's. */
  lemma NameRemembered(s: Store, c: Cache, e: Entity)
    requires Coherent(s, c) && e in s.decl
    ensures var d := c.(fields := c.fields[s.decl[e].name := e], fieldNames := c.fieldNames[e := s.decl[e].name]);
            Coherent(s, d) <==> e.typ == TYPE_FIELD
  {
    var d := c.(fields := c.fields[s.decl[e].name := e], fieldNames := c.fieldNames[e := s.decl[e].name]);
    assert Coherent(s, d) ==> IsColumn(s, d.fields[s.decl[e].name], s.decl[e].name);
  }

  /** And keeping something as a term that is not one. */
  lemma TermRemembered(s: Store, c: Cache, info: TermInfo)
    requires Coherent(s, c)
    ensures var known := if info.field in c.vocab then c.vocab[info.field] else map[];
            var d := c.(vocab := c.vocab[info.field := known[info.text := info.term]],
                        terms := c.terms[info.term := info]);
            Coherent(s, d) <==> IsTerm(s, info.term, info.field, info.text)
  {
    var known := if info.field in c.vocab then c.vocab[info.field] else map[];
    var d := c.(vocab := c.vocab[info.field := known[info.text := info.term]], terms := c.terms[info.term := info]);
    assert Coherent(s, d) ==> IsTerm(s, info.term, d.terms[info.term].field, d.terms[info.term].text);
  }

  // Declaring what is not there.

  /** The store after a text was asked for and, if nobody held it, perhaps declared. */
  ghost function Interning(env: Env, s: Store, owner: Entity, text: Text, made: Option<Step>): Store {
    if made.Some? && Holder(env, s, owner, text).None? then Do(env, s, made.value) else s
  }

  ghost predicate Makes(env: Env, s: Store, owner: Entity, typ: byte, text: Text, made: Option<Step>) {
    made.Some? && Holder(env, s, owner, text).None? ==>
      && made.value.Intern? && made.value.owner == owner && made.value.e.typ == typ && made.value.decl.name == text
      && (typ == TYPE_FIELD || typ == TYPE_TERM) && Now(env, s, made.value)
  }

  /** What was just declared is found by its text. */
  lemma NowHeld(env: Env, s: Store, es: seq<Event>, owner: Entity, step: Step)
    requires BookInv(env, s, es) && DictInv(env, s) && Now(env, s, step) && step.Intern? && step.owner == owner
    requires step.e.typ == TYPE_FIELD || step.e.typ == TYPE_TERM
    ensures Holder(env, Do(env, s, step), owner, step.decl.name) == Some(step.e)
  {
    InternedIsRead(env, s, step);
    StepDict(env, s, es, step);
    if step.e.typ == TYPE_FIELD { FieldsOwner(env, s, step); }
    HolderIs(env, Do(env, s, step), owner, step.e);
  }

  lemma FieldsOwner(env: Env, s: Store, step: Step)
    requires Now(env, s, step) && step.Intern? && step.e.typ == TYPE_FIELD
    ensures step.owner == FieldOwner(env)
  {
  }

  lemma InterningDict(env: Env, s: Store, es: seq<Event>, owner: Entity, typ: byte, text: Text, made: Option<Step>)
    requires BookInv(env, s, es) && DictInv(env, s) && Makes(env, s, owner, typ, text, made)
    ensures DictInv(env, Interning(env, s, owner, text, made))
  {
    if made.Some? && Holder(env, s, owner, text).None? { StepDict(env, s, es, made.value); }
  }

  /** The column of a name, of the type asked for. */
  function FieldRead(env: Env, s: Store, name: Text, wanted: Option<byte>): Option<Entity> {
    if name == [] then None
    else
      match Holder(env, s, FieldOwner(env), name)
      case None => None
      case Some(e) => if wanted.None? || ReadInput(s, e) == wanted then Some(e) else None
  }

  lemma SomeColumn(s: Store, e: Entity, f: Entity)
    requires TermsOk(s) && e.typ == TYPE_TERM && TermOf(s, e, f)
    ensures f.typ == TYPE_FIELD
  {
    assert TermOk(s, e);
    assert InColumn(Row(s, e), f);
  }

  class Journal {
    var fields: map<Text, Entity>
    var fieldNames: map<Entity, Text>
    var vocab: map<Entity, map<Text, Entity>>
    var terms: map<Entity, TermInfo>
    var inputs: map<Entity, byte>

    function View(): Cache
      reads this
    {
      Cache(fields, fieldNames, vocab, terms, inputs)
    }

    constructor ()
      ensures forall s :: Coherent(s, View())
    {
      fields, fieldNames, vocab, terms, inputs := map[], map[], map[], map[], map[];
    }

    /** What a column holds. */
    method FieldInput(s: Store, field: Entity) returns (r: Option<byte>)
      requires Coherent(s, View())
      modifies this`inputs
      ensures Coherent(s, View()) && r == ReadInput(s, field)
    {
      if field in inputs {
        assert HasInput(s, field, inputs[field]);
        return Some(inputs[field]);
      }
      if field.typ != TYPE_FIELD || field !in s.decl { return None; }
      inputs := inputs[field := InputOf(s.decl[field])];
      return Some(inputs[field]);
    }

    /** A column's heading.  Any declared entity is answered; only a column may be. */
    method FieldName(s: Store, field: Entity) returns (r: Option<Text>)
      requires Coherent(s, View())
      modifies this`fields, this`fieldNames
      ensures r == ReadName(s, field)
      ensures Coherent(s, View()) <==> field.typ == TYPE_FIELD || field !in s.decl
    {
      if field in fieldNames {
        assert IsColumn(s, field, fieldNames[field]);
        return Some(fieldNames[field]);
      }
      if field !in s.decl { return None; }
      RememberField(s, field, s.decl[field].name);
      return Some(s.decl[field].name);
    }

    method RememberField(ghost s: Store, field: Entity, name: Text)
      requires Coherent(s, View()) && field in s.decl && s.decl[field].name == name
      modifies this`fields, this`fieldNames
      ensures Coherent(s, View()) <==> field.typ == TYPE_FIELD
    {
      NameRemembered(s, View(), field);
      fields := fields[name := field];
      fieldNames := fieldNames[field := name];
    }

    /** The column holds what is asked for, if anything is. */
    method HoldsInput(s: Store, field: Entity, wanted: Option<byte>) returns (ok: bool)
      requires Coherent(s, View())
      modifies this`inputs
      ensures Coherent(s, View()) && (ok <==> wanted.None? || ReadInput(s, field) == wanted)
    {
      if wanted.None? { return true; }
      var got := FieldInput(s, field);
      return got == wanted;
    }

    method RememberTerm(ghost s: Store, info: TermInfo)
      requires Coherent(s, View())
      modifies this`vocab, this`terms
      ensures Coherent(s, View()) <==> IsTerm(s, info.term, info.field, info.text)
    {
      TermRemembered(s, View(), info);
      var known := if info.field in vocab then vocab[info.field] else map[];
      vocab := vocab[info.field := known[info.text := info.term]];
      terms := terms[info.term := info];
    }

    /** A term's text and the column it belongs to. */
    method ResolveTerm(s: Store, term: Entity) returns (r: Option<TermInfo>)
      requires Coherent(s, View()) && TermsOk(s) && term.typ == TYPE_TERM
      modifies this`vocab, this`terms
      ensures Coherent(s, View())
      ensures r.Some? ==> r.value.term == term && IsTerm(s, term, r.value.field, r.value.text)
      ensures r.None? ==> term !in s.decl || forall f | f != ZERO :: !TermOf(s, term, f)
    {
      if term in terms {
        assert IsTerm(s, term, terms[term].field, terms[term].text);
        return Some(terms[term]);
      }
      if term !in s.decl { return None; }
      var owner := History.FirstOfKind(Row(s, term), KIND_TERM_OF);
      if owner.None? { return None; }
      var info := TermInfo(term, owner.value, s.decl[term].name);
      RememberTerm(s, info);
      return Some(info);
    }

    /** The entity of a bucket that really is called the text, remembering every term
        looked at on the way. */
    method ResolveBucket(env: Env, s: Store, owner: Entity, text: Text) returns (r: Option<Entity>)
      requires Coherent(s, View()) && DictInv(env, s)
      modifies this`vocab, this`terms
      ensures Coherent(s, View()) && r == Holder(env, s, owner, text)
    {
      var candidates := Candidates(s, BucketKey(env, owner, text));
      for i := 0 to |candidates|
        invariant Coherent(s, View())
        invariant FirstNamed(s, candidates[i..], text) == FirstNamed(s, candidates, text)
      {
        var c := candidates[i];
        Listed(env, s, owner, text, c);
        if c.typ == TYPE_TERM { RememberTerm(s, TermInfo(c, owner, s.decl[c].name)); }
        if s.decl[c].name == text { return Some(c); }
        assert candidates[i..][1..] == candidates[i + 1..];
      }
      return None;
    }

    /** The entity that holds a text, declared if there is none; `made` is what the
        attempt to declare it committed. */
    method Intern(env: Env, s: Store, ghost es: seq<Event>, owner: Entity, ghost typ: byte, text: Text,
                  made: Option<Step>) returns (r: Option<Entity>)
      requires Coherent(s, View()) && BookInv(env, s, es) && DictInv(env, s) && Makes(env, s, owner, typ, text, made)
      modifies this`vocab, this`terms
      ensures var t := Interning(env, s, owner, text, made); Coherent(t, View()) && r == Holder(env, t, owner, text)
    {
      r := ResolveBucket(env, s, owner, text);
      if r.None? && made.Some? {
        StepCoherent(env, s, es, made.value, View());
        NowHeld(env, s, es, owner, made.value);
        r := Some(made.value.e);
      }
    }

    /** The column of a name, declared if there is none; with a type asked for, only if it
        has it.  A term interned under the owner of the column names is found too, and
        spoils the cache. */
    method Field(env: Env, s: Store, t: Store, ghost es: seq<Event>, name: Text, wanted: Option<byte>,
                 made: Option<Step>) returns (r: Option<Entity>)
      requires Coherent(s, View()) && BookInv(env, s, es) && DictInv(env, s)
      requires Makes(env, s, FieldOwner(env), TYPE_FIELD, name, made) &&
               t == Interning(env, s, FieldOwner(env), name, made)
      modifies this
      ensures r == FieldRead(env, t, name, wanted)
      ensures Coherent(t, View()) <==> r.None? || r.value.typ == TYPE_FIELD
    {
      if name == [] { return None; }
      var cached := name in fields;
      if cached {
        assert IsColumn(s, fields[name], name);
        HolderIs(env, s, FieldOwner(env), fields[name]);
        r := Some(fields[name]);
      } else {
        r := Intern(env, s, es, FieldOwner(env), TYPE_FIELD, name, made);
      }
      if r.None? { return None; }
      var fits := HoldsInput(t, r.value, wanted);
      if !fits { return None; }
      if !cached {
        FirstNamedIs(t, Candidates(t, BucketKey(env, FieldOwner(env), name)), name);
        RememberField(t, r.value, name);
      }
    }

    /** The term of a column with a text, declared if there is none.  Asked of the owner of
        the column names it finds columns, and spoils the cache. */
    method Term(env: Env, s: Store, ghost es: seq<Event>, field: Entity, text: Text, made: Option<Step>)
      returns (r: Option<Entity>)
      requires Coherent(s, View()) && BookInv(env, s, es) && DictInv(env, s) &&
               Makes(env, s, field, TYPE_TERM, text, made)
      modifies this`vocab, this`terms
      ensures var t := Interning(env, s, field, text, made);
              && r == (if field.typ == TYPE_FIELD && text != [] then Holder(env, t, field, text) else None)
              && (Coherent(t, View()) <==> r.None? || r.value.typ == TYPE_TERM)
    {
      if field.typ != TYPE_FIELD || text == [] { return None; }
      if field in vocab && text in vocab[field] {
        assert IsTerm(s, vocab[field][text], field, text);
        HolderIs(env, s, field, vocab[field][text]);
        return Some(vocab[field][text]);
      }
      r := Intern(env, s, es, field, TYPE_TERM, text, made);
      if r.Some? {
        ghost var t := Interning(env, s, field, text, made);
        InterningDict(env, s, es, field, TYPE_TERM, text, made);
        FirstNamedIs(t, Candidates(t, BucketKey(env, field, text)), text);
        Listed(env, t, field, text, r.value);
        RememberTerm(t, TermInfo(r.value, field, text));
      }
    }

    /** One relation of a line, shown. */
    method ShowCell(s: Store, b: Entity, rec: Record) returns (x: Option<RowCell>)
      requires Coherent(s, View()) && TermsOk(s) && IsCellKind(rec.kind) && PointsRight(b, rec)
      modifies this
      ensures Coherent(s, View())
      ensures x.Some? ==> Reads(s, b, rec, x.value)
      ensures x.None? ==> !Showable(s, b, rec)
    {
      var field, info := b, None;
      if rec.kind == KIND_CELL {
        info := ResolveTerm(s, b);
        if info.None? { return None; }
        field := info.value.field;
        SomeColumn(s, b, field);
        OneOwner(s, b);
      } else if rec.kind == KIND_QUANTITY && |rec.data| != 8 {
        return None;
      }
      var name := FieldName(s, field);
      if name.None? { return None; }
      if rec.kind == KIND_CELL { return Some(TermShown(field, name.value, b, info.value.text)); }
      if rec.kind == KIND_QUANTITY { return Some(NumberShown(field, name.value, SignedNumber(rec.data))); }
      return Some(RemarkShown(field, name.value, rec.data));
    }

    /** The columns of a line in key order, exactly as they read without a cache. */
    method ReadRow(s: Store, line: Entity) returns (r: Option<seq<RowCell>>)
      requires Coherent(s, View()) && TermsOk(s) && (line.typ == TYPE_ENTRY ==> RowRight(Row(s, line)))
      modifies this
      ensures Coherent(s, View())
      ensures r.Some? ==> ReadsAll(s, CellRels(Listing(Row(s, line), 1, ENTITY_COUNT)), r.value)
      ensures r.None? ==> line.typ != TYPE_ENTRY || exists b :: b in Row(s, line) && !Showable(s, b, Row(s, line)[b])
    {
      if line.typ != TYPE_ENTRY { return None; }
      var row := Row(s, line);
      var rels := ReadRange(row, 1, ENTITY_COUNT);
      var xs := [];
      for i := 0 to |rels|
        invariant Coherent(s, View()) && ReadsAll(s, CellRels(rels[..i]), xs)
      {
        var (b, rec) := rels[i];
        ListingMembers(row, 1, ENTITY_COUNT, b, rec);
        assert rels[i] in rels;
        MoreRels(rels, i);
        if IsCellKind(rec.kind) {
          var x := ShowCell(s, b, rec);
          if x.None? { return None; }
          MoreRead(s, CellRels(rels[..i]), xs, rels[i], x.value);
          xs := xs + [x.value];
        }
      }
      assert rels[..|rels|] == rels;
      return Some(xs);
    }

    /** After this journal's own rename, from one store to the next. */
    method RenameCached(ghost s: Store, ghost t: Store, e: Entity, owner: Entity, prior: Text, text: Text)
      requires Coherent(s, View()) && Renames(s, t, e, owner, prior, text)
      modifies this`fields, this`fieldNames, this`vocab, this`terms
      ensures Coherent(t, View()) && View() == RenamedIn(old(View()), e, owner, prior, text)
    {
      CacheRenamed(s, t, e, owner, prior, text, View());
      if e.typ == TYPE_FIELD {
        fields := (fields - {prior})[text := e];
        fieldNames := fieldNames[e := text];
      } else if e.typ == TYPE_TERM {
        if owner in vocab {
          vocab := vocab[owner := (vocab[owner] - {prior})[text := e]];
        }
        terms := terms[e := TermInfo(e, owner, text)];
      }
    }
  }

  lemma Listed(env: Env, s: Store, owner: Entity, text: Text, c: Entity)
    requires DictInv(env, s) && c in Candidates(s, BucketKey(env, owner, text))
    ensures c in s.decl && (c.typ == TYPE_TERM ==> IsTerm(s, c, owner, s.decl[c].name))
  {
    var k := BucketKey(env, owner, text);
    assert BucketOk(env, s, k, Candidates(s, k));
    assert ListedRight(env, s, k, c);
  }

  lemma {:induction false} FirstNamedIs(s: Store, es: seq<Entity>, text: Text)
    ensures FirstNamed(s, es, text).Some? ==>
            FirstNamed(s, es, text).value in es && FirstNamed(s, es, text).value in s.decl
                                              && s.decl[FirstNamed(s, es, text).value].name == text
  {
    if es != [] { FirstNamedIs(s, es[1..], text); }
  }
}
