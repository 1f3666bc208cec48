/** What a journal remembers of the dictionary it has read, and why what it remembers
    is what it would read again, as long as nobody else renames. */
module Caches {
  import opened Common
  import opened Bytes
  import opened Entities
  import opened Records
  import opened Listings
  import opened Chain
  import opened Transactions
  import opened Book
  import opened Reach
  import opened Dictionary
  import opened Stability
  import History

  type Text = seq<byte>

  datatype TermInfo = TermInfo(term: Entity, field: Entity, text: Text)

  // What is remembered is right.

  predicate IsColumn(s: Store, e: Entity, name: Text) {
    e.typ == TYPE_FIELD && e in s.decl && s.decl[e].name == name
  }

  predicate IsTerm(s: Store, e: Entity, field: Entity, text: Text) {
    e.typ == TYPE_TERM && e in s.decl && s.decl[e].name == text && TermOf(s, e, field)
  }

  predicate HasInput(s: Store, field: Entity, input: byte) {
    field.typ == TYPE_FIELD && field in s.decl && InputOf(s.decl[field]) == input
  }

  datatype Cache = Cache(
    fields: map<Text, Entity>,
    fieldNames: map<Entity, Text>,
    vocab: map<Entity, map<Text, Entity>>,
    terms: map<Entity, TermInfo>,
    inputs: map<Entity, byte>)

  predicate ColumnsRight(s: Store, c: Cache) {
    && (forall n | n in c.fields :: IsColumn(s, c.fields[n], n))
    && (forall e | e in c.fieldNames :: IsColumn(s, e, c.fieldNames[e]))
  }

  predicate VocabRight(s: Store, vocab: map<Entity, map<Text, Entity>>) {
    forall f, x | f in vocab && x in vocab[f] :: IsTerm(s, vocab[f][x], f, x)
  }

  predicate TermsRight(s: Store, c: Cache) {
    && VocabRight(s, c.vocab)
    && (forall e | e in c.terms :: c.terms[e].term == e && IsTerm(s, e, c.terms[e].field, c.terms[e].text))
  }

  predicate InputsRight(s: Store, c: Cache) {
    forall f | f in c.inputs :: HasInput(s, f, c.inputs[f])
  }

  predicate Coherent(s: Store, c: Cache) {
    ColumnsRight(s, c) && TermsRight(s, c) && InputsRight(s, c)
  }

  // The answers without a cache.

  /** The first of some entities that is called a text. */
  function FirstNamed(s: Store, es: seq<Entity>, text: Text): Option<Entity> {
    if es == [] then None
    else if es[0] in s.decl && s.decl[es[0]].name == text then Some(es[0])
    else FirstNamed(s, es[1..], text)
  }

  /** What the bucket of a text resolves to. */
  function Holder(env: Env, s: Store, owner: Entity, text: Text): Option<Entity> {
    FirstNamed(s, Candidates(s, BucketKey(env, owner, text)), text)
  }

  lemma {:induction false} NamedInBucket(env: Env, s: Store, k: (Entity, Entity), all: seq<Entity>, es: seq<Entity>,
                                         e: Entity)
    requires BucketOk(env, s, k, all) && (forall c | c in es :: c in all) && e in es && e in s.decl
    ensures FirstNamed(s, es, s.decl[e].name) == Some(e)
    decreases |es|
  {
    assert es[0] in all && e in all;
    assert ListedRight(env, s, k, es[0]);
    if s.decl[es[0]].name != s.decl[e].name {
      assert forall c | c in es[1..] :: c in es;
      NamedInBucket(env, s, k, all, es[1..], e);
    }
  }

  /** An entity of a vocabulary is what its own text resolves to. */
  lemma HolderIs(env: Env, s: Store, owner: Entity, e: Entity)
    requires DictInv(env, s) && e in s.decl && OwnerOf(env, s, e, owner)
    ensures Holder(env, s, owner, s.decl[e].name) == Some(e)
  {
    var k := BucketKey(env, owner, s.decl[e].name);
    assert e in Candidates(s, k);
    assert BucketOk(env, s, k, Candidates(s, k));
    NamedInBucket(env, s, k, Candidates(s, k), Candidates(s, k), e);
  }

  function ReadInput(s: Store, field: Entity): Option<byte> {
    if field.typ == TYPE_FIELD && field in s.decl then Some(InputOf(s.decl[field])) else None
  }

  function ReadName(s: Store, e: Entity): Option<Text> {
    if e in s.decl then Some(s.decl[e].name) else None
  }

  // What a step does to the dictionary.

  /** Columns and terms other than x read the same, and every column holds the same. */
  ghost predicate KeepsDictionary(s: Store, t: Store, x: Entity) {
    && (forall e, n | e != x && IsColumn(s, e, n) :: IsColumn(t, e, n))
    && (forall e, f, n | e != x && IsTerm(s, e, f, n) :: IsTerm(t, e, f, n))
    && (forall f, input | HasInput(s, f, input) :: HasInput(t, f, input))
  }

  lemma ColumnStays(env: Env, s: Store, step: Step, e: Entity, name: Text)
    requires Now(env, s, step) && !(step.Rename? && step.e == e) && IsColumn(s, e, name)
    ensures IsColumn(Do(env, s, step), e, name)
  {
    DeclSame(env, s, step, e);
  }

  lemma TermStaysTerm(env: Env, s: Store, es: seq<Event>, step: Step, e: Entity, field: Entity, text: Text)
    requires BookInv(env, s, es) && DictInv(env, s) && Now(env, s, step) && !(step.Rename? && step.e == e) &&
             IsTerm(s, e, field, text)
    ensures IsTerm(Do(env, s, step), e, field, text)
  {
    DeclSame(env, s, step, e);
    TermStays(env, s, es, step, e, field);
  }

  lemma StepKeeps(env: Env, s: Store, es: seq<Event>, step: Step, x: Entity)
    requires BookInv(env, s, es) && DictInv(env, s) && Now(env, s, step) && (step.Rename? ==> step.e == x)
    ensures KeepsDictionary(s, Do(env, s, step), x)
  {
    forall e, n | e != x && IsColumn(s, e, n)
      ensures IsColumn(Do(env, s, step), e, n)
    {
      ColumnStays(env, s, step, e, n);
    }
    forall e, f, n | e != x && IsTerm(s, e, f, n)
      ensures IsTerm(Do(env, s, step), e, f, n)
    {
      TermStaysTerm(env, s, es, step, e, f, n);
    }
    InputsStay(env, s, step);
  }

  lemma InputsStay(env: Env, s: Store, step: Step)
    requires Now(env, s, step)
    ensures forall f, input | HasInput(s, f, input) :: HasInput(Do(env, s, step), f, input)
  {
    forall f, input | HasInput(s, f, input)
      ensures HasInput(Do(env, s, step), f, input)
    {
      DataSame(env, s, step, f);
    }
  }

  /** Some cache names the entity. */
  predicate Remembers(c: Cache, e: Entity) {
    || (exists n :: n in c.fields && c.fields[n] == e)
    || e in c.fieldNames
    || (exists f, x :: f in c.vocab && x in c.vocab[f] && c.vocab[f][x] == e)
    || e in c.terms
  }

  lemma StaysCoherent(s: Store, t: Store, x: Entity, c: Cache)
    requires KeepsDictionary(s, t, x) && Coherent(s, c) && !Remembers(c, x)
    ensures Coherent(t, c)
  {
    forall n | n in c.fields
      ensures IsColumn(t, c.fields[n], n)
    {
      assert IsColumn(s, c.fields[n], n);
    }
    forall e | e in c.fieldNames
      ensures IsColumn(t, e, c.fieldNames[e])
    {
      assert IsColumn(s, e, c.fieldNames[e]);
    }
    forall f, y | f in c.vocab && y in c.vocab[f]
      ensures IsTerm(t, c.vocab[f][y], f, y)
    {
      assert IsTerm(s, c.vocab[f][y], f, y);
    }
    forall e | e in c.terms
      ensures c.terms[e].term == e && IsTerm(t, e, c.terms[e].field, c.terms[e].text)
    {
      assert IsTerm(s, e, c.terms[e].field, c.terms[e].text);
    }
  }

  lemma NeverRemembered(s: Store, c: Cache, x: Entity)
    requires Coherent(s, c) && x.typ != TYPE_FIELD && x.typ != TYPE_TERM
    ensures !Remembers(c, x)
  {
    assert forall n | n in c.fields :: IsColumn(s, c.fields[n], n);
    assert forall f, y | f in c.vocab && y in c.vocab[f] :: IsTerm(s, c.vocab[f][y], f, y);
  }

  /** Whatever any writer does short of renaming, what was remembered stays right. */
  lemma StepCoherent(env: Env, s: Store, es: seq<Event>, step: Step, c: Cache)
    requires BookInv(env, s, es) && DictInv(env, s) && Now(env, s, step) && !step.Rename? && Coherent(s, c)
    ensures Coherent(Do(env, s, step), c)
  {
    StepKeeps(env, s, es, step, ZERO);
    NeverRemembered(s, c, ZERO);
    StaysCoherent(s, Do(env, s, step), ZERO, c);
  }

  /** Along a whole run without a rename. */
  lemma {:induction false} RunCoherent(env: Env, s: Store, es: seq<Event>, run: seq<Step>, c: Cache)
    requires BookInv(env, s, es) && DictInv(env, s) && Legal(env, s, run) && Coherent(s, c)
    requires forall step | step in run :: !step.Rename?
    ensures Coherent(Exec(env, s, run), c)
    decreases |run|
  {
    if run != [] {
      StepCoherent(env, s, es, run[0], c);
      StepKept(env, s, es, run[0]);
      StepDict(env, s, es, run[0]);
      RunCoherent(env, Do(env, s, run[0]), EventsAfter(env, s, es, run[0]), run[1..], c);
    }
  }

  /** What was just declared is what will be read of it. */
  lemma InternedIsRead(env: Env, s: Store, step: Step)
    requires step.Intern? && Now(env, s, step)
    ensures step.e.typ == TYPE_FIELD ==> IsColumn(Do(env, s, step), step.e, step.decl.name)
    ensures step.e.typ == TYPE_FIELD ==> HasInput(Do(env, s, step), step.e, InputOf(step.decl))
    ensures step.e.typ == TYPE_TERM ==> IsTerm(Do(env, s, step), step.e, step.owner, step.decl.name)
  {
    DeclAt(env, s, step, Plain(env, step).decl, step.e);
    RowAfter(s, Plain(env, step), step.e);
  }

  // Renaming.

  /** e, of one vocabulary, was called one thing and is called another. */
  ghost predicate Renames(s: Store, t: Store, e: Entity, owner: Entity, prior: Text, text: Text) {
    && KeepsDictionary(s, t, e) && prior != text
    && (   (IsColumn(s, e, prior) && IsColumn(t, e, text))
        || (IsTerm(s, e, owner, prior) && IsTerm(t, e, owner, text) && forall f | TermOf(s, e, f) :: f == owner))
  }

  lemma RenamedDecl(env: Env, s: Store, step: Step)
    requires step.Rename? && Now(env, s, step)
    ensures step.e in s.decl && step.e in Do(env, s, step).decl &&
            Do(env, s, step).decl[step.e].name == step.decl.name != s.decl[step.e].name
    ensures step.e.typ == TYPE_FIELD || (step.e.typ == TYPE_TERM && TermOf(s, step.e, step.owner))
  {
    DeclAt(env, s, step, map[step.e := step.decl], step.e);
  }

  lemma RenameRenames(env: Env, s: Store, es: seq<Event>, step: Step)
    requires BookInv(env, s, es) && DictInv(env, s) && step.Rename? && Now(env, s, step)
    ensures step.e in s.decl && Renames(s, Do(env, s, step), step.e, step.owner, s.decl[step.e].name, step.decl.name)
  {
    RenamedDecl(env, s, step);
    StepKeeps(env, s, es, step, step.e);
    if step.e.typ == TYPE_TERM {
      TermStays(env, s, es, step, step.e, step.owner);
      OneOwner(s, step.e);
    }
  }

  /** What a journal remembers after its own rename. */
  function RenamedIn(c: Cache, e: Entity, owner: Entity, prior: Text, text: Text): Cache {
    if e.typ == TYPE_FIELD then
      c.(fields := (c.fields - {prior})[text := e], fieldNames := c.fieldNames[e := text])
    else if e.typ == TYPE_TERM then
      c.(vocab := if owner in c.vocab then c.vocab[owner := (c.vocab[owner] - {prior})[text := e]] else c.vocab,
         terms := c.terms[e := TermInfo(e, owner, text)])
    else c
  }

  lemma ColumnsRenamed(s: Store, t: Store, e: Entity, owner: Entity, prior: Text, text: Text, c: Cache)
    requires Renames(s, t, e, owner, prior, text) && ColumnsRight(s, c)
    ensures ColumnsRight(t, RenamedIn(c, e, owner, prior, text))
  {
    var d := RenamedIn(c, e, owner, prior, text);
    forall n | n in d.fields
      ensures IsColumn(t, d.fields[n], n)
    {
      assert n in c.fields ==> IsColumn(s, c.fields[n], n);
    }
    forall x | x in d.fieldNames
      ensures IsColumn(t, x, d.fieldNames[x])
    {
      assert x in c.fieldNames ==> IsColumn(s, x, c.fieldNames[x]);
    }
  }

  lemma VocabRenamed(s: Store, t: Store, e: Entity, owner: Entity, prior: Text, text: Text,
                     vocab: map<Entity, map<Text, Entity>>)
    requires Renames(s, t, e, owner, prior, text) && VocabRight(s, vocab) && e.typ == TYPE_TERM
    ensures VocabRight(t, if owner in vocab then vocab[owner := (vocab[owner] - {prior})[text := e]] else vocab)
  {
    var after := if owner in vocab then vocab[owner := (vocab[owner] - {prior})[text := e]] else vocab;
    forall f, x | f in after && x in after[f]
      ensures IsTerm(t, after[f][x], f, x)
    {
      if !(f == owner && x == text) { assert IsTerm(s, vocab[f][x], f, x); }
    }
  }

  lemma TermsRenamed(s: Store, t: Store, e: Entity, owner: Entity, prior: Text, text: Text, c: Cache)
    requires Renames(s, t, e, owner, prior, text) && TermsRight(s, c)
    ensures TermsRight(t, RenamedIn(c, e, owner, prior, text))
  {
    var d := RenamedIn(c, e, owner, prior, text);
    if e.typ == TYPE_TERM {
      VocabRenamed(s, t, e, owner, prior, text, c.vocab);
    } else {
      assert forall f, x | f in c.vocab && x in c.vocab[f] :: IsTerm(s, c.vocab[f][x], f, x);
    }
    assert VocabRight(t, d.vocab);
    forall y | y in d.terms
      ensures d.terms[y].term == y && IsTerm(t, y, d.terms[y].field, d.terms[y].text)
    {
      assert y in c.terms ==> c.terms[y].term == y && IsTerm(s, y, c.terms[y].field, c.terms[y].text);
    }
  }

  /** A journal that renamed something remembers it under its new text only. */
  lemma RenameCoherent(env: Env, s: Store, es: seq<Event>, step: Step, c: Cache)
    requires BookInv(env, s, es) && DictInv(env, s) && step.Rename? && Now(env, s, step) && Coherent(s, c)
    ensures step.e in s.decl
    ensures Coherent(Do(env, s, step), RenamedIn(c, step.e, step.owner, s.decl[step.e].name, step.decl.name))
  {
    RenameRenames(env, s, es, step);
    CacheRenamed(s, Do(env, s, step), step.e, step.owner, s.decl[step.e].name, step.decl.name, c);
  }

  lemma CacheRenamed(s: Store, t: Store, e: Entity, owner: Entity, prior: Text, text: Text, c: Cache)
    requires Renames(s, t, e, owner, prior, text) && Coherent(s, c)
    ensures Coherent(t, RenamedIn(c, e, owner, prior, text))
  {
    ColumnsRenamed(s, t, e, owner, prior, text, c);
    TermsRenamed(s, t, e, owner, prior, text, c);
  }

  lemma StaleCache(s: Store, t: Store, e: Entity, owner: Entity, prior: Text, text: Text, c: Cache)
    requires Renames(s, t, e, owner, prior, text) && Coherent(s, c) && Coherent(t, c)
    ensures !Remembers(c, e)
  {
    assert forall n | n in c.fields :: IsColumn(s, c.fields[n], n) && IsColumn(t, c.fields[n], n);
    assert forall y | y in c.fieldNames :: IsColumn(s, y, c.fieldNames[y]) && IsColumn(t, y, c.fieldNames[y]);
    assert forall f, y | f in c.vocab && y in c.vocab[f] ::
           IsTerm(s, c.vocab[f][y], f, y) && IsTerm(t, c.vocab[f][y], f, y);
    assert forall y | y in c.terms ::
      IsTerm(s, y, c.terms[y].field, c.terms[y].text) && IsTerm(t, y, c.terms[y].field, c.terms[y].text);
  }

  /** Somebody else's rename leaves a journal right exactly if it remembered nothing of
      the entity. */
  lemma ForeignRename(env: Env, s: Store, es: seq<Event>, step: Step, c: Cache)
    requires BookInv(env, s, es) && DictInv(env, s) && step.Rename? && Now(env, s, step) && Coherent(s, c)
    ensures Coherent(Do(env, s, step), c) <==> !Remembers(c, step.e)
  {
    RenameRenames(env, s, es, step);
    if Coherent(Do(env, s, step), c) {
      StaleCache(s, Do(env, s, step), step.e, step.owner, s.decl[step.e].name, step.decl.name, c);
    }
    if !Remembers(c, step.e) {
      StaysCoherent(s, Do(env, s, step), step.e, c);
    }
  }
}
