/** Every trace of racing writers is a run of the book. */
module Racing {
  import opened Common
  import opened Bytes
  import opened Entities
  import opened Records
  import opened Chain
  import opened Transactions
  import opened Sealing
  import opened Book
  import opened Growth
  import opened Allocation
  import opened Acceptance
  import opened Preserve
  import opened Steps
  import opened Reach
  import opened Dictionary
  import opened Stability
  import opened Interleaving

  // A trace whose commits so far have all been steps.

  ghost predicate StepAt(env: Env, h: seq<Store>, run: seq<Step>, i: nat)
    requires |h| == |run| + 1 && i < |run|
  {
    Now(env, h[i], run[i]) && h[i + 1] == Do(env, h[i], run[i]) && Fresh(h[..i + 1], Plain(env, run[i]).pres)
  }

  ghost predicate Sound(env: Env, h: seq<Store>, run: seq<Step>) {
    |h| == |run| + 1 && h[0] == Empty() && forall i: nat | i < |run| :: StepAt(env, h, run, i)
  }

  ghost predicate HasInv(env: Env, s: Store) {
    exists es :: BookInv(env, s, es) && DictInv(env, s)
  }

  lemma InvBegin(env: Env)
    ensures HasInv(env, Empty())
  {
    EmptyInv(env);
    EmptyDict(env);
  }

  lemma InvNext(env: Env, s: Store, step: Step)
    requires HasInv(env, s) && Now(env, s, step)
    ensures HasInv(env, Do(env, s, step))
  {
    var es :| BookInv(env, s, es) && DictInv(env, s);
    StepKept(env, s, es, step);
    StepDict(env, s, es, step);
  }

  lemma {:induction false} InvAt(env: Env, h: seq<Store>, run: seq<Step>, i: nat)
    requires Sound(env, h, run) && i <= |run|
    ensures HasInv(env, h[i])
    decreases i
  {
    if i == 0 {
      InvBegin(env);
    } else {
      InvAt(env, h, run, i - 1);
      InvStep(env, h, run, i - 1);
    }
  }

  lemma InvStep(env: Env, h: seq<Store>, run: seq<Step>, m: nat)
    requires Sound(env, h, run) && m < |run| && HasInv(env, h[m])
    ensures HasInv(env, h[m + 1])
  {
    assert StepAt(env, h, run, m);
    InvNext(env, h[m], run[m]);
  }

  // What was read once still holds.

  lemma DeclaredStep(env: Env, h: seq<Store>, run: seq<Step>, m: nat, e: Entity)
    requires Sound(env, h, run) && m < |run| && e in h[m].decl
    ensures e in h[m + 1].decl
  {
    assert StepAt(env, h, run, m);
    DeclStays(env, h[m], run[m], e);
  }

  lemma {:induction false} DeclaredSince(env: Env, h: seq<Store>, run: seq<Step>, j: nat, n: nat, e: Entity)
    requires Sound(env, h, run) && j <= n <= |run| && e in h[j].decl
    ensures e in h[n].decl
    decreases n
  {
    if j < n {
      DeclaredSince(env, h, run, j, n - 1, e);
      DeclaredStep(env, h, run, n - 1, e);
    }
  }

  lemma TakenStep(env: Env, h: seq<Store>, run: seq<Step>, m: nat, p: byte, typ: byte)
    requires Sound(env, h, run) && m < |run| && SlotOn(env, h[m], p, typ) == 0
    ensures SlotOn(env, h[m + 1], p, typ) == 0
  {
    assert StepAt(env, h, run, m);
    SlotStays(env, h[m], run[m], p, typ);
  }

  lemma {:induction false} TakenSince(env: Env, h: seq<Store>, run: seq<Step>, j: nat, n: nat, p: byte, typ: byte)
    requires Sound(env, h, run) && j <= n <= |run| && SlotOn(env, h[j], p, typ) == 0
    ensures SlotOn(env, h[n], p, typ) == 0
    decreases n
  {
    if j < n {
      TakenSince(env, h, run, j, n - 1, p, typ);
      TakenStep(env, h, run, n - 1, p, typ);
    }
  }

  lemma CellStep(env: Env, h: seq<Store>, run: seq<Step>, m: nat, c: Cell)
    requires Sound(env, h, run) && m < |run| && CellOk(h[m], c)
    ensures CellOk(h[m + 1], c)
  {
    assert StepAt(env, h, run, m);
    InvAt(env, h, run, m);
    var es :| BookInv(env, h[m], es) && DictInv(env, h[m]);
    CellStays(env, h[m], es, run[m], c);
  }

  lemma {:induction false} CellSince(env: Env, h: seq<Store>, run: seq<Step>, j: nat, n: nat, c: Cell)
    requires Sound(env, h, run) && j <= n <= |run| && CellOk(h[j], c)
    ensures CellOk(h[n], c)
    decreases n
  {
    if j < n {
      CellSince(env, h, run, j, n - 1, c);
      CellStep(env, h, run, n - 1, c);
    }
  }

  lemma LineStep(env: Env, h: seq<Store>, run: seq<Step>, m: nat, x: Entity)
    requires Sound(env, h, run) && m < |run| && x.typ == TYPE_ENTRY && x in h[m].decl
    ensures x in h[m + 1].decl && h[m + 1].decl[x] == h[m].decl[x]
  {
    assert StepAt(env, h, run, m);
    DeclSame(env, h[m], run[m], x);
  }

  lemma {:induction false} LineSince(env: Env, h: seq<Store>, run: seq<Step>, j: nat, n: nat, x: Entity)
    requires Sound(env, h, run) && j <= n <= |run| && x.typ == TYPE_ENTRY && x in h[j].decl
    ensures x in h[n].decl && h[n].decl[x] == h[j].decl[x]
    decreases n
  {
    if j < n {
      LineSince(env, h, run, j, n - 1, x);
      LineStep(env, h, run, n - 1, x);
    }
  }

  // Buckets never return to an earlier value.

  lemma BucketBefore(env: Env, h: seq<Store>, run: seq<Step>, i: nat, m: nat, k: (Entity, Entity))
    requires Sound(env, h, run) && i <= m < |run| && k in h[i].pres && k in h[m + 1].pres &&
             h[m + 1].pres[k] == h[i].pres[k]
    ensures k in h[m].pres && h[m].pres[k] == h[i].pres[k]
  {
    assert StepAt(env, h, run, m);
    PresAfter(env, h[m], run[m]);
    assert h[..m + 1][i] == h[i];
  }

  lemma {:induction false} BucketThroughout(env: Env, h: seq<Store>, run: seq<Step>, i: nat, j: nat, n: nat,
                                            k: (Entity, Entity))
    requires Sound(env, h, run) && i <= j <= n <= |run| && k in h[i].pres && k in h[n].pres &&
             h[n].pres[k] == h[i].pres[k]
    ensures k in h[j].pres && h[j].pres[k] == h[i].pres[k]
    decreases n
  {
    if j < n {
      BucketBefore(env, h, run, i, n - 1, k);
      BucketThroughout(env, h, run, i, j, n - 1, k);
    }
  }

  lemma NameAtStep(env: Env, h: seq<Store>, run: seq<Step>, m: nat, k: (Entity, Entity), c: Entity)
    requires Sound(env, h, run) && m < |run| && k in h[m].pres && k in h[m + 1].pres && h[m + 1].pres[k] == h[m].pres[k]
    requires c in Candidates(h[m], k)
    ensures c in h[m].decl && c in h[m + 1].decl && h[m + 1].decl[c] == h[m].decl[c] && Lasting(c)
  {
    assert StepAt(env, h, run, m);
    InvAt(env, h, run, m);
    assert h[..m + 1][m] == h[m];
    NameStays(env, h[m], run[m], k, c);
  }

  /** While a bucket keeps its value, its entities keep their names. */
  lemma {:induction false} NamesThroughout(env: Env, h: seq<Store>, run: seq<Step>, i: nat, j: nat, n: nat,
                                           k: (Entity, Entity), c: Entity)
    requires Sound(env, h, run) && i <= j <= n <= |run| && k in h[i].pres && k in h[n].pres &&
             h[n].pres[k] == h[i].pres[k]
    requires c in Candidates(h[i], k)
    ensures c in h[i].decl && c in h[j].decl && h[j].decl[c] == h[i].decl[c] && Lasting(c)
    decreases j
  {
    BucketThroughout(env, h, run, i, j, n, k);
    if i == j {
      InvAt(env, h, run, i);
      assert BucketOk(env, h[i], k, Candidates(h[i], k));
      assert ListedRight(env, h[i], k, c);
    } else {
      BucketThroughout(env, h, run, i, j - 1, n, k);
      NamesThroughout(env, h, run, i, j - 1, n, k, c);
      NameAtStep(env, h, run, j - 1, k, c);
    }
  }

  // What a committing transaction finds.

  lemma FreeFrom(env: Env, s: Store, page: byte, typ: byte, start: nat, id: byte)
    requires start <= id && Entity(env.log, page, typ, id) !in s.decl
    requires forall k: byte | start <= k < id :: Entity(env.log, page, typ, k) in s.decl
    ensures FirstFree(env, s, page, typ, start) == id
  {
  }

  lemma SlotHolds(env: Env, h: seq<Store>, run: seq<Step>, page: byte, e: Entity)
    requires Sound(env, h, run) && SlotRead(env, h, page, e)
    ensures IsSlot(env, Current(h), page, e)
  {
    var s := Current(h);
    forall id: byte | StartId(env, s, e) <= id < e.id
      ensures Entity(env.log, e.page, e.typ, id) in s.decl
    {
      var x := Entity(env.log, e.page, e.typ, id);
      assert DeclaredOnce(h, x);
      var j :| 0 <= j < |h| && x in h[j].decl;
      DeclaredSince(env, h, run, j, |run|, x);
    }
    FreeFrom(env, s, e.page, e.typ, StartId(env, s, e), e.id);
    forall p: byte | page <= p < e.page
      ensures SlotOn(env, s, p, e.typ) == 0
    {
      assert TakenOnce(env, h, p, e.typ);
      var j :| 0 <= j < |h| && SlotOn(env, h[j], p, e.typ) == 0;
      TakenSince(env, h, run, j, |run|, p, e.typ);
    }
  }

  lemma BucketHolds(env: Env, h: seq<Store>, run: seq<Step>, i: nat, owner: Entity, text: seq<byte>)
    requires Sound(env, h, run) && i < |h| && BucketRead(env, h, i, owner, text)
    ensures Candidates(Current(h), BucketKey(env, owner, text)) == Candidates(h[i], BucketKey(env, owner, text))
    ensures Unheld(env, Current(h), owner, text)
  {
    var k := BucketKey(env, owner, text);
    SameCandidates(h[i], Current(h), k);
    forall c | c in Candidates(h[i], k)
      ensures c in Current(h).decl && Current(h).decl[c].name != text
    {
      assert NameRead(h, i, c, text);
      var j :| i <= j < |h| && c in h[j].decl && h[j].decl[c].name != text;
      NamesThroughout(env, h, run, i, j, |run|, k, c);
      NamesThroughout(env, h, run, i, |run|, |run|, k, c);
    }
  }

  lemma InternHolds(env: Env, h: seq<Store>, run: seq<Step>, step: Step)
    requires Sound(env, h, run) && step.Intern? && InternMay(env, h, step)
    ensures InternNow(env, Current(h), step.owner, step.e, step.decl, step.counter, step.bucket, step.termOf)
  {
    SlotHolds(env, h, run, SCHEMA_PAGE, step.e);
    var i: nat :| i < |h| && BucketRead(env, h, i, step.owner, step.decl.name)
      && step.bucket.data == Pack(Candidates(h[i], BucketKey(env, step.owner, step.decl.name)) + [step.e]);
    BucketHolds(env, h, run, i, step.owner, step.decl.name);
  }

  lemma DeclaredHolds(env: Env, h: seq<Store>, run: seq<Step>, e: Entity)
    requires Sound(env, h, run) && DeclaredOnce(h, e)
    ensures e in Current(h).decl
  {
    var j :| 0 <= j < |h| && e in h[j].decl;
    DeclaredSince(env, h, run, j, |run|, e);
  }

  lemma StrikeHolds(env: Env, h: seq<Store>, run: seq<Step>, x: Strike, kind: byte)
    requires Sound(env, h, run) && StrikeMay(env, h, x, kind)
    ensures StrikeOk(env, Current(h), x, kind)
  {
    DeclaredHolds(env, h, run, x.line);
  }

  lemma CellsHold(env: Env, h: seq<Store>, run: seq<Step>, cells: seq<Cell>)
    requires Sound(env, h, run) && forall c | c in cells :: CellRead(h, c)
    ensures forall c | c in cells :: CellOk(Current(h), c)
  {
    forall c | c in cells
      ensures CellOk(Current(h), c)
    {
      assert CellRead(h, c);
      var j :| 0 <= j < |h| && CellOk(h[j], c);
      CellSince(env, h, run, j, |run|, c);
    }
  }

  lemma WriteHolds(env: Env, h: seq<Store>, run: seq<Step>, step: Step)
    requires Sound(env, h, run) && step.Write? && WriteMay(env, h, step)
    ensures WriteNow(env, Current(h), step.line, step.decl, step.counter, step.cells, step.row, step.prior)
  {
    SlotHolds(env, h, run, FIRST_ENTRY_PAGE, step.line);
    CellsHold(env, h, run, step.cells);
    if step.prior.Some? { StrikeHolds(env, h, run, step.prior.value, KIND_SUPERSEDED); }
  }

  lemma CountersignHolds(env: Env, h: seq<Store>, run: seq<Step>, step: Step)
    requires Sound(env, h, run) && step.Countersign? && CountersignMay(env, h, step)
    ensures CountersignNow(env, Current(h), step.line, step.actor, step.link)
  {
    var j :| 0 <= j < |h| && step.line in h[j].decl && h[j].decl[step.line].author != step.actor;
    LineSince(env, h, run, j, |run|, step.line);
  }

  lemma VocabularyHolds(env: Env, h: seq<Store>, run: seq<Step>, step: Step)
    requires Sound(env, h, run) && step.SetVocabulary? && VocabularyMay(env, h, step)
    ensures SetVocabularyNow(env, Current(h), step.field, step.link)
  {
    DeclaredHolds(env, h, run, step.field);
  }

  lemma DeriveHolds(env: Env, h: seq<Store>, run: seq<Step>, step: Step)
    requires Sound(env, h, run) && step.Derive? && DeriveMay(env, h, step)
    ensures DeriveNow(env, Current(h), step.edges)
  {
    forall a, b | a in step.edges && b in step.edges[a]
      ensures EdgeOk(env, Current(h), a, b, step.edges[a][b])
    {
      assert EdgeMay(env, h, a, b, step.edges[a][b]);
      DeclaredHolds(env, h, run, a);
      DeclaredHolds(env, h, run, b);
    }
  }

  // Renames.

  lemma TermStep(env: Env, h: seq<Store>, run: seq<Step>, m: nat, e: Entity, f: Entity)
    requires Sound(env, h, run) && m < |run| && e.typ == TYPE_TERM && TermOf(h[m], e, f)
    ensures TermOf(h[m + 1], e, f)
  {
    assert StepAt(env, h, run, m);
    InvAt(env, h, run, m);
    var es :| BookInv(env, h[m], es) && DictInv(env, h[m]);
    TermStays(env, h[m], es, run[m], e, f);
  }

  lemma {:induction false} TermSince(env: Env, h: seq<Store>, run: seq<Step>, j: nat, n: nat, e: Entity, f: Entity)
    requires Sound(env, h, run) && j <= n <= |run| && e.typ == TYPE_TERM && TermOf(h[j], e, f)
    ensures TermOf(h[n], e, f)
    decreases n
  {
    if j < n {
      TermSince(env, h, run, j, n - 1, e, f);
      TermStep(env, h, run, n - 1, e, f);
    }
  }

  lemma ActorStep(env: Env, h: seq<Store>, run: seq<Step>, m: nat, a: Entity)
    requires Sound(env, h, run) && m < |run| && a.typ == TYPE_ACTOR && a in h[m].decl
    ensures a in h[m + 1].decl && h[m + 1].decl[a] == h[m].decl[a]
  {
    assert StepAt(env, h, run, m);
    NowTyped(env, h[m], run[m]);
    DeclSame(env, h[m], run[m], a);
  }

  lemma {:induction false} ActorSince(env: Env, h: seq<Store>, run: seq<Step>, j: nat, n: nat, a: Entity)
    requires Sound(env, h, run) && j <= n <= |run| && a.typ == TYPE_ACTOR && a in h[j].decl
    ensures a in h[n].decl && h[n].decl[a] == h[j].decl[a]
    decreases n
  {
    if j < n {
      ActorSince(env, h, run, j, n - 1, a);
      ActorStep(env, h, run, n - 1, a);
    }
  }

  lemma SignedSince(env: Env, h: seq<Store>, run: seq<Step>, j: nat, k: Key, r: Record)
    requires Sound(env, h, run) && j < |h| && Signed(env, h[j], k, r)
    ensures Signed(env, Current(h), k, r)
  {
    ActorSince(env, h, run, j, |run|, r.author);
  }

  /** The entity being renamed is still called what the snapshot says. */
  lemma SnapshotName(env: Env, h: seq<Store>, run: seq<Step>, i: nat, step: Step)
    requires Sound(env, h, run) && step.Rename? && i < |h| && RenameMay(env, h, i, step)
    ensures var from := BucketKey(env, step.owner, h[i].decl[step.e].name);
            && step.e in Candidates(h[i], from) && SameBucket(h[i], Current(h), from)
            && step.e in Current(h).decl && Current(h).decl[step.e] == h[i].decl[step.e]
  {
    InvAt(env, h, run, i);
    var from := BucketKey(env, step.owner, h[i].decl[step.e].name);
    assert step.e in Candidates(h[i], from);
    NamesThroughout(env, h, run, i, |run|, |run|, from, step.e);
  }

  lemma SnapshotUnheld(env: Env, h: seq<Store>, run: seq<Step>, i: nat, owner: Entity, text: seq<byte>)
    requires Sound(env, h, run) && i < |h| && Unheld(env, h[i], owner, text) &&
             SameBucket(h[i], Current(h), BucketKey(env, owner, text))
    ensures Unheld(env, Current(h), owner, text)
  {
    forall c | c in Candidates(h[i], BucketKey(env, owner, text))
      ensures NameRead(h, i, c, text)
    {
      assert c in h[i].decl && h[i].decl[c].name != text;
    }
    BucketHolds(env, h, run, i, owner, text);
  }

  lemma SnapshotOwner(env: Env, h: seq<Store>, run: seq<Step>, i: nat, e: Entity, owner: Entity)
    requires Sound(env, h, run) && i < |h| && OwnerOf(env, h[i], e, owner)
    ensures OwnerOf(env, Current(h), e, owner)
  {
    if e.typ != TYPE_FIELD { TermSince(env, h, run, i, |run|, e, owner); }
  }

  lemma SameMoved(env: Env, s: Store, t: Store, e: Entity, owner: Entity, name: seq<byte>, text: seq<byte>,
                  pres: map<(Entity, Entity), Record>, gone: set<(Entity, Entity)>)
    requires Moved(env, s, e, owner, name, text, pres, gone)
    requires SameBucket(s, t, BucketKey(env, owner, name)) && SameBucket(s, t, BucketKey(env, owner, text))
    ensures Moved(env, t, e, owner, name, text, pres, gone)
  {
    SameCandidates(s, t, BucketKey(env, owner, name));
    SameCandidates(s, t, BucketKey(env, owner, text));
  }

  lemma RenameHolds(env: Env, h: seq<Store>, run: seq<Step>, i: nat, step: Step)
    requires Sound(env, h, run) && step.Rename? && i < |h| && RenameMay(env, h, i, step)
    ensures RenameNow(env, Current(h), step.e, step.owner, step.decl, step.pres, step.gone)
  {
    SnapshotName(env, h, run, i, step);
    SnapshotUnheld(env, h, run, i, step.owner, step.decl.name);
    SnapshotOwner(env, h, run, i, step.e, step.owner);
    SignedSince(env, h, run, i, DeclKey(step.e), step.decl);
    SameMoved(env, h[i], Current(h), step.e, step.owner, h[i].decl[step.e].name, step.decl.name, step.pres, step.gone);
  }

  lemma RenameSeals(env: Env, h: seq<Store>, run: seq<Step>, i: nat, step: Step)
    requires Sound(env, h, run) && step.Rename? && i < |h| && RenameMay(env, h, i, step)
    ensures SealOk(env, Current(h), step, step.seal)
  {
    SnapshotName(env, h, run, i, step);
    assert Entries(env, Current(h), step) == Entries(env, h[i], step);
  }

  // Commits are steps.

  lemma SchemaMayIsNow(env: Env, h: seq<Store>, run: seq<Step>, step: Step)
    requires Sound(env, h, run) && May(env, h, step) &&
             (step.DeclareActor? || step.Intern? || step.SetVocabulary? || step.Derive?)
    ensures Now(env, Current(h), step)
  {
    if step.Intern? {
      InternHolds(env, h, run, step);
    } else if step.SetVocabulary? {
      VocabularyHolds(env, h, run, step);
    } else if step.Derive? {
      DeriveHolds(env, h, run, step);
    }
  }

  lemma LineMayIsNow(env: Env, h: seq<Store>, run: seq<Step>, step: Step)
    requires Sound(env, h, run) && May(env, h, step) &&
             (step.Write? || step.Void? || step.Countersign? || step.SignOff?)
    ensures Now(env, Current(h), step)
  {
    if step.Write? {
      WriteHolds(env, h, run, step);
    } else if step.Void? {
      StrikeHolds(env, h, run, step.strike, KIND_VOIDED);
    } else if step.Countersign? {
      CountersignHolds(env, h, run, step);
    }
  }

  lemma RenameMayIsNow(env: Env, h: seq<Store>, run: seq<Step>, step: Step)
    requires Sound(env, h, run) && May(env, h, step) && step.Rename?
    ensures Now(env, Current(h), step)
  {
    var i: nat :| i < |h| && RenameMay(env, h, i, step);
    RenameHolds(env, h, run, i, step);
    RenameSeals(env, h, run, i, step);
  }

  /** Whatever was read when, a transaction whose comparisons succeed is a step. */
  lemma MayIsNow(env: Env, h: seq<Store>, run: seq<Step>, step: Step)
    requires Sound(env, h, run) && May(env, h, step)
    ensures Now(env, Current(h), step)
  {
    if step.Rename? {
      RenameMayIsNow(env, h, run, step);
    } else if step.DeclareActor? || step.Intern? || step.SetVocabulary? || step.Derive? {
      SchemaMayIsNow(env, h, run, step);
    } else {
      LineMayIsNow(env, h, run, step);
    }
  }

  lemma MayIsFresh(env: Env, h: seq<Store>, step: Step)
    requires h != [] && May(env, h, step)
    ensures Fresh(h, Plain(env, step).pres)
  {
    if Aloof(step) {
      AloofPlain(env, step);
    } else if step.Rename? {
      var i: nat :| i < |h| && RenameMay(env, h, i, step);
    }
  }

  lemma SoundMore(env: Env, h: seq<Store>, run: seq<Step>, step: Step)
    requires Sound(env, h, run) && May(env, h, step)
    ensures Sound(env, h + [Do(env, Current(h), step)], run + [step])
  {
    MayIsNow(env, h, run, step);
    MayIsFresh(env, h, step);
    SoundAppend(env, h, run, step, Do(env, Current(h), step));
  }

  lemma SoundAppend(env: Env, h: seq<Store>, run: seq<Step>, step: Step, t: Store)
    requires Sound(env, h, run) && Now(env, Current(h), step) && Fresh(h, Plain(env, step).pres) &&
             t == Do(env, Current(h), step)
    ensures Sound(env, h + [t], run + [step])
  {
    OldSteps(env, h, run, step, t);
    NewStep(env, h, run, step, t);
  }

  lemma OldSteps(env: Env, h: seq<Store>, run: seq<Step>, step: Step, t: Store)
    requires Sound(env, h, run)
    ensures forall i: nat | i < |run| :: StepAt(env, h + [t], run + [step], i)
  {
    forall i: nat | i < |run|
      ensures StepAt(env, h + [t], run + [step], i)
    {
      assert StepAt(env, h, run, i);
      assert (h + [t])[..i + 1] == h[..i + 1];
    }
  }

  lemma NewStep(env: Env, h: seq<Store>, run: seq<Step>, step: Step, t: Store)
    requires |h| == |run| + 1 && Now(env, Current(h), step) && Fresh(h, Plain(env, step).pres) &&
             t == Do(env, Current(h), step)
    ensures forall i: nat | i == |run| :: StepAt(env, h + [t], run + [step], i)
  {
    assert (h + [t])[..|run| + 1] == h;
  }

  lemma {:induction false} TraceIsSound(env: Env, h: seq<Store>, run: seq<Step>)
    requires Trace(env, h, run)
    ensures Sound(env, h, run)
    decreases |run|
  {
    if run != [] {
      var n := |run| - 1;
      var h', run' := h[..n + 1], run[..n];
      TraceLess(env, h, run);
      TraceIsSound(env, h', run');
      SoundMore(env, h', run', run[n]);
      assert h == h' + [h[n + 1]] && run == run' + [run[n]];
    }
  }

  lemma TraceLess(env: Env, h: seq<Store>, run: seq<Step>)
    requires Trace(env, h, run) && run != []
    ensures Trace(env, h[..|run|], run[..|run| - 1])
    ensures May(env, h[..|run|], run[|run| - 1]) && h[|run|] == Do(env, Current(h[..|run|]), run[|run| - 1])
  {
    var h', run' := h[..|run|], run[..|run| - 1];
    forall i: nat | i < |run'|
      ensures May(env, h'[..i + 1], run'[i]) && h'[i + 1] == Do(env, h'[i], run'[i])
    {
      assert h'[..i + 1] == h[..i + 1];
    }
  }

  lemma {:induction false} SoundIsRun(env: Env, h: seq<Store>, run: seq<Step>, i: nat)
    requires Sound(env, h, run) && i <= |run|
    ensures Legal(env, h[i], run[i..]) && Exec(env, h[i], run[i..]) == Current(h)
    decreases |run| - i
  {
    if i < |run| {
      SoundIsRun(env, h, run, i + 1);
      assert StepAt(env, h, run, i);
      assert run[i..][1..] == run[i + 1..];
    }
  }

  /** Any trace of racing writers is a run of the book, to the same store. */
  lemma TraceIsRun(env: Env, h: seq<Store>, run: seq<Step>)
    requires Trace(env, h, run)
    ensures Legal(env, Empty(), run) && Exec(env, Empty(), run) == Current(h)
  {
    TraceIsSound(env, h, run);
    SoundIsRun(env, h, run, 0);
    assert run[0..] == run;
  }

  // The line count of a sign-off.

  predicate WritesOn(step: Step, page: byte) { step.Write? && step.line.page == page }

  lemma LinesGrow(env: Env, s: Store, step: Step, page: byte)
    requires AllocInv(env, s) && Now(env, s, step) && FIRST_ENTRY_PAGE <= page
    ensures LinesOn(env, Do(env, s, step), page) == if WritesOn(step, page)
            then LinesOn(env, s, page) + 1 else LinesOn(env, s, page)
  {
    if WritesOn(step, page) {
      WrittenOn(env, s, step);
    } else if step.SignOff? && step.page == page {
      ClosedOn(env, s, step);
    } else {
      NotOn(env, s, step, page);
    }
  }

  lemma WrittenOn(env: Env, s: Store, step: Step)
    requires AllocInv(env, s) && step.Write? && Now(env, s, step)
    ensures LinesOn(env, Do(env, s, step), step.line.page) == LinesOn(env, s, step.line.page) + 1
  {
    SlotIsNext(env, s, step.line);
    WrittenCount(env, s, step.line, step.counter);
    DeclAfter(env, s, step);
    WriteMoves(env, s, Do(env, s, step), step.line, step.counter, step.decl, step.seal.head);
    LinesOf(env, Do(env, s, step), step.line.page, step.counter);
  }

  lemma LinesOf(env: Env, t: Store, page: byte, counter: Record)
    requires Reached(env, t, page) && PageCounter(env, t, page) == counter && CounterParses(counter)
    ensures LinesOn(env, t, page) == LastId(counter)
  {
  }

  lemma WrittenCount(env: Env, s: Store, line: Entity, counter: Record)
    requires CountersOk(env, s) && line.id != 0 && line.id == NextId(env, s, line.page) && CounterFor(line, counter)
    ensures CounterParses(counter) && LastId(counter) == LinesOn(env, s, line.page) + 1
  {
  }

  lemma ClosedCount(env: Env, s: Store, page: byte, counter: Record)
    requires CountersOk(env, s) && counter.data == CounterData(NextId(env, s, page), COUNTER_CLOSED)
    ensures CounterParses(counter) && LastId(counter) == LinesOn(env, s, page)
  {
  }

  lemma ClosedOn(env: Env, s: Store, step: Step)
    requires AllocInv(env, s) && step.SignOff? && Now(env, s, step)
    ensures LinesOn(env, Do(env, s, step), step.page) == LinesOn(env, s, step.page)
  {
    ClosedCount(env, s, step.page, step.counter);
    DeclAfter(env, s, step);
    SignOffMoves(env, s, Do(env, s, step), step.page, step.counter, step.seal.head);
    LinesOf(env, Do(env, s, step), step.page, step.counter);
  }

  lemma NotOn(env: Env, s: Store, step: Step, page: byte)
    requires Now(env, s, step) && !WritesOn(step, page) && !(step.SignOff? && step.page == page)
    ensures LinesOn(env, Do(env, s, step), page) == LinesOn(env, s, page)
  {
    if step.Write? {
      WriteElsewhere(env, s, step, page);
    } else if step.SignOff? {
      SignOffElsewhere(env, s, step, page);
    } else {
      NowTyped(env, s, step);
      StepAside(env, s, step);
      AsideSamePages(env, s, Effect(env, s, step));
    }
  }

  lemma LinesStep(env: Env, h: seq<Store>, run: seq<Step>, m: nat, page: byte)
    requires Sound(env, h, run) && m < |run| && FIRST_ENTRY_PAGE <= page
    ensures LinesOn(env, h[m + 1], page) == if WritesOn(run[m], page)
            then LinesOn(env, h[m], page) + 1 else LinesOn(env, h[m], page)
  {
    assert StepAt(env, h, run, m);
    InvAt(env, h, run, m);
    var es :| BookInv(env, h[m], es) && DictInv(env, h[m]);
    LinesGrow(env, h[m], run[m], page);
  }

  lemma {:induction false} LinesSince(env: Env, h: seq<Store>, run: seq<Step>, j: nat, n: nat, page: byte)
    requires Sound(env, h, run) && j <= n <= |run| && FIRST_ENTRY_PAGE <= page
    ensures LinesOn(env, h[j], page) <= LinesOn(env, h[n], page)
    ensures LinesOn(env, h[j], page) == LinesOn(env, h[n], page) <==> forall m | j <= m < n :: !WritesOn(run[m], page)
    decreases n
  {
    if j < n {
      LinesSince(env, h, run, j, n - 1, page);
      LinesStep(env, h, run, n - 1, page);
    }
  }

  /** The count in a sign-off is never too high, and it is the number of lines the page
      was closed with exactly when no line was written there after the count was read. */
  lemma SignOffCount(env: Env, h: seq<Store>, run: seq<Step>, j: nat, n: nat, count: byte)
    requires Trace(env, h, run) && j <= n < |run| && run[n].SignOff? && FIRST_ENTRY_PAGE <= run[n].page
    requires run[n].link.fwd.data == [count] && count == LinesOn(env, h[j], run[n].page)
    ensures count <= LinesOn(env, h[n + 1], run[n].page)
    ensures count == LinesOn(env, h[n + 1], run[n].page) <==> forall m | j <= m < n :: !WritesOn(run[m], run[n].page)
  {
    TraceIsSound(env, h, run);
    LinesSince(env, h, run, j, n, run[n].page);
    LinesStep(env, h, run, n, run[n].page);
  }
}
