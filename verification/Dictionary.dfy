/** The dictionary: within a vocabulary no two entities hold the same text, and each is
    listed once, in the bucket of the text it holds now.  The bucket function is
    arbitrary, so texts may share buckets in any way. */
module Dictionary {
  import opened Common
  import opened Bytes
  import opened Entities
  import opened Records
  import opened Chain
  import opened Transactions
  import opened Sealing
  import opened Book
  import opened Growth
  import opened Acceptance
  import opened Preserve
  import opened Steps
  import opened Reach

  // Buckets as bytes.

  lemma {:induction false} UnpackPack(es: seq<Entity>)
    ensures Unpack(Pack(es)) == es && |Pack(es)| == ENTITY_LEN * |es|
  {
    if es != [] {
      var n := |es| - 1;
      UnpackPack(es[..n]);
      UnpackMore(Pack(es[..n]), es[n]);
      assert es == es[..n] + [es[n]];
    }
  }

  lemma UnpackMore(data: seq<byte>, e: Entity)
    ensures Unpack(data + EntityBytes(e)) == Unpack(data) + [e]
  {
    var all := data + EntityBytes(e);
    assert all[..|all| - ENTITY_LEN] == data;
    assert all[|all| - ENTITY_LEN..] == EntityBytes(e);
  }

  lemma {:induction false} WithoutMembers(es: seq<Entity>, e: Entity, c: Entity)
    ensures c in Without(es, e) <==> c in es && c != e
  {
    if es != [] {
      WithoutMembers(es[..|es| - 1], e, c);
      assert es == es[..|es| - 1] + [es[|es| - 1]];
    }
  }

  lemma {:induction false} WithoutNoRepeat(es: seq<Entity>, e: Entity)
    requires NoRepeat(es)
    ensures NoRepeat(Without(es, e))
  {
    if es != [] {
      var n := |es| - 1;
      WithoutNoRepeat(es[..n], e);
      WithoutMembers(es[..n], e, es[n]);
      AddOne(Without(es[..n], e), es[n]);
    }
  }

  // What is kept.

  /** The vocabulary entity c may be listed under. */
  predicate OwnerFits(env: Env, s: Store, c: Entity, owner: Entity) {
    || (c.typ == TYPE_FIELD && owner == FieldOwner(env))
    || (c.typ == TYPE_TERM && TermOf(s, c, owner))
    || (c.typ == TYPE_ACTOR && owner == ActorOwner(env))
  }

  predicate ListedRight(env: Env, s: Store, k: (Entity, Entity), c: Entity) {
    c in s.decl && OwnerFits(env, s, c, k.0) && env.bucket(s.decl[c].name) == k.1
  }

  /** The entities of one bucket: each right there, each once, all with different names. */
  ghost predicate BucketOk(env: Env, s: Store, k: (Entity, Entity), cs: seq<Entity>) {
    && NoRepeat(cs)
    && (forall c | c in cs :: ListedRight(env, s, k, c))
    && (forall c, c' | c in cs && c' in cs && s.decl[c].name == s.decl[c'].name :: c == c')
  }

  ghost predicate BucketsOk(env: Env, s: Store) {
    forall k | k in s.pres :: BucketOk(env, s, k, Candidates(s, k))
  }

  /** Every column and every term is found in the bucket of its text. */
  ghost predicate AllFound(env: Env, s: Store) {
    forall e: Entity, owner: Entity | e in s.decl && OwnerOf(env, s, e, owner) ::
      e in Candidates(s, BucketKey(env, owner, s.decl[e].name))
  }

  /** A term belongs to one column, and has no relations before it is declared. */
  ghost predicate TermOk(s: Store, e: Entity) {
    (e !in s.decl ==> Row(s, e) == map[]) && OneColumn(Row(s, e))
  }

  predicate InColumn(row: Relations, f: Entity) { f in row && row[f].kind == KIND_TERM_OF }

  ghost predicate OneColumn(row: Relations) {
    && (forall f | InColumn(row, f) :: f.typ == TYPE_FIELD)
    && (forall f, f' | InColumn(row, f) && InColumn(row, f') :: f == f')
  }

  lemma SameColumn(row: Relations, more: Relations)
    requires OneColumn(row) && forall f :: InColumn(more, f) <==> InColumn(row, f)
    ensures OneColumn(more)
  {
  }

  ghost predicate TermsOk(s: Store) {
    forall e: Entity | e.typ == TYPE_TERM :: TermOk(s, e)
  }

  ghost predicate DictInv(env: Env, s: Store) {
    BucketsOk(env, s) && AllFound(env, s) && TermsOk(s)
  }

  /** Two columns, or two terms of one column, never hold the same text. */
  lemma TextsDiffer(env: Env, s: Store, e: Entity, e': Entity, owner: Entity)
    requires DictInv(env, s) && e in s.decl && e' in s.decl
    requires OwnerOf(env, s, e, owner) && OwnerOf(env, s, e', owner) && s.decl[e].name == s.decl[e'].name
    ensures e == e'
  {
    var k := BucketKey(env, owner, s.decl[e].name);
    assert e in Candidates(s, k) && e' in Candidates(s, k);
    assert BucketOk(env, s, k, Candidates(s, k));
  }

  /** A column or a term is listed in no other bucket of its vocabulary. */
  lemma ListedOnce(env: Env, s: Store, e: Entity, owner: Entity, b: Entity)
    requires DictInv(env, s) && e in s.decl && OwnerOf(env, s, e, owner) && e in Candidates(s, (owner, b))
    ensures (owner, b) == BucketKey(env, owner, s.decl[e].name)
  {
    assert BucketOk(env, s, (owner, b), Candidates(s, (owner, b)));
  }

  lemma OneOwner(s: Store, e: Entity)
    requires TermsOk(s)
    ensures e.typ == TYPE_TERM ==> forall f, f' | TermOf(s, e, f) && TermOf(s, e, f') :: f == f'
  {
    if e.typ == TYPE_TERM {
      assert TermOk(s, e);
      forall f, f' | TermOf(s, e, f) && TermOf(s, e, f')
        ensures f == f'
      {
        assert InColumn(Row(s, e), f) && InColumn(Row(s, e), f');
      }
    }
  }

  // Steps that rename nothing and intern nothing.

  predicate Named(e: Entity) { e.typ == TYPE_FIELD || e.typ == TYPE_TERM || e.typ == TYPE_ACTOR }

  ghost predicate SameDictionary(s: Store, t: Store) {
    && t.pres == s.pres
    && (forall e: Entity | Named(e) && e in s.decl :: e in t.decl && t.decl[e].name == s.decl[e].name)
    && (forall e: Entity | (e.typ == TYPE_FIELD || e.typ == TYPE_TERM) :: e in t.decl <==> e in s.decl)
    && (forall e: Entity | e.typ == TYPE_TERM && e !in s.decl :: Row(t, e) == Row(s, e))
    && (forall e: Entity, f: Entity | e.typ == TYPE_TERM :: TermOf(t, e, f) <==> TermOf(s, e, f))
  }

  lemma SameBuckets(env: Env, s: Store, t: Store)
    requires BucketsOk(env, s) && SameDictionary(s, t)
    ensures BucketsOk(env, t)
  {
    forall k | k in t.pres
      ensures BucketOk(env, t, k, Candidates(t, k))
    {
      var cs := Candidates(s, k);
      assert BucketOk(env, s, k, cs);
      forall c | c in cs
        ensures ListedRight(env, t, k, c) && t.decl[c].name == s.decl[c].name
      {
        assert ListedRight(env, s, k, c);
      }
    }
  }

  lemma SameFound(env: Env, s: Store, t: Store)
    requires AllFound(env, s) && SameDictionary(s, t)
    ensures AllFound(env, t)
  {
    forall e: Entity, owner: Entity | e in t.decl && OwnerOf(env, t, e, owner)
      ensures e in Candidates(t, BucketKey(env, owner, t.decl[e].name))
    {
      assert e in s.decl && OwnerOf(env, s, e, owner);
    }
  }

  lemma SameKept(env: Env, s: Store, t: Store)
    requires DictInv(env, s) && SameDictionary(s, t)
    ensures DictInv(env, t)
  {
    SameBuckets(env, s, t);
    SameFound(env, s, t);
    forall e: Entity | e.typ == TYPE_TERM
      ensures TermOk(t, e)
    {
      assert TermOk(s, e);
      assert forall f :: InColumn(Row(t, e), f) <==> TermOf(t, e, f);
      assert forall f :: InColumn(Row(s, e), f) <==> TermOf(s, e, f);
      SameColumn(Row(s, e), Row(t, e));
    }
  }

  // Interning a new entity.

  /** t is s with e declared under a new name, listed in its bucket. */
  ghost predicate Interned(env: Env, s: Store, t: Store, owner: Entity, e: Entity, name: seq<byte>) {
    && e !in s.decl && Named(e) && e in t.decl && t.decl[e].name == name
    && (forall x: Entity | Named(x) && x != e && x in s.decl :: x in t.decl && t.decl[x].name == s.decl[x].name)
    && (forall x: Entity | (x.typ == TYPE_FIELD || x.typ == TYPE_TERM) && x != e :: x in t.decl <==> x in s.decl)
    && (forall x: Entity | x.typ == TYPE_TERM && x != e :: Row(t, x) == Row(s, x))
    && (e.typ == TYPE_TERM ==> owner.typ == TYPE_FIELD && forall f :: TermOf(t, e, f) <==> f == owner)
    && OwnerFits(env, t, e, owner)
    && OtherBuckets(s, t, {BucketKey(env, owner, name)})
    && Candidates(t, BucketKey(env, owner, name)) == Candidates(s, BucketKey(env, owner, name)) + [e]
  }

  lemma StillRight(env: Env, s: Store, t: Store, owner: Entity, e: Entity, name: seq<byte>, k: (Entity, Entity),
                   c: Entity)
    requires Interned(env, s, t, owner, e, name) && ListedRight(env, s, k, c)
    ensures c != e && ListedRight(env, t, k, c) && t.decl[c].name == s.decl[c].name
  {
    if c.typ == TYPE_TERM { assert Row(t, c) == Row(s, c); }
  }

  lemma InternedBucket(env: Env, s: Store, t: Store, owner: Entity, e: Entity, name: seq<byte>)
    requires Interned(env, s, t, owner, e, name) && Unheld(env, s, owner, name)
    requires var k := BucketKey(env, owner, name); k in s.pres ==> BucketOk(env, s, k, Candidates(s, k))
    ensures var k := BucketKey(env, owner, name); BucketOk(env, t, k, Candidates(t, k))
  {
    var k := BucketKey(env, owner, name);
    var cs := Candidates(s, k);
    forall c | c in cs
      ensures c != e && ListedRight(env, t, k, c) && t.decl[c].name == s.decl[c].name && s.decl[c].name != name
    {
      StillRight(env, s, t, owner, e, name, k, c);
    }
    AddOne(cs, e);
  }

  lemma InternedBuckets(env: Env, s: Store, t: Store, owner: Entity, e: Entity, name: seq<byte>)
    requires Interned(env, s, t, owner, e, name) && Unheld(env, s, owner, name) && BucketsOk(env, s)
    ensures BucketsOk(env, t)
  {
    forall k | k in t.pres
      ensures BucketOk(env, t, k, Candidates(t, k))
    {
      if k == BucketKey(env, owner, name) {
        InternedBucket(env, s, t, owner, e, name);
      } else {
        var cs := Candidates(s, k);
        assert BucketOk(env, s, k, cs);
        forall c | c in cs
          ensures ListedRight(env, t, k, c) && t.decl[c].name == s.decl[c].name
        {
          StillRight(env, s, t, owner, e, name, k, c);
        }
      }
    }
  }

  lemma InternedFound(env: Env, s: Store, t: Store, owner: Entity, e: Entity, name: seq<byte>)
    requires Interned(env, s, t, owner, e, name) && AllFound(env, s)
    ensures AllFound(env, t)
  {
    var k := BucketKey(env, owner, name);
    assert e in Candidates(s, k) + [e];
    forall x: Entity, o: Entity | x in t.decl && OwnerOf(env, t, x, o)
      ensures x in Candidates(t, BucketKey(env, o, t.decl[x].name))
    {
      if x != e {
        assert x.typ == TYPE_TERM ==> Row(t, x) == Row(s, x);
        assert x in s.decl && OwnerOf(env, s, x, o);
      }
    }
  }

  lemma InternedKept(env: Env, s: Store, t: Store, owner: Entity, e: Entity, name: seq<byte>)
    requires Interned(env, s, t, owner, e, name) && Unheld(env, s, owner, name) && DictInv(env, s)
    ensures DictInv(env, t)
  {
    InternedBuckets(env, s, t, owner, e, name);
    InternedFound(env, s, t, owner, e, name);
    InternedTerms(env, s, t, owner, e, name);
  }

  lemma InternedTerms(env: Env, s: Store, t: Store, owner: Entity, e: Entity, name: seq<byte>)
    requires Interned(env, s, t, owner, e, name) && TermsOk(s)
    ensures TermsOk(t)
  {
    forall x: Entity | x.typ == TYPE_TERM
      ensures TermOk(t, x)
    {
      if x != e {
        assert TermOk(s, x);
        assert Row(t, x) == Row(s, x);
      } else {
        assert forall f :: InColumn(Row(t, e), f) <==> TermOf(t, e, f);
      }
    }
  }

  // Renaming.

  /** t is s with e called something else, moved from one bucket to another. */
  ghost predicate Renamed(env: Env, s: Store, t: Store, e: Entity, owner: Entity, text: seq<byte>) {
    && e in s.decl && OwnerOf(env, s, e, owner) && e in t.decl && t.decl[e].name == text
    && (forall x: Entity | Named(x) && x != e && x in s.decl :: x in t.decl && t.decl[x].name == s.decl[x].name)
    && (forall x: Entity | (x.typ == TYPE_FIELD || x.typ == TYPE_TERM) :: x in t.decl <==> x in s.decl)
    && (forall x: Entity | x.typ == TYPE_TERM :: Row(t, x) == Row(s, x))
    && BucketMoved(s, t, e, BucketKey(env, owner, s.decl[e].name), BucketKey(env, owner, text))
  }

  /** The buckets after e left one for another, perhaps the same. */
  ghost predicate BucketMoved(s: Store, t: Store, e: Entity, from: (Entity, Entity), to: (Entity, Entity)) {
    && OtherBuckets(s, t, {from, to})
    && (from != to ==> Candidates(t, from) == Without(Candidates(s, from), e))
    && Candidates(t, to) == Without(Candidates(s, to), e) + [e]
  }

  /** A bucket that loses e, or never had it, is still right. */
  lemma LosesOk(env: Env, s: Store, t: Store, e: Entity, owner: Entity, text: seq<byte>, k: (Entity, Entity),
                cs: seq<Entity>)
    requires Renamed(env, s, t, e, owner, text) && BucketOk(env, s, k, cs)
    ensures BucketOk(env, t, k, Without(cs, e))
    ensures forall c | c in Without(cs, e) ::
            c in cs && c != e && ListedRight(env, t, k, c) && t.decl[c].name == s.decl[c].name
  {
    WithoutNoRepeat(cs, e);
    forall c | c in Without(cs, e)
      ensures c in cs && c != e && ListedRight(env, t, k, c) && t.decl[c].name == s.decl[c].name
    {
      WithoutMembers(cs, e, c);
      assert ListedRight(env, s, k, c);
      assert c.typ == TYPE_TERM ==> Row(t, c) == Row(s, c);
    }
  }

  lemma {:induction false} WithoutAbsent(es: seq<Entity>, e: Entity)
    requires e !in es
    ensures Without(es, e) == es
  {
    if es != [] {
      WithoutAbsent(es[..|es| - 1], e);
      assert es == es[..|es| - 1] + [es[|es| - 1]];
    }
  }

  lemma EmptyBucketOk(env: Env, t: Store, k: (Entity, Entity))
    ensures BucketOk(env, t, k, [])
  {
  }

  lemma JoinsOk(env: Env, t: Store, k: (Entity, Entity), cs: seq<Entity>, e: Entity)
    requires BucketOk(env, t, k, cs) && e !in cs && ListedRight(env, t, k, e)
    requires forall c | c in cs :: t.decl[c].name != t.decl[e].name
    ensures BucketOk(env, t, k, cs + [e])
  {
    AddOne(cs, e);
  }

  /** The bucket e moves into. */
  lemma GainsOk(env: Env, s: Store, t: Store, e: Entity, owner: Entity, text: seq<byte>)
    requires Renamed(env, s, t, e, owner, text) && Unheld(env, s, owner, text) && BucketsOk(env, s)
    ensures var to := BucketKey(env, owner, text); BucketOk(env, t, to, Candidates(t, to))
  {
    var to := BucketKey(env, owner, text);
    var cs := Candidates(s, to);
    if to !in s.pres { EmptyBucketOk(env, s, to); }
    LosesOk(env, s, t, e, owner, text, to, cs);
    WithoutMembers(cs, e, e);
    assert e.typ == TYPE_TERM ==> Row(t, e) == Row(s, e);
    JoinsOk(env, t, to, Without(cs, e), e);
  }

  /** e is listed under its vocabulary only where its name says. */
  lemma NotElsewhere(env: Env, s: Store, e: Entity, owner: Entity, k: (Entity, Entity))
    requires BucketsOk(env, s) && TermsOk(s) && e in s.decl && OwnerOf(env, s, e, owner)
    requires k in s.pres && k != BucketKey(env, owner, s.decl[e].name)
    ensures e !in Candidates(s, k)
  {
    assert BucketOk(env, s, k, Candidates(s, k));
    assert e in Candidates(s, k) ==> ListedRight(env, s, k, e);
    OneOwner(s, e);
  }

  lemma RenamedBuckets(env: Env, s: Store, t: Store, e: Entity, owner: Entity, text: seq<byte>)
    requires Renamed(env, s, t, e, owner, text) && Unheld(env, s, owner, text) && BucketsOk(env, s) && TermsOk(s)
    ensures BucketsOk(env, t)
  {
    var from, to := BucketKey(env, owner, s.decl[e].name), BucketKey(env, owner, text);
    forall k | k in t.pres
      ensures BucketOk(env, t, k, Candidates(t, k))
    {
      if k == to {
        GainsOk(env, s, t, e, owner, text);
      } else if k == from {
        if from !in s.pres { EmptyBucketOk(env, s, from); }
        LosesOk(env, s, t, e, owner, text, from, Candidates(s, from));
      } else {
        NotElsewhere(env, s, e, owner, k);
        WithoutAbsent(Candidates(s, k), e);
        LosesOk(env, s, t, e, owner, text, k, Candidates(s, k));
      }
    }
  }

  lemma RenamedFound(env: Env, s: Store, t: Store, e: Entity, owner: Entity, text: seq<byte>)
    requires Renamed(env, s, t, e, owner, text) && AllFound(env, s) && TermsOk(s)
    ensures AllFound(env, t)
  {
    forall x: Entity, o: Entity | x in t.decl && OwnerOf(env, t, x, o)
      ensures x in Candidates(t, BucketKey(env, o, t.decl[x].name))
    {
      assert x.typ == TYPE_TERM ==> Row(t, x) == Row(s, x);
      OneOwner(s, x);
      assert OwnerOf(env, s, x, o) && x in s.decl;
      if x != e {
        WithoutMembers(Candidates(s, BucketKey(env, o, s.decl[x].name)), e, x);
      } else {
        assert o == owner;
      }
    }
  }

  lemma RenamedKept(env: Env, s: Store, t: Store, e: Entity, owner: Entity, text: seq<byte>)
    requires Renamed(env, s, t, e, owner, text) && Unheld(env, s, owner, text) && DictInv(env, s)
    ensures DictInv(env, t)
  {
    RenamedBuckets(env, s, t, e, owner, text);
    RenamedFound(env, s, t, e, owner, text);
    RenamedTerms(env, s, t, e, owner, text);
  }

  lemma RenamedTerms(env: Env, s: Store, t: Store, e: Entity, owner: Entity, text: seq<byte>)
    requires Renamed(env, s, t, e, owner, text) && TermsOk(s)
    ensures TermsOk(t)
  {
    forall x: Entity | x.typ == TYPE_TERM
      ensures TermOk(t, x)
    {
      assert TermOk(s, x);
      assert Row(t, x) == Row(s, x);
    }
  }

  // Steps.

  lemma SealKeepsPres(env: Env, s: Store, step: Step, p: Txn)
    requires p == Plain(env, step)
    ensures Effect(env, s, step).pres == p.pres && Effect(env, s, step).gone == p.gone
  {
  }

  lemma PresAfter(env: Env, s: Store, step: Step)
    ensures Do(env, s, step).pres == (s.pres - Plain(env, step).gone) + Plain(env, step).pres
  {
    SealKeepsPres(env, s, step, Plain(env, step));
  }

  lemma SameCandidates(s: Store, t: Store, k: (Entity, Entity))
    requires (k in t.pres <==> k in s.pres) && (k in s.pres ==> t.pres[k] == s.pres[k])
    ensures Candidates(t, k) == Candidates(s, k)
  {
  }

  lemma {:induction false} PackedCandidates(t: Store, k: (Entity, Entity), es: seq<Entity>)
    requires k in t.pres && t.pres[k].data == Pack(es)
    ensures Candidates(t, k) == es
  {
    UnpackPack(es);
  }

  /** Every bucket but these is as it was. */
  ghost predicate OtherBuckets(s: Store, t: Store, ks: set<(Entity, Entity)>) {
    forall k | k !in ks :: (k in t.pres <==> k in s.pres) && Candidates(t, k) == Candidates(s, k)
  }

  lemma InternPres(s: Store, t: Store, k: (Entity, Entity), bucket: Record, cs: seq<Entity>)
    requires t.pres == s.pres + map[k := bucket] && bucket.data == Pack(cs)
    ensures OtherBuckets(s, t, {k}) && Candidates(t, k) == cs
  {
    PackedCandidates(t, k, cs);
    forall k' | k' != k
      ensures Candidates(t, k') == Candidates(s, k')
    {
      SameCandidates(s, t, k');
    }
  }

  lemma InternRows(env: Env, s: Store, t: Store, n: nat, step: Step)
    requires step.Intern? && Lands(env, s, t, Plain(env, step), n, None) &&
             (step.e.typ == TYPE_TERM ==> Row(s, step.e) == map[])
    requires step.termOf.Some? <==> step.e.typ == TYPE_TERM
    requires step.termOf.Some? ==> step.termOf.value.fwd.kind == KIND_TERM_OF
    ensures forall x: Entity | x.typ == TYPE_TERM && x != step.e :: Row(t, x) == Row(s, x)
    ensures step.e.typ == TYPE_TERM ==> forall f :: TermOf(t, step.e, f) <==> f == step.owner
  {
    var p := Plain(env, step);
    forall x: Entity | x.typ == TYPE_TERM
      ensures Row(t, x) == Row(s, x) + Forward(p, x)
    {
    }
  }

  lemma InternDict(env: Env, s: Store, t: Store, n: nat, step: Step)
    requires step.Intern? && InternNow(env, s, step.owner, step.e, step.decl, step.counter, step.bucket, step.termOf)
    requires DictInv(env, s) && Lands(env, s, t, Plain(env, step), n, None) && t.pres == s.pres + Plain(env, step).pres
    ensures DictInv(env, t)
  {
    SlotIsFree(env, s, SCHEMA_PAGE, step.e);
    assert step.e.typ == TYPE_TERM ==> TermOk(s, step.e);
    InternRows(env, s, t, n, step);
    var k := BucketKey(env, step.owner, step.decl.name);
    InternPres(s, t, k, step.bucket, Candidates(s, k) + [step.e]);
    InternLands(env, s, t, n, step);
    InternedKept(env, s, t, step.owner, step.e, step.decl.name);
  }

  lemma InternLands(env: Env, s: Store, t: Store, n: nat, step: Step)
    requires step.Intern? && Named(step.e) && step.e !in s.decl && Lands(env, s, t, Plain(env, step), n, None)
    ensures step.e in t.decl && t.decl[step.e] == step.decl
    ensures forall x: Entity | Named(x) && x != step.e && x in s.decl :: x in t.decl && t.decl[x].name == s.decl[x].name
    ensures forall x: Entity | (x.typ == TYPE_FIELD || x.typ == TYPE_TERM) && x != step.e ::
            x in t.decl <==> x in s.decl
  {
  }

  lemma MovedWithin(s: Store, t: Store, e: Entity, k: (Entity, Entity), pres: map<(Entity, Entity), Record>)
    requires pres.Keys == {k} && t.pres == (s.pres - {}) + pres &&
             pres[k].data == Pack(Without(Candidates(s, k), e) + [e])
    ensures BucketMoved(s, t, e, k, k)
  {
    PackedCandidates(t, k, Without(Candidates(s, k), e) + [e]);
    forall k' | k' != k
      ensures Candidates(t, k') == Candidates(s, k')
    {
      SameCandidates(s, t, k');
    }
  }

  lemma MovedOut(s: Store, t: Store, e: Entity, from: (Entity, Entity), to: (Entity, Entity),
                 pres: map<(Entity, Entity), Record>, gone: set<(Entity, Entity)>)
    requires from != to && e !in Candidates(s, to) && t.pres == (s.pres - gone) + pres
    requires to in pres && pres[to].data == Pack(Candidates(s, to) + [e])
    requires var rest := Without(Candidates(s, from), e);
             if rest == [] then pres.Keys == {to} && gone == {from}
             else pres.Keys == {from, to} && gone == {} && pres[from].data == Pack(rest)
    ensures BucketMoved(s, t, e, from, to)
  {
    var rest := Without(Candidates(s, from), e);
    PackedCandidates(t, to, Candidates(s, to) + [e]);
    WithoutAbsent(Candidates(s, to), e);
    if rest != [] { PackedCandidates(t, from, rest); }
    forall k | k != from && k != to
      ensures Candidates(t, k) == Candidates(s, k)
    {
      SameCandidates(s, t, k);
    }
  }

  lemma MovedPres(env: Env, s: Store, t: Store, e: Entity, owner: Entity, name: seq<byte>, text: seq<byte>,
                  pres: map<(Entity, Entity), Record>, gone: set<(Entity, Entity)>)
    requires Moved(env, s, e, owner, name, text, pres, gone) && t.pres == (s.pres - gone) + pres
    requires e in Candidates(s, BucketKey(env, owner, name))
    requires BucketKey(env, owner, name) != BucketKey(env, owner, text) ==>
             e !in Candidates(s, BucketKey(env, owner, text))
    ensures BucketMoved(s, t, e, BucketKey(env, owner, name), BucketKey(env, owner, text))
  {
    var from, to := BucketKey(env, owner, name), BucketKey(env, owner, text);
    if from == to {
      MovedWithin(s, t, e, to, pres);
    } else {
      MovedOut(s, t, e, from, to, pres, gone);
    }
  }

  lemma NotYetThere(env: Env, s: Store, e: Entity, owner: Entity, text: seq<byte>)
    requires BucketsOk(env, s) && TermsOk(s) && e in s.decl && OwnerOf(env, s, e, owner)
    requires BucketKey(env, owner, s.decl[e].name) != BucketKey(env, owner, text)
    ensures e !in Candidates(s, BucketKey(env, owner, text))
  {
    if BucketKey(env, owner, text) in s.pres { NotElsewhere(env, s, e, owner, BucketKey(env, owner, text)); }
  }

  lemma RenameDict(env: Env, s: Store, t: Store, n: nat, step: Step)
    requires step.Rename? && RenameNow(env, s, step.e, step.owner, step.decl, step.pres, step.gone)
    requires DictInv(env, s) && Lands(env, s, t, Plain(env, step), n, Some(step.seal))
    requires t.pres == (s.pres - step.gone) + step.pres
    ensures DictInv(env, t)
  {
    if BucketKey(env, step.owner, s.decl[step.e].name) != BucketKey(env, step.owner, step.decl.name) {
      NotYetThere(env, s, step.e, step.owner, step.decl.name);
    }
    MovedPres(env, s, t, step.e, step.owner, s.decl[step.e].name, step.decl.name, step.pres, step.gone);
    RenameLands(env, s, t, n, step);
    RenamedKept(env, s, t, step.e, step.owner, step.decl.name);
  }

  lemma RenameLands(env: Env, s: Store, t: Store, n: nat, step: Step)
    requires step.Rename? && step.e.typ != TYPE_CHAIN && Lands(env, s, t, Plain(env, step), n, Some(step.seal)) &&
             step.e in s.decl
    ensures step.e in t.decl && t.decl[step.e] == step.decl
    ensures forall x: Entity | Named(x) && x != step.e && x in s.decl :: x in t.decl && t.decl[x].name == s.decl[x].name
    ensures forall x: Entity | (x.typ == TYPE_FIELD || x.typ == TYPE_TERM) :: x in t.decl <==> x in s.decl
    ensures forall x: Entity | x.typ == TYPE_TERM :: Row(t, x) == Row(s, x)
  {
    TermsUntouched(env, s, t, Plain(env, step), n, Some(step.seal));
  }

  /** A step that neither interns nor renames keeps the dictionary. */
  predicate Aloof(step: Step) { !step.Intern? && !step.Rename? }

  lemma AloofDecl(env: Env, s: Store, t: Store, n: nat, seal: Option<Seal>, step: Step)
    requires Aloof(step) && Typed(step) && Lands(env, s, t, Plain(env, step), n, seal)
    requires step.DeclareActor? ==> step.e !in s.decl
    ensures forall e: Entity | Named(e) && e in s.decl :: e in t.decl && t.decl[e].name == s.decl[e].name
    ensures forall e: Entity | (e.typ == TYPE_FIELD || e.typ == TYPE_TERM) :: e in t.decl <==> e in s.decl
  {
  }

  lemma TermsUntouched(env: Env, s: Store, t: Store, p: Txn, n: nat, seal: Option<Seal>)
    requires Lands(env, s, t, p, n, seal) && forall a: Entity | a in p.rel :: a.typ != TYPE_TERM
    ensures forall e: Entity | e.typ == TYPE_TERM :: Row(t, e) == Row(s, e)
  {
    forall e: Entity | e.typ == TYPE_TERM
      ensures Row(t, e) == Row(s, e)
    {
      assert Row(t, e) == Row(s, e) + Forward(p, e);
    }
  }

  lemma NoTermRows(env: Env, s: Store, step: Step)
    requires Now(env, s, step) && Aloof(step) && !step.Derive?
    ensures forall a: Entity | a in Plain(env, step).rel :: a.typ != TYPE_TERM
  {
    NowRelates(env, s, step);
    assert forall a | Relates(step, a) :: a.typ != TYPE_TERM;
  }

  /** The only relations a term gains are derivations. */
  lemma AloofRows(env: Env, s: Store, t: Store, n: nat, seal: Option<Seal>, step: Step)
    requires Aloof(step) && Now(env, s, step) && Lands(env, s, t, Plain(env, step), n, seal) && TermsOk(s)
    ensures forall e: Entity | e.typ == TYPE_TERM && e !in s.decl :: Row(t, e) == Row(s, e)
    ensures forall e: Entity, f: Entity | e.typ == TYPE_TERM :: TermOf(t, e, f) <==> TermOf(s, e, f)
  {
    if step.Derive? {
      DeriveTerms(env, s, t, n, seal, step);
    } else {
      NoTermRows(env, s, step);
      TermsUntouched(env, s, t, Plain(env, step), n, seal);
    }
  }

  lemma DeriveTerms(env: Env, s: Store, t: Store, n: nat, seal: Option<Seal>, step: Step)
    requires step.Derive? && DeriveNow(env, s, step.edges) && Lands(env, s, t, Plain(env, step), n, seal) && TermsOk(s)
    ensures forall e: Entity | e.typ == TYPE_TERM && e !in s.decl :: Row(t, e) == Row(s, e)
    ensures forall e: Entity, f: Entity | e.typ == TYPE_TERM :: TermOf(t, e, f) <==> TermOf(s, e, f)
  {
    forall a, b | a in step.edges && b in step.edges[a]
      ensures a in s.decl && b.typ == TYPE_TERM && step.edges[a][b].fwd.kind == KIND_DERIVED_FROM
    {
      assert EdgeOk(env, s, a, b, step.edges[a][b]);
    }
    var p := Plain(env, step);
    forall e: Entity | e.typ == TYPE_TERM
      ensures Row(t, e) == Row(s, e) + Forward(p, e) && (e !in s.decl ==> Row(t, e) == Row(s, e))
      ensures forall f :: TermOf(t, e, f) <==> TermOf(s, e, f)
    {
      assert TermOk(s, e);
      forall f
        ensures TermOf(t, e, f) <==> TermOf(s, e, f)
      {
        assert TermOf(s, e, f) ==> InColumn(Row(s, e), f);
      }
    }
  }

  lemma AloofDict(env: Env, s: Store, t: Store, n: nat, seal: Option<Seal>, step: Step)
    requires Aloof(step) && Now(env, s, step) && Lands(env, s, t, Plain(env, step), n, seal) && DictInv(env, s) &&
             t.pres == s.pres
    ensures DictInv(env, t)
  {
    NowTyped(env, s, step);
    AloofDecl(env, s, t, n, seal, step);
    AloofRows(env, s, t, n, seal, step);
    SameKept(env, s, t);
  }

  lemma AloofPres(env: Env, s: Store, step: Step)
    requires Aloof(step)
    ensures Do(env, s, step).pres == s.pres
  {
    PresAfter(env, s, step);
    AloofPlain(env, step);
    NothingMoved(s.pres);
  }

  lemma AloofPlain(env: Env, step: Step)
    requires Aloof(step)
    ensures Plain(env, step).gone == {} && Plain(env, step).pres == map[]
  {
  }

  lemma NothingMoved(m: map<(Entity, Entity), Record>)
    ensures (m - {}) + map[] == m
  {
  }

  lemma ChainedDict(env: Env, s: Store, es: seq<Event>, step: Step)
    requires HeadOk(env, s, es) && DictInv(env, s) && Now(env, s, step) && Chains(step)
    ensures DictInv(env, Do(env, s, step))
  {
    StepLands(env, s, es, step);
    if step.Rename? {
      PresAfter(env, s, step);
      RenameDict(env, s, Do(env, s, step), |es|, step);
    } else {
      AloofPres(env, s, step);
      AloofDict(env, s, Do(env, s, step), |es|, Some(step.seal), step);
    }
  }

  lemma InternStepDict(env: Env, s: Store, t: Store, step: Step)
    requires step.Intern? && Now(env, s, step) && DictInv(env, s) && t == Do(env, s, step)
    requires Lands(env, s, t, Plain(env, step), HeadCount(env, s), None)
    ensures DictInv(env, t)
  {
    PresAfter(env, s, step);
    NothingGone(s.pres);
    InternDict(env, s, t, HeadCount(env, s), step);
  }

  lemma NothingGone(m: map<(Entity, Entity), Record>)
    ensures m - {} == m
  {
  }

  lemma UnchainedDict(env: Env, s: Store, step: Step)
    requires DictInv(env, s) && Now(env, s, step) && !Chains(step)
    ensures DictInv(env, Do(env, s, step))
  {
    DoPlain(env, s, step);
    if step.Intern? {
      InternStepDict(env, s, Do(env, s, step), step);
    } else {
      AloofPres(env, s, step);
      AloofDict(env, s, Do(env, s, step), HeadCount(env, s), None, step);
    }
  }

  lemma StepDict(env: Env, s: Store, es: seq<Event>, step: Step)
    requires HeadOk(env, s, es) && DictInv(env, s) && Now(env, s, step)
    ensures DictInv(env, Do(env, s, step))
  {
    if Chains(step) { ChainedDict(env, s, es, step); } else { UnchainedDict(env, s, step); }
  }

  lemma {:induction false} RunDict(env: Env, s: Store, es: seq<Event>, run: seq<Step>)
    requires BookInv(env, s, es) && DictInv(env, s) && Legal(env, s, run)
    ensures DictInv(env, Exec(env, s, run))
    decreases |run|
  {
    if run != [] {
      StepKept(env, s, es, run[0]);
      StepDict(env, s, es, run[0]);
      RunDict(env, Do(env, s, run[0]), EventsAfter(env, s, es, run[0]), run[1..]);
    }
  }

  lemma EmptyDict(env: Env)
    ensures DictInv(env, Empty())
  {
  }

  /** In every store a run reaches, two entities of one vocabulary with one text are one
      entity, and each is listed in the bucket of its text and in no other. */
  lemma ReachableDictionary(env: Env, run: seq<Step>)
    requires Legal(env, Empty(), run)
    ensures DictInv(env, Exec(env, Empty(), run))
  {
    EmptyInv(env);
    EmptyDict(env);
    RunDict(env, Empty(), [], run);
  }
}
