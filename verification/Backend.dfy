/** The key/value store underneath: an atomic guarded write and an ordered read. */
module Backend {
  import opened Bytes
  import opened Entities
  import opened Listings

  type Blob = seq<byte>
  type KV = map<Blob, Blob>

  datatype Op =
    | Set(key: Blob, value: Blob)
    | Delete(key: Blob)
    | Compare(key: Blob, value: Blob)
    | CompareAbsent(key: Blob)

  /** Whether a precondition is met; a write has none. */
  predicate Holds(kv: KV, op: Op) {
    match op
    case Compare(k, v) => k in kv && kv[k] == v
    case CompareAbsent(k) => k !in kv
    case _ => true
  }

  predicate AllHold(kv: KV, ops: seq<Op>) {
    forall op | op in ops :: Holds(kv, op)
  }

  function Write(kv: KV, op: Op): KV {
    match op
    case Set(k, v) => kv[k := v]
    case Delete(k) => kv - {k}
    case _ => kv
  }

  function Written(kv: KV, ops: seq<Op>): KV {
    if ops == [] then kv else Write(Written(kv, ops[..|ops| - 1]), ops[|ops| - 1])
  }

  predicate Touches(op: Op, k: Blob) {
    (op.Set? || op.Delete?) && op.key == k
  }

  /** A key no write names keeps its value. */
  lemma {:induction false} UntouchedKeeps(kv: KV, ops: seq<Op>, k: Blob)
    requires forall i | 0 <= i < |ops| :: !Touches(ops[i], k)
    ensures k in Written(kv, ops) <==> k in kv
    ensures k in kv ==> Written(kv, ops)[k] == kv[k]
  {
    if ops != [] {
      UntouchedKeeps(kv, ops[..|ops| - 1], k);
    }
  }

  /** A key some write names is left as the last of them says. */
  lemma {:induction false} LastWriteDecides(kv: KV, ops: seq<Op>, k: Blob, i: nat)
    requires i < |ops| && Touches(ops[i], k) && forall j | i < j < |ops| :: !Touches(ops[j], k)
    ensures k in Written(kv, ops) <==> ops[i].Set?
    ensures ops[i].Set? ==> Written(kv, ops)[k] == ops[i].value
  {
    if i < |ops| - 1 {
      LastWriteDecides(kv, ops[..|ops| - 1], k, i);
    }
  }

  // Ordered reads.

  lemma {:induction false} BeforeIrreflexive(s: Blob)
    ensures !Before(s, s)
  {
    if s != [] { BeforeIrreflexive(s[1..]); }
  }

  lemma {:induction false} BeforeTotal(s: Blob, t: Blob)
    ensures s == t || Before(s, t) || Before(t, s)
  {
    if s != [] && t != [] {
      BeforeTotal(s[1..], t[1..]);
      assert s == [s[0]] + s[1..] && t == [t[0]] + t[1..];
    }
  }

  lemma {:induction false} BeforeTransitive(s: Blob, t: Blob, u: Blob)
    requires Before(s, t) && Before(t, u)
    ensures Before(s, u)
  {
    if s != [] && s[0] == t[0] == u[0] { BeforeTransitive(s[1..], t[1..], u[1..]); }
  }

  type Pair = (Blob, Blob)

  predicate Within(k: Blob, start: Blob, end: Blob) {
    !Before(k, start) && !Before(end, k)
  }

  predicate InOrder(s: seq<Pair>) {
    forall i, j | 0 <= i < j < |s| :: Before(s[i].0, s[j].0)
  }

  /** s is every pair with start <= key <= end, in ascending byte order. */
  ghost predicate IsScan(kv: KV, start: Blob, end: Blob, s: seq<Pair>) {
    InOrder(s) && forall p :: p in s <==> p.0 in kv && kv[p.0] == p.1 && Within(p.0, start, end)
  }

  function InsertPair(s: seq<Pair>, p: Pair): seq<Pair> {
    if s == [] || Before(p.0, s[0].0) then [p] + s else [s[0]] + InsertPair(s[1..], p)
  }

  lemma {:induction false} InsertKeepsOrder(s: seq<Pair>, p: Pair)
    requires InOrder(s) && forall q | q in s :: q.0 != p.0
    ensures InOrder(InsertPair(s, p)) && forall q :: q in InsertPair(s, p) <==> q in s || q == p
  {
    if s != [] {
      if Before(p.0, s[0].0) {
        forall i | 0 < i < |s|
          ensures Before(p.0, s[i].0)
        {
          BeforeTransitive(p.0, s[0].0, s[i].0);
        }
      } else {
        assert s[0] in s;
        BeforeTotal(p.0, s[0].0);
        InsertKeepsOrder(s[1..], p);
        var t := InsertPair(s[1..], p);
        forall i | 0 <= i < |t|
          ensures Before(s[0].0, t[i].0)
        {
          assert t[i] in t;
        }
        assert s == [s[0]] + s[1..];
      }
    }
  }

  // A scan between two keys that share a namespace and a first entity.

  predicate KeysFit(kv: KV) {
    forall k | k in kv :: |k| == KEY_LEN
  }

  /** The row of first entity a in namespace ns, by the second entity. */
  ghost function Row(kv: KV, ns: byte, a: Entity): map<Entity, Blob>
    requires KeysFit(kv)
  {
    SameParse(kv);
    map k | k in kv && ParseKey(k).ns == ns && ParseKey(k).a == a :: ParseKey(k).b := kv[k]
  }

  lemma SameParse(kv: KV)
    requires KeysFit(kv)
    ensures forall k, l | k in kv && l in kv && ParseKey(k) == ParseKey(l) :: k == l
  {
    forall k, l | k in kv && l in kv && ParseKey(k) == ParseKey(l)
      ensures k == l
    {
      ParseRoundTrip(k);
      ParseRoundTrip(l);
    }
  }

  lemma RowAt(kv: KV, ns: byte, a: Entity, b: Entity)
    requires KeysFit(kv)
    ensures b in Row(kv, ns, a) <==> KeyBytes(Key(ns, a, b)) in kv
    ensures b in Row(kv, ns, a) ==> Row(kv, ns, a)[b] == kv[KeyBytes(Key(ns, a, b))]
  {
    KeyRoundTrip(Key(ns, a, b));
    if b in Row(kv, ns, a) {
      var k :| k in kv && ParseKey(k) == Key(ns, a, b);
      ParseRoundTrip(k);
      SameParse(kv);
    }
  }

  /** The lower bound of a relation scan steps over the declaration. */
  function RelationFrom(from: Entity): Entity {
    if Value(from) < Value(FIRST_TARGET) then FIRST_TARGET else from
  }

  lemma BoundsSelect(ns: byte, a: Entity, from: Entity, to: Entity, k: Key)
    ensures Within(KeyBytes(k), KeyBytes(Key(ns, a, from)), KeyBytes(Key(ns, a, to)))
            <==> k.ns == ns && k.a == a && Value(from) <= Value(k.b) <= Value(to)
  {
    KeyOrder(k, Key(ns, a, from));
    KeyOrder(Key(ns, a, to), k);
    if Value(k.a) == Value(a) { ValueInjective(k.a, a); }
  }

  /** So a scan of an entity's relations never returns its declaration, whatever the
      lower bound asked for. */
  lemma ScanSkipsDeclaration(a: Entity, from: Entity, to: Entity, k: Key)
    ensures Within(KeyBytes(k), KeyBytes(Key(NS_RELATION, a, RelationFrom(from))), KeyBytes(Key(NS_RELATION, a, to)))
            <==> k.ns == NS_RELATION && k.a == a && k.b != ZERO && Value(from) <= Value(k.b) <= Value(to)
  {
    BoundsSelect(NS_RELATION, a, RelationFrom(from), to, k);
    ValueDigits(FIRST_TARGET);
    ZeroValue(k.b);
  }

  /** A pair as its second entity and the stored value. */
  function Second(p: Pair): (Entity, Blob)
    requires |p.0| == KEY_LEN
  {
    (ParseKey(p.0).b, p.1)
  }

  lemma InRow(kv: KV, ns: byte, a: Entity, from: Entity, to: Entity, p: Pair)
    requires KeysFit(kv) && |p.0| == KEY_LEN
    ensures p.0 in kv && kv[p.0] == p.1 && Within(p.0, KeyBytes(Key(ns, a, from)), KeyBytes(Key(ns, a, to)))
            <==> var (e, x) := Second(p);
                 && p.0 == KeyBytes(Key(ns, a, e))
                 && e in Row(kv, ns, a) && Row(kv, ns, a)[e] == x && Value(from) <= Value(e) <= Value(to)
  {
    var k := ParseKey(p.0);
    ParseRoundTrip(p.0);
    BoundsSelect(ns, a, from, to, k);
    RowAt(kv, ns, a, k.b);
    KeyRoundTrip(Key(ns, a, k.b));
  }

  function Seconds(s: seq<Pair>): (t: seq<(Entity, Blob)>)
    requires forall p | p in s :: |p.0| == KEY_LEN
    ensures |t| == |s| && forall i | 0 <= i < |s| :: t[i] == Second(s[i])
  {
    seq(|s|, i requires 0 <= i < |s| => assert s[i] in s; Second(s[i]))
  }

  /** A scan between two keys of one row. */
  ghost predicate IsRowScan(kv: KV, ns: byte, a: Entity, from: Entity, to: Entity, s: seq<Pair>) {
    KeysFit(kv) && IsScan(kv, KeyBytes(Key(ns, a, from)), KeyBytes(Key(ns, a, to)), s)
  }

  lemma SecondsAscend(kv: KV, ns: byte, a: Entity, from: Entity, to: Entity, s: seq<Pair>)
    requires IsRowScan(kv, ns, a, from, to, s)
    ensures Ascends(Seconds(s))
  {
    forall i, j | 0 <= i < j < |s|
      ensures Value(Second(s[i]).0) < Value(Second(s[j]).0)
    {
      assert s[i] in s && s[j] in s;
      InRow(kv, ns, a, from, to, s[i]);
      InRow(kv, ns, a, from, to, s[j]);
      KeyOrder(Key(ns, a, Second(s[i]).0), Key(ns, a, Second(s[j]).0));
    }
  }

  lemma SecondsIn(kv: KV, ns: byte, a: Entity, from: Entity, to: Entity, s: seq<Pair>, i: nat)
    requires IsRowScan(kv, ns, a, from, to, s) && i < |s| && |s[i].0| == KEY_LEN
    ensures InPart(Row(kv, ns, a), from, to, Second(s[i]))
  {
    assert s[i] in s;
    InRow(kv, ns, a, from, to, s[i]);
  }

  lemma SecondsAll(kv: KV, ns: byte, a: Entity, from: Entity, to: Entity, s: seq<Pair>, q: (Entity, Blob))
    requires IsRowScan(kv, ns, a, from, to, s) && InPart(Row(kv, ns, a), from, to, q)
    ensures q in Seconds(s)
  {
    var p := (KeyBytes(Key(ns, a, q.0)), q.1);
    KeyRoundTrip(Key(ns, a, q.0));
    InRow(kv, ns, a, from, to, p);
    var i :| 0 <= i < |s| && s[i] == p;
    assert Seconds(s)[i] == q;
  }

  /** q is an entry of the row between the bounds. */
  predicate InPart(row: map<Entity, Blob>, from: Entity, to: Entity, q: (Entity, Blob)) {
    InRange(q.0, Value(from), Value(to) + 1) && q.0 in row && row[q.0] == q.1
  }

  lemma SecondsMembers(kv: KV, ns: byte, a: Entity, from: Entity, to: Entity, s: seq<Pair>, q: (Entity, Blob))
    requires IsRowScan(kv, ns, a, from, to, s)
    ensures q in Seconds(s) <==> InPart(Row(kv, ns, a), from, to, q)
  {
    if q in Seconds(s) {
      var i :| 0 <= i < |s| && Seconds(s)[i] == q;
      assert s[i] in s;
      SecondsIn(kv, ns, a, from, to, s, i);
    }
    if InPart(Row(kv, ns, a), from, to, q) {
      SecondsAll(kv, ns, a, from, to, s, q);
    }
  }

  lemma PartIsListing(row: map<Entity, Blob>, from: Entity, to: Entity, t: seq<(Entity, Blob)>)
    requires Ascends(t) && forall q :: q in t <==> InPart(row, from, to, q)
    ensures t == Listing(row, Value(from), Value(to) + 1)
  {
    SortedIsListing(row, Value(from), Value(to) + 1, t);
  }

  /** Each bound pair selects exactly its keys, and in the order of the second
      entity: the scan is the listing of the row. */
  lemma ScanIsListing(kv: KV, ns: byte, a: Entity, from: Entity, to: Entity, s: seq<Pair>)
    requires IsRowScan(kv, ns, a, from, to, s)
    ensures Seconds(s) == Listing(Row(kv, ns, a), Value(from), Value(to) + 1)
  {
    SecondsAscend(kv, ns, a, from, to, s);
    forall q
      ensures q in Seconds(s) <==> InPart(Row(kv, ns, a), from, to, q)
    {
      SecondsMembers(kv, ns, a, from, to, s, q);
    }
    PartIsListing(Row(kv, ns, a), from, to, Seconds(s));
  }

  class Memory {
    var kv: KV

    constructor ()
      ensures kv == map[]
    {
      kv := map[];
    }

    /** Checks every precondition before performing any write, so that either all
        the writes land or none do. */
    method Apply(ops: seq<Op>) returns (ok: bool)
      modifies this
      ensures ok <==> AllHold(old(kv), ops)
      ensures kv == if ok then Written(old(kv), ops) else old(kv)
    {
      for i := 0 to |ops|
        invariant kv == old(kv) && forall j | 0 <= j < i :: Holds(kv, ops[j])
      {
        if !Holds(kv, ops[i]) {
          return false;
        }
      }
      for i := 0 to |ops|
        invariant kv == Written(old(kv), ops[..i])
      {
        assert ops[..i + 1][..i] == ops[..i];
        kv := Write(kv, ops[i]);
      }
      assert ops[..|ops|] == ops;
      return true;
    }

    method Scan(start: Blob, end: Blob, limit: nat) returns (pairs: seq<Pair>)
      ensures exists all :: IsScan(kv, start, end, all) && pairs == Cut(all, limit)
    {
      pairs := [];
      var left := kv.Keys;
      while left != {}
        invariant left <= kv.Keys && InOrder(pairs)
        invariant forall p :: p in pairs <==> p.0 in kv.Keys - left && kv[p.0] == p.1 && Within(p.0, start, end)
        decreases left
      {
        var k :| k in left;
        if Within(k, start, end) {
          InsertKeepsOrder(pairs, (k, kv[k]));
          pairs := InsertPair(pairs, (k, kv[k]));
        }
        left := left - {k};
      }
      assert IsScan(kv, start, end, pairs);
      pairs := Cut(pairs, limit);
    }
  }
}
