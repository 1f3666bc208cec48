/** Four-byte entities and the nine-byte keys built from two of them. */
module Entities {
  import opened Bytes

  const ENTITY_LEN := 4
  const KEY_LEN := 9
  const ENTITY_COUNT := 0x1_0000_0000

  const NS_RELATION: byte := 0x10
  const NS_INDEX: byte := 0x11
  const NS_PRESENCE: byte := 0x12

  /** The field order is the byte order. */
  datatype Entity = Entity(log: byte, page: byte, typ: byte, id: byte)

  const ZERO := Entity(0, 0, 0, 0)

  /** The smallest entity a relation can point at. */
  const FIRST_TARGET := Entity(0, 0, 0, 1)

  const LAST := Entity(0xFF, 0xFF, 0xFF, 0xFF)

  function EntityBytes(e: Entity): (s: seq<byte>)
    ensures |s| == ENTITY_LEN
  {
    [e.log, e.page, e.typ, e.id]
  }

  lemma EntityPower()
    ensures Pow256(4) == ENTITY_COUNT
  {
    assert Pow256(1) == 256 && Pow256(2) == 0x1_0000 && Pow256(3) == 0x100_0000;
  }

  /** The big-endian number the four bytes spell. */
  function Value(e: Entity): (v: nat)
    ensures v < ENTITY_COUNT
  {
    EntityPower();
    BigEndianOfNumber(EntityBytes(e));
    Number(EntityBytes(e))
  }

  lemma ValueDigits(e: Entity)
    ensures Value(e) == e.log * 0x100_0000 + e.page * 0x1_0000 + e.typ * 0x100 + e.id
  {
    var s := EntityBytes(e);
    assert s[..3] == [e.log, e.page, e.typ];
    assert s[..3][..2] == [e.log, e.page];
    assert s[..3][..2][..1] == [e.log];
    assert Number([e.log]) == e.log;
    assert Number([e.log, e.page]) == 256 * e.log + e.page;
    assert Number([e.log, e.page, e.typ]) == 256 * (256 * e.log + e.page) + e.typ;
  }

  /** Reads the four bytes at the front of s. */
  function DecodeEntity(s: seq<byte>): Entity
    requires |s| >= ENTITY_LEN
  {
    Entity(s[0], s[1], s[2], s[3])
  }

  lemma BytesOfDecoded(s: seq<byte>)
    requires |s| == ENTITY_LEN
    ensures EntityBytes(DecodeEntity(s)) == s
  {
  }

  /** EntityFromValue: the four bytes of a 32-bit number. */
  function EntityAt(v: nat): (e: Entity)
    requires v < ENTITY_COUNT
    ensures Value(e) == v
  {
    EntityPower();
    NumberOfBigEndian(v, 4);
    BytesOfDecoded(BigEndian(v, 4));
    DecodeEntity(BigEndian(v, 4))
  }

  /** The same entity, by its value alone. */
  ghost function FromValue(v: nat): (e: Entity)
    requires v < ENTITY_COUNT
    ensures Value(e) == v
  {
    assert Value(EntityAt(v)) == v;
    var e: Entity :| Value(e) == v;
    e
  }

  lemma ValueInjective(a: Entity, b: Entity)
    requires Value(a) == Value(b)
    ensures a == b
  {
    SameNumber(EntityBytes(a), EntityBytes(b));
    assert EntityBytes(a)[0] == EntityBytes(b)[0] && EntityBytes(a)[1] == EntityBytes(b)[1];
    assert EntityBytes(a)[2] == EntityBytes(b)[2] && EntityBytes(a)[3] == EntityBytes(b)[3];
  }

  lemma FromValueOfValue(e: Entity)
    ensures FromValue(Value(e)) == e
  {
    ValueInjective(FromValue(Value(e)), e);
  }

  lemma EntityAtIsFromValue(v: nat)
    requires v < ENTITY_COUNT
    ensures EntityAt(v) == FromValue(v)
  {
    ValueInjective(EntityAt(v), FromValue(v));
  }

  lemma ZeroValue(e: Entity)
    ensures e == ZERO <==> Value(e) == 0
  {
    ValueDigits(ZERO);
    if Value(e) == 0 { ValueInjective(e, ZERO); }
  }

  lemma LastValue(e: Entity)
    ensures e == LAST <==> Value(e) == ENTITY_COUNT - 1
  {
    ValueDigits(LAST);
    if Value(e) == ENTITY_COUNT - 1 { ValueInjective(e, LAST); }
  }

  /** The entity immediately after e, unless e is the last one there is. */
  function Next(e: Entity): (r: (Entity, bool))
    ensures r.1 <==> e != LAST
    ensures r.1 ==> Value(r.0) == Value(e) + 1
  {
    LastValue(e);
    if Value(e) == ENTITY_COUNT - 1 then (ZERO, false)
    else (EntityAt(Value(e) + 1), true)
  }

  datatype Key = Key(ns: byte, a: Entity, b: Entity)

  function KeyBytes(k: Key): (s: seq<byte>)
    ensures |s| == KEY_LEN
  {
    [k.ns] + EntityBytes(k.a) + EntityBytes(k.b)
  }

  function ParseKey(s: seq<byte>): Key
    requires |s| == KEY_LEN
  {
    Key(s[0], DecodeEntity(s[1..5]), DecodeEntity(s[5..]))
  }

  lemma KeyRoundTrip(k: Key)
    ensures ParseKey(KeyBytes(k)) == k
  {
    assert KeyBytes(k)[1..5] == EntityBytes(k.a);
    assert KeyBytes(k)[5..] == EntityBytes(k.b);
  }

  lemma ParseRoundTrip(s: seq<byte>)
    requires |s| == KEY_LEN
    ensures KeyBytes(ParseKey(s)) == s
  {
  }

  function KeyValue(k: Key): nat {
    (k.ns * ENTITY_COUNT + Value(k.a)) * ENTITY_COUNT + Value(k.b)
  }

  lemma NumberThenEntity(s: seq<byte>, e: Entity)
    ensures Number(s + EntityBytes(e)) == Number(s) * ENTITY_COUNT + Value(e)
  {
    NumberOfConcat(s, EntityBytes(e));
    EntityPower();
  }

  lemma KeyValueIsNumber(k: Key)
    ensures Number(KeyBytes(k)) == KeyValue(k)
  {
    NumberThenEntity([k.ns] + EntityBytes(k.a), k.b);
    NumberThenEntity([k.ns], k.a);
    assert Number([k.ns]) == k.ns;
  }

  /** Key byte order is the order of namespace, first entity and second entity. */
  lemma KeyOrder(k: Key, l: Key)
    ensures Before(KeyBytes(k), KeyBytes(l)) <==>
            k.ns < l.ns || (k.ns == l.ns && (Value(k.a) < Value(l.a) || (k.a == l.a && Value(k.b) < Value(l.b))))
  {
    KeyValueIsNumber(k);
    KeyValueIsNumber(l);
    ByteOrderIsNumberOrder(KeyBytes(k), KeyBytes(l));
    if Value(k.a) == Value(l.a) { ValueInjective(k.a, l.a); }
    LeadingDigit(k.ns, Value(k.a), l.ns, Value(l.a), ENTITY_COUNT);
    LeadingDigit(k.ns * ENTITY_COUNT + Value(k.a), Value(k.b), l.ns * ENTITY_COUNT + Value(l.a), Value(l.b),
                 ENTITY_COUNT);
  }
}
