/** The stored value and its byte encoding:

      [version 1][kind 1][author 4][created 8][nameLen 2][name]
      [dataLen 2][data][sigLen 2][signature]
 */
module Records {
  import opened Common
  import opened Bytes
  import opened Entities

  const RECORD_VERSION: byte := 1
  const MAX_FIELD_LEN := 0xFFFF
  const HEADER_LEN := 14

  /** `created` is the timestamp's 64-bit pattern, in nanoseconds. */
  datatype RawRecord = Record(
    kind: byte, author: Entity, created: nat, name: seq<byte>, data: seq<byte>, sig: seq<byte>)

  /** What fits the encoding: two-byte length prefixes and an eight-byte time. */
  predicate Fits(r: RawRecord) {
    |r.name| <= MAX_FIELD_LEN && |r.data| <= MAX_FIELD_LEN && |r.sig| <= MAX_FIELD_LEN && r.created < Pow256(8)
  }

  type Record = r: RawRecord | Fits(r) witness Record(0, ZERO, 0, [], [], [])

  function Prefixed(s: seq<byte>): seq<byte> {
    BigEndian(|s|, 2) + s
  }

  /** Everything but the signature: with the key, what the signature covers. */
  function Unsigned(r: RawRecord): seq<byte> {
    [RECORD_VERSION, r.kind] + EntityBytes(r.author) + BigEndian(r.created, 8) + Prefixed(r.name) + Prefixed(r.data)
  }

  function Encode(r: RawRecord): seq<byte> {
    Unsigned(r) + Prefixed(r.sig)
  }

  function SignedPayload(k: Key, unsigned: seq<byte>): seq<byte> {
    KeyBytes(k) + unsigned
  }

  /** One length-prefixed field off the front, and what is left. */
  function TakeField(s: seq<byte>): Option<(seq<byte>, seq<byte>)> {
    if |s| < 2 then None
    else
      var n := Number(s[..2]);
      if |s| < 2 + n then None else Some((s[2..2 + n], s[2 + n..]))
  }

  /** A record off the front of s, and what is left. */
  function TakeRecord(s: seq<byte>): Option<(RawRecord, seq<byte>)> {
    if |s| < HEADER_LEN + 2 || s[0] != RECORD_VERSION then None
    else
      match TakeField(s[HEADER_LEN..])
      case None => None
      case Some((name, s1)) =>
        match TakeField(s1)
        case None => None
        case Some((data, s2)) =>
          match TakeField(s2)
          case None => None
          case Some((sig, rest)) =>
            Some((Record(s[1], DecodeEntity(s[2..6]), Number(s[6..14]), name, data, sig), rest))
  }

  /** A stored value must be one record and nothing after it. */
  function Decode(s: seq<byte>): Option<RawRecord> {
    match TakeRecord(s)
    case None => None
    case Some((r, rest)) => if rest == [] then Some(r) else None
  }

  lemma TakePrefixed(s: seq<byte>, rest: seq<byte>)
    requires |s| <= MAX_FIELD_LEN
    ensures TakeField(Prefixed(s) + rest) == Some((s, rest))
  {
    var t := Prefixed(s) + rest;
    assert Pow256(2) == 0x1_0000 by { assert Pow256(1) == 256; }
    NumberOfBigEndian(|s|, 2);
    assert t[..2] == BigEndian(|s|, 2);
    assert t[2..2 + |s|] == s;
    assert t[2 + |s|..] == rest;
  }

  lemma PrefixedOfTake(s: seq<byte>)
    requires TakeField(s).Some?
    ensures var (field, rest) := TakeField(s).value;
            s == Prefixed(field) + rest && |field| <= MAX_FIELD_LEN
  {
    var (field, rest) := TakeField(s).value;
    assert Pow256(2) == 0x1_0000 by { assert Pow256(1) == 256; }
    BigEndianOfNumber(s[..2]);
    assert s == s[..2] + field + rest;
  }

  function Header(r: RawRecord): (s: seq<byte>)
    ensures |s| == HEADER_LEN
  {
    [RECORD_VERSION, r.kind] + EntityBytes(r.author) + BigEndian(r.created, 8)
  }

  lemma HeaderFields(r: RawRecord, rest: seq<byte>)
    requires r.created < Pow256(8)
    ensures var s := Header(r) + rest;
            && s[0] == RECORD_VERSION && s[1] == r.kind && s[2..6] == EntityBytes(r.author)
            && Number(s[6..14]) == r.created && s[HEADER_LEN..] == rest
  {
    var s := Header(r) + rest;
    assert s[6..14] == BigEndian(r.created, 8);
    NumberOfBigEndian(r.created, 8);
  }

  lemma RegroupFields(a: seq<byte>, b: seq<byte>, c: seq<byte>, d: seq<byte>, e: seq<byte>)
    ensures a + b + c + d + e == a + (b + (c + (d + e)))
  {
  }

  /** TakeRecord on a string whose parts are known. */
  lemma TakeParts(s: seq<byte>, r: Record, s0: seq<byte>, s1: seq<byte>, s2: seq<byte>, rest: seq<byte>)
    requires |s| >= HEADER_LEN + 2 && s[0] == RECORD_VERSION && s[1] == r.kind
    requires DecodeEntity(s[2..6]) == r.author && Number(s[6..14]) == r.created && s[HEADER_LEN..] == s0
    requires TakeField(s0) == Some((r.name, s1)) && TakeField(s1) == Some((r.data, s2)) &&
             TakeField(s2) == Some((r.sig, rest))
    ensures TakeRecord(s) == Some((r, rest))
  {
  }

  /** Decoding finds the record that was encoded, and exactly where it ended. */
  lemma TakeEncoded(r: Record, rest: seq<byte>)
    ensures TakeRecord(Encode(r) + rest) == Some((r, rest))
  {
    var s2 := Prefixed(r.sig) + rest;
    var s1 := Prefixed(r.data) + s2;
    var s0 := Prefixed(r.name) + s1;
    RegroupFields(Header(r), Prefixed(r.name), Prefixed(r.data), Prefixed(r.sig), rest);
    HeaderFields(r, s0);
    TakePrefixed(r.name, s1);
    TakePrefixed(r.data, s2);
    TakePrefixed(r.sig, rest);
    TakeParts(Header(r) + s0, r, s0, s1, s2, rest);
  }

  lemma RoundTrip(r: Record)
    ensures Decode(Encode(r)) == Some(r)
  {
    TakeEncoded(r, []);
    assert Encode(r) + [] == Encode(r);
  }

  /** What decoding took apart. */
  lemma Parts(s: seq<byte>)
    requires TakeRecord(s).Some?
    ensures |s| >= HEADER_LEN && s[0] == RECORD_VERSION
    ensures var (r, rest) := TakeRecord(s).value;
            && s[HEADER_LEN..] == Prefixed(r.name) + (Prefixed(r.data) + (Prefixed(r.sig) + rest))
            && |r.name| <= MAX_FIELD_LEN && |r.data| <= MAX_FIELD_LEN && |r.sig| <= MAX_FIELD_LEN
            && r.kind == s[1] && r.author == DecodeEntity(s[2..6]) && r.created == Number(s[6..14])
  {
    var s0 := s[HEADER_LEN..];
    PrefixedOfTake(s0);
    PrefixedOfTake(TakeField(s0).value.1);
    PrefixedOfTake(TakeField(TakeField(s0).value.1).value.1);
  }

  /** Re-encoding what was decoded gives back the same bytes, and all of them but the
      signature and its length are what the signature covers. */
  lemma ReEncode(s: seq<byte>)
    requires Decode(s).Some?
    ensures Fits(Decode(s).value) && Encode(Decode(s).value) == s
    ensures |Decode(s).value.sig| + 2 <= |s| && Unsigned(Decode(s).value) == s[..|s| - 2 - |Decode(s).value.sig|]
  {
    var r := Decode(s).value;
    Parts(s);
    ReHeader(s);
    RegroupFields(Header(r), Prefixed(r.name), Prefixed(r.data), Prefixed(r.sig), []);
    assert Encode(r) + [] == Encode(r);
    assert s[..|Unsigned(r)|] == Unsigned(r);
  }

  lemma ReHeader(s: seq<byte>)
    requires |s| >= HEADER_LEN && s[0] == RECORD_VERSION
    ensures Number(s[6..14]) < Pow256(8)
    ensures s == Header(Record(s[1], DecodeEntity(s[2..6]), Number(s[6..14]), [], [], [])) + s[HEADER_LEN..]
  {
    BigEndianOfNumber(s[6..14]);
  }

  /** No encoding is a proper prefix of another, so a concatenation of encodings
      can be taken apart in one way only. */
  lemma PrefixFree(r: Record, x: seq<byte>, q: Record, y: seq<byte>)
    requires Encode(r) + x == Encode(q) + y
    ensures r == q && x == y
  {
    TakeEncoded(r, x);
    TakeEncoded(q, y);
  }
}
