/** Byte strings, big-endian numbers and byte order. */
module Bytes {

  type byte = x: int | 0 <= x < 256

  function Pow256(w: nat): (p: nat)
    ensures p >= 1
  {
    if w == 0 then 1 else 256 * Pow256(w - 1)
  }

  /** The w low-order bytes of n, most significant first. */
  function BigEndian(n: nat, w: nat): (s: seq<byte>)
    ensures |s| == w
    decreases w, n
  {
    if w == 0 then [] else BigEndian(n / 256, w - 1) + [n % 256]
  }

  /** The number a byte string spells, most significant byte first. */
  function Number(s: seq<byte>): nat {
    if s == [] then 0 else 256 * Number(s[..|s| - 1]) + s[|s| - 1]
  }

  lemma {:induction false} NumberOfBigEndian(n: nat, w: nat)
    requires n < Pow256(w)
    ensures Number(BigEndian(n, w)) == n
    decreases w
  {
    if w > 0 {
      NumberOfBigEndian(n / 256, w - 1);
      assert BigEndian(n, w)[..w - 1] == BigEndian(n / 256, w - 1);
    }
  }

  lemma {:induction false} BigEndianOfNumber(s: seq<byte>)
    ensures Number(s) < Pow256(|s|)
    ensures BigEndian(Number(s), |s|) == s
  {
    if s != [] {
      var front, last := s[..|s| - 1], s[|s| - 1];
      BigEndianOfNumber(front);
      assert (256 * Number(front) + last) / 256 == Number(front);
      assert s == front + [last];
    }
  }

  /** bytes.Compare(s, t) < 0, for strings of any lengths. */
  predicate Before(s: seq<byte>, t: seq<byte>) {
    if t == [] then false
    else if s == [] then true
    else s[0] < t[0] || (s[0] == t[0] && Before(s[1..], t[1..]))
  }

  lemma {:induction false} NumberOfConcat(s: seq<byte>, t: seq<byte>)
    ensures Number(s + t) == Number(s) * Pow256(|t|) + Number(t)
    decreases |t|
  {
    if t == [] {
      assert s + t == s;
    } else {
      var front, last := t[..|t| - 1], t[|t| - 1];
      NumberOfConcat(s, front);
      assert (s + t)[..|s + t| - 1] == s + front;
      calc {
        Number(s + t);
        256 * Number(s + front) + last;
        256 * (Number(s) * Pow256(|front|) + Number(front)) + last;
        { MulThrough(Number(s), Pow256(|front|)); }
        Number(s) * Pow256(|t|) + 256 * Number(front) + last;
        Number(s) * Pow256(|t|) + Number(t);
      }
    }
  }

  lemma MulThrough(a: nat, p: nat)
    ensures 256 * (a * p) == a * (256 * p)
  {
  }

  /** Comparing strings of one length byte by byte is comparing the numbers they
      spell. */
  lemma {:induction false} ByteOrderIsNumberOrder(s: seq<byte>, t: seq<byte>)
    requires |s| == |t|
    ensures Before(s, t) <==> Number(s) < Number(t)
  {
    if s != [] {
      var p := Pow256(|s| - 1);
      assert s == [s[0]] + s[1..] && t == [t[0]] + t[1..];
      NumberOfConcat([s[0]], s[1..]);
      NumberOfConcat([t[0]], t[1..]);
      assert Number([s[0]]) == s[0] && Number([t[0]]) == t[0];
      BigEndianOfNumber(s[1..]);
      BigEndianOfNumber(t[1..]);
      ByteOrderIsNumberOrder(s[1..], t[1..]);
      LeadingDigit(s[0], Number(s[1..]), t[0], Number(t[1..]), p);
    }
  }

  lemma LeadingDigit(a: nat, x: nat, b: nat, y: nat, p: nat)
    requires x < p && y < p
    ensures a * p + x < b * p + y <==> a < b || (a == b && x < y)
  {
    if a < b {
      assert (a + 1) * p <= b * p;
    } else if b < a {
      assert (b + 1) * p <= a * p;
    }
  }

  lemma SameNumber(s: seq<byte>, t: seq<byte>)
    requires |s| == |t| && Number(s) == Number(t)
    ensures s == t
  {
    BigEndianOfNumber(s);
    BigEndianOfNumber(t);
  }
}
