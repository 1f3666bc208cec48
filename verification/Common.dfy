/** What both cores use: optional values, and sequences without repetition. */
module Common {

  datatype Option<+T> = None | Some(value: T)

  ghost predicate NoRepeat<T>(s: seq<T>) {
    forall i, j | 0 <= i < j < |s| :: s[i] != s[j]
  }

  lemma AddOne<T>(s: seq<T>, x: T)
    ensures NoRepeat(s) && x !in s ==> NoRepeat(s + [x])
  {
  }

  lemma AfterHead<T>(s: seq<T>, x: T)
    requires s != []
    ensures [s[0]] + (s[1..] + [x]) == s + [x]
  {
  }

  function Elements<T(==)>(s: seq<T>): set<T> { set x | x in s }

  /** A sequence without repetition has as many elements as positions. */
  lemma {:induction false} CountElements<T>(s: seq<T>)
    requires NoRepeat(s)
    ensures |Elements(s)| == |s|
  {
    if s != [] {
      var n := |s| - 1;
      CountElements(s[..n]);
      assert Elements(s) == Elements(s[..n]) + {s[n]};
    }
  }
}
