/** Who came from whom: the breadth-first walk both genealogies use, on any graph. */
module Lineage {
  import opened Common

  /** The neighbours of a unit, in the order they are read. */
  type Graph<!T> = T -> seq<T>

  function Neighbours<T(==)>(g: Graph<T>, us: set<T>): set<T> {
    set u, v | u in us && v in g(u) :: v
  }

  /** The units at most k hops from a start. */
  function Within<T(==)>(g: Graph<T>, start: T, k: nat): set<T> {
    if k == 0 then {start} else Within(g, start, k - 1) + Neighbours(g, Within(g, start, k - 1))
  }

  lemma ElementsMore<T>(s: seq<T>, x: T)
    ensures Elements(s + [x]) == Elements(s) + {x}
  {
  }

  lemma JoinRuns<T>(s: seq<T>, t: seq<T>)
    ensures Elements(s + t) == Elements(s) + Elements(t)
    ensures NoRepeat(s) && NoRepeat(t) && Elements(s) !! Elements(t) ==> NoRepeat(s + t)
  {
    if NoRepeat(s) && NoRepeat(t) && Elements(s) !! Elements(t) {
      forall i, j | 0 <= i < j < |s + t|
        ensures (s + t)[i] != (s + t)[j]
      {
        if i < |s| <= j {
          assert s[i] in Elements(s) && t[j - |s|] in Elements(t);
        }
      }
    }
  }

  /** What a level adds: the neighbours not seen yet, each once. */
  ghost predicate Adds<T(!new)>(next: seq<T>, seen: set<T>, us: set<T>, g: Graph<T>) {
    NoRepeat(next) && Elements(next) == Neighbours(g, us) - seen
  }

  lemma FirstFew<T>(s: seq<T>, i: nat)
    requires i < |s|
    ensures Elements(s[..i + 1]) == Elements(s[..i]) + {s[i]}
  {
    assert s[..i + 1] == s[..i] + [s[i]];
    ElementsMore(s[..i], s[i]);
  }

  /** The neighbours of one unit that are new. */
  method VisitUnit<T(==, !new)>(g: Graph<T>, unit: T, seen: set<T>) returns (found: seq<T>)
    ensures NoRepeat(found) && Elements(found) == Elements(g(unit)) - seen
  {
    found := [];
    var rels := g(unit);
    for i := 0 to |rels|
      invariant NoRepeat(found) && Elements(found) == Elements(rels[..i]) - seen
    {
      FirstFew(rels, i);
      ElementsMore(found, rels[i]);
      AddOne(found, rels[i]);
      if rels[i] !in seen && rels[i] !in found {
        found := found + [rels[i]];
      }
    }
    assert rels[..|rels|] == rels;
  }

  lemma OneMoreUnit<T(!new)>(g: Graph<T>, frontier: seq<T>, i: nat)
    requires i < |frontier|
    ensures Neighbours(g, Elements(frontier[..i + 1])) == Neighbours(g, Elements(frontier[..i])) +
            Elements(g(frontier[i]))
  {
    FirstFew(frontier, i);
    forall v
      ensures v in Neighbours(g, Elements(frontier[..i + 1])) <==>
              v in Neighbours(g, Elements(frontier[..i])) + Elements(g(frontier[i]))
    {
      if v in Neighbours(g, Elements(frontier[..i + 1])) {
        var u :| u in Elements(frontier[..i + 1]) && v in g(u);
      }
      if v in Elements(g(frontier[i])) {
        assert frontier[i] in Elements(frontier[..i + 1]);
      }
    }
  }

  /** One level of the walk: everything next to the frontier that was not visited. */
  method Level<T(==, !new)>(g: Graph<T>, frontier: seq<T>, visited: set<T>) returns (next: seq<T>)
    ensures Adds(next, visited, Elements(frontier), g)
  {
    next := [];
    for i := 0 to |frontier|
      invariant Adds(next, visited, Elements(frontier[..i]), g)
    {
      var found := VisitUnit(g, frontier[i], visited + Elements(next));
      OneMoreUnit(g, frontier, i);
      JoinRuns(next, found);
      next := next + found;
    }
    assert frontier[..|frontier|] == frontier;
  }

  const DEFAULT_TRACE_DEPTH := 50

  /** A depth that is not positive means the default. */
  function Depth(maxDepth: int): nat { if maxDepth <= 0 then DEFAULT_TRACE_DEPTH else maxDepth }

  // Levels.

  lemma {:induction false} Grows<T>(g: Graph<T>, start: T, j: nat, k: nat)
    requires j <= k
    ensures Within(g, start, j) <= Within(g, start, k)
    decreases k
  {
    if j < k { Grows(g, start, j, k - 1); }
  }

  /** The neighbours of the units first reached at distance k complete distance k + 1. */
  lemma NextLevel<T(!new)>(g: Graph<T>, start: T, k: nat, edge: set<T>)
    requires if k == 0 then edge == {start} else edge == Within(g, start, k) - Within(g, start, k - 1)
    ensures Within(g, start, k + 1) == Within(g, start, k) + (Neighbours(g, edge) - Within(g, start, k))
  {
    if k > 0 {
      var inner, outer := Within(g, start, k - 1), Within(g, start, k);
      forall v | v in Neighbours(g, outer)
        ensures v in outer + Neighbours(g, edge)
      {
        var u :| u in outer && v in g(u);
        if u !in edge { assert v in Neighbours(g, inner); }
      }
      forall v | v in Neighbours(g, edge)
        ensures v in Neighbours(g, outer)
      {
        var u :| u in edge && v in g(u);
      }
    }
  }

  /** Nothing new is next to what is within j hops. */
  ghost predicate Closed<T(!new)>(g: Graph<T>, start: T, j: nat) {
    Neighbours(g, Within(g, start, j)) <= Within(g, start, j)
  }

  lemma {:induction false} Settled<T(!new)>(g: Graph<T>, start: T, j: nat, k: nat)
    requires j <= k && Closed(g, start, j)
    ensures Within(g, start, k) == Within(g, start, j)
    decreases k
  {
    if j < k { Settled(g, start, j, k - 1); }
  }

  /** The units at distance 1 to k are the first few of the walk, for every k. */
  ghost predicate ByDistance<T(!new)>(g: Graph<T>, start: T, depth: nat, result: seq<T>) {
    forall k: nat | k <= depth ::
      exists n :: 0 <= n <= |result| && Elements(result[..n]) == Within(g, start, k) - {start}
  }

  lemma MoreByDistance<T(!new)>(g: Graph<T>, start: T, depth: nat, result: seq<T>, next: seq<T>)
    requires ByDistance(g, start, depth, result) && Elements(result + next) == Within(g, start, depth + 1) - {start}
    ensures ByDistance(g, start, depth + 1, result + next)
  {
    var more := result + next;
    forall k: nat | k <= depth + 1
      ensures exists n :: 0 <= n <= |more| && Elements(more[..n]) == Within(g, start, k) - {start}
    {
      if k <= depth {
        var n :| 0 <= n <= |result| && Elements(result[..n]) == Within(g, start, k) - {start};
        assert more[..n] == result[..n];
      } else {
        assert more[..|more|] == more;
      }
    }
  }

  lemma SettledByDistance<T(!new)>(g: Graph<T>, start: T, d: nat, depth: nat, result: seq<T>)
    requires d <= depth && ByDistance(g, start, d, result) && Closed(g, start, d)
    ensures ByDistance(g, start, depth, result)
  {
    forall k: nat | k <= depth
      ensures exists n :: 0 <= n <= |result| && Elements(result[..n]) == Within(g, start, k) - {start}
    {
      if k > d { Settled(g, start, d, k); }
    }
  }

  /** Where the walk is after d levels. */
  ghost predicate WalkedTo<T(!new)>(g: Graph<T>, start: T, d: nat, visited: set<T>, frontier: seq<T>, result: seq<T>) {
    && visited == Within(g, start, d)
    && (if d == 0 then Elements(frontier) == {start}
        else Elements(frontier) == Within(g, start, d) - Within(g, start, d - 1))
    && NoRepeat(result) && Elements(result) == Within(g, start, d) - {start}
    && ByDistance(g, start, d, result)
  }

  lemma WalkOn<T(!new)>(g: Graph<T>, start: T, d: nat, visited: set<T>, frontier: seq<T>, result: seq<T>, next: seq<T>)
    requires WalkedTo(g, start, d, visited, frontier, result) && Adds(next, visited, Elements(frontier), g)
    ensures WalkedTo(g, start, d + 1, visited + Elements(next), next, result + next)
  {
    NextLevel(g, start, d, Elements(frontier));
    Grows(g, start, 0, d);
    JoinRuns(result, next);
    MoreByDistance(g, start, d, result, next);
  }

  /** The units at distance 1 to depth, nearest first, each once, the start never. */
  ghost predicate IsTrace<T(!new)>(g: Graph<T>, start: T, depth: nat, result: seq<T>) {
    NoRepeat(result) && Elements(result) == Within(g, start, depth) - {start} && ByDistance(g, start, depth, result)
  }

  /** The walk, on any graph, cycles included. */
  method Trace<T(==, !new)>(g: Graph<T>, start: T, asked: int) returns (result: seq<T>)
    ensures IsTrace(g, start, Depth(asked), result)
  {
    var maxDepth := Depth(asked);
    var visited, frontier := {start}, [start];
    result := [];
    var depth := 0;
    BeginWalk(g, start);
    while depth < maxDepth && |frontier| > 0
      invariant depth <= maxDepth && WalkedTo(g, start, depth, visited, frontier, result)
    {
      var next := Level(g, frontier, visited);
      WalkOn(g, start, depth, visited, frontier, result, next);
      visited := visited + Elements(next);
      result := result + next;
      frontier := next;
      depth := depth + 1;
    }
    if depth < maxDepth {
      NextLevel(g, start, depth, Elements(frontier));
      assert Neighbours(g, Elements(frontier)) == {};
      Settled(g, start, depth, maxDepth);
      SettledByDistance(g, start, depth, maxDepth, result);
    }
  }

  lemma BeginWalk<T(!new)>(g: Graph<T>, start: T)
    ensures WalkedTo(g, start, 0, {start}, [start], [])
  {
    var none: seq<T> := [];
    assert none[..0] == none;
  }

  // Distance as paths.

  ghost predicate IsPath<T(!new)>(g: Graph<T>, p: seq<T>) {
    p != [] && forall i | 0 <= i < |p| - 1 :: p[i + 1] in g(p[i])
  }

  lemma {:induction false} PathWithin<T(!new)>(g: Graph<T>, p: seq<T>, k: nat)
    requires IsPath(g, p) && |p| <= k + 1
    ensures p[|p| - 1] in Within(g, p[0], k)
    decreases k
  {
    if |p| == 1 {
      Grows(g, p[0], 0, k);
    } else {
      var n := |p| - 1;
      PathWithin(g, p[..n], k - 1);
      assert p[n] in g(p[n - 1]);
    }
  }

  lemma {:induction false} WithinPath<T(!new)>(g: Graph<T>, start: T, k: nat, v: T) returns (p: seq<T>)
    requires v in Within(g, start, k)
    ensures IsPath(g, p) && |p| <= k + 1 && p[0] == start && p[|p| - 1] == v
    decreases k
  {
    if k == 0 {
      p := [start];
    } else if v in Within(g, start, k - 1) {
      p := WithinPath(g, start, k - 1, v);
    } else {
      var u :| u in Within(g, start, k - 1) && v in g(u);
      p := WithinPath(g, start, k - 1, u);
      p := p + [v];
    }
  }

  /** `Within` is reachability in at most k hops. */
  lemma WithinIsReach<T(!new)>(g: Graph<T>, start: T, k: nat, v: T)
    ensures v in Within(g, start, k) <==> exists p :: IsPath(g, p) && |p| <= k + 1 && p[0] == start && p[|p| - 1] == v
  {
    if v in Within(g, start, k) {
      var p := WithinPath(g, start, k, v);
    }
    if p :| IsPath(g, p) && |p| <= k + 1 && p[0] == start && p[|p| - 1] == v {
      PathWithin(g, p, k);
    }
  }

  // Both directions.

  ghost predicate Converse<T(!new)>(g: Graph<T>, back: Graph<T>) {
    forall u, v :: v in g(u) <==> u in back(v)
  }

  lemma {:induction false} BackPath<T(!new)>(g: Graph<T>, back: Graph<T>, p: seq<T>) returns (q: seq<T>)
    requires Converse(g, back) && IsPath(g, p)
    ensures IsPath(back, q) && |q| == |p| && q[0] == p[|p| - 1] && q[|q| - 1] == p[0]
    decreases |p|
  {
    var n := |p| - 1;
    if n == 0 {
      q := p;
    } else {
      q := BackPath(g, back, p[..n]);
      assert p[n] in g(p[n - 1]);
      q := [p[n]] + q;
    }
  }

  lemma OneWay<T(!new)>(g: Graph<T>, back: Graph<T>, x: T, y: T, k: nat)
    requires Converse(g, back) && y in Within(g, x, k)
    ensures x in Within(back, y, k)
  {
    var p := WithinPath(g, x, k, y);
    var q := BackPath(g, back, p);
    PathWithin(back, q, k);
  }

  /** x is among the ancestors of y exactly when y is among the descendants of x. */
  lemma Duality<T(!new)>(g: Graph<T>, back: Graph<T>, x: T, y: T, k: nat)
    requires Converse(g, back)
    ensures y in Within(g, x, k) <==> x in Within(back, y, k)
  {
    if y in Within(g, x, k) { OneWay(g, back, x, y, k); }
    if x in Within(back, y, k) { OneWay(back, g, y, x, k); }
  }

  // The same graph under other names.

  function Image<T(==), U(==)>(f: T -> U, s: set<T>): set<U> { set x | x in s :: f(x) }

  function Mapped<T, U>(f: T -> U, s: seq<T>): seq<U> { seq(|s|, i requires 0 <= i < |s| => f(s[i])) }

  lemma ElementsMapped<T, U>(f: T -> U, s: seq<T>)
    ensures Elements(Mapped(f, s)) == Image(f, Elements(s))
  {
    forall y | y in Elements(Mapped(f, s))
      ensures y in Image(f, Elements(s))
    {
      var i :| 0 <= i < |s| && Mapped(f, s)[i] == y;
      assert s[i] in Elements(s);
    }
    forall y | y in Image(f, Elements(s))
      ensures y in Elements(Mapped(f, s))
    {
      var x :| x in Elements(s) && f(x) == y;
      var i :| 0 <= i < |s| && s[i] == x;
      assert Mapped(f, s)[i] == y;
    }
  }

  ghost predicate Different<T(!new), U>(f: T -> U, units: set<T>) {
    forall u, v | u in units && v in units && f(u) == f(v) :: u == v
  }

  /** Among some units the edges stay among them, and h has the same under other names. */
  ghost predicate SameGraph<T(!new), U>(units: set<T>, f: T -> U, g: Graph<T>, h: Graph<U>) {
    && Different(f, units)
    && forall u | u in units :: Elements(g(u)) <= units && Elements(h(f(u))) == Image(f, Elements(g(u)))
  }

  /** Two graphs that differ in the names of the units have the same distances. */
  lemma {:induction false} SameDistances<T(!new), U(!new)>(units: set<T>, f: T -> U, g: Graph<T>, h: Graph<U>,
                                                           start: T, k: nat)
    requires SameGraph(units, f, g, h) && start in units
    ensures Within(g, start, k) <= units && Within(h, f(start), k) == Image(f, Within(g, start, k))
    decreases k
  {
    if k > 0 {
      SameDistances(units, f, g, h, start, k - 1);
      NeighboursImage(units, f, g, h, Within(g, start, k - 1));
    }
  }

  lemma NeighboursImage<T(!new), U(!new)>(units: set<T>, f: T -> U, g: Graph<T>, h: Graph<U>, us: set<T>)
    requires SameGraph(units, f, g, h) && us <= units
    ensures Neighbours(g, us) <= units && Neighbours(h, Image(f, us)) == Image(f, Neighbours(g, us))
  {
    forall v | v in Neighbours(g, us)
      ensures v in units
    {
      var u :| u in us && v in g(u);
      assert v in Elements(g(u));
    }
    forall w | w in Neighbours(h, Image(f, us))
      ensures w in Image(f, Neighbours(g, us))
    {
      var u :| u in us && w in h(f(u));
      assert w in Elements(h(f(u)));
      var v :| v in Elements(g(u)) && f(v) == w;
      assert v in Neighbours(g, us);
    }
    forall w | w in Image(f, Neighbours(g, us))
      ensures w in Neighbours(h, Image(f, us))
    {
      var v :| v in Neighbours(g, us) && f(v) == w;
      var u :| u in us && v in g(u);
      assert v in Elements(g(u)) && w in Elements(h(f(u)));
      assert f(u) in Image(f, us);
    }
  }

  lemma ImageWithout<T(!new), U>(units: set<T>, f: T -> U, us: set<T>, x: T)
    requires Different(f, units) && us <= units && x in units
    ensures Image(f, us - {x}) == Image(f, us) - {f(x)}
  {
    forall y | y in Image(f, us) - {f(x)}
      ensures y in Image(f, us - {x})
    {
      var u :| u in us && f(u) == y;
      assert u in us - {x};
    }
  }

  lemma MappedNoRepeat<T(!new), U>(units: set<T>, f: T -> U, s: seq<T>)
    requires Different(f, units) && Elements(s) <= units && NoRepeat(s)
    ensures NoRepeat(Mapped(f, s))
  {
    assert forall i | 0 <= i < |s| :: s[i] in Elements(s);
  }

  /** An answer on the one graph, under the other names, is an answer on the other. */
  lemma SameTrace<T(!new), U(!new)>(units: set<T>, f: T -> U, g: Graph<T>, h: Graph<U>, start: T, depth: nat,
                                    result: seq<T>)
    requires SameGraph(units, f, g, h) && start in units && IsTrace(g, start, depth, result)
    ensures IsTrace(h, f(start), depth, Mapped(f, result))
  {
    SameReached(units, f, g, h, start, depth, result);
    SameDistances(units, f, g, h, start, depth);
    MappedNoRepeat(units, f, result);
    var all := Mapped(f, result);
    forall k: nat | k <= depth
      ensures exists n :: 0 <= n <= |all| && Elements(all[..n]) == Within(h, f(start), k) - {f(start)}
    {
      var n :| 0 <= n <= |result| && Elements(result[..n]) == Within(g, start, k) - {start};
      SameReached(units, f, g, h, start, k, result[..n]);
      assert all[..n] == Mapped(f, result[..n]);
    }
  }

  lemma SameReached<T(!new), U(!new)>(units: set<T>, f: T -> U, g: Graph<T>, h: Graph<U>, start: T, k: nat,
                                      result: seq<T>)
    requires SameGraph(units, f, g, h) && start in units && Elements(result) == Within(g, start, k) - {start}
    ensures Elements(Mapped(f, result)) == Within(h, f(start), k) - {f(start)}
  {
    SameDistances(units, f, g, h, start, k);
    ImageWithout(units, f, Within(g, start, k), start);
    ElementsMapped(f, result);
  }
}
