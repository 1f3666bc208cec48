/** Ordered range reads, and reading a range a page at a time. */
module Listings {
  import opened Entities

  /** The entries of m with lo <= Value(key) < hi, in ascending order of key. */
  ghost function Listing<T>(m: map<Entity, T>, lo: nat, hi: nat): seq<(Entity, T)>
    requires hi <= ENTITY_COUNT
    decreases hi - lo, m.Keys
  {
    if lo >= hi then []
    else (if FromValue(lo) in m then [(FromValue(lo), m[FromValue(lo)])] else []) + Listing(m, lo + 1, hi)
  }

  predicate InRange(e: Entity, lo: nat, hi: nat) {
    lo <= Value(e) < hi
  }

  lemma {:induction false} ListingMembers<T>(m: map<Entity, T>, lo: nat, hi: nat, e: Entity, x: T)
    requires hi <= ENTITY_COUNT
    ensures (e, x) in Listing(m, lo, hi) <==> InRange(e, lo, hi) && e in m && m[e] == x
    decreases hi - lo
  {
    if lo < hi {
      ListingMembers(m, lo + 1, hi, e, x);
      FromValueOfValue(e);
    }
  }

  ghost predicate Ascends<T>(s: seq<(Entity, T)>) {
    forall i, j | 0 <= i < j < |s| :: Value(s[i].0) < Value(s[j].0)
  }

  lemma {:induction false} ListingAscends<T>(m: map<Entity, T>, lo: nat, hi: nat)
    requires hi <= ENTITY_COUNT
    ensures forall i | 0 <= i < |Listing(m, lo, hi)| :: InRange(Listing(m, lo, hi)[i].0, lo, hi)
    ensures Ascends(Listing(m, lo, hi))
    decreases hi - lo
  {
    if lo < hi {
      ListingAscends(m, lo + 1, hi);
    }
  }

  lemma {:induction false} ListingSplit<T>(m: map<Entity, T>, lo: nat, mid: nat, hi: nat)
    requires lo <= mid <= hi <= ENTITY_COUNT
    ensures Listing(m, lo, hi) == Listing(m, lo, mid) + Listing(m, mid, hi)
    decreases mid - lo
  {
    if lo < mid {
      ListingSplit(m, lo + 1, mid, hi);
    }
  }

  lemma HasMember<T>(s: seq<T>)
    ensures s == [] || exists x :: x in s
  {
    if s != [] { assert s[0] in s; }
  }

  lemma FirstIsLeast<T>(s: seq<(Entity, T)>, t: seq<(Entity, T)>)
    requires Ascends(s) && Ascends(t) && s != [] && t != []
    requires s[0] in t && t[0] in s
    ensures s[0] == t[0]
  {
    var i :| 0 <= i < |t| && t[i] == s[0];
    var j :| 0 <= j < |s| && s[j] == t[0];
  }

  lemma {:induction false} AscendingUnique<T>(s: seq<(Entity, T)>, t: seq<(Entity, T)>)
    requires Ascends(s) && Ascends(t)
    requires forall p :: p in s <==> p in t
    ensures s == t
  {
    if s == [] {
      HasMember(t);
    } else {
      assert s[0] in t;
      assert t[0] in s;
      FirstIsLeast(s, t);
      forall p
        ensures p in s[1..] <==> p in t[1..]
      {
        assert p in s[1..] <==> p in s && p != s[0];
        assert p in t[1..] <==> p in t && p != t[0];
      }
      AscendingUnique(s[1..], t[1..]);
      assert s == [s[0]] + s[1..] && t == [t[0]] + t[1..];
    }
  }

  /** A sequence of a map's entries in ascending order, none missing, is its
      listing: sorting by key and scanning give the same sequence. */
  lemma SortedIsListing<T>(m: map<Entity, T>, lo: nat, hi: nat, s: seq<(Entity, T)>)
    requires hi <= ENTITY_COUNT && Ascends(s)
    requires forall p :: p in s <==> InRange(p.0, lo, hi) && p.0 in m && m[p.0] == p.1
    ensures s == Listing(m, lo, hi)
  {
    ListingAscends(m, lo, hi);
    forall p
      ensures p in s <==> p in Listing(m, lo, hi)
    {
      ListingMembers(m, lo, hi, p.0, p.1);
    }
    AscendingUnique(s, Listing(m, lo, hi));
  }

  lemma ListingInjective<T>(m: map<Entity, T>, n: map<Entity, T>, lo: nat, hi: nat)
    requires hi <= ENTITY_COUNT && Listing(m, lo, hi) == Listing(n, lo, hi)
    requires forall e | e in m :: InRange(e, lo, hi)
    requires forall e | e in n :: InRange(e, lo, hi)
    ensures m == n
  {
    forall e | e in m
      ensures e in n && n[e] == m[e]
    {
      ListingMembers(m, lo, hi, e, m[e]);
      ListingMembers(n, lo, hi, e, m[e]);
    }
    forall e | e in n
      ensures e in m
    {
      ListingMembers(n, lo, hi, e, n[e]);
      ListingMembers(m, lo, hi, e, n[e]);
    }
  }

  // Paging.

  /** At most `limit` of s, 0 meaning all of it. */
  function Cut<T>(s: seq<T>, limit: nat): seq<T> {
    if limit > 0 && |s| > limit then s[..limit] else s
  }

  /** Which far entities a relation scan returns, and how many. */
  datatype Range = Range(from: Entity, to: Entity, limit: nat)

  /** The zero entity as an upper bound means no bound. */
  function Upper(r: Range): Entity {
    if r.to == ZERO then LAST else r.to
  }

  /** One bounded scan of a row of relations. */
  ghost function Page<T>(row: map<Entity, T>, r: Range): seq<(Entity, T)> {
    Cut(Listing(row, Value(r.from), Value(Upper(r)) + 1), r.limit)
  }

  /** The range that continues past `last`, and whether anything can be left. */
  function Resume(r: Range, last: Entity): (Range, bool) {
    var (next, ok) := Next(last);
    if !ok || Value(next) > Value(Upper(r)) then (r, false)
    else (r.(from := next), true)
  }

  function Insert<T>(s: seq<(Entity, T)>, p: (Entity, T)): seq<(Entity, T)> {
    if s == [] || Value(p.0) < Value(s[0].0) then [p] + s else [s[0]] + Insert(s[1..], p)
  }

  lemma {:induction false} InsertMembers<T>(s: seq<(Entity, T)>, p: (Entity, T), q: (Entity, T))
    ensures q in Insert(s, p) <==> q in s || q == p
  {
    if s != [] && Value(p.0) >= Value(s[0].0) {
      InsertMembers(s[1..], p, q);
      assert s == [s[0]] + s[1..];
    }
  }

  lemma Prepend<T>(p: (Entity, T), t: seq<(Entity, T)>)
    requires Ascends(t) && forall q | q in t :: Value(p.0) < Value(q.0)
    ensures Ascends([p] + t)
  {
    forall i | 0 <= i < |t|
      ensures Value(p.0) < Value(t[i].0)
    {
      assert t[i] in t;
    }
  }

  lemma AfterFirst<T>(s: seq<(Entity, T)>, q: (Entity, T))
    requires Ascends(s) && s != [] && q in s[1..]
    ensures Value(s[0].0) < Value(q.0)
  {
    var k :| 0 <= k < |s| - 1 && s[1..][k] == q;
    assert s[k + 1] == q;
  }

  lemma {:induction false} InsertAscends<T>(s: seq<(Entity, T)>, p: (Entity, T))
    requires Ascends(s) && forall q | q in s :: q.0 != p.0
    ensures Ascends(Insert(s, p))
  {
    if s != [] && Value(p.0) >= Value(s[0].0) {
      assert s[0] in s;
      if Value(p.0) == Value(s[0].0) { ValueInjective(p.0, s[0].0); }
      InsertAscends(s[1..], p);
      forall q | q in Insert(s[1..], p)
        ensures Value(s[0].0) < Value(q.0)
      {
        InsertMembers(s[1..], p, q);
        if q in s[1..] { AfterFirst(s, q); }
      }
      Prepend(s[0], Insert(s[1..], p));
    }
  }

  /** page holds the entries of row in range, except those left to look at. */
  ghost predicate Collected<T(!new)>(page: seq<(Entity, T)>, row: map<Entity, T>, lo: nat, hi: nat, left: set<Entity>) {
    && Ascends(page)
    && forall p :: p in page <==> InRange(p.0, lo, hi) && p.0 in row && p.0 !in left && row[p.0] == p.1
  }

  lemma Collect<T(!new)>(page: seq<(Entity, T)>, row: map<Entity, T>, lo: nat, hi: nat, left: set<Entity>, e: Entity)
    requires Collected(page, row, lo, hi, left) && e in left && e in row && InRange(e, lo, hi)
    ensures Collected(Insert(page, (e, row[e])), row, lo, hi, left - {e})
  {
    InsertAscends(page, (e, row[e]));
    forall p
      ensures p in Insert(page, (e, row[e])) <==> p in page || p == (e, row[e])
    {
      InsertMembers(page, (e, row[e]), p);
    }
  }

  lemma CollectedAll<T(!new)>(page: seq<(Entity, T)>, row: map<Entity, T>, lo: nat, hi: nat)
    requires Collected(page, row, lo, hi, {}) && hi <= ENTITY_COUNT
    ensures page == Listing(row, lo, hi)
  {
    SortedIsListing(row, lo, hi, page);
  }

  lemma Skip<T(!new)>(page: seq<(Entity, T)>, row: map<Entity, T>, lo: nat, hi: nat, left: set<Entity>, e: Entity)
    requires Collected(page, row, lo, hi, left) && !InRange(e, lo, hi)
    ensures Collected(page, row, lo, hi, left - {e})
  {
  }

  /** The entries of a row in a range, in order. */
  method ReadRange<T(!new)>(row: map<Entity, T>, lo: nat, hi: nat) returns (page: seq<(Entity, T)>)
    requires hi <= ENTITY_COUNT
    ensures page == Listing(row, lo, hi)
  {
    page := [];
    var left := row.Keys;
    while left != {}
      invariant left <= row.Keys && Collected(page, row, lo, hi, left)
      decreases left
    {
      var e :| e in left;
      if InRange(e, lo, hi) {
        Collect(page, row, lo, hi, left, e);
        page := Insert(page, (e, row[e]));
      } else {
        Skip(page, row, lo, hi, left, e);
      }
      left := left - {e};
    }
    CollectedAll(page, row, lo, hi);
  }

  /** One bounded scan, as the store performs it. */
  method ReadPage<T(!new)>(row: map<Entity, T>, r: Range) returns (page: seq<(Entity, T)>)
    ensures page == Page(row, r)
  {
    page := ReadRange(row, Value(r.from), Value(Upper(r)) + 1);
    page := Cut(page, r.limit);
  }

  lemma {:induction false} CutAtLast<T>(m: map<Entity, T>, lo: nat, hi: nat, n: nat)
    requires hi <= ENTITY_COUNT && 0 < n <= |Listing(m, lo, hi)|
    ensures var last := Value(Listing(m, lo, hi)[n - 1].0);
            lo <= last < hi && Listing(m, lo, hi)[..n] == Listing(m, lo, last + 1)
    decreases hi - lo
  {
    if FromValue(lo) !in m {
      CutAtLast(m, lo + 1, hi, n);
    } else if n == 1 {
      assert Listing(m, lo + 1, lo + 1) == [];
    } else {
      CutAtLast(m, lo + 1, hi, n - 1);
      CutBehind((FromValue(lo), m[FromValue(lo)]), Listing(m, lo + 1, hi), n);
    }
  }

  lemma CutBehind<T>(x: T, s: seq<T>, n: nat)
    requires 1 < n <= |s| + 1
    ensures ([x] + s)[..n] == [x] + s[..n - 1] && ([x] + s)[n - 1] == s[n - 2]
  {
  }

  /** A full page ends at some entity, and the rest of the range starts after it. */
  lemma FullPage<T>(row: map<Entity, T>, r: Range)
    requires r.limit >= 1 && |Page(row, r)| >= r.limit
    ensures |Page(row, r)| == r.limit
    ensures var last := Value(Page(row, r)[r.limit - 1].0);
            && Value(r.from) <= last <= Value(Upper(r))
            && Listing(row, Value(r.from), Value(Upper(r)) + 1)
               == Page(row, r) + Listing(row, last + 1, Value(Upper(r)) + 1)
  {
    var lo, hi := Value(r.from), Value(Upper(r)) + 1;
    CutAtLast(row, lo, hi, r.limit);
    var last := Value(Listing(row, lo, hi)[r.limit - 1].0);
    ListingSplit(row, lo, last + 1, hi);
  }

  lemma ResumePoint(r: Range, last: Entity)
    requires Value(r.from) <= Value(last) <= Value(Upper(r))
    ensures var (next, ok) := Resume(r, last);
            if ok then next == r.(from := next.from) && Value(next.from) == Value(last) + 1
            else Value(last) == Value(Upper(r))
  {
    LastValue(last);
  }

  lemma Regroup<T>(a: seq<T>, b: seq<T>, c: seq<T>)
    ensures (a + b) + c == a + (b + c)
  {
  }

  lemma ShortPage<T>(row: map<Entity, T>, r: Range)
    requires |Page(row, r)| < r.limit
    ensures Page(row, r) == Listing(row, Value(r.from), Value(Upper(r)) + 1)
  {
  }

  lemma PageByPage<T>(row: map<Entity, T>, r: Range, all: seq<(Entity, T)>, whole: seq<(Entity, T)>)
    requires r.limit >= 1 && |Page(row, r)| >= r.limit
    requires all + Listing(row, Value(r.from), Value(Upper(r)) + 1) == whole
    ensures var last := Page(row, r)[|Page(row, r)| - 1].0;
            && Value(r.from) <= Value(last) <= Value(Upper(r))
            && all + Page(row, r) + Listing(row, Value(last) + 1, Value(Upper(r)) + 1) == whole
  {
    FullPage(row, r);
    var last := Page(row, r)[|Page(row, r)| - 1].0;
    Regroup(all, Page(row, r), Listing(row, Value(last) + 1, Value(Upper(r)) + 1));
  }

  lemma NothingBeyond<T>(row: map<Entity, T>, lo: nat, all: seq<(Entity, T)>)
    requires lo <= ENTITY_COUNT
    ensures all + Listing(row, lo, lo) == all
  {
  }

  /** Reading a row a page at a time, resuming after the last entity of each page,
      gives the whole row, whatever the page size. */
  method ReadAll<T(!new)>(row: map<Entity, T>, from: Entity, to: Entity, limit: nat) returns (all: seq<(Entity, T)>)
    requires limit >= 1
    ensures all == Page(row, Range(from, to, 0))
  {
    var r := Range(from, to, limit);
    all := [];
    ghost var whole := Page(row, Range(from, to, 0));
    while true
      invariant r.to == to && r.limit == limit
      invariant all + Listing(row, Value(r.from), Value(Upper(r)) + 1) == whole
      decreases ENTITY_COUNT - Value(r.from)
    {
      var page := ReadPage(row, r);
      if |page| < limit {
        ShortPage(row, r);
        all := all + page;
        return;
      }
      PageByPage(row, r, all, whole);
      all := all + page;
      var last := page[|page| - 1].0;
      ResumePoint(r, last);
      var (next, ok) := Resume(r, last);
      if !ok {
        NothingBeyond(row, Value(last) + 1, all);
        return;
      }
      r := next;
    }
  }
}
