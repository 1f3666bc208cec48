/** Replaying the log: the verifier as it runs, and that it accepts exactly the stores
    `Chain.Accepts` describes. */
module Verifier {
  import opened Common
  import opened Bytes
  import opened Entities
  import opened Records
  import opened Listings
  import opened Chain

  // Reading the events.

  function OnlyLinks(rels: seq<(Entity, Record)>): seq<(Entity, Record)> {
    if rels == [] then []
    else OnlyLinks(rels[..|rels| - 1]) + if rels[|rels| - 1].1.kind == KIND_CHAIN_LINK then [rels[|rels| - 1]] else []
  }

  lemma {:induction false} OnlyLinksConcat(a: seq<(Entity, Record)>, b: seq<(Entity, Record)>)
    ensures OnlyLinks(a + b) == OnlyLinks(a) + OnlyLinks(b)
  {
    if b == [] {
      assert a + b == a;
    } else {
      OnlyLinksConcat(a, b[..|b| - 1]);
      assert (a + b)[..|a + b| - 1] == a + b[..|b| - 1];
    }
  }

  lemma ListingStep(m: Relations, lo: nat, hi: nat)
    requires lo < hi <= ENTITY_COUNT
    ensures FromValue(lo) in m ==> Listing(m, lo, hi) == [(FromValue(lo), m[FromValue(lo)])] + Listing(m, lo + 1, hi)
    ensures FromValue(lo) !in m ==> Listing(m, lo, hi) == Listing(m, lo + 1, hi)
  {
  }

  lemma FirstLink(x: (Entity, Record), rest: seq<(Entity, Record)>)
    ensures OnlyLinks([x] + rest) == if x.1.kind == KIND_CHAIN_LINK then [x] + OnlyLinks(rest) else OnlyLinks(rest)
  {
    OnlyLinksConcat([x], rest);
    assert OnlyLinks([x]) == if x.1.kind == KIND_CHAIN_LINK then [x] else [];
  }

  /** Filtering the scan of the anchor is scanning the links. */
  lemma {:induction false} FilteredScan(row: Relations, lo: nat, hi: nat)
    requires 1 <= lo && hi <= ENTITY_COUNT
    ensures OnlyLinks(Listing(row, lo, hi)) == Listing(LinksOf(row), lo, hi)
    decreases hi - lo
  {
    if lo < hi {
      FilteredScan(row, lo + 1, hi);
      var e := FromValue(lo);
      ZeroValue(e);
      ListingStep(row, lo, hi);
      ListingStep(LinksOf(row), lo, hi);
      if e in row { FirstLink((e, row[e]), Listing(row, lo + 1, hi)); }
    }
  }

  method KeepLinks(rels: seq<(Entity, Record)>) returns (links: seq<(Entity, Record)>)
    ensures links == OnlyLinks(rels)
  {
    links := [];
    for i := 0 to |rels|
      invariant links == OnlyLinks(rels[..i])
    {
      assert rels[..i + 1][..i] == rels[..i];
      if rels[i].1.kind == KIND_CHAIN_LINK {
        links := links + [rels[i]];
      }
    }
    assert rels[..|rels|] == rels;
  }

  method ParseAll(links: seq<(Entity, Record)>) returns (r: Option<seq<Event>>)
    ensures r.Some? <==> Parseable(links)
    ensures r.Some? ==> r.value == ParseLinks(links)
  {
    var events := [];
    for i := 0 to |links|
      invariant |events| == i && forall j | 0 <= j < i :: |links[j].1.data| >= LINK_HEAD_LEN
      invariant forall j | 0 <= j < i :: events[j] == ParseLink(links[j].0, links[j].1)
    {
      if |links[i].1.data| < LINK_HEAD_LEN {
        return None;
      }
      events := events + [ParseLink(links[i].0, links[i].1)];
    }
    return Some(events);
  }

  method ReadEvents(env: Env, s: Store) returns (r: Option<seq<Event>>)
    ensures r.Some? <==> LinksParse(env, s)
    ensures r.Some? ==> r.value == Events(env, s)
  {
    var rels := ReadRange(Row(s, Anchor(env)), 1, ENTITY_COUNT);
    FilteredScan(Row(s, Anchor(env)), 1, ENTITY_COUNT);
    var links := KeepLinks(rels);
    r := ParseAll(links);
  }

  // The content of a line.

  predicate IsContent(p: (Entity, Record)) { !IsSentinel(p.0) && p.1.kind != KIND_COUNTERSIGN }

  function OnlyContent(rels: seq<(Entity, Record)>): seq<(Entity, Record)> {
    if rels == [] then []
    else OnlyContent(rels[..|rels| - 1]) + if IsContent(rels[|rels| - 1]) then [rels[|rels| - 1]] else []
  }

  lemma {:induction false} OnlyContentConcat(a: seq<(Entity, Record)>, b: seq<(Entity, Record)>)
    ensures OnlyContent(a + b) == OnlyContent(a) + OnlyContent(b)
  {
    if b == [] {
      assert a + b == a;
    } else {
      OnlyContentConcat(a, b[..|b| - 1]);
      assert (a + b)[..|a + b| - 1] == a + b[..|b| - 1];
    }
  }

  lemma FirstContent(x: (Entity, Record), rest: seq<(Entity, Record)>)
    ensures OnlyContent([x] + rest) == if IsContent(x) then [x] + OnlyContent(rest) else OnlyContent(rest)
  {
    OnlyContentConcat([x], rest);
    assert OnlyContent([x]) == if IsContent(x) then [x] else [];
  }

  lemma {:induction false} ContentScan(row: Relations, lo: nat, hi: nat)
    requires 1 <= lo && hi <= ENTITY_COUNT
    ensures OnlyContent(Listing(row, lo, hi)) == Listing(Content(row), lo, hi)
    decreases hi - lo
  {
    if lo < hi {
      ContentScan(row, lo + 1, hi);
      var e := FromValue(lo);
      ZeroValue(e);
      ListingStep(row, lo, hi);
      ListingStep(Content(row), lo, hi);
      if e in row { FirstContent((e, row[e]), Listing(row, lo + 1, hi)); }
    }
  }

  predicate AllVerified(env: Env, s: Store, line: Entity, rels: seq<(Entity, Record)>) {
    forall j | 0 <= j < |rels| :: Verified(env, s, RelKey(line, rels[j].0), rels[j].1)
  }

  /** A line whose scanned content is verified is verified. */
  lemma ScanVerifies(env: Env, s: Store, line: Entity, content: seq<(Entity, Record)>)
    requires content == Listing(ContentRow(s, line), 1, ENTITY_COUNT)
    ensures AllVerified(env, s, line, content) <==>
            forall b | b in ContentRow(s, line) :: Verified(env, s, RelKey(line, b), ContentRow(s, line)[b])
  {
    var row := ContentRow(s, line);
    if AllVerified(env, s, line, content) {
      forall b | b in row
        ensures Verified(env, s, RelKey(line, b), row[b])
      {
        ZeroValue(b);
        ListingMembers(row, 1, ENTITY_COUNT, b, row[b]);
        var j :| 0 <= j < |content| && content[j] == (b, row[b]);
      }
    }
    if forall b | b in row :: Verified(env, s, RelKey(line, b), row[b]) {
      forall j | 0 <= j < |content|
        ensures Verified(env, s, RelKey(line, content[j].0), content[j].1)
      {
        assert content[j] in content;
        ListingMembers(row, 1, ENTITY_COUNT, content[j].0, content[j].1);
      }
    }
  }

  /** The content among some relations, if every signature on it checks. */
  method KeepContent(env: Env, s: Store, line: Entity,
                     rels: seq<(Entity, Record)>) returns (r: Option<seq<(Entity, Record)>>)
    ensures r.Some? <==> AllVerified(env, s, line, OnlyContent(rels))
    ensures r.Some? ==> r.value == OnlyContent(rels)
  {
    var records := [];
    for i := 0 to |rels|
      invariant records == OnlyContent(rels[..i]) && AllVerified(env, s, line, records)
    {
      assert rels[..i + 1][..i] == rels[..i];
      if IsContent(rels[i]) {
        if !Verified(env, s, RelKey(line, rels[i].0), rels[i].1) {
          BadContent(rels, i);
          return None;
        }
        records := records + [rels[i]];
      }
    }
    assert rels[..|rels|] == rels;
    return Some(records);
  }

  lemma BadContent(rels: seq<(Entity, Record)>, i: nat)
    requires i < |rels| && IsContent(rels[i])
    ensures exists j :: 0 <= j < |OnlyContent(rels)| && OnlyContent(rels)[j] == rels[i]
  {
    assert rels == rels[..i] + ([rels[i]] + rels[i + 1..]);
    OnlyContentConcat(rels[..i], [rels[i]] + rels[i + 1..]);
    FirstContent(rels[i], rels[i + 1..]);
    assert OnlyContent(rels)[|OnlyContent(rels[..i])|] == rels[i];
  }

  /** Reads back the records a line event's digest covers, checking each signature. */
  method LineContent(env: Env, s: Store, line: Entity) returns (r: Option<seq<(Entity, Record)>>)
    ensures r.Some? <==> LineVerified(env, s, line)
    ensures r.Some? ==> Flatten(line, r.value) == ContentBytes(line, ContentRow(s, line))
  {
    if line !in s.decl || !Verified(env, s, DeclKey(line), s.decl[line]) {
      return None;
    }
    var rels := ReadRange(Row(s, line), 1, ENTITY_COUNT);
    ContentScan(Row(s, line), 1, ENTITY_COUNT);
    ScanVerifies(env, s, line, OnlyContent(rels));
    r := KeepContent(env, s, line, rels);
  }

  // Which lines there should be.

  function PageSet(env: Env, page: byte, last: nat): set<Entity>
    requires last <= 255
  {
    set id: byte | 1 <= id <= last :: Line(env, page, id)
  }

  /** Takes the lines of one page out of a set, if they are all there. */
  method TakePage(env: Env, page: byte, last: byte, chained: set<Entity>) returns (ok: bool, left: set<Entity>)
    ensures ok <==> PageSet(env, page, last) <= chained
    ensures ok ==> left == chained - PageSet(env, page, last)
  {
    left := chained;
    var id := 1;
    while id <= last
      invariant 1 <= id <= last + 1 && PageSet(env, page, id - 1) <= chained &&
                left == chained - PageSet(env, page, id - 1)
    {
      var line := Line(env, page, id);
      assert line in PageSet(env, page, last) && line !in PageSet(env, page, id - 1);
      if line !in left {
        return false, left;
      }
      assert PageSet(env, page, id) == PageSet(env, page, id - 1) + {line};
      left := left - {line};
      id := id + 1;
    }
    return true, left;
  }

  predicate Counts(env: Env, s: Store, page: byte) {
    Reached(env, s, page) && CounterParses(s.decl[Counter(env, page, TYPE_ENTRY)])
  }

  function LastOn(env: Env, s: Store, page: byte): byte
    requires Counts(env, s, page)
  {
    LastId(s.decl[Counter(env, page, TYPE_ENTRY)])
  }

  /** The lines handed out on the pages before p. */
  function HandedOutBefore(env: Env, s: Store, p: nat): set<Entity>
    requires p <= 256
  {
    set page: byte, id: byte | 1 <= page < p && Counts(env, s, page) && 1 <= id <= LastOn(env, s, page) ::
      Line(env, page, id)
  }

  lemma OnePageMore(env: Env, s: Store, p: byte)
    requires 1 <= p && Counts(env, s, p)
    ensures HandedOutBefore(env, s, p + 1) == HandedOutBefore(env, s, p) + PageSet(env, p, LastOn(env, s, p))
    ensures HandedOutBefore(env, s, p) !! PageSet(env, p, LastOn(env, s, p))
  {
  }

  ghost predicate CountedTo(env: Env, s: Store, p: nat) {
    forall q: byte | 1 <= q < p :: Counts(env, s, q)
  }

  lemma {:induction false} WalkEnds(env: Env, s: Store, p: nat, q: nat)
    requires 1 <= q <= p <= 256 && (forall r: byte | q <= r < p :: Reached(env, s, r)) &&
             (p < 256 ==> !Reached(env, s, p))
    ensures FirstUnreached(env, s, q) == p
    decreases p - q
  {
    if q < p { WalkEnds(env, s, p, q + 1); }
  }

  /** Where the walk over the pages ends it has seen every line handed out. */
  lemma WalkedAll(env: Env, s: Store, p: nat)
    requires 1 <= p <= 256 && CountedTo(env, s, p) && (p < 256 ==> !Reached(env, s, p))
    ensures CountersParse(env, s) && forall e :: e in HandedOutBefore(env, s, p) <==> Allocated(env, s, e)
  {
    assert forall q: byte | 1 <= q < p :: Counts(env, s, q) && Reached(env, s, q);
    WalkEnds(env, s, p, 1);
    forall q: byte | 1 <= q < p
      ensures Reached(env, s, q) && CounterParses(s.decl[Counter(env, q, TYPE_ENTRY)])
    {
      assert Counts(env, s, q);
    }
    forall e
      ensures e in HandedOutBefore(env, s, p) <==> Allocated(env, s, e)
    {
      if Allocated(env, s, e) {
        assert Counts(env, s, e.page) && e == Line(env, e.page, e.id);
      }
    }
  }

  /** A page with a counter that does not parse stops the walk. */
  lemma UnparsedPage(env: Env, s: Store, p: byte)
    requires 1 <= p && CountedTo(env, s, p) && Reached(env, s, p) && !CounterParses(s.decl[Counter(env, p, TYPE_ENTRY)])
    ensures !CountersParse(env, s)
  {
    assert forall q: byte | 1 <= q < p :: Counts(env, s, q) && Reached(env, s, q);
    assert p < FirstUnreached(env, s, 1);
  }

  lemma MissingLine(env: Env, s: Store, p: byte, line: Entity)
    requires 1 <= p && CountedTo(env, s, p) && Counts(env, s, p) && line in PageSet(env, p, LastOn(env, s, p))
    ensures Allocated(env, s, line)
  {
    assert forall q: byte | 1 <= q < p :: Counts(env, s, q) && Reached(env, s, q);
    assert p < FirstUnreached(env, s, 1);
  }

  /** No line the allocator handed out an id for is missing, and none is there besides. */
  method CheckEveryLineIsChained(env: Env, s: Store, lines: set<Entity>) returns (ok: bool)
    ensures ok <==> CountersParse(env, s) && forall e :: e in lines <==> Allocated(env, s, e)
  {
    var chained := lines;
    var page := 1;
    while page <= 255 && Reached(env, s, page)
      invariant 1 <= page <= 256 && CountedTo(env, s, page)
      invariant HandedOutBefore(env, s, page) <= lines && chained == lines - HandedOutBefore(env, s, page)
    {
      if !CounterParses(s.decl[Counter(env, page, TYPE_ENTRY)]) {
        UnparsedPage(env, s, page);
        return false;
      }
      OnePageMore(env, s, page);
      var all, left := TakePage(env, page, LastOn(env, s, page), chained);
      if !all {
        var line :| line in PageSet(env, page, LastOn(env, s, page)) && line !in chained;
        MissingLine(env, s, page, line);
        return false;
      }
      chained := left;
      page := page + 1;
    }
    WalkedAll(env, s, page);
    ghost var out := HandedOutBefore(env, s, page);
    LeftOver(lines, out, chained);
    return chained == {};
  }

  lemma LeftOver(all: set<Entity>, some: set<Entity>, rest: set<Entity>)
    requires some <= all && rest == all - some
    ensures rest == {} <==> all == some
    ensures rest != {} ==> exists e :: e in all && e !in some
  {
    if rest == {} {
      forall e | e in all
        ensures e in some
      {
        assert e !in rest;
      }
    } else {
      var e :| e in rest;
    }
  }

  // The events, one after the other.

  method CheckEvent(env: Env, s: Store, previous: seq<byte>, no: nat, e: Event) returns (ok: bool)
    ensures ok <==> Sound(env, s, previous, no, e)
  {
    if e.no != no || no >= ENTITY_COUNT {
      return false;
    }
    EntityAtIsFromValue(no);
    if !Verified(env, s, RelKey(Anchor(env), EntityAt(no)), e.link) {
      return false;
    }
    var content: seq<byte>;
    if e.tag == EVENT_LINE {
      var records := LineContent(env, s, e.subject);
      if records.None? {
        return false;
      }
      content := Flatten(e.subject, records.value);
    } else if MutableTag(e.tag) {
      content := e.tail;
    } else {
      var record := Lookup(s, e.subject, e.party);
      if record.None? || !Verified(env, s, RelKey(e.subject, e.party), record.value) {
        return false;
      }
      content := Encode(record.value);
    }
    return e.digest == env.hash(Preimage(previous, no, e.tag, EventKey(e), content));
  }

  /** Every record the last rename or vocabulary event was about is as that event left it. */
  method CheckMutableState(env: Env, s: Store, latest: map<Key, Event>) returns (ok: bool)
    ensures ok <==> forall k | k in latest :: StateMatches(env, s, latest[k])
  {
    var left := latest.Keys;
    while left != {}
      invariant left <= latest.Keys && forall k | k in latest && k !in left :: StateMatches(env, s, latest[k])
      decreases left
    {
      var k :| k in left;
      if !StateMatches(env, s, latest[k]) {
        return false;
      }
      left := left - {k};
    }
    return true;
  }

  method LinesOf(es: seq<Event>) returns (lines: set<Entity>)
    ensures lines == LineSubjects(es)
  {
    lines := {};
    for i := 0 to |es|
      invariant lines == LineSubjects(es[..i])
    {
      assert es[..i + 1] == es[..i] + [es[i]];
      LineSubjectsMore(es[..i], es[i]);
      if es[i].tag == EVENT_LINE {
        lines := lines + {es[i].subject};
      }
    }
    assert es[..|es|] == es;
  }

  lemma LineSubjectsMore(es: seq<Event>, e: Event)
    ensures LineSubjects(es + [e]) == LineSubjects(es) + if e.tag == EVENT_LINE then {e.subject} else {}
  {
    forall x | x in LineSubjects(es)
      ensures x in LineSubjects(es + [e])
    {
      var f :| f in es && f.tag == EVENT_LINE && f.subject == x;
      assert f in es + [e];
    }
    assert e in es + [e];
  }

  /** Replays the events in order; `checked` of them are sound. */
  method Replay(env: Env, s: Store, es: seq<Event>) returns (ok: bool, checked: nat, last: seq<byte>,
                                                             latest: map<Key, Event>)
    ensures checked <= |es| && forall j: nat | j < checked :: EventGood(env, s, es, j)
    ensures ok <==> checked == |es|
    ensures !ok ==> checked < |es| && !EventGood(env, s, es, checked)
    ensures ok ==> last == Previous(es, |es|) && latest == Latest(es)
  {
    last, latest, checked := GENESIS, map[], 0;
    while checked < |es|
      invariant checked <= |es| && forall j: nat | j < checked :: EventGood(env, s, es, j)
      invariant last == Previous(es, checked) && latest == Latest(es[..checked])
    {
      var e := es[checked];
      var sound := CheckEvent(env, s, last, checked + 1, e);
      assert sound <==> EventGood(env, s, es, checked);
      if !sound {
        return false, checked, last, latest;
      }
      assert es[..checked + 1][..checked] == es[..checked];
      if MutableTag(e.tag) {
        latest := latest[RelKey(e.subject, e.party) := e];
      }
      last := e.digest;
      checked := checked + 1;
    }
    assert es[..checked] == es;
    ok := true;
  }

  /** Replays the whole log.  It accepts exactly the logs `Accepts` describes; and when
      it stops early, every event it counted is sound. */
  method VerifyChain(env: Env, s: Store) returns (ok: bool, checked: nat)
    ensures ok <==> Accepts(env, s)
    ensures ok ==> checked == |Events(env, s)|
    ensures checked > 0 ==> LinksParse(env, s) && checked <= |Events(env, s)|
                            && forall j: nat | j < checked :: EventGood(env, s, Events(env, s), j)
  {
    var read := ReadEvents(env, s);
    if read.None? {
      return false, 0;
    }
    var es := read.value;
    if Head(env) !in s.decl {
      return es == [], 0;
    }
    var head := s.decl[Head(env)].data;
    if |head| != HEAD_LEN {
      return false, 0;
    }
    var lines := LinesOf(es);
    var chained := CheckEveryLineIsChained(env, s, lines);
    if !chained {
      return false, 0;
    }
    var replayed, n, last, latest := Replay(env, s, es);
    if !replayed {
      return false, n;
    }
    if |es| != Number(head[DIGEST_LEN..]) || last != head[..DIGEST_LEN] {
      return false, n;
    }
    var matches := CheckMutableState(env, s, latest);
    return matches, n;
  }
}
