/** The search for the next free entity of a type, page after page. */
module Allocator {
  import opened Bytes
  import opened Entities
  import opened Records
  import opened Chain
  import opened Book

  datatype Found =
    | Slot(e: Entity)
    | Full
    | BadCounter(page: byte)
    | Reserved

  /** Nothing to hand out on the pages before one, and their counters read well. */
  ghost predicate PassedOver(env: Env, s: Store, typ: byte, from: byte, page: nat) {
    forall p: byte | from <= p < page :: CounterReads(env, s, p, typ) && SlotOn(env, s, p, typ) == 0
  }

  predicate CounterReads(env: Env, s: Store, page: byte, typ: byte) {
    Counter(env, page, typ) in s.decl ==> CounterParses(s.decl[Counter(env, page, typ)])
  }

  /** Over ids that were declared by hand; 0 if none is left. */
  method SkipTaken(env: Env, s: Store, page: byte, typ: byte, start: byte) returns (id: byte)
    requires start != 0
    ensures var free := FirstFree(env, s, page, typ, start); id == if free == 256 then 0 else free
  {
    var next: nat := start;
    while next < 256 && Entity(env.log, page, typ, next) in s.decl
      invariant start <= next <= 256
      invariant FirstFree(env, s, page, typ, next) == FirstFree(env, s, page, typ, start)
    {
      next := next + 1;
    }
    return if next == 256 then 0 else next;
  }

  /** What the allocator tries on one page; 0 to move on. */
  method TryPage(env: Env, s: Store, page: byte, typ: byte) returns (id: byte)
    requires CounterReads(env, s, page, typ)
    ensures id == SlotOn(env, s, page, typ)
  {
    var counter := Counter(env, page, typ);
    var next: byte := 1;
    if counter in s.decl {
      if IsClosed(s.decl[counter]) { return 0; }
      next := s.decl[counter].data[0];
      if next == 0 { return 0; }
    }
    id := SkipTaken(env, s, page, typ, next);
  }

  /** The first entity the counters leave free from a page on, or why there is none. */
  method FindSlot(env: Env, s: Store, page: byte, typ: byte) returns (r: Found)
    ensures r.Reserved? <==> typ == 0 || typ == TYPE_ALLOCATOR
    ensures r.Slot? ==>
              r.e.typ == typ && r.e !in s.decl && IsSlot(env, s, page, r.e) && PassedOver(env, s, typ, page, r.e.page)
    ensures r.Full? ==> PassedOver(env, s, typ, page, 256)
    ensures r.BadCounter? ==>
              page <= r.page && !CounterReads(env, s, r.page, typ) && PassedOver(env, s, typ, page, r.page)
  {
    if typ == 0 || typ == TYPE_ALLOCATOR { return Reserved; }
    for p := page as int to 256
      invariant PassedOver(env, s, typ, page, p)
    {
      var counter := Counter(env, p, typ);
      if counter in s.decl && !CounterParses(s.decl[counter]) { return BadCounter(p); }
      var id := TryPage(env, s, p, typ);
      if id != 0 { return Slot(Entity(env.log, p, typ, id)); }
    }
    return Full;
  }
}
