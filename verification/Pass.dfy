/** The loops of the scheduler: the preview of an expression's fires, and one pass over a
    schedule, which is a run of the cluster machine. */
module Pass {
  import opened Common
  import opened CronSpec
  import opened Scheduler
  import opened Runs

  /** The first few fires after a minute: exactly the minutes that match, in order, up to
      the last one given; fewer than asked only where the search gives up. */
  method NextFires(spec: Spec, from: int, count: int) returns (fires: seq<int>)
    ensures |fires| <= if count < 0 then 0 else count
    ensures forall a, b | 0 <= a < b < |fires| :: fires[a] < fires[b]
    ensures forall x | from < x <= Last(from, fires) :: Match(spec, x) <==> x in fires
    ensures forall x | x in fires :: from < x
    ensures |fires| < count ==> NextFire(spec, Last(from, fires)).None?
  {
    fires := [];
    var cursor := from;
    while |fires| < count
      invariant |fires| <= if count < 0 then 0 else count
      invariant cursor == Last(from, fires) && from <= cursor
      invariant forall a, b | 0 <= a < b < |fires| :: fires[a] < fires[b]
      invariant forall x | from < x <= cursor :: Match(spec, x) <==> x in fires
      invariant forall x | x in fires :: from < x <= cursor
      decreases count - |fires|
    {
      var fire := Next(spec, cursor);
      if fire.None? { break; }
      fires := fires + [fire.value];
      cursor := fire.value;
    }
  }

  function Last(from: int, fires: seq<int>): int { if fires == [] then from else fires[|fires| - 1] }

  // One pass over one schedule.

  /** Which accesses of the pass fail, by minute where there are several; a claim that
      fails may have reached the store all the same. */
  datatype Faults = Faults(claim: int -> bool, reached: int -> bool, submit: int -> bool, record: int -> bool,
                           mark: bool)

  /** What the pass has written: watermarks, claim keys and submissions. */
  datatype Written = Written(marks: map<Id, int>, claims: set<Fire>, submitted: seq<Fire>)

  predicate Agrees(st: Cluster, w: Written) {
    st.marks == w.marks && st.claims == w.claims && st.submitted == w.submitted
  }

  /** What the process does next, given which of its accesses fail. */
  predicate Meant(st: Cluster, i: Name, faults: Faults, a: Action) {
    var pc := At(st, i).pc;
    match a
    case ReadMark(j) => j == i
    case Claim(j) => j == i && pc.Firing? && DueMinute(pc).Some? && !faults.claim(DueMinute(pc).value)
    case ClaimFails(j, applied) =>
      && j == i && pc.Firing? && DueMinute(pc).Some?
      && faults.claim(DueMinute(pc).value) && applied == faults.reached(DueMinute(pc).value)
    case Submit(j, ok, recorded) =>
      j == i && pc.Won? && ok == !faults.submit(pc.minute) && recorded == (ok && !faults.record(pc.minute))
    case StopFiring(j) => j == i
    case PutMark(j, ok) => j == i && ok == !faults.mark
    case _ => false
  }

  /** Nothing but what one process does. */
  function Alone(i: Name, faults: Faults): Rule { (st, a) => Meant(st, i, faults, a) }

  /** The machine got from st to where the pass is, at this point of its program. */
  ghost predicate Got(c: Config, st: Cluster, faults: Faults, run: seq<Action>, i: Name, w: Written, pc: Pc) {
    && Legal(c, st, run) && Obeys(c, st, run, Alone(i, faults))
    && Agrees(Exec(c, st, run), w) && At(Exec(c, st, run), i).pc == pc
  }

  lemma Step(c: Config, st: Cluster, faults: Faults, run: seq<Action>, i: Name, w: Written, pc: Pc, a: Action,
             w': Written, pc': Pc)
    requires Got(c, st, faults, run, i, w, pc)
    requires Enabled(c, Exec(c, st, run), a) && Meant(Exec(c, st, run), i, faults, a)
    requires Agrees(Do(c, Exec(c, st, run), a), w') && At(Do(c, Exec(c, st, run), a), i).pc == pc'
    ensures Got(c, st, faults, run + [a], i, w', pc')
  {
    Then(c, st, run, a, Alone(i, faults));
  }

  /** Where reading the watermark leads. */
  function Seen(c: Config, w: Written, now: int, todo: seq<Due>, due: Due): Pc {
    if due.id in w.marks then Firing(now, todo, due, Window(c, now, w.marks[due.id]), 0)
      else Marking(now, todo, due, now, true)
  }

  lemma Looked(c: Config, st: Cluster, faults: Faults, i: Name, w: Written, now: int, todo: seq<Due>, due: Due)
    requires Agrees(st, w) && At(st, i).pc == Between(now, [due] + todo)
    ensures Got(c, st, faults, [ReadMark(i)], i, w,
                Seen(c, w, now, todo, due))
  {
    assert ([due] + todo)[1..] == todo;
    var none: seq<Action> := [];
    assert none + [ReadMark(i)] == [ReadMark(i)];
    Step(c, st, faults, none, i, w, Between(now, [due] + todo), ReadMark(i), w,
         Seen(c, w, now, todo, due));
  }

  /** The fire the pass is about to claim. */
  ghost predicate Facing(c: Config, st: Cluster, faults: Faults, run: seq<Action>, i: Name, w: Written, pc: Pc,
                         minute: int) {
    Got(c, st, faults, run, i, w, pc) && pc.Firing? && DueMinute(pc) == Some(minute)
  }

  function Fired(pc: Pc, minute: int): Pc
    requires pc.Firing?
  {
    Firing(pc.now, pc.todo, pc.due, minute * MINUTE, pc.fired + 1)
  }

  function Holding(pc: Pc, minute: int): Pc
    requires pc.Firing?
  {
    Won(pc.now, pc.todo, pc.due, minute, pc.fired)
  }

  function GaveUp(pc: Pc, minute: int): Pc
    requires pc.Firing?
  {
    Marking(pc.now, pc.todo, pc.due, (minute - 1) * MINUTE, false)
  }

  /** The claims after a claim that failed. */
  function Erred(faults: Faults, w: Written, f: Fire): Written {
    if faults.reached(f.minute) then w.(claims := w.claims + {f}) else w
  }

  lemma ClaimErred(c: Config, st: Cluster, faults: Faults, run: seq<Action>, i: Name, w: Written, pc: Pc, minute: int)
    requires Facing(c, st, faults, run, i, w, pc, minute) && faults.claim(minute)
    ensures Got(c, st, faults, run + [ClaimFails(i, faults.reached(minute))], i,
                Erred(faults, w, Fire(pc.due.id, minute)),
                GaveUp(pc, minute))
  {
    var f := Fire(pc.due.id, minute);
    assert f in w.claims ==> w.claims + {f} == w.claims;
    Step(c, st, faults, run, i, w, pc, ClaimFails(i, faults.reached(minute)), Erred(faults, w, f), GaveUp(pc, minute));
  }

  lemma ClaimLost(c: Config, st: Cluster, faults: Faults, run: seq<Action>, i: Name, w: Written, pc: Pc, minute: int)
    requires Facing(c, st, faults, run, i, w, pc, minute) && !faults.claim(minute) &&
             Fire(pc.due.id, minute) in w.claims
    ensures Got(c, st, faults, run + [Claim(i)], i, w, Fired(pc, minute))
  {
    Step(c, st, faults, run, i, w, pc, Claim(i), w, Fired(pc, minute));
  }

  lemma ClaimWon(c: Config, st: Cluster, faults: Faults, run: seq<Action>, i: Name, w: Written, pc: Pc, minute: int)
    requires Facing(c, st, faults, run, i, w, pc, minute) && !faults.claim(minute) &&
             Fire(pc.due.id, minute) !in w.claims
    ensures Got(c, st, faults, run + [Claim(i)], i, w.(claims := w.claims + {Fire(pc.due.id, minute)}),
                Holding(pc, minute))
  {
    Step(c, st, faults, run, i, w, pc, Claim(i), w.(claims := w.claims + {Fire(pc.due.id, minute)}),
         Holding(pc, minute));
  }

  lemma Sent(c: Config, st: Cluster, faults: Faults, run: seq<Action>, i: Name, w: Written, pc: Pc, minute: int)
    requires pc.Firing? && Got(c, st, faults, run, i, w, Holding(pc, minute)) && Fire(pc.due.id, minute) in w.claims
    ensures var ok := !faults.submit(minute);
            Got(c, st, faults, run + [Submit(i, ok, ok && !faults.record(minute))], i,
                w.(submitted := w.submitted + [Fire(pc.due.id, minute)]),
                if ok then Fired(pc, minute) else GaveUp(pc, minute))
  {
    var f, ok := Fire(pc.due.id, minute), !faults.submit(minute);
    assert w.claims + {f} == w.claims;
    Step(c, st, faults, run, i, w, Holding(pc, minute), Submit(i, ok, ok && !faults.record(minute)),
         w.(submitted := w.submitted + [f]),
         if ok then Fired(pc, minute) else GaveUp(pc, minute));
  }

  lemma Stopped(c: Config, st: Cluster, faults: Faults, run: seq<Action>, i: Name, w: Written, pc: Pc)
    requires Got(c, st, faults, run, i, w, pc) && pc.Firing? && DueMinute(pc).None?
    ensures Got(c, st, faults, run + [StopFiring(i)], i, w,
                Marking(pc.now, pc.todo, pc.due, if pc.fired >= MAX_FIRES_PER_TICK then pc.cursor else pc.now, false))
  {
    Step(c, st, faults, run, i, w, pc, StopFiring(i), w,
         Marking(pc.now, pc.todo, pc.due, if pc.fired >= MAX_FIRES_PER_TICK then pc.cursor else pc.now, false));
  }

  /** Only one fire may have been claimed, and it was submitted only if the claim was new. */
  predicate Deals(w: Written, w': Written, f: Fire) {
    && w'.marks == w.marks && (w'.claims == w.claims || w'.claims == w.claims + {f})
    && (w'.submitted == w.submitted || (w'.submitted == w.submitted + [f] && f !in w.claims && f in w'.claims))
  }

  /** What was submitted between was claimed between. */
  predicate DealsAll(w: Written, w': Written) {
    && w'.marks == w.marks && w.claims <= w'.claims && w.submitted <= w'.submitted
    && forall k | |w.submitted| <= k < |w'.submitted| :: w'.submitted[k] in w'.claims - w.claims
  }

  lemma DealsOneMore(w: Written, w': Written, w'': Written, f: Fire)
    requires DealsAll(w, w') && Deals(w', w'', f)
    ensures DealsAll(w, w'') && |w''.submitted| <= |w'.submitted| + 1
  {
  }

  /** Claim one fire and submit it if the claim was won. */
  method FireOne(ghost c: Config, ghost st: Cluster, ghost run: seq<Action>, ghost i: Name, ghost pc: Pc,
                 faults: Faults, w: Written, due: Due, minute: int)
    returns (w': Written, ok: bool, ghost run': seq<Action>)
    requires Facing(c, st, faults, run, i, w, pc, minute) && pc.due == due
    ensures Got(c, st, faults, run', i, w', if ok then Fired(pc, minute) else GaveUp(pc, minute))
    ensures Deals(w, w', Fire(due.id, minute)) && (ok ==> Fire(due.id, minute) in w'.claims)
  {
    var f := Fire(due.id, minute);
    if faults.claim(minute) {
      ClaimErred(c, st, faults, run, i, w, pc, minute);
      return Erred(faults, w, f), false, run + [ClaimFails(i, faults.reached(minute))];
    }
    if f in w.claims {
      ClaimLost(c, st, faults, run, i, w, pc, minute);
      return w, true, run + [Claim(i)];
    }
    w' := w.(claims := w.claims + {f});
    ClaimWon(c, st, faults, run, i, w, pc, minute);
    ok := !faults.submit(minute);
    Sent(c, st, faults, run + [Claim(i)], i, w', pc, minute);
    w' := w'.(submitted := w'.submitted + [f]);
    run' := run + [Claim(i)] + [Submit(i, ok, ok && !faults.record(minute))];
  }

  /** Put the watermark, which may fail. */
  method MarkAt(ghost c: Config, ghost st: Cluster, ghost run: seq<Action>, ghost i: Name, ghost todo: seq<Due>,
                ghost first: bool, faults: Faults, w: Written, due: Due, now: int, at: int)
    returns (w': Written, ghost run': seq<Action>)
    requires Got(c, st, faults, run, i, w, Marking(now, todo, due, at, first))
    ensures Got(c, st, faults, run', i, w', Between(now, todo))
  {
    w' := if faults.mark then w else w.(marks := w.marks[due.id := Truncate(at)]);
    run' := run + [PutMark(i, !faults.mark)];
    Step(c, st, faults, run, i, w, Marking(now, todo, due, at, first), PutMark(i, !faults.mark), w',
         Between(now, todo));
  }

  /** Where the pass over a schedule with a watermark begins: at the watermark, or at the
      end of the catch-up window nearest to it. */
  method Begin(c: Config, mark: int, now: int) returns (from: int)
    ensures now - CatchUp(c) <= from <= now
    ensures now - CatchUp(c) <= mark <= now ==> from == mark
    ensures mark > now ==> from == now
    ensures mark < now - CatchUp(c) ==> from == now - CatchUp(c)
  {
    from := if mark > now then now else mark;
    var stale := now - CatchUp(c);
    if from < stale { from := stale; }
  }

  lemma BeginsAtWindow(c: Config, mark: int, now: int, from: int)
    requires now - CatchUp(c) <= from <= now && (now - CatchUp(c) <= mark <= now ==> from == mark)
    requires (mark > now ==> from == now) && (mark < now - CatchUp(c) ==> from == now - CatchUp(c))
    ensures from == Window(c, now, mark)
  {
  }

  /** Every fire of a schedule in the window that ends now, and where the watermark goes. */
  method FireWindow(ghost c: Config, ghost st: Cluster, ghost run: seq<Action>, ghost i: Name, ghost todo: seq<Due>,
                    faults: Faults, w: Written, due: Due, now: int, from: int)
    returns (w': Written, at: int, ghost run': seq<Action>)
    requires Got(c, st, faults, run, i, w, Firing(now, todo, due, from, 0))
    ensures Got(c, st, faults, run', i, w', Marking(now, todo, due, at, false))
    ensures DealsAll(w, w') && |w'.submitted| <= |w.submitted| + MAX_FIRES_PER_TICK
  {
    var cursor, fired := from, 0;
    w', at, run' := w, now, run;
    while fired < MAX_FIRES_PER_TICK
      invariant 0 <= fired <= MAX_FIRES_PER_TICK &&
                Got(c, st, faults, run', i, w', Firing(now, todo, due, cursor, fired))
      invariant at == if fired == MAX_FIRES_PER_TICK then cursor else now
      invariant DealsAll(w, w') && |w'.submitted| <= |w.submitted| + fired
    {
      var fire := Next(due.spec, cursor / MINUTE);
      if fire.None? || fire.value * MINUTE > now { break; }
      var ok: bool;
      ghost var before := w';
      w', ok, run' := FireOne(c, st, run', i, Firing(now, todo, due, cursor, fired), faults, w', due, fire.value);
      DealsOneMore(w, before, w', Fire(due.id, fire.value));
      if !ok {
        at := (fire.value - 1) * MINUTE;
        return;
      }
      cursor := fire.value * MINUTE;
      if fired == MAX_FIRES_PER_TICK - 1 { at := cursor; }
      fired := fired + 1;
    }
    Stopped(c, st, faults, run', i, w', Firing(now, todo, due, cursor, fired));
    run' := run' + [StopFiring(i)];
  }

  /** One pass over a schedule, then its watermark: the run of the machine this process
      makes alone, with the same claims, submissions and watermark. */
  method RunSchedule(c: Config, ghost st: Cluster, ghost i: Name, ghost todo: seq<Due>, faults: Faults, w: Written,
                     due: Due, now: int)
    returns (w': Written)
    requires Agrees(st, w) && At(st, i).pc == Between(now, [due] + todo)
    ensures exists run :: Got(c, st, faults, run, i, w', Between(now, todo))
  {
    Looked(c, st, faults, i, w, now, todo, due);
    ghost var run: seq<Action> := [ReadMark(i)];
    if due.id !in w.marks {
      w', run := MarkAt(c, st, run, i, todo, true, faults, w, due, now, now);
      return;
    }
    var from := Begin(c, w.marks[due.id], now);
    BeginsAtWindow(c, w.marks[due.id], now, from);
    var at: int;
    w', at, run := FireWindow(c, st, run, i, todo, faults, w, due, now, from);
    w', run := MarkAt(c, st, run, i, todo, false, faults, w', due, now, at);
  }
}
