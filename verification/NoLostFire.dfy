/** No fire is passed over silently: whatever a watermark has moved past was
    claimed, or was older than the catch-up window of some pass. */
module NoLostFire {
  import opened Common
  import opened Calendar
  import opened CronSpec
  import Horizon
  import opened Scheduler
  import opened Runs

  type Specs = map<Id, Spec>

  /** The expression of a schedule never changes. */
  predicate Fixed(specs: Specs, a: Action) {
    a.PutSchedule? ==> a.id in specs && a.schedule.spec == specs[a.id]
  }

  function FixedTo(specs: Specs): Rule { (_, a) => Fixed(specs, a) }

  /** The search never gives up on a fire within the catch-up window: the expression is
      not confined to 29 February, or the window is not longer than the least distance
      from where a search gives up to the fire it missed. */
  ghost predicate HorizonSafe(c: Config, s: Spec) {
    !Horizon.LeapDayOnly(s) || CatchUp(c) <= Horizon.LeapWindow(s) * MINUTE
  }

  ghost predicate WithinHorizon(c: Config, specs: Specs) {
    forall id | id in specs :: HorizonSafe(c, specs[id])
  }

  ghost predicate Covered(c: Config, st: Cluster, f: Fire) {
    f in st.won || exists t :: (f.id, t) in st.looked && Instant(f) <= t - CatchUp(c)
  }

  /** Every admitted minute of the schedule after its base and up to t is covered. */
  ghost predicate CoveredUpTo(c: Config, specs: Specs, st: Cluster, id: Id, t: int) {
    && id in specs && id in st.base
    && forall m | Match(specs[id], m) && st.base[id] < m * MINUTE <= t :: Covered(c, st, Fire(id, m))
  }

  ghost predicate PcOk(c: Config, specs: Specs, st: Cluster, pc: Pc) {
    && (pc.Between? || pc.Firing? || pc.Won? || pc.Marking? ==>
          forall d | d in pc.todo :: d.id in specs && d.spec == specs[d.id])
    && (pc.Firing? || pc.Won? || pc.Marking? ==> pc.due.id in specs && pc.due.spec == specs[pc.due.id])
    && match pc
       case Firing(now, _, due, cursor, _) => now - CatchUp(c) <= cursor && CoveredUpTo(c, specs, st, due.id, cursor)
       case Won(now, _, due, minute, _) =>
         && now - CatchUp(c) <= minute * MINUTE && Fire(due.id, minute) in st.won
         && CoveredUpTo(c, specs, st, due.id, minute * MINUTE)
       case Marking(_, _, due, at, first) => !first ==> CoveredUpTo(c, specs, st, due.id, at)
       case _ => true
  }

  ghost predicate Inv(c: Config, specs: Specs, st: Cluster) {
    && st.claims <= st.won
    && (forall id | id in st.schedules :: id in specs && st.schedules[id].spec == specs[id])
    && (forall id | id in st.marks :: CoveredUpTo(c, specs, st, id, st.marks[id]))
    && (forall i | i in st.locals :: PcOk(c, specs, st, st.locals[i].pc))
  }

  // What is covered stays covered.

  predicate Grows(st: Cluster, st': Cluster) {
    && st.won <= st'.won && st.looked <= st'.looked
    && forall id | id in st.base :: id in st'.base && st.base[id] <= st'.base[id]
  }

  lemma StaysCovered(c: Config, st: Cluster, st': Cluster, f: Fire)
    requires Grows(st, st') && Covered(c, st, f)
    ensures Covered(c, st', f)
  {
    if f !in st.won {
      var t :| (f.id, t) in st.looked && Instant(f) <= t - CatchUp(c);
      assert (f.id, t) in st'.looked;
    }
  }

  lemma StaysCoveredUpTo(c: Config, specs: Specs, st: Cluster, st': Cluster, id: Id, t: int)
    requires Grows(st, st') && CoveredUpTo(c, specs, st, id, t)
    ensures CoveredUpTo(c, specs, st', id, t)
  {
    forall m | Match(specs[id], m) && st'.base[id] < m * MINUTE <= t
      ensures Covered(c, st', Fire(id, m))
    {
      StaysCovered(c, st, st', Fire(id, m));
    }
  }

  lemma StaysOk(c: Config, specs: Specs, st: Cluster, st': Cluster, pc: Pc)
    requires Grows(st, st') && PcOk(c, specs, st, pc)
    ensures PcOk(c, specs, st', pc)
  {
    match pc
    case Firing(_, _, due, cursor, _) => StaysCoveredUpTo(c, specs, st, st', due.id, cursor);
    case Won(_, _, due, minute, _) => StaysCoveredUpTo(c, specs, st, st', due.id, minute * MINUTE);
    case Marking(_, _, due, at, first) => if !first { StaysCoveredUpTo(c, specs, st, st', due.id, at); }
    case _ =>
  }

  /** One scheduler moves; schedules and watermarks stay within what is covered. */
  lemma Move(c: Config, specs: Specs, st: Cluster, st': Cluster, i: Name, l: Local)
    requires Inv(c, specs, st) && Grows(st, st')
    requires st'.claims <= st'.won && st'.schedules == st.schedules
    requires st'.locals == st.locals[i := l] && PcOk(c, specs, st', l.pc)
    requires forall id | id in st'.marks ::
             (id in st.marks && st'.marks[id] == st.marks[id]) || CoveredUpTo(c, specs, st', id, st'.marks[id])
    ensures Inv(c, specs, st')
  {
    forall id | id in st'.marks
      ensures CoveredUpTo(c, specs, st', id, st'.marks[id])
    {
      if id in st.marks && st'.marks[id] == st.marks[id] {
        StaysCoveredUpTo(c, specs, st, st', id, st.marks[id]);
      }
    }
    forall j | j in st'.locals
      ensures PcOk(c, specs, st', st'.locals[j].pc)
    {
      if j != i { StaysOk(c, specs, st, st', st.locals[j].pc); }
    }
  }

  // The steps that move a cursor or a watermark.

  lemma Extend(c: Config, specs: Specs, st: Cluster, id: Id, t: int, t': int)
    requires CoveredUpTo(c, specs, st, id, t)
    requires forall m | Match(specs[id], m) && t < m * MINUTE <= t' :: Covered(c, st, Fire(id, m))
    ensures CoveredUpTo(c, specs, st, id, t')
  {
  }

  lemma StepReadMark(c: Config, specs: Specs, st: Cluster, i: Name)
    requires Inv(c, specs, st) && Enabled(c, st, ReadMark(i))
    ensures Inv(c, specs, DoReadMark(c, st, i))
  {
    var pc := At(st, i).pc;
    var id := pc.todo[0].id;
    var st' := DoReadMark(c, st, i);
    assert PcOk(c, specs, st, pc);
    if id in st.marks {
      var cursor := Window(c, pc.now, st.marks[id]);
      StaysCoveredUpTo(c, specs, st, st', id, st.marks[id]);
      forall m | Match(specs[id], m) && st.marks[id] < m * MINUTE <= cursor
        ensures Covered(c, st', Fire(id, m))
      {
        assert (id, pc.now) in st'.looked;
      }
      Extend(c, specs, st', id, st.marks[id], cursor);
    }
    Move(c, specs, st, st', i, st'.locals[i]);
  }

  /** Between the cursor and the next due minute there is nothing to fire. */
  lemma GapBeforeDue(pc: Pc, m: int, x: int)
    requires pc.Firing? && DueMinute(pc) == Some(m)
    requires pc.cursor < x * MINUTE && x < m
    ensures !Match(pc.due.spec, x)
  {
    MinuteAfter(pc.cursor, x);
    assert NextFire(pc.due.spec, pc.cursor / MINUTE) == Some(m);
  }

  lemma BeforeDue(c: Config, specs: Specs, st: Cluster, pc: Pc, m: int)
    requires PcOk(c, specs, st, pc) && pc.Firing? && DueMinute(pc) == Some(m)
    ensures CoveredUpTo(c, specs, st, pc.due.id, (m - 1) * MINUTE)
  {
    forall x | pc.cursor < x * MINUTE <= (m - 1) * MINUTE
      ensures !Match(specs[pc.due.id], x)
    {
      MinuteOrder(m - 1, x);
      GapBeforeDue(pc, m, x);
    }
    Extend(c, specs, st, pc.due.id, pc.cursor, (m - 1) * MINUTE);
  }

  lemma AtDue(c: Config, specs: Specs, st: Cluster, id: Id, m: int)
    requires CoveredUpTo(c, specs, st, id, (m - 1) * MINUTE) && Fire(id, m) in st.won
    ensures CoveredUpTo(c, specs, st, id, m * MINUTE)
  {
    forall x | Match(specs[id], x) && (m - 1) * MINUTE < x * MINUTE <= m * MINUTE
      ensures Covered(c, st, Fire(id, x))
    {
      MinuteOrder(m - 1, x);
      MinuteOrder(m, x);
      assert x == m;
    }
    Extend(c, specs, st, id, (m - 1) * MINUTE, m * MINUTE);
  }

  lemma UpToDue(c: Config, specs: Specs, st: Cluster, pc: Pc, m: int)
    requires PcOk(c, specs, st, pc) && pc.Firing? && DueMinute(pc) == Some(m)
    ensures CoveredUpTo(c, specs, st, pc.due.id, (m - 1) * MINUTE)
    ensures Fire(pc.due.id, m) in st.won ==> CoveredUpTo(c, specs, st, pc.due.id, m * MINUTE)
  {
    BeforeDue(c, specs, st, pc, m);
    if Fire(pc.due.id, m) in st.won {
      AtDue(c, specs, st, pc.due.id, m);
    }
  }

  lemma StepClaim(c: Config, specs: Specs, st: Cluster, i: Name)
    requires Inv(c, specs, st) && Enabled(c, st, Claim(i))
    ensures Inv(c, specs, DoClaim(st, i))
  {
    var pc := At(st, i).pc;
    var m := DueMinute(pc).value;
    var st' := DoClaim(st, i);
    assert Fire(pc.due.id, m) in st'.won;
    StaysOk(c, specs, st, st', pc);
    UpToDue(c, specs, st', pc, m);
    Move(c, specs, st, st', i, st'.locals[i]);
  }

  lemma StepClaimFails(c: Config, specs: Specs, st: Cluster, i: Name, applied: bool)
    requires Inv(c, specs, st) && Enabled(c, st, ClaimFails(i, applied))
    ensures Inv(c, specs, DoClaimFails(st, i, applied))
  {
    var pc := At(st, i).pc;
    var st' := DoClaimFails(st, i, applied);
    StaysOk(c, specs, st, st', pc);
    UpToDue(c, specs, st', pc, DueMinute(pc).value);
    Move(c, specs, st, st', i, st'.locals[i]);
  }

  lemma StepSubmit(c: Config, specs: Specs, st: Cluster, i: Name, ok: bool, recorded: bool)
    requires Inv(c, specs, st) && Enabled(c, st, Submit(i, ok, recorded))
    ensures Inv(c, specs, DoSubmit(st, i, ok, recorded))
  {
    var st' := DoSubmit(st, i, ok, recorded);
    StaysOk(c, specs, st, st', At(st, i).pc);
    Move(c, specs, st, st', i, st'.locals[i]);
  }

  /** A search that comes back empty passed over nothing within the catch-up window. */
  lemma EmptySearch(spec: Spec, t: int, x: int)
    requires NextFire(spec, t).None? && t < x
    requires x <= t + Horizon.LeapWindow(spec) || !Horizon.LeapDayOnly(spec)
    ensures !Match(spec, x)
  {
    if Match(spec, x) {
      if Horizon.LeapDayOnly(spec) {
        Horizon.MissedIsFar(spec, t, x);
      } else {
        Horizon.FoundFromEverywhere(spec, x, t);
      }
    }
  }

  lemma MinutesApart(t: int, x: int, n: int)
    requires x * MINUTE <= t + n * MINUTE
    ensures x <= t / MINUTE + n
  {
    MinuteAfter(t, x - n);
  }

  /** When the search finds nothing due, nothing up to now was missed. */
  lemma NothingDue(c: Config, spec: Spec, pc: Pc, x: int)
    requires pc.Firing? && pc.due.spec == spec && DueMinute(pc).None? && pc.fired < MAX_FIRES_PER_TICK
    requires HorizonSafe(c, spec)
    requires pc.now - CatchUp(c) <= pc.cursor < x * MINUTE <= pc.now
    ensures !Match(spec, x)
  {
    MinuteAfter(pc.cursor, x);
    var next := NextFire(spec, pc.cursor / MINUTE);
    if next.None? {
      if Horizon.LeapDayOnly(spec) { MinutesApart(pc.cursor, x, Horizon.LeapWindow(spec)); }
      EmptySearch(spec, pc.cursor / MINUTE, x);
    } else {
      MinuteOrder(x, next.value);
    }
  }

  lemma StepStopFiring(c: Config, specs: Specs, st: Cluster, i: Name)
    requires Inv(c, specs, st) && Enabled(c, st, StopFiring(i)) && WithinHorizon(c, specs)
    ensures Inv(c, specs, Do(c, st, StopFiring(i)))
  {
    var pc := At(st, i).pc;
    var id := pc.due.id;
    var st' := Do(c, st, StopFiring(i));
    if pc.fired < MAX_FIRES_PER_TICK {
      forall m | pc.cursor < m * MINUTE <= pc.now
        ensures !Match(specs[id], m)
      {
        NothingDue(c, specs[id], pc, m);
      }
      Extend(c, specs, st, id, pc.cursor, pc.now);
    }
    StaysCoveredUpTo(c, specs, st, st', id, st'.locals[i].pc.at);
    Move(c, specs, st, st', i, st'.locals[i]);
  }

  lemma StepPutMark(c: Config, specs: Specs, st: Cluster, i: Name, ok: bool)
    requires Inv(c, specs, st) && Enabled(c, st, PutMark(i, ok))
    ensures Inv(c, specs, DoPutMark(st, i, ok))
  {
    var pc := At(st, i).pc;
    var st' := DoPutMark(st, i, ok);
    if ok {
      assert Truncate(pc.at) <= pc.at;
      if !pc.first { StaysCoveredUpTo(c, specs, st, st', pc.due.id, pc.at); }
      assert CoveredUpTo(c, specs, st', pc.due.id, Truncate(pc.at));
    }
    Move(c, specs, st, st', i, st'.locals[i]);
  }

  lemma StepMove(c: Config, specs: Specs, st: Cluster, a: Action)
    requires Inv(c, specs, st) && Enabled(c, st, a)
    requires a.BeginTick? || a.SkipSchedule? || a.Crash?
    ensures Inv(c, specs, Do(c, st, a))
  {
    var st' := Do(c, st, a);
    Move(c, specs, st, st', a.i, st'.locals[a.i]);
  }

  lemma StepPrune(c: Config, specs: Specs, st: Cluster, a: Action)
    requires Inv(c, specs, st) && Enabled(c, st, a) && (a.EndTick? || a.PruneOne? || a.PruneDone?)
    ensures Inv(c, specs, Do(c, st, a))
  {
    var st' := Do(c, st, a);
    Move(c, specs, st, st', a.i, st'.locals[a.i]);
  }

  lemma StepOperator(c: Config, specs: Specs, st: Cluster, a: Action)
    requires Inv(c, specs, st) && Enabled(c, st, a) && Fixed(specs, a)
    requires a.PutSchedule? || a.DeleteSchedule? || a.DeleteMark?
    ensures Inv(c, specs, Do(c, st, a))
  {
    var st' := Do(c, st, a);
    forall i | i in st'.locals
      ensures PcOk(c, specs, st', st'.locals[i].pc)
    {
      StaysOk(c, specs, st, st', st.locals[i].pc);
    }
    forall id | id in st'.marks
      ensures CoveredUpTo(c, specs, st', id, st'.marks[id])
    {
      StaysCoveredUpTo(c, specs, st, st', id, st.marks[id]);
    }
  }

  lemma Step(c: Config, specs: Specs, st: Cluster, a: Action)
    requires Inv(c, specs, st) && Enabled(c, st, a) && Fixed(specs, a) && WithinHorizon(c, specs)
    ensures Inv(c, specs, Do(c, st, a))
  {
    match a
    case ReadMark(i) => StepReadMark(c, specs, st, i);
    case Claim(i) => StepClaim(c, specs, st, i);
    case ClaimFails(i, applied) => StepClaimFails(c, specs, st, i, applied);
    case Submit(i, ok, recorded) => StepSubmit(c, specs, st, i, ok, recorded);
    case StopFiring(i) => StepStopFiring(c, specs, st, i);
    case PutMark(i, ok) => StepPutMark(c, specs, st, i, ok);
    case PutSchedule(_, _) => StepOperator(c, specs, st, a);
    case DeleteSchedule(_) => StepOperator(c, specs, st, a);
    case DeleteMark(_) => StepOperator(c, specs, st, a);
    case EndTick(_) => StepPrune(c, specs, st, a);
    case PruneOne(_, _) => StepPrune(c, specs, st, a);
    case PruneDone(_) => StepPrune(c, specs, st, a);
    case _ => StepMove(c, specs, st, a);
  }

  lemma {:induction false} RunKeepsInv(c: Config, specs: Specs, st: Cluster, run: seq<Action>)
    requires Inv(c, specs, st) && Legal(c, st, run) && Obeys(c, st, run, FixedTo(specs)) && WithinHorizon(c, specs)
    ensures Inv(c, specs, Exec(c, st, run))
    decreases |run|
  {
    if run != [] {
      Step(c, specs, st, run[0]);
      RunKeepsInv(c, specs, Do(c, st, run[0]), run[1..]);
    }
  }

  /** At the end of every run, and so at every point of it: all admitted minutes
      between a schedule's base and its watermark have been claimed, or were older
      than the catch-up window of a pass that looked at the schedule.  The per-pass
      cap, failed claims, failed submissions, failed watermark writes, crashes and
      watermarks moved back by slower clocks are all in. */
  lemma NothingLost(c: Config, specs: Specs, run: seq<Action>, id: Id, m: int)
    requires Legal(c, Init(), run) && Obeys(c, Init(), run, FixedTo(specs)) && WithinHorizon(c, specs)
    requires id in specs && Match(specs[id], m)
    ensures var st := Exec(c, Init(), run);
            id in st.marks ==>
              id in st.base && (st.base[id] < m * MINUTE <= st.marks[id] ==> Covered(c, st, Fire(id, m)))
  {
    RunKeepsInv(c, specs, Init(), run);
  }
}
