/** The skew condition of `AtMostOnce.NeverTwice` is exact: passes at one clock and
    prunes at one cutoff can submit a fire twice exactly if the window overlaps the
    prune. */
module SkewBound {
  import opened Common
  import opened CronSpec
  import opened Calendar
  import opened Scheduler
  import opened Runs
  import opened AtMostOnce

  /** "* * * * *" */
  const EveryMinute := Spec(
    set n | 0 <= n < 60, set h | 0 <= h < 24, set d | 1 <= d <= 31, set i | 1 <= i <= 12, set w | 0 <= w < 7,
    false, false)

  lemma EveryMinuteNext(t: int)
    ensures NextFire(EveryMinute, t) == Some(t + 1)
  {
    assert Match(EveryMinute, t + 1);
    assert t + 1 < Deadline(t + 1) by {
      var k := MonthOf(Day(t + 1));
      MonthStartMonotone(k, k + 60);
    }
  }

  /** One scheduler about to consider minute m of the schedule. */
  predicate Ready(st: Cluster, id: Id, m: int) {
    && id in st.schedules && st.schedules[id] == Schedule(EveryMinute, false)
    && id in st.marks && st.marks[id] == (m - 1) * MINUTE
  }

  predicate ClaimAt(st: Cluster, a: Action, now: int) {
    (a.Claim? || a.ClaimFails?) && At(st, a.i).pc.Firing? ==> At(st, a.i).pc.now == now
  }

  /** Every claim is made by a pass at one clock. */
  function ClaimsAt(now: int): Rule { (st, a) => ClaimAt(st, a, now) }

  ghost predicate AllowsAt(rule: Rule, now: int) {
    forall st, a | ClaimAt(st, a, now) :: rule(st, a)
  }

  lemma Win(c: Config, st: Cluster, i: Name, m: int, rule: Rule) returns (st': Cluster)
    requires Reachable(c, st, rule) && Lenient(rule) && At(st, i).pc.Firing? && DueMinute(At(st, i).pc) == Some(m)
    requires Fire(At(st, i).pc.due.id, m) !in st.claims && rule(st, Claim(i))
    ensures Reachable(c, st', rule)
    ensures var f := Fire(At(st, i).pc.due.id, m);
            && st'.locals == st.locals[i := Fresh] && st'.cutoffs == st.cutoffs && st'.pruners == st.pruners
            && st'.schedules == st.schedules && st'.marks == st.marks
            && st'.claims == st.claims + {f} && st'.submitted == st.submitted + [f]
  {
    Reach(c, st, Claim(i), rule);
    var s3 := Do(c, st, Claim(i));
    assert At(s3, i).pc.Won? && At(s3, i).pc.due == At(st, i).pc.due && At(s3, i).pc.minute == m;
    Reach(c, s3, Submit(i, true, false), rule);
    var s4 := Do(c, s3, Submit(i, true, false));
    assert s4.locals == st.locals[i := At(s4, i)];
    Reach(c, s4, Crash(i), rule);
    st' := Do(c, s4, Crash(i));
  }

  /** A pass that claims and submits minute m and dies before it can advance the
      watermark. */
  lemma Pass(c: Config, st: Cluster, i: Name, id: Id, m: int, now: int, rule: Rule) returns (st': Cluster)
    requires Reachable(c, st, rule) && Lenient(rule) && At(st, i) == Fresh && Ready(st, id, m) &&
             Fire(id, m) !in st.claims
    requires now - CatchUp(c) < m * MINUTE <= now && AllowsAt(rule, now)
    ensures Reachable(c, st', rule) && Ready(st', id, m)
    ensures st'.locals == st.locals[i := Fresh] && st'.cutoffs == st.cutoffs && st'.pruners == st.pruners
    ensures st'.claims == st.claims + {Fire(id, m)} && st'.submitted == st.submitted + [Fire(id, m)]
  {
    var s := Look(c, st, i, Due(id, EveryMinute), now, rule);
    FirstDue(c, At(s, i).pc, Due(id, EveryMinute), now, m);
    st' := Win(c, s, i, m, rule);
  }

  lemma FirstDue(c: Config, pc: Pc, due: Due, now: int, m: int)
    requires pc == Firing(now, [], due, Window(c, now, (m - 1) * MINUTE), 0) && due.spec == EveryMinute
    requires now - CatchUp(c) < m * MINUTE <= now
    ensures DueMinute(pc) == Some(m)
  {
    assert (m - 1) * MINUTE <= pc.cursor < m * MINUTE;
    assert pc.cursor / MINUTE == m - 1;
    EveryMinuteNext(m - 1);
  }

  lemma WholeMinutes(m: int)
    ensures Truncate(m * MINUTE) == m * MINUTE
  {
    assert m * MINUTE == (60 * m) * SECOND;
  }

  lemma MarkAndDie(c: Config, st: Cluster, i: Name, rule: Rule) returns (st': Cluster)
    requires Reachable(c, st, rule) && Lenient(rule) && At(st, i).pc.Marking?
    ensures Reachable(c, st', rule) && st'.locals == st.locals[i := Fresh]
    ensures st'.marks == st.marks[At(st, i).pc.due.id := Truncate(At(st, i).pc.at)]
    ensures st'.schedules == st.schedules && st'.claims == st.claims
    ensures st'.submitted == st.submitted && st'.cutoffs == st.cutoffs && st'.pruners == st.pruners
    ensures st'.won == st.won && st'.looked == st.looked
    ensures st'.base == DoPutMark(st, i, true).base
  {
    Reach(c, st, PutMark(i, true), rule);
    var s1 := Do(c, st, PutMark(i, true));
    Reach(c, s1, Crash(i), rule);
    st' := Do(c, s1, Crash(i));
    assert st'.locals == st.locals[i := Fresh];
  }

  lemma Create(c: Config, id: Id, spec: Spec, rule: Rule) returns (st: Cluster)
    requires rule(Init(), PutSchedule(id, Schedule(spec, false)))
    ensures Reachable(c, st, rule)
    ensures st == Init().(schedules := map[id := Schedule(spec, false)])
  {
    var none: seq<Action> := [];
    assert Legal(c, Init(), none) && Obeys(c, Init(), none, rule) && Exec(c, Init(), none) == Init();
    Reach(c, Init(), PutSchedule(id, Schedule(spec, false)), rule);
    st := Do(c, Init(), PutSchedule(id, Schedule(spec, false)));
  }

  lemma Setup(c: Config, i: Name, id: Id, m: int, rule: Rule) returns (st: Cluster)
    requires Lenient(rule) && rule(Init(), PutSchedule(id, Schedule(EveryMinute, false)))
    ensures Reachable(c, st, rule) && st.locals == map[i := Fresh] && Ready(st, id, m)
    ensures st.claims == {} && st.submitted == [] && st.cutoffs == {} && st.pruners == {}
  {
    var due := Due(id, EveryMinute);
    var t := (m - 1) * MINUTE;
    var s1 := Create(c, id, EveryMinute, rule);
    var s2 := Look(c, s1, i, due, t, rule);
    st := MarkAndDie(c, s2, i, rule);
    WholeMinutes(m - 1);
  }

  lemma BeginPrune(c: Config, st: Cluster, q: Name, clock: int, f: Fire, rule: Rule) returns (st': Cluster)
    requires Reachable(c, st, rule) && Lenient(rule) && At(st, q) == Fresh && f in st.claims
    requires Instant(f) < clock - Retain(c, q)
    ensures Reachable(c, st', rule) && At(st', q).pc.Pruning? && f in At(st', q).pc.victims
    ensures st' == st.(locals := st.locals[q := At(st', q)], cutoffs := st.cutoffs + {clock - Retain(c, q)},
                       pruners := st.pruners + {clock})
  {
    Reach(c, st, BeginTick(q, clock, []), rule);
    var s1 := Do(c, st, BeginTick(q, clock, []));
    assert s1 == st.(locals := st.locals[q := Local(Between(clock, []), None)]);
    Reach(c, s1, EndTick(q), rule);
    st' := Do(c, s1, EndTick(q));
    assert st'.locals == st.locals[q := At(st', q)];
  }

  lemma Prune(c: Config, st: Cluster, q: Name, clock: int, f: Fire, rule: Rule) returns (st': Cluster)
    requires Reachable(c, st, rule) && Lenient(rule) && At(st, q) == Fresh && f in st.claims
    requires Instant(f) < clock - Retain(c, q)
    ensures Reachable(c, st', rule)
    ensures st'.locals == st.locals[q := Fresh] && st'.claims == st.claims - {f}
    ensures st'.schedules == st.schedules && st'.marks == st.marks && st'.submitted == st.submitted
    ensures st'.cutoffs == st.cutoffs + {clock - Retain(c, q)} && st'.pruners == st.pruners + {clock}
  {
    var s := BeginPrune(c, st, q, clock, f, rule);
    st' := PruneAndDie(c, s, q, f, rule);
  }

  lemma PruneAndDie(c: Config, st: Cluster, q: Name, f: Fire, rule: Rule) returns (st': Cluster)
    requires Reachable(c, st, rule) && Lenient(rule) && At(st, q).pc.Pruning? && f in At(st, q).pc.victims
    ensures Reachable(c, st', rule)
    ensures st' == st.(locals := st.locals[q := Fresh], claims := st.claims - {f})
  {
    Reach(c, st, PruneOne(q, f), rule);
    var s1 := Do(c, st, PruneOne(q, f));
    Reach(c, s1, Crash(q), rule);
    st' := Do(c, s1, Crash(q));
    assert st'.locals == st.locals[q := Fresh];
  }

  /** Whatever the windows and retentions: if a pass at clock `now` overlaps the
      cutoff of scheduler q pruning at `pruner`, a run whose only prune is that one
      and whose claiming passes all run at `now` submits one fire twice. */
  lemma OverlapSubmitsTwice(c: Config, i: Name, q: Name, id: Id, now: int, pruner: int) returns (run: seq<Action>)
    requires Overlap(c, now, pruner - Retain(c, q))
    ensures Legal(c, Init(), run) && Obeys(c, Init(), run, ClaimsAt(now))
    ensures Exec(c, Init(), run).cutoffs == {pruner - Retain(c, q)} && Exec(c, Init(), run).pruners == {pruner}
    ensures !NoRepeat(Exec(c, Init(), run).submitted)
  {
    var m :| now - CatchUp(c) < m * MINUTE <= now && m * MINUTE < pruner - Retain(c, q);
    var rule := ClaimsAt(now);
    var st := Setup(c, i, id, m, rule);
    st := Pass(c, st, i, id, m, now, rule);
    st := Prune(c, st, q, pruner, Fire(id, m), rule);
    st := Pass(c, st, i, id, m, now, rule);
    assert st.submitted[0] == st.submitted[1] == Fire(id, m);
    run :| Legal(c, Init(), run) && Obeys(c, Init(), run, rule) && Exec(c, Init(), run) == st;
  }

  // And only then.

  lemma CutoffsGrow(c: Config, st: Cluster, a: Action)
    requires Enabled(c, st, a)
    ensures st.cutoffs <= Do(c, st, a).cutoffs
  {
  }

  lemma {:induction false} CutoffsUpTo(c: Config, st: Cluster, run: seq<Action>)
    requires Legal(c, st, run)
    ensures st.cutoffs <= Exec(c, st, run).cutoffs
    decreases |run|
  {
    if run != [] {
      CutoffsGrow(c, st, run[0]);
      CutoffsUpTo(c, Do(c, st, run[0]), run[1..]);
    }
  }

  lemma {:induction false} NoOverlapIsClear(c: Config, st: Cluster, run: seq<Action>, now: int, cutoff: int)
    requires Legal(c, st, run) && Obeys(c, st, run, ClaimsAt(now)) && Exec(c, st, run).cutoffs <= {cutoff}
    requires !Overlap(c, now, cutoff)
    ensures Obeys(c, st, run, Clear(c))
    decreases |run|
  {
    if run != [] {
      CutoffsUpTo(c, st, run);
      NoOverlapIsClear(c, Do(c, st, run[0]), run[1..], now, cutoff);
    }
  }

  /** A run that submits a fire twice, whose passes that claim all read the clock `now`
      and whose prunes all have this cutoff. */
  ghost predicate Doubles(c: Config, run: seq<Action>, now: int, cutoff: int) {
    && Legal(c, Init(), run) && Obeys(c, Init(), run, ClaimsAt(now))
    && Exec(c, Init(), run).cutoffs == {cutoff} && !NoRepeat(Exec(c, Init(), run).submitted)
  }

  /** Passes at one clock and prunes at one cutoff submit a fire twice in some run
      exactly if the window of that clock overlaps that cutoff. */
  lemma DoublesIffOverlap(c: Config, now: int, cutoff: int)
    ensures (exists run :: Doubles(c, run, now, cutoff)) <==> Overlap(c, now, cutoff)
  {
    if Overlap(c, now, cutoff) {
      var run := OverlapSubmitsTwice(c, "i", "q", "id", now, cutoff + Retain(c, "q"));
      assert Doubles(c, run, now, cutoff);
    } else {
      forall run
        ensures !Doubles(c, run, now, cutoff)
      {
        if Legal(c, Init(), run) && Obeys(c, Init(), run, ClaimsAt(now)) && Exec(c, Init(), run).cutoffs == {cutoff} {
          NoOverlapIsClear(c, Init(), run, now, cutoff);
          NeverTwice(c, run);
        }
      }
    }
  }
}
