/** The conditions of `NoLostFire.NothingLost` are needed, and the one on the catch-up
    window is exact. */
module LostFire {
  import opened Common
  import opened Calendar
  import opened CronSpec
  import Horizon
  import opened Scheduler
  import opened Runs
  import opened NoLostFire
  import opened SkewBound

  /** Two schedulers that both see a schedule for the first time: the watermark is
      put at a, then at the later clock b, and every minute between the two is
      neither claimed nor stale.  So the base of a schedule is the latest of its
      first watermarks, not the earliest. */
  lemma FirstSightRace(c: Config, i: Name, j: Name, id: Id, a: int, b: int, m: int) returns (st: Cluster)
    requires i != j && a < m * MINUTE <= Truncate(b) && b - CatchUp(c) < m * MINUTE
    ensures Reachable(c, st, FixedTo(map[id := EveryMinute])) && id in st.marks && st.marks[id] == Truncate(a)
    ensures Enabled(c, st, PutMark(j, true))
    ensures var st' := Do(c, st, PutMark(j, true));
            id in st'.marks && st'.marks[id] == Truncate(b) && !Covered(c, st', Fire(id, m))
  {
    var due, rule := Due(id, EveryMinute), FixedTo(map[id := EveryMinute]);
    var s1 := Create(c, id, EveryMinute, rule);
    var s2 := Look(c, s1, i, due, a, rule);
    var s3 := Look(c, s2, j, due, b, rule);
    Reach(c, s3, PutMark(i, true), rule);
    st := Do(c, s3, PutMark(i, true));
    assert st.won == {} && st.looked == {(id, a), (id, b)};
  }

  // The catch-up window.

  /** After the run the watermark of a schedule is past a matching minute that is neither
      claimed nor was too old for a pass that looked. */
  ghost predicate Loses(c: Config, id: Id, s: Spec, run: seq<Action>, m: int) {
    && Legal(c, Init(), run) && Obeys(c, Init(), run, FixedTo(map[id := s])) && Match(s, m)
    && var st := Exec(c, Init(), run);
       && id in st.marks && id in st.base && st.base[id] < m * MINUTE <= st.marks[id]
       && !Covered(c, st, Fire(id, m))
  }

  lemma LongEnough(c: Config, t: int, m: int)
    requires t < m && (m - (t + 1)) * MINUTE < CatchUp(c)
    ensures var now := (t + 1) * MINUTE - 1 + CatchUp(c);
            && m * MINUTE <= Truncate(now) && Window(c, now, t * MINUTE) == now - CatchUp(c)
            && (now - CatchUp(c)) / MINUTE == t && now - CatchUp(c) < m * MINUTE
  {
    WholeMinutes(m);
    TruncateOrder(m * MINUTE, (t + 1) * MINUTE - 1 + CatchUp(c));
  }

  lemma TruncateOrder(x: int, y: int)
    requires x <= y
    ensures Truncate(x) <= Truncate(y)
  {
  }

  /** A pass that resumes just before the minute where a search gives up moves the
      watermark past the fire the search missed. */
  lemma GapLost(c: Config, i: Name, id: Id, s: Spec, t: int, m: int) returns (run: seq<Action>)
    requires NextFire(s, t).None? && Match(s, m) && t < m && (m - (t + 1)) * MINUTE < CatchUp(c)
    ensures Loses(c, id, s, run, m)
  {
    var due, rule := Due(id, s), FixedTo(map[id := s]);
    var now := (t + 1) * MINUTE - 1 + CatchUp(c);
    LongEnough(c, t, m);
    var s1 := Create(c, id, s, rule);
    var s2 := Look(c, s1, i, due, t * MINUTE, rule);
    var s3 := MarkAndDie(c, s2, i, rule);
    WholeMinutes(t);
    assert s3.base == map[id := t * MINUTE];
    MinuteOrder(t, m);
    var s4 := Look(c, s3, i, due, now, rule);
    var st := GiveUp(c, s4, i, id, t, now, rule);
    assert st.won == {} && st.looked == {(id, t * MINUTE), (id, now)};
    run :| Legal(c, Init(), run) && Obeys(c, Init(), run, rule) && Exec(c, Init(), run) == st;
  }

  lemma GiveUp(c: Config, st: Cluster, i: Name, id: Id, t: int, now: int, rule: Rule) returns (st': Cluster)
    requires Reachable(c, st, rule) && Lenient(rule)
    requires At(st, i).pc.Firing? && At(st, i).pc.due.id == id && id in st.base
    requires var pc := At(st, i).pc; pc.cursor / MINUTE == t && pc.now == now && pc.fired == 0
    requires NextFire(At(st, i).pc.due.spec, t).None?
    ensures Reachable(c, st', rule) && id in st'.marks && st'.marks[id] == Truncate(now)
    ensures st'.base == st.base && st'.won == st.won && st'.looked == st.looked
  {
    var pc := At(st, i).pc;
    assert DueMinute(pc).None?;
    Reach(c, st, StopFiring(i), rule);
    var s1 := Do(c, st, StopFiring(i));
    st' := MarkAndDie(c, s1, i, rule);
  }

  /** With a catch-up window longer than the least distance, a schedule confined to 29
      February loses a fire: the search gives up before it, and the watermark moves
      past. */
  lemma LeapDayLost(c: Config, i: Name, id: Id, s: Spec) returns (run: seq<Action>, m: int)
    requires Horizon.LeapDayOnly(s) && CatchUp(c) > Horizon.LeapWindow(s) * MINUTE
    ensures Loses(c, id, s, run, m)
  {
    var t: int;
    t, m := Horizon.MissedThatFar(s);
    run := GapLost(c, i, id, s, t, m);
  }

  ghost predicate Lossless(c: Config, id: Id, s: Spec) {
    forall run, m :: !Loses(c, id, s, run, m)
  }

  /** No run loses a fire of a schedule exactly if its expression is not confined to 29
      February or the catch-up window is at most five common years, a minute and the
      first admitted time of day. */
  lemma LosslessIff(c: Config, id: Id, s: Spec)
    ensures Lossless(c, id, s) <==> HorizonSafe(c, s)
  {
    if HorizonSafe(c, s) {
      forall run, m
        ensures !Loses(c, id, s, run, m)
      {
        if Legal(c, Init(), run) && Obeys(c, Init(), run, FixedTo(map[id := s])) && Match(s, m) {
          NothingLost(c, map[id := s], run, id, m);
        }
      }
    } else {
      var run, m := LeapDayLost(c, "i", id, s);
    }
  }
}
