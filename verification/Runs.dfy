/** Runs of the scheduler machine. */
module Runs {
  import opened Common
  import opened CronSpec
  import opened Scheduler

  predicate Legal(c: Config, st: Cluster, run: seq<Action>)
    decreases |run|
  {
    run == [] || (Enabled(c, st, run[0]) && Legal(c, Do(c, st, run[0]), run[1..]))
  }

  function Exec(c: Config, st: Cluster, run: seq<Action>): Cluster
    requires Legal(c, st, run)
    decreases |run|
  {
    if run == [] then st else Exec(c, Do(c, st, run[0]), run[1..])
  }

  /** What may be done in a store. */
  type Rule = (Cluster, Action) -> bool

  predicate Obeys(c: Config, st: Cluster, run: seq<Action>, rule: Rule)
    requires Legal(c, st, run)
    decreases |run|
  {
    run == [] || (rule(st, run[0]) && Obeys(c, Do(c, st, run[0]), run[1..], rule))
  }

  lemma {:induction false} Then(c: Config, st: Cluster, run: seq<Action>, a: Action, rule: Rule)
    requires Legal(c, st, run) && Enabled(c, Exec(c, st, run), a)
    requires Obeys(c, st, run, rule) && rule(Exec(c, st, run), a)
    ensures Legal(c, st, run + [a]) && Exec(c, st, run + [a]) == Do(c, Exec(c, st, run), a)
    ensures Obeys(c, st, run + [a], rule)
    decreases |run|
  {
    if run == [] {
      assert [] + [a] == [a];
    } else {
      Then(c, Do(c, st, run[0]), run[1..], a, rule);
      assert (run + [a])[1..] == run[1..] + [a];
    }
  }

  /** Some run from the empty store that obeys the rule ends in st. */
  ghost predicate Reachable(c: Config, st: Cluster, rule: Rule) {
    exists run :: Legal(c, Init(), run) && Obeys(c, Init(), run, rule) && Exec(c, Init(), run) == st
  }

  lemma Reach(c: Config, st: Cluster, a: Action, rule: Rule)
    requires Reachable(c, st, rule) && Enabled(c, st, a) && rule(st, a)
    ensures Reachable(c, Do(c, st, a), rule)
  {
    var run :| Legal(c, Init(), run) && Obeys(c, Init(), run, rule) && Exec(c, Init(), run) == st;
    Then(c, Init(), run, a, rule);
  }

  /** Neither claims a fire nor edits a schedule. */
  predicate Quiet(a: Action) { !a.Claim? && !a.ClaimFails? && !a.PutSchedule? }

  ghost predicate Lenient(rule: Rule) {
    forall st, a | Quiet(a) :: rule(st, a)
  }

  lemma Look(c: Config, st: Cluster, i: Name, due: Due, now: int, rule: Rule) returns (st': Cluster)
    requires Reachable(c, st, rule) && Lenient(rule) && At(st, i) == Fresh
    requires due.id in st.schedules && st.schedules[due.id] == Schedule(due.spec, false)
    ensures Reachable(c, st', rule)
    ensures var pc := if due.id in st.marks then Firing(now, [], due, Window(c, now, st.marks[due.id]), 0)
                      else Marking(now, [], due, now, true);
            st' == st.(locals := st.locals[i := Local(pc, None)], looked := st.looked + {(due.id, now)})
  {
    Reach(c, st, BeginTick(i, now, [due]), rule);
    var s1 := Do(c, st, BeginTick(i, now, [due]));
    assert s1 == st.(locals := st.locals[i := Local(Between(now, [due]), None)]);
    assert [due][1..] == [];
    Reach(c, s1, ReadMark(i), rule);
    st' := Do(c, s1, ReadMark(i));
    assert st'.locals == st.locals[i := At(st', i)];
  }
}
