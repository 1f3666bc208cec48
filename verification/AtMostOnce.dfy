/** No fire is submitted twice, and the clock skew up to which that holds. */
module AtMostOnce {
  import opened Common
  import opened CronSpec
  import opened Scheduler
  import opened Runs

  // The skew condition.

  /** Some minute is inside the catch-up window of a pass with clock `now` and
      already behind a prune's cutoff. */
  ghost predicate Overlap(c: Config, now: int, cutoff: int) {
    exists m :: now - CatchUp(c) < m * MINUTE <= now && m * MINUTE < cutoff
  }

  /** A claim is made only by a pass whose window clears every prune so far. */
  ghost predicate ClearOfPrunes(c: Config, st: Cluster, a: Action) {
    (a.Claim? || a.ClaimFails?) && At(st, a.i).pc.Firing? ==>
      forall k | k in st.cutoffs :: !Overlap(c, At(st, a.i).pc.now, k)
  }

  ghost function Clear(c: Config): Rule { (st, a) => ClearOfPrunes(c, st, a) }

  // The invariant.

  /** A fire whose claim may be gone is behind some cutoff. */
  predicate Pruned(st: Cluster, f: Fire) {
    exists k :: k in st.cutoffs && Instant(f) < k
  }

  predicate PcOk(c: Config, st: Cluster, pc: Pc) {
    match pc
    case Firing(now, _, _, cursor, _) => now - CatchUp(c) <= cursor
    case Won(now, _, due, minute, _) =>
      && now - CatchUp(c) <= minute * MINUTE
      && Fire(due.id, minute) in st.won && Fire(due.id, minute) !in st.submitted
    case Pruning(_, victims) => forall f | f in victims :: Pruned(st, f)
    case _ => true
  }

  predicate Apart(p: Pc, q: Pc) {
    p.Won? && q.Won? ==> Fire(p.due.id, p.minute) != Fire(q.due.id, q.minute)
  }

  ghost predicate Inv(c: Config, st: Cluster) {
    && st.claims <= st.won
    && (forall f | f in st.won :: f in st.claims || Pruned(st, f))
    && (forall f | f in st.submitted :: f in st.won)
    && NoRepeat(st.submitted)
    && (forall i | i in st.locals :: PcOk(c, st, st.locals[i].pc))
    && (forall i, j | i in st.locals && j in st.locals && i != j :: Apart(st.locals[i].pc, st.locals[j].pc))
  }

  /** A pass only considers minutes younger than its window, so a fire it finds
      unclaimed was never claimed before. */
  lemma ClaimIsNew(c: Config, st: Cluster, i: Name)
    requires Inv(c, st) && Enabled(c, st, Claim(i)) && ClearOfPrunes(c, st, Claim(i))
    requires var pc := At(st, i).pc; Fire(pc.due.id, DueMinute(pc).value) !in st.claims
    ensures var pc := At(st, i).pc; Fire(pc.due.id, DueMinute(pc).value) !in st.won
  {
    var pc := At(st, i).pc;
    var m := DueMinute(pc).value;
    forall k | k in st.cutoffs
      ensures m * MINUTE < k ==> Overlap(c, pc.now, k)
    {
    }
  }

  /** A scheduler moving on by itself, with nothing in its hands. */
  lemma Move(c: Config, st: Cluster, st': Cluster, i: Name, l: Local)
    requires Inv(c, st)
    requires st'.claims == st.claims && st'.won == st.won && st'.submitted == st.submitted
    requires st.cutoffs <= st'.cutoffs
    requires st'.locals == st.locals[i := l] && PcOk(c, st', l.pc) && !l.pc.Won?
    ensures Inv(c, st')
  {
    forall f | Pruned(st, f)
      ensures Pruned(st', f)
    {
      var k :| k in st.cutoffs && Instant(f) < k;
      assert k in st'.cutoffs;
    }
  }

  lemma StepClaim(c: Config, st: Cluster, i: Name)
    requires Inv(c, st) && Enabled(c, st, Claim(i)) && ClearOfPrunes(c, st, Claim(i))
    ensures Inv(c, DoClaim(st, i))
  {
    var pc := At(st, i).pc;
    if Fire(pc.due.id, DueMinute(pc).value) !in st.claims {
      ClaimIsNew(c, st, i);
    }
  }

  lemma StepClaimFails(c: Config, st: Cluster, i: Name, applied: bool)
    requires Inv(c, st) && Enabled(c, st, ClaimFails(i, applied)) && ClearOfPrunes(c, st, ClaimFails(i, applied))
    ensures Inv(c, DoClaimFails(st, i, applied))
  {
  }

  lemma StepSubmit(c: Config, st: Cluster, i: Name, ok: bool, recorded: bool)
    requires Inv(c, st) && Enabled(c, st, Submit(i, ok, recorded))
    ensures Inv(c, DoSubmit(st, i, ok, recorded))
  {
    var pc := At(st, i).pc;
    var f := Fire(pc.due.id, pc.minute);
    var st' := DoSubmit(st, i, ok, recorded);
    forall j | j in st'.locals
      ensures PcOk(c, st', st'.locals[j].pc)
    {
      if j != i { assert Apart(st.locals[i].pc, st.locals[j].pc); }
    }
  }

  lemma StepEndTick(c: Config, st: Cluster, i: Name)
    requires Inv(c, st) && Enabled(c, st, EndTick(i))
    ensures Inv(c, DoEndTick(c, st, i))
  {
    var st' := DoEndTick(c, st, i);
    var pc := st'.locals[i].pc;
    if pc.Pruning? {
      assert pc.now - Retain(c, i) in st'.cutoffs;
    }
    Move(c, st, st', i, st'.locals[i]);
  }

  lemma StepPruneOne(c: Config, st: Cluster, i: Name, f: Fire)
    requires Inv(c, st) && Enabled(c, st, PruneOne(i, f))
    ensures Inv(c, Do(c, st, PruneOne(i, f)))
  {
    assert Pruned(st, f);
  }

  /** A scheduler step that touches neither claims nor submissions. */
  lemma StepMove(c: Config, st: Cluster, a: Action)
    requires Inv(c, st) && Enabled(c, st, a)
    requires a.BeginTick? || a.ReadMark? || a.SkipSchedule? || a.StopFiring? || a.PutMark? || a.PruneDone? || a.Crash?
    ensures Inv(c, Do(c, st, a))
  {
    var st' := Do(c, st, a);
    Move(c, st, st', a.i, st'.locals[a.i]);
  }

  lemma StepOperator(c: Config, st: Cluster, a: Action)
    requires Inv(c, st) && Enabled(c, st, a)
    requires a.PutSchedule? || a.DeleteSchedule? || a.DeleteMark?
    ensures Inv(c, Do(c, st, a))
  {
  }

  lemma Step(c: Config, st: Cluster, a: Action)
    requires Inv(c, st) && Enabled(c, st, a) && ClearOfPrunes(c, st, a)
    ensures Inv(c, Do(c, st, a))
  {
    match a
    case Claim(i) => StepClaim(c, st, i);
    case ClaimFails(i, applied) => StepClaimFails(c, st, i, applied);
    case Submit(i, ok, recorded) => StepSubmit(c, st, i, ok, recorded);
    case EndTick(i) => StepEndTick(c, st, i);
    case PruneOne(i, f) => StepPruneOne(c, st, i, f);
    case PutSchedule(_, _) => StepOperator(c, st, a);
    case DeleteSchedule(_) => StepOperator(c, st, a);
    case DeleteMark(_) => StepOperator(c, st, a);
    case _ => StepMove(c, st, a);
  }

  lemma {:induction false} RunKeepsInv(c: Config, st: Cluster, run: seq<Action>)
    requires Inv(c, st) && Legal(c, st, run) && Obeys(c, st, run, Clear(c))
    ensures Inv(c, Exec(c, st, run))
    decreases |run|
  {
    if run != [] {
      Step(c, st, run[0]);
      RunKeepsInv(c, Do(c, st, run[0]), run[1..]);
    }
  }

  /** In every run whose claims clear the prunes before them, whatever the
      schedulers, clocks, crashes, failures and catalogue edits, no fire is
      submitted twice. */
  lemma NeverTwice(c: Config, run: seq<Action>)
    requires Legal(c, Init(), run) && Obeys(c, Init(), run, Clear(c))
    ensures NoRepeat(Exec(c, Init(), run).submitted)
  {
    RunKeepsInv(c, Init(), run);
  }

  // The same in clocks.

  /** A claim is made only by a pass whose clock is at most one catch-up window behind
      every clock that has pruned. */
  predicate NearPruners(c: Config, st: Cluster, a: Action) {
    (a.Claim? || a.ClaimFails?) && At(st, a.i).pc.Firing? ==>
      forall p | p in st.pruners :: p - At(st, a.i).pc.now <= CatchUp(c)
  }

  function Near(c: Config): Rule { (st, a) => NearPruners(c, st, a) }

  /** Retention is at least twice the catch-up window, so a cutoff lies that far behind
      the clock it was taken from. */
  predicate CutoffsBehind(c: Config, st: Cluster) {
    forall k | k in st.cutoffs :: exists p :: p in st.pruners && k <= p - 2 * CatchUp(c)
  }

  lemma StepCutoffs(c: Config, st: Cluster, a: Action)
    requires CutoffsBehind(c, st) && Enabled(c, st, a)
    ensures CutoffsBehind(c, Do(c, st, a))
  {
    var st' := Do(c, st, a);
    forall k | k in st'.cutoffs
      ensures exists p :: p in st'.pruners && k <= p - 2 * CatchUp(c)
    {
      if k in st.cutoffs {
        var p :| p in st.pruners && k <= p - 2 * CatchUp(c);
        assert p in st'.pruners;
      } else {
        assert At(st, a.i).pc.now in st'.pruners;
      }
    }
  }

  lemma NearIsClear(c: Config, st: Cluster, a: Action)
    requires CutoffsBehind(c, st) && NearPruners(c, st, a)
    ensures ClearOfPrunes(c, st, a)
  {
    if (a.Claim? || a.ClaimFails?) && At(st, a.i).pc.Firing? {
      forall k | k in st.cutoffs
        ensures !Overlap(c, At(st, a.i).pc.now, k)
      {
        var p :| p in st.pruners && k <= p - 2 * CatchUp(c);
        assert p - At(st, a.i).pc.now <= CatchUp(c);
      }
    }
  }

  lemma {:induction false} NearRunIsClear(c: Config, st: Cluster, run: seq<Action>)
    requires CutoffsBehind(c, st) && Legal(c, st, run) && Obeys(c, st, run, Near(c))
    ensures Obeys(c, st, run, Clear(c))
    decreases |run|
  {
    if run != [] {
      NearIsClear(c, st, run[0]);
      StepCutoffs(c, st, run[0]);
      NearRunIsClear(c, Do(c, st, run[0]), run[1..]);
    }
  }

  /** If no claim is made by a pass whose clock is more than one catch-up window behind a
      clock that has pruned, no fire is submitted twice. */
  lemma NeverTwiceWithinSkew(c: Config, run: seq<Action>)
    requires Legal(c, Init(), run) && Obeys(c, Init(), run, Near(c))
    ensures NoRepeat(Exec(c, Init(), run).submitted)
  {
    NearRunIsClear(c, Init(), run);
    NeverTwice(c, run);
  }
}
