/** The cluster scheduler as a state machine.

    Any number of schedulers share one replicated store of schedules, watermarks
    and claim keys.  Every action below is one access to that store (or one
    submission), so a run is any interleaving of the schedulers' passes with each
    other, with an operator editing the catalogue and with processes dying.
    Instants are nanoseconds since midnight, 1 January of year 1, UTC; a fire is
    named by its minute.
 */
module Scheduler {
  import opened Common
  import opened CronSpec

  const SECOND := 1_000_000_000
  const MINUTE := 60 * SECOND
  const HOUR := 60 * MINUTE
  const DEFAULT_CATCH_UP := HOUR
  const DEFAULT_RETAIN := 14 * 24 * HOUR
  const DEFAULT_PRUNE_INTERVAL := HOUR
  const MAX_FIRES_PER_TICK := 1000

  type Name = string
  type Id = string

  /** One minute of one schedule: what a claim key names. */
  datatype Fire = Fire(id: Id, minute: int)

  function Instant(f: Fire): int { f.minute * MINUTE }

  datatype Schedule = Schedule(spec: Spec, disabled: bool)

  datatype Due = Due(id: Id, spec: Spec)

  /** The knobs: one catch-up window for the cluster, a retention and a prune
      interval for each scheduler.  Values that are not positive mean the default. */
  datatype Config = Config(catchUp: int, retain: map<Name, int>, pruneInterval: map<Name, int>)

  function CatchUp(c: Config): (r: int)
    ensures r > 0
  {
    if c.catchUp <= 0 then DEFAULT_CATCH_UP else c.catchUp
  }

  /** Retention is held to at least twice the catch-up window. */
  function Retain(c: Config, i: Name): (r: int)
    ensures r >= 2 * CatchUp(c)
  {
    var asked := if i in c.retain && c.retain[i] > 0 then c.retain[i] else DEFAULT_RETAIN;
    if asked < 2 * CatchUp(c) then 2 * CatchUp(c) else asked
  }

  function PruneInterval(c: Config, i: Name): int {
    if i in c.pruneInterval && c.pruneInterval[i] > 0 then c.pruneInterval[i] else DEFAULT_PRUNE_INTERVAL
  }

  /** Where a scheduler is in its pass.  `now` is the clock captured when the
      pass began and `todo` the schedules it has not come to yet. */
  datatype Pc =
    | Idle
    | Between(now: int, todo: seq<Due>)
    | Firing(now: int, todo: seq<Due>, due: Due, cursor: int, fired: nat)
    | Won(now: int, todo: seq<Due>, due: Due, minute: int, fired: nat)
    | Marking(now: int, todo: seq<Due>, due: Due, at: int, first: bool)
    | Pruning(now: int, victims: set<Fire>)

  datatype Local = Local(pc: Pc, lastPrune: Option<int>)

  /** The store and the schedulers, and what has happened so far: every submission
      in order, every claim ever won, the cutoff of every prune that has begun and the
      clock it was begun at, the clock of every pass that has looked at a schedule, and
      for each schedule the latest clock any scheduler put as its first watermark. */
  datatype Cluster = Cluster(
    schedules: map<Id, Schedule>,
    marks: map<Id, int>,
    claims: set<Fire>,
    locals: map<Name, Local>,
    submitted: seq<Fire>,
    won: set<Fire>,
    cutoffs: set<int>,
    pruners: set<int>,
    looked: set<(Id, int)>,
    base: map<Id, int>)

  datatype Action =
    | BeginTick(i: Name, now: int, todo: seq<Due>)
    | ReadMark(i: Name)
    | SkipSchedule(i: Name)
    | Claim(i: Name)
    | ClaimFails(i: Name, applied: bool)
    | Submit(i: Name, ok: bool, recorded: bool)
    | StopFiring(i: Name)
    | PutMark(i: Name, ok: bool)
    | EndTick(i: Name)
    | PruneOne(i: Name, victim: Fire)
    | PruneDone(i: Name)
    | PutSchedule(id: Id, schedule: Schedule)
    | DeleteSchedule(id: Id)
    | DeleteMark(id: Id)
    | Crash(i: Name)

  const Fresh := Local(Idle, None)

  function Init(): Cluster {
    Cluster(map[], map[], {}, map[], [], {}, {}, {}, {}, map[])
  }

  function At(st: Cluster, i: Name): Local {
    if i in st.locals then st.locals[i] else Fresh
  }

  function Goto(st: Cluster, i: Name, pc: Pc): Cluster {
    st.(locals := st.locals[i := At(st, i).(pc := pc)])
  }

  /** RFC 3339 timestamps keep whole seconds. */
  function Truncate(t: int): int { t - t % SECOND }

  lemma MinuteAfter(t: int, m: int)
    ensures t / MINUTE < m <==> t < m * MINUTE
  {
  }

  lemma MinuteOrder(x: int, y: int)
    ensures x < y <==> x * MINUTE < y * MINUTE
  {
  }

  /** The minute the firing loop would claim next, if it is due. */
  function DueMinute(pc: Pc): (r: Option<int>)
    requires pc.Firing?
    ensures r.Some? ==> pc.cursor < r.value * MINUTE <= pc.now && Match(pc.due.spec, r.value)
  {
    if pc.fired >= MAX_FIRES_PER_TICK then None
    else
      var next := NextFire(pc.due.spec, pc.cursor / MINUTE);
      if next.Some? && next.value * MINUTE <= pc.now then
        MinuteAfter(pc.cursor, next.value);
        next
      else None
  }

  /** Where a pass over a schedule whose watermark reads `mark` starts. */
  function Window(c: Config, now: int, mark: int): int {
    if mark > now then now
    else if mark < now - CatchUp(c) then now - CatchUp(c)
    else mark
  }

  predicate PruneDue(c: Config, st: Cluster, i: Name, now: int) {
    var last := At(st, i).lastPrune;
    last.None? || now - last.value >= PruneInterval(c, i)
  }

  predicate Enabled(c: Config, st: Cluster, a: Action) {
    match a
    case BeginTick(i, now, todo) =>
      && At(st, i).pc.Idle?
      && forall d | d in todo :: d.id in st.schedules && st.schedules[d.id] == Schedule(d.spec, false)
    case ReadMark(i) => At(st, i).pc.Between? && At(st, i).pc.todo != []
    case SkipSchedule(i) => At(st, i).pc.Between? && At(st, i).pc.todo != []
    case Claim(i) => At(st, i).pc.Firing? && DueMinute(At(st, i).pc).Some?
    case ClaimFails(i, _) => At(st, i).pc.Firing? && DueMinute(At(st, i).pc).Some?
    case Submit(i, _, _) => At(st, i).pc.Won?
    case StopFiring(i) => At(st, i).pc.Firing? && DueMinute(At(st, i).pc).None?
    case PutMark(i, _) => At(st, i).pc.Marking?
    case EndTick(i) => At(st, i).pc.Between? && At(st, i).pc.todo == []
    case PruneOne(i, v) => At(st, i).pc.Pruning? && v in At(st, i).pc.victims
    case PruneDone(i) => At(st, i).pc.Pruning?
    case PutSchedule(_, _) => true
    case DeleteSchedule(_) => true
    case DeleteMark(_) => true
    case Crash(_) => true
  }

  function Do(c: Config, st: Cluster, a: Action): Cluster
    requires Enabled(c, st, a)
  {
    match a
    case BeginTick(i, now, todo) => Goto(st, i, Between(now, todo))
    case ReadMark(i) => DoReadMark(c, st, i)
    case SkipSchedule(i) =>
      var pc := At(st, i).pc;
      Goto(st, i, Between(pc.now, pc.todo[1..]))
    case Claim(i) => DoClaim(st, i)
    case ClaimFails(i, applied) => DoClaimFails(st, i, applied)
    case Submit(i, ok, recorded) => DoSubmit(st, i, ok, recorded)
    case StopFiring(i) =>
      var pc := At(st, i).pc;
      Goto(st, i, Marking(pc.now, pc.todo, pc.due, if pc.fired >= MAX_FIRES_PER_TICK then pc.cursor else pc.now, false))
    case PutMark(i, ok) => DoPutMark(st, i, ok)
    case EndTick(i) => DoEndTick(c, st, i)
    case PruneOne(i, v) =>
      var pc := At(st, i).pc;
      Goto(st.(claims := st.claims - {v}), i, pc.(victims := pc.victims - {v}))
    case PruneDone(i) => Goto(st, i, Idle)
    case PutSchedule(id, s) => st.(schedules := st.schedules[id := s])
    case DeleteSchedule(id) => st.(schedules := st.schedules - {id})
    case DeleteMark(id) => st.(marks := st.marks - {id})
    case Crash(i) => st.(locals := st.locals[i := Fresh])
  }

  function DoReadMark(c: Config, st: Cluster, i: Name): Cluster
    requires At(st, i).pc.Between? && At(st, i).pc.todo != []
  {
    var pc := At(st, i).pc;
    var due, rest := pc.todo[0], pc.todo[1..];
    var st' := st.(looked := st.looked + {(due.id, pc.now)});
    if due.id !in st.marks then
      // Seen for the first time: start from now rather than from the beginning.
      Goto(st', i, Marking(pc.now, rest, due, pc.now, true))
    else
      Goto(st', i, Firing(pc.now, rest, due, Window(c, pc.now, st.marks[due.id]), 0))
  }

  function DoClaim(st: Cluster, i: Name): Cluster
    requires At(st, i).pc.Firing? && DueMinute(At(st, i).pc).Some?
  {
    var pc := At(st, i).pc;
    var m := DueMinute(pc).value;
    var f := Fire(pc.due.id, m);
    if f in st.claims then
      Goto(st, i, pc.(cursor := m * MINUTE, fired := pc.fired + 1))
    else
      Goto(st.(claims := st.claims + {f}, won := st.won + {f}), i, Won(pc.now, pc.todo, pc.due, m, pc.fired))
  }

  /** A claim that came back as an error, whether or not it reached the store. */
  function DoClaimFails(st: Cluster, i: Name, applied: bool): Cluster
    requires At(st, i).pc.Firing? && DueMinute(At(st, i).pc).Some?
  {
    var pc := At(st, i).pc;
    var f := Fire(pc.due.id, DueMinute(pc).value);
    var st' := if applied && f !in st.claims then st.(claims := st.claims + {f}, won := st.won + {f}) else st;
    Goto(st', i, Marking(pc.now, pc.todo, pc.due, (f.minute - 1) * MINUTE, false))
  }

  /** One submission, which may fail; a fire that was submitted is then recorded
      under its claim key, which may fail too. */
  function DoSubmit(st: Cluster, i: Name, ok: bool, recorded: bool): Cluster
    requires At(st, i).pc.Won?
  {
    var pc := At(st, i).pc;
    var f := Fire(pc.due.id, pc.minute);
    var st' := st.(submitted := st.submitted + [f]);
    if !ok then
      Goto(st', i, Marking(pc.now, pc.todo, pc.due, (pc.minute - 1) * MINUTE, false))
    else
      Goto(if recorded then st'.(claims := st'.claims + {f}) else st', i,
           Firing(pc.now, pc.todo, pc.due, pc.minute * MINUTE, pc.fired + 1))
  }

  function DoPutMark(st: Cluster, i: Name, ok: bool): Cluster
    requires At(st, i).pc.Marking?
  {
    var pc := At(st, i).pc;
    var id := pc.due.id;
    var st' :=
      if !ok then st
      else
        var first := if id !in st.base || st.base[id] < pc.at then pc.at else st.base[id];
        st.(marks := st.marks[id := Truncate(pc.at)], base := if pc.first then st.base[id := first] else st.base);
    Goto(st', i, Between(pc.now, pc.todo))
  }

  function DoEndTick(c: Config, st: Cluster, i: Name): Cluster
    requires At(st, i).pc.Between?
  {
    var now := At(st, i).pc.now;
    if PruneDue(c, st, i, now) then
      var cutoff := now - Retain(c, i);
      var victims := set f | f in st.claims && Instant(f) < cutoff;
      var st' := st.(cutoffs := st.cutoffs + {cutoff}, pruners := st.pruners + {now});
      st'.(locals := st'.locals[i := Local(Pruning(now, victims), Some(now))])
    else
      Goto(st, i, Idle)
  }
}
