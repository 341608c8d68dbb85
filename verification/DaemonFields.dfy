/** The daemon protocol read field by field: what a step of the two nodes leaves in the row's
    status, pid and start time, in the timer and in the count, told by what the step is and by the
    executor's table alone. And what that means for crashes after a stable run. */
module DaemonFields {
  import opened ExecutorTable
  import opened Options
  import opened DaemonHandlers
  import opened DaemonSystem

  // ── What a step is to one daemon ──────────────────────────────────────────────

  /** The executor has an entry of the daemon. */
  predicate Alive(w: World, id: DaemonId) {
    id in w.n.table.entries
  }

  predicate HasRow(w: World, id: DaemonId) {
    w.n.At(id).row.Some?
  }

  /** The step makes a start call for the daemon: the user's start or restart, a due timer of a
      row that still waits, a boot that finds no process of an active row. */
  predicate CallsStart(w: World, s: Step, id: DaemonId) {
    match s
    case UStart(k, _, _) => k == id
    case URestart(k, _, _) => k == id && HasRow(w, id)
    case Fire(k, _) => k == id && w.n.At(id).Has({Restarting})
    case BackendReboot(ids, listOk, _) => id in ids && !(listOk && Alive(w, id))
    case _ => false
  }

  function CallFor(w: World, s: Step, id: DaemonId): StartCall
    requires CallsStart(w, s, id)
  {
    match s
    case UStart(_, _, call) => call
    case URestart(_, _, call) => call
    case Fire(_, call) => call
    case BackendReboot(_, _, calls) => calls(id)
  }

  /** The start call is answered: the daemon is up from now on. */
  predicate Starts(w: World, s: Step, id: DaemonId) {
    CallsStart(w, s, id) && CallFor(w, s, id).fate.Answered?
  }

  /** The user starts or restarts the daemon: its row begins anew. */
  predicate Renews(w: World, s: Step, id: DaemonId) {
    (s.UStart? && s.id == id) || (s.URestart? && s.id == id && HasRow(w, id))
  }

  /** A sweep or a boot finds the daemon's process. */
  predicate Finds(w: World, s: Step, id: DaemonId) {
    || (s.Sweep? && s.reachable && id in s.ids && Alive(w, id))
    || (s.BackendReboot? && s.listOk && id in s.ids && Alive(w, id))
  }

  predicate Stops(w: World, s: Step, id: DaemonId) {
    s.UStop? && s.id == id && w.n.At(id).IsActive()
  }

  /** The step counts as a crash of the daemon. */
  predicate Crashes(w: World, s: Step, id: DaemonId) {
    || (s == Deliver(id) && w.n.At(id).Has({Starting, Running}))
    || (s.Sweep? && s.reachable && id in s.ids && w.n.At(id).Has({Running}) && !Alive(w, id))
    || (CallsStart(w, s, id) && s.Fire? && !Starts(w, s, id))
  }

  /** The row tells of fifteen minutes or more. */
  predicate RanStable(w: World, id: DaemonId)
    requires HasRow(w, id)
  {
    var startedAt := w.n.At(id).row.value.startedAt;
    startedAt.Some? && w.now - startedAt.value >= 900_000
  }

  /** The attempts that count against the daemon. */
  function Spent(w: World, id: DaemonId): nat
    requires HasRow(w, id)
  {
    if RanStable(w, id) then 0 else w.n.At(id).attempts.GetOr(0)
  }

  /** Five seconds, half a minute, two, ten and thirty minutes. */
  function DelayMs(attempt: nat): int
    requires attempt < 5
  {
    match attempt
    case 0 => 5_000
    case 1 => 30_000
    case 2 => 120_000
    case 3 => 600_000
    case _ => 1_800_000
  }

  // ── The fields of the row ─────────────────────────────────────────────────────

  lemma ListedIffAlive(t: Table, id: DaemonId)
    requires Inv(t)
    ensures id in Listing(t) <==> id in t.entries
    ensures id in t.entries ==> Owns(t, id, t.entries[id]) && Listing(t)[id] == Listed(t.children[t.entries[id]].pid, true)
  {
    assert id in t.entries ==> Owns(t, id, t.entries[id]);
  }

  /** A row is there after a step exactly when it was and is not removed, or the user starts it. */
  predicate RowIs(w: World, s: Step, id: DaemonId, p: Slot) {
    p.row.Some? <==> (HasRow(w, id) && !(s == URemove(id) && !w.n.At(id).IsActive())) || (s.UStart? && s.id == id)
  }

  /** The start time is that of the last answered start: nothing else sets it, and only the
      user's restart erases it. A sweep or a boot that finds the process keeps it. */
  predicate StartTimeIs(w: World, s: Step, id: DaemonId, p: Slot) {
    p.row.Some? ==>
      if Starts(w, s, id) then p.row.value.startedAt == Some(w.now)
      else if Renews(w, s, id) then p.row.value.startedAt == None
      else HasRow(w, id) && p.row.value.startedAt == w.n.At(id).row.value.startedAt
  }

  /** The pid is the new process's after an answered start (-1 when its spawn failed), the
      entry's where a sweep or boot finds it, and otherwise the one it was. */
  predicate PidIs(w: World, s: Step, id: DaemonId, p: Slot) {
    p.row.Some? ==>
      if Starts(w, s, id) then p.row.value.pid == Some(if CallFor(w, s, id).spawned then CallFor(w, s, id).pid else -1)
      else if Finds(w, s, id) then Alive(w, id) && p.row.value.pid == Some(EntryPid(w, id))
      else if Renews(w, s, id) then p.row.value.pid == None
      else HasRow(w, id) && p.row.value.pid == w.n.At(id).row.value.pid
  }

  function EntryPid(w: World, id: DaemonId): int
    requires Alive(w, id)
  {
    var h := w.n.table.entries[id];
    if h in w.n.table.children then w.n.table.children[h].pid else 0
  }

  predicate StatusIs(w: World, s: Step, id: DaemonId, p: Slot) {
    p.row.Some? ==>
      if Starts(w, s, id) || Finds(w, s, id) then p.row.value.status == Running
      else if s.UStart? && s.id == id then p.row.value.status == Error
      else HasRow(w, id) && p.row.value.status == OtherStatus(w, s, id)
  }

  /** The status where no process is started or found. */
  function OtherStatus(w: World, s: Step, id: DaemonId): Status
    requires HasRow(w, id)
  {
    if Renews(w, s, id) then Starting
    else if Stops(w, s, id) then Status.Stopped
    else if s.BackendReboot? && id in s.ids then Error
    else if Crashes(w, s, id) then if Spent(w, id) < 5 then Restarting else Error
    else w.n.At(id).row.value.status
  }

  /** The user's stop or restart, a new backend process: timer and count are gone. */
  predicate Forgets(w: World, s: Step, id: DaemonId) {
    Stops(w, s, id) || (s.URestart? && s.id == id && HasRow(w, id)) || s.BackendReboot?
  }

  /** The pending restart is due after the delay of the attempt. */
  predicate TimerIs(w: World, s: Step, id: DaemonId, p: Slot) {
    if Crashes(w, s, id) then
      HasRow(w, id) && p.timer == if Spent(w, id) < 5 then Some(w.now + DelayMs(Spent(w, id))) else None
    else if Forgets(w, s, id) || (s.Fire? && s.id == id) then p.timer == None
    else p.timer == w.n.At(id).timer
  }

  /** A crash adds one to the count, or starts over at one after a stable run, or is the last;
      a report of a row with a stable run behind it forgets the count even where it counts nothing. */
  predicate CountIs(w: World, s: Step, id: DaemonId, p: Slot) {
    if Crashes(w, s, id) then HasRow(w, id) && p.attempts == if Spent(w, id) < 5 then Some(Spent(w, id) + 1) else None
    else if Forgets(w, s, id) then p.attempts == None
    else if s == Deliver(id) && HasRow(w, id) && RanStable(w, id) then p.attempts == None
    else p.attempts == w.n.At(id).attempts
  }

  predicate FieldsAre(w: World, s: Step, id: DaemonId, p: Slot) {
    && RowIs(w, s, id, p) && StartTimeIs(w, s, id, p) && PidIs(w, s, id, p)
    && StatusIs(w, s, id, p) && TimerIs(w, s, id, p) && CountIs(w, s, id, p)
  }

  lemma FieldsAfterUser(w: World, s: Step, id: DaemonId)
    requires Enabled(w, s) && SlotInv(w.n.At(id), w.now) && (s.UStart? || s.UStop? || s.URestart? || s.URemove?)
    ensures FieldsAre(w, s, id, SlotNext(w, s, id))
  {
  }

  lemma FieldsAfterReport(w: World, s: Step, id: DaemonId)
    requires Enabled(w, s) && SlotInv(w.n.At(id), w.now) && s.Deliver?
    ensures FieldsAre(w, s, id, SlotNext(w, s, id))
  {
  }

  lemma FieldsAfterSweep(w: World, s: Step, id: DaemonId)
    requires Enabled(w, s) && SlotInv(w.n.At(id), w.now) && Inv(w.n.table) && s.Sweep?
    ensures FieldsAre(w, s, id, SlotNext(w, s, id))
  {
    ListedIffAlive(w.n.table, id);
  }

  lemma FieldsAfterTimer(w: World, s: Step, id: DaemonId)
    requires Enabled(w, s) && SlotInv(w.n.At(id), w.now) && s.Fire?
    ensures FieldsAre(w, s, id, SlotNext(w, s, id))
  {
  }

  lemma FieldsAfterBoot(w: World, s: Step, id: DaemonId)
    requires Enabled(w, s) && SlotInv(w.n.At(id), w.now) && Inv(w.n.table) && s.BackendReboot?
    ensures FieldsAre(w, s, id, SlotNext(w, s, id))
  {
    ListedIffAlive(w.n.table, id);
  }

  /** Every field of every daemon after every step. */
  lemma FieldsAfterStep(w: World, s: Step, id: DaemonId)
    requires SystemInv(w) && Enabled(w, s)
    ensures FieldsAre(w, s, id, Next(w, s).n.At(id))
  {
    SlotOfNext(w, s, id);
    assert SlotInv(w.n.At(id), w.now);
    match s
    case UStart(_, _, _) => FieldsAfterUser(w, s, id);
    case UStop(_, _) => FieldsAfterUser(w, s, id);
    case URestart(_, _, _) => FieldsAfterUser(w, s, id);
    case URemove(_) => FieldsAfterUser(w, s, id);
    case Deliver(_) => FieldsAfterReport(w, s, id);
    case Sweep(_, _) => FieldsAfterSweep(w, s, id);
    case Fire(_, _) => FieldsAfterTimer(w, s, id);
    case BackendReboot(_, _, _) => FieldsAfterBoot(w, s, id);
    case _ =>
  }

  /** A sweep or a boot keeps the start time of every row whose process it finds; a sweep keeps
      the timer and the count too. */
  lemma FindingKeepsTheStartTime(w: World, s: Step, id: DaemonId)
    requires SystemInv(w) && Enabled(w, s) && (s.Sweep? || s.BackendReboot?)
    requires id in s.ids && id in Listing(w.n.table) && (s.BackendReboot? ==> s.listOk)
    ensures var o, p := w.n.At(id), Next(w, s).n.At(id);
            && o.row.Some? && p.row.Some? && p.row.value.startedAt == o.row.value.startedAt
            && (s.Sweep? ==> p.timer == o.timer && p.attempts == o.attempts)
  {
    FieldsAfterStep(w, s, id);
  }

  // ── The start time over runs ──────────────────────────────────────────────────

  /** No step of the run starts the daemon, and the user neither restarts nor removes it. */
  ghost predicate NoStart(w: World, ss: seq<Step>, id: DaemonId)
    requires Run(w, ss)
    decreases |ss|
  {
    ss == [] || (&& !Starts(w, ss[0], id) && !Renews(w, ss[0], id) && ss[0] != URemove(id)
                 && NoStart(Next(w, ss[0]), ss[1..], id))
  }

  /** Over any such run, however many sweeps, reports, timers and boots are in it, the row keeps
      its start time. */
  lemma {:induction false} StartTimeStays(w: World, ss: seq<Step>, id: DaemonId)
    requires SystemInv(w) && Run(w, ss) && HasRow(w, id) && NoStart(w, ss, id)
    ensures HasRow(After(w, ss), id)
    ensures After(w, ss).n.At(id).row.value.startedAt == w.n.At(id).row.value.startedAt
    ensures SystemInv(After(w, ss))
    decreases |ss|
  {
    if ss != [] {
      FieldsAfterStep(w, ss[0], id);
      StepKeepsInv(w, ss[0]);
      StartTimeStays(Next(w, ss[0]), ss[1..], id);
    }
  }

  /** What the next crash that counts makes of a row with a start time. */
  ghost predicate CountsFrom(v: World, crash: Step, id: DaemonId, startedAt: int)
    requires Enabled(v, crash)
  {
    var p, k := Next(v, crash).n.At(id), v.n.At(id).attempts.GetOr(0);
    if v.now - startedAt >= 900_000 then p.Has({Restarting}) && p.attempts == Some(1) && p.timer == Some(v.now + 5_000)
    else if k < 5 then p.Has({Restarting}) && p.attempts == Some(k + 1) && p.timer == Some(v.now + DelayMs(k))
    else p.Has({Error}) && p.attempts == None && p.timer == None
  }

  lemma CrashCountsFrom(v: World, crash: Step, id: DaemonId, startedAt: int)
    requires SystemInv(v) && Enabled(v, crash) && Crashes(v, crash, id)
    requires HasRow(v, id) && v.n.At(id).row.value.startedAt == Some(startedAt)
    ensures CountsFrom(v, crash, id, startedAt)
  {
    FieldsAfterStep(v, crash, id);
  }

  lemma StartTimeOfStart(w: World, s: Step, ss: seq<Step>, id: DaemonId)
    requires SystemInv(w) && Enabled(w, s) && Starts(w, s, id)
    requires Run(Next(w, s), ss) && NoStart(Next(w, s), ss, id)
    ensures var v := After(Next(w, s), ss);
            SystemInv(v) && HasRow(v, id) && v.n.At(id).row.value.startedAt == Some(w.now)
  {
    FieldsAfterStep(w, s, id);
    StepKeepsInv(w, s);
    StartTimeStays(Next(w, s), ss, id);
  }

  /** A daemon is started at one moment; whatever happens short of another start, its next crash
      that counts is forgiven, and retried in five seconds, exactly when fifteen minutes or more
      lie in between; otherwise it is one more, retried after its own delay, or the last. */
  lemma CrashAfterStart(w: World, s: Step, ss: seq<Step>, crash: Step, id: DaemonId)
    requires SystemInv(w) && Enabled(w, s) && Starts(w, s, id)
    requires Run(Next(w, s), ss) && NoStart(Next(w, s), ss, id)
    requires Enabled(After(Next(w, s), ss), crash) && Crashes(After(Next(w, s), ss), crash, id)
    ensures CountsFrom(After(Next(w, s), ss), crash, id, w.now)
  {
    StartTimeOfStart(w, s, ss, id);
    CrashCountsFrom(After(Next(w, s), ss), crash, id, w.now);
  }

  // ── The executor's side ───────────────────────────────────────────────────────

  /** The start call reaches the executor. */
  predicate Spawns(w: World, s: Step, id: DaemonId) {
    CallsStart(w, s, id) && !CallFor(w, s, id).fate.Refused?
  }

  /** The executor is told to stop the daemon's process. */
  predicate ToldToStop(w: World, s: Step, id: DaemonId) {
    || (Stops(w, s, id) && !s.fate.Refused?)
    || (s.URestart? && s.id == id && w.n.At(id).Has({Starting, Running}) && !s.fate.Refused?)
    || (s.UStart? && id in s.zombies)
  }

  /** The daemon's process ends. */
  predicate Ends(w: World, s: Step, id: DaemonId) {
    || s.ExecutorReboot?
    || (Alive(w, id) && (s == Exit(w.n.table.entries[id]) || s == SpawnError(w.n.table.entries[id])))
  }

  /** What the table says of the daemon after a step: a new process with the call's pid, started
      now; nothing once it was stopped or ended; else what it said. */
  ghost predicate EntryIs(w: World, s: Step, id: DaemonId, t: Table) {
    if Spawns(w, s, id) then
      && id in t.entries && t.entries[id] in t.children && t.entries[id] >= w.n.table.spawns
      && var call := CallFor(w, s, id);
         t.children[t.entries[id]]
         == Child(id, if call.spawned then call.pid else -1, w.now, call.spawned, false, false)
    else if ToldToStop(w, s, id) || Ends(w, s, id) then id !in t.entries
    else
      && (id in t.entries <==> Alive(w, id))
      && (Alive(w, id) && w.n.table.entries[id] in w.n.table.children ==>
            && t.entries[id] == w.n.table.entries[id] && t.entries[id] in t.children
            && t.children[t.entries[id]] == w.n.table.children[w.n.table.entries[id]])
  }

  lemma {:induction false} EntryAfterStopAll(t: Table, ids: seq<DaemonId>, id: DaemonId)
    requires Inv(t)
    ensures var u := StopAll(t, ids);
            && Inv(u) && u.spawns == t.spawns
            && (id in u.entries <==> id in t.entries && id !in ids)
            && (id in u.entries ==> u.entries[id] == t.entries[id] && u.children[u.entries[id]] == t.children[t.entries[id]])
    decreases |ids|
  {
    if ids != [] {
      StopKeepsInv(t, ids[0]);
      EntryAfterStopAll(Stop(t, ids[0]), ids[1..], id);
    }
  }

  lemma {:induction false} EntryAfterBootAll(n: Nodes, listing: map<DaemonId, Listed>, ids: seq<DaemonId>,
                                             calls: DaemonId -> StartCall, now: int, id: DaemonId)
    requires Inv(n.table) && Distinct(ids) && forall k | k in listing :: listing[k].running
    ensures var t := BootAll(n, listing, ids, calls, now).table;
            if id in ids && id !in listing && !calls(id).fate.Refused? then
              && id in t.entries && t.entries[id] in t.children && t.entries[id] >= n.table.spawns
              && t.children[t.entries[id]]
                 == Child(id, if calls(id).spawned then calls(id).pid else -1, now, calls(id).spawned, false, false)
            else
              && (id in t.entries <==> id in n.table.entries)
              && (id in n.table.entries ==> && t.entries[id] == n.table.entries[id] && t.entries[id] in t.children
                                            && t.children[t.entries[id]] == n.table.children[n.table.entries[id]])
    decreases |ids|
  {
    if ids != [] {
      var m := BootOne(n, listing, ids[0], calls(ids[0]), now);
      SpawnKeepsInv(n.table, ids[0], calls(ids[0]), now);
      EntryAfterBootAll(m, listing, ids[1..], calls, now, id);
    }
  }

  lemma EntryAfterUserStart(w: World, s: Step, id: DaemonId)
    requires Enabled(w, s) && Inv(w.n.table) && s.UStart?
    ensures EntryIs(w, s, id, Next(w, s).n.table)
  {
    EntryAfterStopAll(w.n.table, s.zombies, id);
  }

  lemma EntryAfterUserStop(w: World, s: Step, id: DaemonId)
    requires Enabled(w, s) && Inv(w.n.table) && (s.UStop? || s.URemove?)
    ensures EntryIs(w, s, id, Next(w, s).n.table)
  {
  }

  lemma EntryAfterUserRestart(w: World, s: Step, id: DaemonId)
    requires Enabled(w, s) && Inv(w.n.table) && s.URestart?
    ensures EntryIs(w, s, id, Next(w, s).n.table)
  {
  }

  lemma EntryAfterEnd(w: World, s: Step, id: DaemonId)
    requires Enabled(w, s) && Inv(w.n.table) && (s.Exit? || s.SpawnError?)
    ensures EntryIs(w, s, id, Next(w, s).n.table)
  {
  }

  /** Every entry of the executor's table after every step. */
  lemma EntryAfterStep(w: World, s: Step, id: DaemonId)
    requires SystemInv(w) && Enabled(w, s)
    ensures EntryIs(w, s, id, Next(w, s).n.table)
  {
    match s
    case UStart(_, _, _) => EntryAfterUserStart(w, s, id);
    case UStop(_, _) => EntryAfterUserStop(w, s, id);
    case URestart(_, _, _) => EntryAfterUserRestart(w, s, id);
    case URemove(_) => EntryAfterUserStop(w, s, id);
    case Exit(_) => EntryAfterEnd(w, s, id);
    case SpawnError(_) => EntryAfterEnd(w, s, id);
    case Sweep(ids, _) => ReconcilePointwise(w.n, Listing(w.n.table), ids, w.now, id);
    case BackendReboot(ids, listOk, calls) =>
      ListedIffAlive(w.n.table, id);
      EntryAfterBoot(w, s, id);
    case _ =>
  }

  lemma EntryAfterBoot(w: World, s: Step, id: DaemonId)
    requires SystemInv(w) && Enabled(w, s) && s.BackendReboot?
    ensures EntryIs(w, s, id, Next(w, s).n.table)
  {
    var listing := if s.listOk then Listing(w.n.table) else map[];
    forall k | k in listing
      ensures listing[k].running
    {
      ListedIffAlive(w.n.table, k);
    }
    ListedIffAlive(w.n.table, id);
    EntryAfterBootAll(Amnesic(w.n), listing, s.ids, s.calls, w.now, id);
  }

  /** A report goes out exactly for the end of a spawned process that nobody asked to stop. */
  lemma ReportsAfterStep(w: World, s: Step, id: DaemonId)
    requires Enabled(w, s)
    ensures var sent := s.Exit? && w.n.table.children[s.h].id == id && !w.n.table.children[s.h].stopping;
            Next(w, s).channel[id]
            == w.channel[id] + (if sent || s == Duplicate(id) then 1 else 0) - (if s == Deliver(id) || s == Lose(id) then 1 else 0)
  {
  }
}
