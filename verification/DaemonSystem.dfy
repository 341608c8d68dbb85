/** The backend and the executor together: rows, timers, attempts, table, exit reports in
    flight and the clock, under every interleaving of user actions, process ends, report
    delivery, loss and duplication, sweeps, timers and reboots of either side. */
module DaemonSystem {
  import opened ExecutorTable
  import opened Options
  import opened DaemonHandlers

  /** `channel` holds the exit reports sent and not yet delivered or lost. */
  datatype World = World(n: Nodes, channel: multiset<DaemonId>, now: int)

  datatype Step =
    | UStart(id: DaemonId, zombies: seq<DaemonId>, call: StartCall)
    | UStop(id: DaemonId, fate: Fate)
    | URestart(id: DaemonId, fate: Fate, call: StartCall)
    | URemove(id: DaemonId)
    | Exit(h: nat)
    | SpawnError(h: nat)
    | Deliver(id: DaemonId)
    | Lose(id: DaemonId)
    | Duplicate(id: DaemonId)
    | Sweep(ids: seq<DaemonId>, reachable: bool)
    | Fire(id: DaemonId, call: StartCall)
    | Tick(ms: nat)
    | BackendReboot(ids: seq<DaemonId>, listOk: bool, calls: DaemonId -> StartCall)
    | ExecutorReboot

  ghost predicate Distinct<T>(s: seq<T>) {
    forall i, j | 0 <= i < j < |s| :: s[i] != s[j]
  }

  /** `Sweep` visits the 'starting' and 'running' rows of one user or of all; a boot visits every active row. */
  ghost predicate Enabled(w: World, s: Step)
  {
    match s
    case UStart(id, _, _) => w.n.At(id) == NOTHING
    case Exit(h) => h in w.n.table.children && w.n.table.children[h].spawned
    case SpawnError(h) => h in w.n.table.children && !w.n.table.children[h].spawned
    case Deliver(id) => id in w.channel
    case Lose(id) => id in w.channel
    case Duplicate(id) => id in w.channel
    case Sweep(ids, _) => Distinct(ids) && forall id <- ids :: w.n.At(id).Has({Starting, Running})
    case Fire(id, _) => w.n.At(id).timer.Some? && w.n.At(id).timer.value <= w.now
    case BackendReboot(ids, _, _) =>
      Distinct(ids) && forall id :: id in ids <==> w.n.At(id).IsActive()
    case _ => true
  }

  ghost function Next(w: World, s: Step): World
    requires Enabled(w, s)
  {
    match s
    case UStart(id, zombies, call) => w.(n := UserStart(w.n, id, zombies, call, w.now))
    case UStop(id, fate) => w.(n := UserStop(w.n, id, fate))
    case URestart(id, fate, call) => w.(n := UserRestart(w.n, id, fate, call, w.now))
    case URemove(id) => w.(n := UserRemove(w.n, id))
    case Exit(h) => World(w.n.(table := Gone(w.n.table, h)),
                          if Reports(w.n.table, h) then w.channel + multiset{w.n.table.children[h].id} else w.channel,
                          w.now)
    case SpawnError(h) => w.(n := w.n.(table := Gone(w.n.table, h)))
    case Deliver(id) => World(HandleDaemonExit(w.n, id, w.now), w.channel - multiset{id}, w.now)
    case Lose(id) => w.(channel := w.channel - multiset{id})
    case Duplicate(id) => w.(channel := w.channel + multiset{id})
    case Sweep(ids, reachable) =>
      if reachable then w.(n := ReconcileAll(w.n, Listing(w.n.table), ids, w.now)) else w
    case Fire(id, call) => w.(n := AutoRestart(w.n, id, call, w.now))
    case Tick(ms) => w.(now := w.now + ms)
    case BackendReboot(ids, listOk, calls) => w.(n := Boot(w.n, listOk, ids, calls, w.now))
    case ExecutorReboot => w.(n := w.n.(table := Table(map[], map[], w.n.table.spawns)))
  }

  ghost predicate Run(w: World, ss: seq<Step>)
    decreases |ss|
  {
    ss == [] || (Enabled(w, ss[0]) && Run(Next(w, ss[0]), ss[1..]))
  }

  ghost function After(w: World, ss: seq<Step>): World
    requires Run(w, ss)
    decreases |ss|
  {
    if ss == [] then w else After(Next(w, ss[0]), ss[1..])
  }

  lemma {:induction false} RunSnoc(w: World, ss: seq<Step>, s: Step)
    requires Run(w, ss) && Enabled(After(w, ss), s)
    ensures Run(w, ss + [s]) && After(w, ss + [s]) == Next(After(w, ss), s)
    decreases |ss|
  {
    if ss == [] {
      assert (ss + [s])[1..] == [];
    } else {
      assert (ss + [s])[1..] == ss[1..] + [s];
      RunSnoc(Next(w, ss[0]), ss[1..], s);
    }
  }

  // ── Loops over rows touch each row by itself ──────────────────────────────────

  lemma {:induction false} ReconcilePointwise(n: Nodes, listing: map<DaemonId, Listed>, ids: seq<DaemonId>, now: int, id: DaemonId)
    requires Distinct(ids)
    ensures var m := ReconcileAll(n, listing, ids, now);
            m.table == n.table && m.At(id) == if id in ids then Reconciled(n.At(id), listing, id, now) else n.At(id)
    decreases |ids|
  {
    if ids != [] {
      ReconcilePointwise(n.With(ids[0], Reconciled(n.At(ids[0]), listing, ids[0], now)), listing, ids[1..], now, id);
      assert id in ids <==> id == ids[0] || id in ids[1..];
    }
  }

  lemma {:induction false} BootPointwise(n: Nodes, listing: map<DaemonId, Listed>, ids: seq<DaemonId>, calls: DaemonId -> StartCall, now: int, id: DaemonId)
    requires Distinct(ids) && Inv(n.table)
    ensures var m := BootAll(n, listing, ids, calls, now);
            && Inv(m.table)
            && m.At(id) == (if id in ids then Booted(n.At(id), listing, id, calls(id), now) else n.At(id))
            && (id !in ids && id !in n.table.entries ==> id !in m.table.entries)
    decreases |ids|
  {
    if ids != [] {
      SpawnKeepsInv(n.table, ids[0], calls(ids[0]), now);
      BootPointwise(BootOne(n, listing, ids[0], calls(ids[0]), now), listing, ids[1..], calls, now, id);
      assert id in ids <==> id == ids[0] || id in ids[1..];
    }
  }

  lemma SpawnKeepsInv(t: Table, id: DaemonId, call: StartCall, now: int)
    requires Inv(t)
    ensures Inv(Spawn(t, id, call, now))
    ensures forall k | k != id && k !in t.entries :: k !in Spawn(t, id, call, now).entries
  {
    StartKeepsInv(t, id, call.pid, call.spawned, now);
  }

  /** What a step does to one daemon's slot. */
  ghost function SlotNext(w: World, s: Step, id: DaemonId): Slot
    requires Enabled(w, s)
  {
    var o := w.n.At(id);
    match s
    case UStart(k, _, call) =>
      if k != id then o
      else
        var b := o.(row := Some(Row(Starting, None, None)));
        if call.fate.Answered? then Begun(b, call, w.now) else b.WithStatus(Error)
    case UStop(k, _) => if k != id || !o.IsActive() then o else o.Cancelled().WithStatus(Status.Stopped)
    case URestart(k, _, call) =>
      if k != id || o.row.None? then o else Begun(o.Cancelled().(row := Some(Row(Starting, None, None))), call, w.now)
    case URemove(k) => if k == id && o.row.Some? && !o.IsActive() then o.(row := None) else o
    case Deliver(k) => if k != id || o.row.None? then o else Crashed(o, o.row.value, {Starting, Running}, w.now)
    case Sweep(ids, reachable) => if reachable && id in ids then Reconciled(o, Listing(w.n.table), id, w.now) else o
    case Fire(k, call) =>
      if k != id then o
      else if !o.Has({Restarting}) then o.(timer := None)
      else Restarted(o.(timer := None), o.row.value, call, w.now)
    case BackendReboot(ids, listOk, calls) =>
      if id in ids then Booted(o.Cancelled(), if listOk then Listing(w.n.table) else map[], id, calls(id), w.now)
      else o.Cancelled()
    case _ => o
  }

  lemma SlotOfNext(w: World, s: Step, id: DaemonId)
    requires Enabled(w, s) && Inv(w.n.table)
    ensures Next(w, s).n.At(id) == SlotNext(w, s, id)
  {
    match s
    case Sweep(ids, reachable) =>
      ReconcilePointwise(w.n, Listing(w.n.table), ids, w.now, id);
    case BackendReboot(ids, listOk, calls) =>
      BootPointwise(Amnesic(w.n), if listOk then Listing(w.n.table) else map[], ids, calls, w.now, id);
    case _ =>
  }

  // ── What every reachable state satisfies ──────────────────────────────────────

  /** A timer is pending exactly for a row in 'restarting'; attempts are counted only for
      active rows and never pass the last delay; start times are in the past; and while the
      last delay runs, the timer is due a stable run after the daemon's start time at the earliest. */
  ghost predicate SlotInv(o: Slot, now: int)
  {
    && (o.timer.Some? <==> o.Has({Restarting}))
    && (o.attempts.Some? ==> o.IsActive() && 1 <= o.attempts.value <= |RESTART_DELAYS_S|)
    && (o.row.Some? && o.row.value.startedAt.Some? ==> o.row.value.startedAt.value <= now)
    && (o.Has({Restarting}) && o.attempts == Some(5) && o.row.value.startedAt.Some? ==>
          o.timer.value >= o.row.value.startedAt.value + 1_800_000)
  }

  ghost predicate SystemInv(w: World)
  {
    Inv(w.n.table) && forall id :: SlotInv(w.n.At(id), w.now)
  }

  const INITIAL := World(Nodes(map[], EMPTY), multiset{}, 0)

  lemma TableStep(w: World, s: Step)
    requires Enabled(w, s) && Inv(w.n.table)
    ensures Inv(Next(w, s).n.table)
  {
    match s
    case UStart(id, zombies, call) =>
      StopAllKeepsInv(w.n.table, zombies);
      SpawnKeepsInv(StopAll(w.n.table, zombies), id, call, w.now);
    case UStop(id, _) => StopKeepsInv(w.n.table, id);
    case URestart(id, fate, call) =>
      StopKeepsInv(w.n.table, id);
      SpawnKeepsInv(w.n.table, id, call, w.now);
      SpawnKeepsInv(Stop(w.n.table, id), id, call, w.now);
    case Exit(h) => GoneKeepsInv(w.n.table, h);
    case SpawnError(h) => GoneKeepsInv(w.n.table, h);
    case Sweep(ids, _) => ReconcilePointwise(w.n, Listing(w.n.table), ids, w.now, "");
    case Fire(id, call) => SpawnKeepsInv(w.n.table, id, call, w.now);
    case BackendReboot(ids, listOk, calls) =>
      BootPointwise(Amnesic(w.n), if listOk then Listing(w.n.table) else map[], ids, calls, w.now, "");
    case _ =>
  }

  /** `autoRestart` drops the timer (due at `t`) before it counts a failed restart. */
  lemma CrashedKeepsInv(o: Slot, from: set<Status>, now: int, t: int)
    requires o.row.Some? && from <= {Starting, Running, Restarting}
    requires SlotInv(if Restarting in from && o.Has({Restarting}) then o.(timer := Some(t)) else o, now)
    requires Restarting in from ==> o.timer.None?
    ensures SlotInv(Crashed(o, o.row.value, from, now), now)
  {
  }

  lemma UserStepKeepsInv(w: World, s: Step, id: DaemonId)
    requires Enabled(w, s) && SlotInv(w.n.At(id), w.now) && (s.UStart? || s.UStop? || s.URestart? || s.URemove?)
    ensures SlotInv(SlotNext(w, s, id), Next(w, s).now)
  {
  }

  lemma SlotStepKeepsInv(w: World, s: Step, id: DaemonId)
    requires Enabled(w, s) && SlotInv(w.n.At(id), w.now)
    ensures SlotInv(SlotNext(w, s, id), Next(w, s).now)
  {
    var o := w.n.At(id);
    match s
    case UStart(_, _, _) => UserStepKeepsInv(w, s, id);
    case UStop(_, _) => UserStepKeepsInv(w, s, id);
    case URestart(_, _, _) => UserStepKeepsInv(w, s, id);
    case URemove(_) => UserStepKeepsInv(w, s, id);
    case Deliver(_) => if o.row.Some? { CrashedKeepsInv(o, {Starting, Running}, w.now, 0); }
    case Sweep(_, _) => if o.row.Some? { CrashedKeepsInv(o, {Running}, w.now, 0); }
    case Fire(_, call) => FireKeepsInv(o, call, w.now);
    case _ =>
  }

  lemma FireKeepsInv(o: Slot, call: StartCall, now: int)
    requires SlotInv(o, now)
    ensures SlotInv(if o.Has({Restarting}) then Restarted(o.(timer := None), o.row.value, call, now) else o.(timer := None), now)
  {
    if o.Has({Restarting}) {
      assert o.(timer := None).(timer := o.timer) == o;
      CrashedKeepsInv(o.(timer := None), {Restarting}, now, o.timer.value);
    }
  }

  lemma StepKeepsInv(w: World, s: Step)
    requires Enabled(w, s) && SystemInv(w)
    ensures SystemInv(Next(w, s))
  {
    TableStep(w, s);
    forall id ensures SlotInv(Next(w, s).n.At(id), Next(w, s).now) {
      SlotOfNext(w, s, id);
      SlotStepKeepsInv(w, s, id);
    }
  }

  /** Every state a run of the whole system reaches satisfies the invariant. */
  lemma {:induction false} ReachableStatesAreSound(w: World, ss: seq<Step>)
    requires SystemInv(w) && Run(w, ss)
    ensures SystemInv(After(w, ss))
    decreases |ss|
  {
    if ss != [] {
      StepKeepsInv(w, ss[0]);
      ReachableStatesAreSound(Next(w, ss[0]), ss[1..]);
    }
  }

  lemma InitialIsSound()
    ensures SystemInv(INITIAL)
  {
  }
}
