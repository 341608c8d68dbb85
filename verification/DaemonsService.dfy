/** The backend's daemon service (backend/src/daemons/daemons.service.ts) with its maps and
    rows updated in place, calling the executor's manager object. Every handler is proved to
    act as the function of `DaemonHandlers` of the same name, so what `DaemonSystem`,
    `DaemonGuarantees` and `RestartBound` prove of those functions holds of these methods. */
module DaemonsService {
  import opened Collections
  import opened ExecutorTable
  import opened Options
  import opened DaemonHandlers
  import DaemonManager

  class Service {
    var rows: map<DaemonId, Row>
    var restartTimers: map<DaemonId, int>
    var restartAttempts: map<DaemonId, nat>
    const executor: DaemonManager.Manager
    /** What the fields and the executor stand for. */
    ghost var nodes: Nodes

    ghost predicate Valid()
      reads this, executor, executor.spawned
    {
      executor.Valid() && nodes.table == executor.table && Mirrors()
    }

    ghost predicate Mirrors()
      reads this
    {
      forall id :: nodes.At(id) == Slot(Lookup(rows, id), Lookup(restartTimers, id), Lookup(restartAttempts, id))
    }

    constructor (executor: DaemonManager.Manager)
      requires executor.Valid()
      ensures Valid() && this.executor == executor && nodes == Nodes(map[], executor.table)
    {
      this.executor := executor;
      rows, restartTimers, restartAttempts := map[], map[], map[];
      nodes := Nodes(map[], executor.table);
    }

    method CancelRestart(id: DaemonId, resetAttempts: bool := true)
      requires Valid()
      modifies this`restartTimers, this`restartAttempts, this`nodes
      ensures Valid()
      ensures nodes == old(nodes).With(id, if resetAttempts then old(nodes).At(id).Cancelled() else old(nodes).At(id).(timer := None))
    {
      restartTimers := Without(restartTimers, id);
      if resetAttempts {
        restartAttempts := Without(restartAttempts, id);
      }
      nodes := nodes.With(id, if resetAttempts then nodes.At(id).Cancelled() else nodes.At(id).(timer := None));
    }

    method UpdateRow(id: DaemonId, row: Row)
      requires Valid()
      modifies this`rows, this`nodes
      ensures Valid() && nodes == old(nodes).With(id, old(nodes).At(id).(row := Some(row)))
      ensures rows == old(rows)[id := row]
    {
      rows := rows[id := row];
      nodes := nodes.With(id, nodes.At(id).(row := Some(row)));
    }

    /** `daemon` is the row as the caller read it. */
    method Crashed(id: DaemonId, daemon: Row, from: set<Status>, now: int)
      requires Valid() && id in rows
      modifies this`rows, this`restartTimers, this`restartAttempts, this`nodes
      ensures Valid() && nodes == old(nodes).With(id, DaemonHandlers.Crashed(old(nodes).At(id), daemon, from, now))
      ensures rows.Keys == old(rows).Keys
    {
      var forgiven := RanMs(daemon, now) >= STABLE_RUN_MS;
      ghost var before := nodes.At(id);
      if forgiven {
        SetAttempts(id, None);
      }
      var attempt := if id in restartAttempts then restartAttempts[id] else 0;
      if rows[id].status in from {
        Settle(id, attempt, now);
      }
      assert nodes.At(id) == DaemonHandlers.Crashed(before, daemon, from, now);
    }

    /** The row was in a crashable status: schedule the next restart, or give up. */
    method Settle(id: DaemonId, attempt: nat, now: int)
      requires Valid() && id in rows
      modifies this`rows, this`restartTimers, this`restartAttempts, this`nodes
      ensures Valid() && rows.Keys == old(rows).Keys
      ensures var s := old(nodes).At(id);
              nodes == old(nodes).With(id,
                if attempt >= |RESTART_DELAYS_S| then s.WithStatus(Error).(attempts := None)
                else s.WithStatus(Restarting).(timer := Some(now + RESTART_DELAYS_S[attempt] * 1000), attempts := Some(attempt + 1)))
    {
      if attempt >= |RESTART_DELAYS_S| {
        UpdateRow(id, rows[id].(status := Error));
        SetAttempts(id, None);
      } else {
        UpdateRow(id, rows[id].(status := Restarting));
        SetAttempts(id, Some(attempt + 1));
        SetTimer(id, now + RESTART_DELAYS_S[attempt] * 1000);
      }
    }

    method SetTimer(id: DaemonId, due: int)
      requires Valid()
      modifies this`restartTimers, this`nodes
      ensures Valid() && nodes == old(nodes).With(id, old(nodes).At(id).(timer := Some(due)))
    {
      restartTimers := restartTimers[id := due];
      nodes := nodes.With(id, nodes.At(id).(timer := Some(due)));
    }

    method SetAttempts(id: DaemonId, count: Option<nat>)
      requires Valid()
      modifies this`restartAttempts, this`nodes
      ensures Valid() && nodes == old(nodes).With(id, old(nodes).At(id).(attempts := count))
    {
      restartAttempts := if count.Some? then restartAttempts[id := count.value] else Without(restartAttempts, id);
      nodes := nodes.With(id, nodes.At(id).(attempts := count));
    }

    /** The start call to the executor; false when it throws here, whatever the executor did. */
    method DoStart(id: DaemonId, call: StartCall, now: int) returns (ok: bool)
      requires Valid() && id in rows
      modifies this`rows, this`nodes, executor, executor.spawned
      ensures Valid() && ok == call.fate.Answered? && rows.Keys == old(rows).Keys
      ensures nodes == Nodes(old(nodes).slots[id := Begun(old(nodes).At(id), call, now)], Spawn(old(nodes).table, id, call, now))
      ensures NewOrOld(old(executor.spawned), executor.spawned)
    {
      if call.fate.Refused? {
        nodes := nodes.With(id, nodes.At(id));
        return false;
      }
      var entry := StartOnExecutor(id, call, now);
      if call.fate.Lost? {
        nodes := nodes.With(id, nodes.At(id));
        return false;
      }
      UpdateRow(id, Row(Running, Some(entry.pid), Some(entry.startedAt)));
      return true;
    }

    method StartOnExecutor(id: DaemonId, call: StartCall, now: int) returns (entry: DaemonManager.DaemonEntry)
      requires Valid()
      modifies this`nodes, executor, executor.spawned
      ensures Valid() && nodes == old(nodes).(table := ExecutorTable.Start(old(nodes).table, id, call.pid, call.spawned, now))
      ensures entry.pid == ChildPid(call.pid, call.spawned) && entry.startedAt == now
      ensures NewOrOld(old(executor.spawned), executor.spawned)
    {
      entry := executor.StartDaemon(id, call.pid, call.spawned, now);
      nodes := nodes.(table := executor.table);
    }

    method StopOnExecutor(id: DaemonId, fate: Fate)
      requires Valid()
      modifies this`nodes, executor, executor.spawned
      ensures Valid() && nodes == old(nodes).(table := StopCall(old(nodes).table, id, fate))
      ensures executor.spawned == old(executor.spawned)
    {
      if !fate.Refused? {
        var _ := executor.StopDaemon(id);
        nodes := nodes.(table := executor.table);
      }
    }

    /** `start` once its checks passed, for a new record `id`; `zombies` are the live processes of
        the same script that it could stop. Returns false when it throws. */
    method Start(id: DaemonId, zombies: seq<DaemonId>, call: StartCall, now: int) returns (ok: bool)
      requires Valid() && nodes.At(id) == NOTHING
      modifies this, executor, executor.spawned
      ensures Valid() && nodes == UserStart(old(nodes), id, zombies, call, now)
      ensures ok <==> nodes.At(id).Has({Running})
    {
      StopZombies(zombies);
      ghost var s := nodes.At(id).(row := Some(Row(Starting, None, None)));
      UpdateRow(id, Row(Starting, None, None));
      SetTwice(old(nodes).slots, id, s, Begun(s, call, now));
      ok := DoStart(id, call, now);
      if !ok {
        SetTwice(old(nodes).slots, id, s, s.WithStatus(Error));
        UpdateRow(id, rows[id].(status := Error));
      }
    }

    method StopZombies(zombies: seq<DaemonId>)
      requires Valid()
      modifies this`nodes, executor, executor.spawned
      ensures Valid() && nodes == old(nodes).(table := StopAll(old(nodes).table, zombies))
      ensures executor.spawned == old(executor.spawned)
    {
      var i := 0;
      while i < |zombies|
        invariant 0 <= i <= |zombies| && Valid()
        invariant nodes.slots == old(nodes).slots && executor.spawned == old(executor.spawned)
        invariant StopAll(nodes.table, zombies[i..]) == StopAll(old(nodes).table, zombies)
      {
        StopOnExecutor(zombies[i], Answered);
        i := i + 1;
      }
    }

    /** Returns false when it throws: the daemon is unknown or not active. */
    method Stop(id: DaemonId, fate: Fate) returns (ok: bool)
      requires Valid()
      modifies this, executor, executor.spawned
      ensures Valid() && nodes == UserStop(old(nodes), id, fate) && ok == old(nodes).At(id).IsActive()
    {
      if id !in rows || !Active(rows[id].status) {
        return false;
      }
      CancelRestart(id);
      StopOnExecutor(id, fate);
      UpdateRow(id, rows[id].(status := Status.Stopped));
      return true;
    }

    /** Returns false when it throws: no such daemon, or the start failed and the row stays 'starting'. */
    method Restart(id: DaemonId, fate: Fate, call: StartCall, now: int) returns (ok: bool)
      requires Valid()
      modifies this, executor, executor.spawned
      ensures Valid() && nodes == UserRestart(old(nodes), id, fate, call, now)
      ensures ok <==> nodes.At(id).Has({Running}) && old(nodes).At(id).row.Some?
    {
      if id !in rows {
        return false;
      }
      ghost var s := nodes.At(id).Cancelled().(row := Some(Row(Starting, None, None)));
      Reset(id, fate);
      assert nodes.At(id) == s;
      SetTwice(old(nodes).slots, id, s, Begun(s, call, now));
      ok := DoStart(id, call, now);
    }

    /** The stopping half of a restart. */
    method Reset(id: DaemonId, fate: Fate)
      requires Valid() && id in rows
      modifies this, executor, executor.spawned
      ensures Valid() && rows.Keys == old(rows).Keys && executor.spawned == old(executor.spawned)
      ensures var s := old(nodes).At(id);
              nodes == Nodes(old(nodes).slots[id := s.Cancelled().(row := Some(Row(Starting, None, None)))],
                             if s.Has({Starting, Running}) then StopCall(old(nodes).table, id, fate) else old(nodes).table)
    {
      var daemon := rows[id];
      CancelRestart(id);
      if daemon.status in {Starting, Running} {
        StopOnExecutor(id, fate);
      }
      UpdateRow(id, Row(Starting, None, None));
    }

    method Remove(id: DaemonId) returns (ok: bool)
      requires Valid()
      modifies this`rows, this`nodes
      ensures Valid() && nodes == UserRemove(old(nodes), id)
      ensures ok <==> old(nodes).At(id).row.Some? && !old(nodes).At(id).IsActive()
    {
      if id !in rows || Active(rows[id].status) {
        return false;
      }
      rows := Without(rows, id);
      nodes := nodes.With(id, nodes.At(id).(row := None));
      return true;
    }

    method HandleDaemonExit(id: DaemonId, now: int)
      requires Valid()
      modifies this
      ensures Valid() && nodes == DaemonHandlers.HandleDaemonExit(old(nodes), id, now)
    {
      if id in rows {
        Crashed(id, rows[id], {Starting, Running}, now);
      }
    }

    method AutoRestart(id: DaemonId, call: StartCall, now: int)
      requires Valid()
      modifies this, executor, executor.spawned
      ensures Valid() && nodes == DaemonHandlers.AutoRestart(old(nodes), id, call, now)
    {
      CancelRestart(id, false);
      if id !in rows || rows[id].status != Restarting {
        return;
      }
      var daemon := rows[id];
      ghost var s := nodes.At(id);
      SetTwice(old(nodes).slots, id, s, Begun(s, call, now));
      var ok := DoStart(id, call, now);
      if !ok {
        SetTwice(old(nodes).slots, id, s, DaemonHandlers.Crashed(s, daemon, {Restarting}, now));
        Crashed(id, daemon, {Restarting}, now);
      }
    }

    /** One sweep over `ids`, the rows read as 'starting' or 'running'. */
    method Reconcile(ids: seq<DaemonId>, reachable: bool, now: int)
      requires Valid() && forall id <- ids :: nodes.At(id).Has({Starting, Running})
      modifies this
      ensures Valid()
      ensures nodes == if reachable then ReconcileAll(old(nodes), Listing(old(nodes).table), ids, now) else old(nodes)
    {
      if !reachable {
        return;
      }
      var liveMap := executor.ListDaemons();
      var i := 0;
      while i < |ids|
        invariant 0 <= i <= |ids| && Valid() && nodes.table == old(nodes).table
        invariant ReconcileAll(nodes, liveMap, ids[i..], now) == ReconcileAll(old(nodes), liveMap, ids, now)
        invariant forall id <- ids :: id in rows
      {
        ReconcileRow(ids[i], liveMap, now);
        i := i + 1;
      }
    }

    method ReconcileRow(id: DaemonId, liveMap: map<DaemonId, Listed>, now: int)
      requires Valid() && id in rows
      modifies this`rows, this`restartTimers, this`restartAttempts, this`nodes
      ensures Valid() && nodes == old(nodes).With(id, Reconciled(old(nodes).At(id), liveMap, id, now))
      ensures rows.Keys == old(rows).Keys
    {
      var daemon := rows[id];
      if daemon.status !in {Starting, Running} {
        nodes := nodes.With(id, nodes.At(id));
      } else if id in liveMap && liveMap[id].running {
        UpdateRow(id, daemon.(status := Running, pid := Some(liveMap[id].pid)));
      } else if daemon.status == Running {
        Crashed(id, daemon, {Running}, now);
      } else {
        nodes := nodes.With(id, nodes.At(id));
      }
    }

    /** A new process: the maps in memory are empty. */
    method Forget()
      requires Valid()
      modifies this`restartTimers, this`restartAttempts, this`nodes
      ensures Valid() && nodes == Amnesic(old(nodes))
    {
      restartTimers, restartAttempts := map[], map[];
      nodes := Amnesic(nodes);
    }

    /** The boot of a new process over `ids`, the rows read as active. */
    method OnModuleInit(ids: seq<DaemonId>, listOk: bool, calls: DaemonId -> StartCall, now: int)
      requires Valid() && forall id <- ids :: id in rows
      modifies this, executor, executor.spawned
      ensures Valid() && nodes == Boot(old(nodes), listOk, ids, calls, now)
    {
      Forget();
      var liveMap: map<DaemonId, Listed> := map[];
      if listOk {
        liveMap := executor.ListDaemons();
      }
      BootRows(ids, liveMap, calls, now);
    }

    method BootRows(ids: seq<DaemonId>, liveMap: map<DaemonId, Listed>, calls: DaemonId -> StartCall, now: int)
      requires Valid() && forall id <- ids :: id in rows
      modifies this`rows, this`nodes, executor, executor.spawned
      ensures Valid() && nodes == BootAll(old(nodes), liveMap, ids, calls, now)
    {
      var i := 0;
      while i < |ids|
        invariant 0 <= i <= |ids| && Valid() && rows.Keys == old(rows).Keys
        invariant BootAll(nodes, liveMap, ids[i..], calls, now) == BootAll(old(nodes), liveMap, ids, calls, now)
        invariant NewOrOld(old(executor.spawned), executor.spawned)
      {
        BootAllHead(nodes, liveMap, ids, i, calls, now);
        BootRow(ids[i], liveMap, calls(ids[i]), now);
        i := i + 1;
      }
    }

    method BootRow(id: DaemonId, liveMap: map<DaemonId, Listed>, call: StartCall, now: int)
      requires Valid() && id in rows
      modifies this`rows, this`nodes, executor, executor.spawned
      ensures Valid() && nodes == BootOne(old(nodes), liveMap, id, call, now)
      ensures rows.Keys == old(rows).Keys
      ensures NewOrOld(old(executor.spawned), executor.spawned)
    {
      var daemon := rows[id];
      if id in liveMap && liveMap[id].running {
        UpdateRow(id, daemon.(status := Running, pid := Some(liveMap[id].pid)));
      } else {
        var ok := DoStart(id, call, now);
        if !ok {
          SetTwice(old(nodes).slots, id, nodes.At(id), nodes.At(id).WithStatus(Error));
          FailRow(id);
        }
      }
    }

    method FailRow(id: DaemonId)
      requires Valid() && id in rows
      modifies this`rows, this`nodes
      ensures Valid() && rows.Keys == old(rows).Keys
      ensures nodes == old(nodes).With(id, old(nodes).At(id).WithStatus(Error))
    {
      UpdateRow(id, rows[id].(status := Error));
    }
  }

  lemma BootAllHead(n: Nodes, listing: map<DaemonId, Listed>, ids: seq<DaemonId>, i: nat, calls: DaemonId -> StartCall, now: int)
    requires i < |ids|
    ensures BootAll(n, listing, ids[i..], calls, now)
         == BootAll(BootOne(n, listing, ids[i], calls(ids[i]), now), listing, ids[i + 1..], calls, now)
  {
    assert ids[i..][0] == ids[i] && ids[i..][1..] == ids[i + 1..];
  }

  lemma SetTwice(m: map<DaemonId, Slot>, id: DaemonId, a: Slot, b: Slot)
    ensures m[id := a][id := b] == m[id := b]
  {
  }

  /** The objects of `b` that were not in `a` are new. */
  twostate predicate NewOrOld(a: seq<DaemonManager.DaemonEntry>, new b: seq<DaemonManager.DaemonEntry>) {
    forall k | 0 <= k < |b| :: b[k] in a || fresh(b[k])
  }

  function Lookup<V>(m: map<DaemonId, V>, id: DaemonId): Option<V> {
    if id in m then Some(m[id]) else None
  }
}
