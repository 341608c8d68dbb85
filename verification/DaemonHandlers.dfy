/** The backend's daemon service (backend/src/daemons/daemons.service.ts): each handler as a
    function on what the backend keeps per daemon and on the executor's table. A handler runs
    to its end as one step; `DaemonGuarantees.RaceRevivesStopped` shows what interleaving inside
    one can do. */
module DaemonHandlers {
  import opened ExecutorTable
  import opened Options

  const RESTART_DELAYS_S: seq<nat> := [5, 30, 120, 600, 1800]
  const STABLE_RUN_MS: int := 15 * 60_000

  datatype Status = Starting | Running | Restarting | Stopped | Error

  predicate Active(s: Status) {
    s.Starting? || s.Running? || s.Restarting?
  }

  datatype Row = Row(status: Status, pid: Option<int>, startedAt: Option<int>)

  /** What the backend keeps about one daemon: its database row, the moment its pending
      restart is due, and the attempts counted so far. */
  datatype Slot = Slot(row: Option<Row>, timer: Option<int>, attempts: Option<nat>)
  {
    predicate Has(from: set<Status>) {
      row.Some? && row.value.status in from
    }

    predicate IsActive() {
      row.Some? && Active(row.value.status)
    }

    function WithStatus(s: Status): Slot {
      if row.Some? then this.(row := Some(row.value.(status := s))) else this
    }

    function Cancelled(): Slot {
      this.(timer := None, attempts := None)
    }
  }

  const NOTHING := Slot(None, None, None)

  datatype Nodes = Nodes(slots: map<DaemonId, Slot>, table: Table)
  {
    function At(id: DaemonId): Slot {
      if id in slots then slots[id] else NOTHING
    }

    function With(id: DaemonId, s: Slot): Nodes {
      this.(slots := slots[id := s])
    }
  }

  /** What became of a call to the executor: not carried out, carried out but its reply lost, or answered. */
  datatype Fate = Refused | Lost | Answered

  /** A start call: its fate and what the executor's spawn gives. */
  datatype StartCall = StartCall(fate: Fate, pid: int, spawned: bool)

  // ── One daemon ────────────────────────────────────────────────────────────────

  /** How long the daemon has been up, as its row tells it. */
  function RanMs(row: Row, now: int): int {
    if row.startedAt.Some? then now - row.startedAt.value else 0
  }

  /** `row` is the row as the handler read it. The stable-run reset of the attempts comes
      before the conditional update on the status. */
  function Crashed(s: Slot, row: Row, from: set<Status>, now: int): Slot
  {
    var s1 := if RanMs(row, now) >= STABLE_RUN_MS then s.(attempts := None) else s;
    var attempt := if s1.attempts.Some? then s1.attempts.value else 0;
    if !s1.Has(from) then s1
    else if attempt >= |RESTART_DELAYS_S| then s1.WithStatus(Error).(attempts := None)
    else s1.WithStatus(Restarting).(timer := Some(now + RESTART_DELAYS_S[attempt] * 1000), attempts := Some(attempt + 1))
  }

  /** Answered: the row is 'running', whatever its status was. Otherwise the row is as before. */
  function Begun(s: Slot, call: StartCall, now: int): Slot {
    if call.fate.Answered? && s.row.Some?
    then s.(row := Some(Row(Running, Some(ChildPid(call.pid, call.spawned)), Some(now))))
    else s
  }

  function Confirmed(s: Slot, pid: int): Slot {
    if s.row.Some? then s.(row := Some(s.row.value.(status := Running, pid := Some(pid)))) else s
  }

  function Restarted(s: Slot, row: Row, call: StartCall, now: int): Slot {
    if call.fate.Answered? then Begun(s, call, now) else Crashed(s, row, {Restarting}, now)
  }

  function Reconciled(s: Slot, listing: map<DaemonId, Listed>, id: DaemonId, now: int): Slot
  {
    if !s.Has({Starting, Running}) then s
    else if id in listing && listing[id].running then Confirmed(s, listing[id].pid)
    else if s.row.value.status == Running then Crashed(s, s.row.value, {Running}, now)
    else s
  }

  function Booted(s: Slot, listing: map<DaemonId, Listed>, id: DaemonId, call: StartCall, now: int): Slot
  {
    if id in listing && listing[id].running then Confirmed(s, listing[id].pid)
    else if call.fate.Answered? then Begun(s, call, now)
    else s.WithStatus(Error)
  }

  // ── The handlers ──────────────────────────────────────────────────────────────

  /** The executor's side of a start call. */
  function Spawn(t: Table, id: DaemonId, call: StartCall, now: int): Table {
    if call.fate.Refused? then t else Start(t, id, call.pid, call.spawned, now)
  }

  function StopCall(t: Table, id: DaemonId, fate: Fate): Table {
    if fate.Refused? then t else Stop(t, id)
  }

  /** `start` once its checks passed; `zombies` are the processes of the same script it stops first. */
  function UserStart(n: Nodes, id: DaemonId, zombies: seq<DaemonId>, call: StartCall, now: int): Nodes
  {
    var s := n.At(id).(row := Some(Row(Starting, None, None)));
    Nodes(n.slots[id := if call.fate.Answered? then Begun(s, call, now) else s.WithStatus(Error)],
          Spawn(StopAll(n.table, zombies), id, call, now))
  }

  function UserStop(n: Nodes, id: DaemonId, fate: Fate): Nodes
  {
    if !n.At(id).IsActive() then n
    else Nodes(n.slots[id := n.At(id).Cancelled().WithStatus(Status.Stopped)], StopCall(n.table, id, fate))
  }

  function UserRestart(n: Nodes, id: DaemonId, fate: Fate, call: StartCall, now: int): Nodes
  {
    var s := n.At(id);
    if s.row.None? then n
    else
      Nodes(n.slots[id := Begun(s.Cancelled().(row := Some(Row(Starting, None, None))), call, now)],
            Spawn(if s.Has({Starting, Running}) then StopCall(n.table, id, fate) else n.table, id, call, now))
  }

  function UserRemove(n: Nodes, id: DaemonId): Nodes
  {
    if n.At(id).row.Some? && !n.At(id).IsActive() then n.With(id, n.At(id).(row := None)) else n
  }

  function HandleDaemonExit(n: Nodes, id: DaemonId, now: int): Nodes
  {
    var s := n.At(id);
    if s.row.None? then n else n.With(id, Crashed(s, s.row.value, {Starting, Running}, now))
  }

  function AutoRestart(n: Nodes, id: DaemonId, call: StartCall, now: int): Nodes
  {
    var s := n.At(id).(timer := None);
    if !s.Has({Restarting}) then n.With(id, s) else FinishRestart(n.With(id, s), id, s.row.value, call, now)
  }

  /** What `autoRestart` does once it has read `row` with the status 'restarting'. */
  function FinishRestart(n: Nodes, id: DaemonId, row: Row, call: StartCall, now: int): Nodes
  {
    Nodes(n.slots[id := Restarted(n.At(id), row, call, now)], Spawn(n.table, id, call, now))
  }

  function ReconcileAll(n: Nodes, listing: map<DaemonId, Listed>, ids: seq<DaemonId>, now: int): Nodes
    decreases |ids|
  {
    if ids == [] then n
    else ReconcileAll(n.With(ids[0], Reconciled(n.At(ids[0]), listing, ids[0], now)), listing, ids[1..], now)
  }

  function BootOne(n: Nodes, listing: map<DaemonId, Listed>, id: DaemonId, call: StartCall, now: int): Nodes
  {
    Nodes(n.slots[id := Booted(n.At(id), listing, id, call, now)],
          if id in listing && listing[id].running then n.table else Spawn(n.table, id, call, now))
  }

  function BootAll(n: Nodes, listing: map<DaemonId, Listed>, ids: seq<DaemonId>, calls: DaemonId -> StartCall, now: int): Nodes
    decreases |ids|
  {
    if ids == [] then n
    else BootAll(BootOne(n, listing, ids[0], calls(ids[0]), now), listing, ids[1..], calls, now)
  }

  /** Timers and attempts live in memory: a new backend process has none. */
  function Amnesic(n: Nodes): Nodes {
    n.(slots := map id <- n.slots :: n.slots[id].Cancelled())
  }

  /** `listing` is empty when the executor cannot be reached. */
  function Boot(n: Nodes, listOk: bool, ids: seq<DaemonId>, calls: DaemonId -> StartCall, now: int): Nodes
  {
    BootAll(Amnesic(n), if listOk then Listing(n.table) else map[], ids, calls, now)
  }
}
