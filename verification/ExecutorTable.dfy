/** The executor's process table (executor/src/daemon-manager.ts) as a value: what each call
    and each process event does to it, and what every interleaving keeps. A child process is
    named by its spawn number, which stands for the identity of its `DaemonEntry` object. */
module ExecutorTable {
  import opened Collections

  type DaemonId = string

  /** A child that has emitted neither 'exit' nor 'error' yet. `spawned` is false for a child
      whose spawn failed: it has pid -1 and will emit 'error', never 'exit'. */
  datatype Child = Child(id: DaemonId, pid: int, startedAt: int, spawned: bool, stopping: bool, killed: bool)

  /** `entries` is the manager's `daemons` map; `children` are the processes it was told nothing final about. */
  datatype Table = Table(entries: map<DaemonId, nat>, children: map<nat, Child>, spawns: nat)

  datatype Listed = Listed(pid: int, running: bool)

  const EMPTY := Table(map[], map[], 0)

  function Stop(t: Table, id: DaemonId): Table
  {
    if id !in t.entries then t
    else
      var h := t.entries[id];
      Table(Without(t.entries, id),
            if h in t.children
            then t.children[h := t.children[h].(stopping := true, killed := t.children[h].spawned)]
            else t.children,
            t.spawns)
  }

  function StopAll(t: Table, ids: seq<DaemonId>): Table
    decreases |ids|
  {
    if ids == [] then t else StopAll(Stop(t, ids[0]), ids[1..])
  }

  function ChildPid(pid: int, spawned: bool): int {
    if spawned then pid else -1
  }

  function Start(t: Table, id: DaemonId, pid: int, spawned: bool, now: int): Table
  {
    var t1 := Stop(t, id);
    Table(t1.entries[id := t1.spawns],
          t1.children[t1.spawns := Child(id, ChildPid(pid, spawned), now, spawned, false, false)],
          t1.spawns + 1)
  }

  /** Only the process that owns the map entry removes it. */
  function Release(t: Table, h: nat): Table
    requires h in t.children
  {
    var id := t.children[h].id;
    if id in t.entries && t.entries[id] == h then t.(entries := Without(t.entries, id)) else t
  }

  /** The end of a child ('exit' or 'error'): its entry is released and it is gone. */
  function Gone(t: Table, h: nat): Table
    requires h in t.children
  {
    var t1 := Release(t, h);
    t1.(children := Without(t1.children, h))
  }

  /** Whether the exit of `h` is reported to the backend. */
  predicate Reports(t: Table, h: nat)
    requires h in t.children
  {
    t.children[h].spawned && !t.children[h].stopping
  }

  function Listing(t: Table): map<DaemonId, Listed>
  {
    map id | id in t.entries && t.entries[id] in t.children ::
      Listed(t.children[t.entries[id]].pid, !t.children[t.entries[id]].killed)
  }

  // ── What every operation keeps ────────────────────────────────────────────────

  /** An entry names a child of that id nobody asked to stop, and every such child is its id's entry. */
  ghost predicate Inv(t: Table)
  {
    && (forall id <- t.entries :: Owns(t, id, t.entries[id]))
    && (forall h <- t.children :: h < t.spawns && (t.children[h].killed ==> t.children[h].stopping))
    && (forall h <- t.children | !t.children[h].stopping ::
          t.children[h].id in t.entries && t.entries[t.children[h].id] == h)
  }

  ghost predicate Owns(t: Table, id: DaemonId, h: nat)
  {
    h in t.children && t.children[h].id == id && !t.children[h].stopping
  }

  lemma StopKeepsInv(t: Table, id: DaemonId)
    requires Inv(t)
    ensures Inv(Stop(t, id)) && id !in Stop(t, id).entries
  {
  }

  lemma StopAllKeepsInv(t: Table, ids: seq<DaemonId>)
    requires Inv(t)
    ensures Inv(StopAll(t, ids))
    decreases |ids|
  {
    if ids != [] {
      StopAllKeepsInv(Stop(t, ids[0]), ids[1..]);
    }
  }

  lemma StartKeepsInv(t: Table, id: DaemonId, pid: int, spawned: bool, now: int)
    requires Inv(t)
    ensures Inv(Start(t, id, pid, spawned, now))
  {
  }

  lemma GoneKeepsInv(t: Table, h: nat)
    requires Inv(t) && h in t.children
    ensures Inv(Gone(t, h))
  {
  }
}
