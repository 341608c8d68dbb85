/** The executor's daemon manager over every interleaving of its calls and its processes' events. */
module ExecutorRuns {
  import opened ExecutorTable

  datatype Event =
    | OnStart(id: DaemonId, pid: int, spawned: bool, at: int)
    | OnStop(id: DaemonId)
    | OnExit(h: nat)
    | OnSpawnError(h: nat)

  ghost predicate Possible(t: Table, e: Event)
  {
    match e
    case OnStart(_, _, _, _) => true
    case OnStop(_) => true
    case OnExit(h) => h in t.children && t.children[h].spawned
    case OnSpawnError(h) => h in t.children && !t.children[h].spawned
  }

  /** The manager with the log of the exits it reported. */
  datatype Manager = Manager(t: Table, reported: seq<nat>)

  ghost function Step(m: Manager, e: Event): Manager
    requires Possible(m.t, e)
  {
    match e
    case OnStart(id, pid, spawned, at) => m.(t := Start(m.t, id, pid, spawned, at))
    case OnStop(id) => m.(t := Stop(m.t, id))
    case OnExit(h) => Manager(Gone(m.t, h), if Reports(m.t, h) then m.reported + [h] else m.reported)
    case OnSpawnError(h) => m.(t := Gone(m.t, h))
  }

  ghost predicate Run(m: Manager, es: seq<Event>)
    decreases |es|
  {
    es == [] || (Possible(m.t, es[0]) && Run(Step(m, es[0]), es[1..]))
  }

  ghost function After(m: Manager, es: seq<Event>): Manager
    requires Run(m, es)
    decreases |es|
  {
    if es == [] then m else After(Step(m, es[0]), es[1..])
  }

  lemma StepKeepsInv(m: Manager, e: Event)
    requires Inv(m.t) && Possible(m.t, e)
    ensures Inv(Step(m, e).t)
  {
  }

  /** Exits the manager has reported: each one once, and only of children that are gone. */
  ghost predicate LogInv(m: Manager)
  {
    && (forall i, j | 0 <= i < j < |m.reported| :: m.reported[i] != m.reported[j])
    && (forall h <- m.reported :: h < m.t.spawns && h !in m.t.children)
  }

  /** In every interleaving of starts, same-id restarts, stops, exits and failed spawns, at most
      one child of an id is not being stopped, that child is exactly the id's entry, the exit of
      such a child is reported, and no exit is reported twice. */
  lemma {:induction false} TableSafety(m: Manager, es: seq<Event>)
    requires Inv(m.t) && LogInv(m) && Run(m, es)
    ensures var n := After(m, es);
            && Inv(n.t) && LogInv(n)
            && (forall h <- n.t.children | !n.t.children[h].stopping ::
                  && n.t.entries[n.t.children[h].id] == h
                  && (forall k <- n.t.children | !n.t.children[k].stopping && n.t.children[k].id == n.t.children[h].id :: k == h))
    decreases |es|
  {
    if es != [] {
      StepKeepsInv(m, es[0]);
      TableSafety(Step(m, es[0]), es[1..]);
    }
  }

  lemma {:induction false} LogGrows(m: Manager, es: seq<Event>)
    requires Run(m, es)
    ensures m.reported <= After(m, es).reported
    decreases |es|
  {
    if es != [] {
      LogGrows(Step(m, es[0]), es[1..]);
    }
  }

  /** A process that was superseded or told to stop is never reported again, whatever happens
      next, and its end leaves the table of the newer one alone. */
  lemma {:induction false} SupersededIsSilent(m: Manager, es: seq<Event>, h: nat)
    requires Inv(m.t) && Run(m, es)
    requires h < m.t.spawns && (h in m.t.children ==> m.t.children[h].stopping)
    ensures forall i | |m.reported| <= i < |After(m, es).reported| :: After(m, es).reported[i] != h
    ensures h in m.t.children ==> Gone(m.t, h).entries == m.t.entries
    decreases |es|
  {
    if es != [] {
      StepKeepsInv(m, es[0]);
      LogGrows(Step(m, es[0]), es[1..]);
      SupersededIsSilent(Step(m, es[0]), es[1..], h);
    }
  }

  /** A running process that nobody stops or restarts stays its id's entry until it exits, and
      its exit is then in the log of reports. */
  lemma {:induction false} UnaskedExitIsReported(m: Manager, es: seq<Event>, h: nat)
    requires Inv(m.t) && Run(m, es)
    requires h in m.t.children && m.t.children[h].spawned && !m.t.children[h].stopping
    requires forall e <- es :: !(e.OnStart? && e.id == m.t.children[h].id) && !(e.OnStop? && e.id == m.t.children[h].id)
    ensures var n := After(m, es);
            if h in n.t.children then n.t.children[h] == m.t.children[h] && Owns(n.t, m.t.children[h].id, h)
            else h in n.reported
    decreases |es|
  {
    if es != [] {
      var m1 := Step(m, es[0]);
      StepKeepsInv(m, es[0]);
      if h in m1.t.children {
        UnaskedExitIsReported(m1, es[1..], h);
      } else {
        LogGrows(m1, es[1..]);
        assert m1.reported[|m.reported|] == h;
        GoneStaysGone(m1, es[1..], h);
      }
    }
  }

  lemma {:induction false} GoneStaysGone(m: Manager, es: seq<Event>, h: nat)
    requires Run(m, es) && h < m.t.spawns && h !in m.t.children
    ensures h !in After(m, es).t.children
    decreases |es|
  {
    if es != [] {
      GoneStaysGone(Step(m, es[0]), es[1..], h);
    }
  }
}
