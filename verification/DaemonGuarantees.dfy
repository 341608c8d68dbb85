/** What the daemon protocol promises over whole runs of the two nodes, and the places where it
    promises less than its comments say. */
module DaemonGuarantees {
  import opened ExecutorTable
  import opened Options
  import opened DaemonHandlers
  import opened DaemonSystem

  const SETTLED: set<Status> := {Status.Stopped, Error}

  /** The two steps that end the rest of a settled row: the user's restart and its removal. */
  predicate Unsettles(s: Step, id: DaemonId) {
    (s.URestart? && s.id == id) || (s.URemove? && s.id == id)
  }

  /** A row in 'stopped' or 'error' changes in a step exactly when the step is the user's
      restart or removal of it: no report, sweep, timer or boot touches it. */
  lemma SettledChangesOnlyByUser(w: World, s: Step, id: DaemonId)
    requires Enabled(w, s) && Inv(w.n.table) && w.n.At(id).Has(SETTLED)
    ensures Next(w, s).n.At(id).row != w.n.At(id).row <==> Unsettles(s, id)
  {
    SlotOfNext(w, s, id);
  }

  lemma {:induction false} SettledStaysSettled(w: World, ss: seq<Step>, id: DaemonId)
    requires Run(w, ss) && Inv(w.n.table) && w.n.At(id).Has(SETTLED)
    requires forall s <- ss :: !Unsettles(s, id)
    ensures After(w, ss).n.At(id).row == w.n.At(id).row
    decreases |ss|
  {
    if ss != [] {
      SettledChangesOnlyByUser(w, ss[0], id);
      TableStep(w, ss[0]);
      SettledStaysSettled(Next(w, ss[0]), ss[1..], id);
    }
  }

  /** The executor has no process of this id that it was not told to stop. */
  ghost predicate Dead(t: Table, id: DaemonId)
  {
    id !in t.entries && forall h <- t.children | t.children[h].id == id :: t.children[h].stopping
  }

  lemma DeadStep(w: World, s: Step, id: DaemonId)
    requires Enabled(w, s) && Inv(w.n.table) && w.n.At(id).Has(SETTLED) && !Unsettles(s, id)
    requires id !in w.n.table.entries
    ensures id !in Next(w, s).n.table.entries
  {
    match s
    case UStart(k, zombies, call) => DeadStopAll(w.n.table, zombies, id);
    case Sweep(ids, _) => ReconcilePointwise(w.n, Listing(w.n.table), ids, w.now, id);
    case BackendReboot(ids, listOk, calls) =>
      BootPointwise(Amnesic(w.n), if listOk then Listing(w.n.table) else map[], ids, calls, w.now, id);
    case _ =>
  }

  lemma {:induction false} DeadStopAll(t: Table, ids: seq<DaemonId>, id: DaemonId)
    requires id !in t.entries
    ensures id !in StopAll(t, ids).entries
    decreases |ids|
  {
    if ids != [] {
      DeadStopAll(Stop(t, ids[0]), ids[1..], id);
    }
  }

  /** The row is 'stopped' after a user's stop; nothing the executor was not told to stop runs
      exactly when the stop reached it, or it had no entry of this id. */
  lemma StopIsEffectiveIff(w: World, id: DaemonId, fate: Fate)
    requires SystemInv(w) && w.n.At(id).IsActive()
    ensures var e := Next(w, UStop(id, fate));
            && e.n.At(id).Has({Status.Stopped})
            && (Dead(e.n.table, id) <==> !fate.Refused? || id !in w.n.table.entries)
  {
    StepKeepsInv(w, UStop(id, fate));
  }

  /** Across both nodes: once a user's stop was effective (even if its reply was lost), then
      whatever happens short of the user's restart or removal, the row stays 'stopped' and the
      executor never again runs a process of that daemon it was not told to stop. */
  lemma StoppedStaysDead(w: World, id: DaemonId, fate: Fate, ss: seq<Step>)
    requires SystemInv(w) && w.n.At(id).IsActive() && (!fate.Refused? || id !in w.n.table.entries)
    requires Run(w, [UStop(id, fate)] + ss) && forall s <- ss :: !Unsettles(s, id)
    ensures var e := After(w, [UStop(id, fate)] + ss);
            e.n.At(id).Has({Status.Stopped}) && Dead(e.n.table, id)
  {
    var run := [UStop(id, fate)] + ss;
    assert run[0] == UStop(id, fate) && run[1..] == ss;
    var w1 := Next(w, run[0]);
    StepKeepsInv(w, run[0]);
    StopIsEffectiveIff(w, id, fate);
    DeadRun(w1, ss, id);
    SettledStaysSettled(w1, ss, id);
  }

  lemma {:induction false} DeadRun(w: World, ss: seq<Step>, id: DaemonId)
    requires Run(w, ss) && Inv(w.n.table) && w.n.At(id).Has(SETTLED) && id !in w.n.table.entries
    requires forall s <- ss :: !Unsettles(s, id)
    ensures Dead(After(w, ss).n.table, id)
    decreases |ss|
  {
    if ss != [] {
      DeadStep(w, ss[0], id);
      SettledChangesOnlyByUser(w, ss[0], id);
      TableStep(w, ss[0]);
      DeadRun(Next(w, ss[0]), ss[1..], id);
    }
  }

  // ── Rows agree with the executor after a sweep and after a boot ───────────────

  /** A 'running' row has a running entry with the row's pid. */
  ghost predicate Agrees(n: Nodes, id: DaemonId)
  {
    n.At(id).Has({Running}) ==>
      id in Listing(n.table) && Listing(n.table)[id].running && n.At(id).row.value.pid == Some(Listing(n.table)[id].pid)
  }

  /** After a reachable sweep, of one user's rows or of all: each visited row that is 'running'
      has a live entry with its pid; if every 'starting' and 'running' row was visited, so has
      each 'running' row there is; and the rows not visited are as they were. */
  lemma SweepAgrees(w: World, ids: seq<DaemonId>)
    requires Enabled(w, Sweep(ids, true))
    ensures var m := Next(w, Sweep(ids, true)).n;
            && m.table == w.n.table
            && (forall id <- ids :: Agrees(m, id))
            && (forall id :: id !in ids ==> m.At(id) == w.n.At(id))
            && ((forall id :: w.n.At(id).Has({Starting, Running}) ==> id in ids) ==> forall id :: Agrees(m, id))
  {
    var m := Next(w, Sweep(ids, true)).n;
    forall id
      ensures m.table == w.n.table && (id in ids ==> Agrees(m, id)) && (id !in ids ==> m.At(id) == w.n.At(id))
    {
      ReconcilePointwise(w.n, Listing(w.n.table), ids, w.now, id);
    }
    ReconcilePointwise(w.n, Listing(w.n.table), ids, w.now, "");
  }

  lemma ListingFrame(t: Table, k: DaemonId, call: StartCall, now: int, id: DaemonId)
    requires Inv(t) && id != k
    ensures var u := Spawn(t, k, call, now);
            (id in Listing(u) <==> id in Listing(t)) && (id in Listing(t) ==> Listing(u)[id] == Listing(t)[id])
  {
    if id in t.entries {
      assert Owns(t, id, t.entries[id]);
    }
  }

  lemma {:induction false} BootAllAgrees(n: Nodes, listing: map<DaemonId, Listed>, ids: seq<DaemonId>, calls: DaemonId -> StartCall, now: int, id: DaemonId)
    requires Distinct(ids) && Inv(n.table) && id in ids
    requires id in listing ==> id in Listing(n.table) && listing[id] == Listing(n.table)[id]
    ensures Agrees(BootAll(n, listing, ids, calls, now), id)
    decreases |ids|
  {
    var k := ids[0];
    var n1 := BootOne(n, listing, k, calls(k), now);
    SpawnKeepsInv(n.table, k, calls(k), now);
    if id == k {
      BootAllFrame(n1, listing, ids[1..], calls, now, id);
    } else {
      ListingFrame(n.table, k, calls(k), now, id);
      BootAllAgrees(n1, listing, ids[1..], calls, now, id);
    }
  }

  lemma {:induction false} BootAllFrame(n: Nodes, listing: map<DaemonId, Listed>, ids: seq<DaemonId>, calls: DaemonId -> StartCall, now: int, id: DaemonId)
    requires Distinct(ids) && Inv(n.table) && id !in ids && Agrees(n, id)
    ensures Agrees(BootAll(n, listing, ids, calls, now), id)
    decreases |ids|
  {
    if ids != [] {
      SpawnKeepsInv(n.table, ids[0], calls(ids[0]), now);
      ListingFrame(n.table, ids[0], calls(ids[0]), now, id);
      BootAllFrame(BootOne(n, listing, ids[0], calls(ids[0]), now), listing, ids[1..], calls, now, id);
    }
  }

  /** After a boot no row is left 'starting' or 'restarting', no timer or count is kept, each
      'running' row has a live entry with its pid, and the inactive rows are as they were,
      whether or not the executor answered and whichever starts failed. */
  lemma BootSettlesEveryRow(w: World, s: Step)
    requires SystemInv(w) && Enabled(w, s) && s.BackendReboot?
    ensures var m := Next(w, s).n;
            forall id :: && !m.At(id).Has({Starting, Restarting}) && m.At(id).timer.None? && m.At(id).attempts.None?
                         && Agrees(m, id)
                         && (!w.n.At(id).IsActive() ==> m.At(id).row == w.n.At(id).row)
  {
    var m := Next(w, s).n;
    var listing := if s.listOk then Listing(w.n.table) else map[];
    forall id
      ensures && !m.At(id).Has({Starting, Restarting}) && m.At(id).timer.None? && m.At(id).attempts.None?
              && Agrees(m, id)
              && (!w.n.At(id).IsActive() ==> m.At(id).row == w.n.At(id).row)
    {
      SlotOfNext(w, s, id);
      if id in s.ids {
        BootAllAgrees(Amnesic(w.n), listing, s.ids, s.calls, w.now, id);
      }
    }
  }

  // ── A crash report that finds nothing to do ───────────────────────────────────

  /** A report for a row outside 'starting' and 'running' leaves the slot alone exactly when
      no counted attempt is due to be forgiven: the stable-run reset comes before the check. */
  lemma LateReportIsHarmlessUnlessForgiving(w: World, id: DaemonId)
    requires Enabled(w, Deliver(id)) && SystemInv(w)
    requires w.n.At(id).row.Some? && !w.n.At(id).Has({Starting, Running})
    ensures Next(w, Deliver(id)).n.At(id) == w.n.At(id) <==>
            !(w.n.At(id).attempts.Some? && RanMs(w.n.At(id).row.value, w.now) >= STABLE_RUN_MS)
    ensures Next(w, Deliver(id)).n.At(id).row == w.n.At(id).row && Next(w, Deliver(id)).n.At(id).timer == w.n.At(id).timer
  {
  }

  /** A report changes the row exactly when the row is 'starting' or 'running': it carries no
      pid, so it counts against whichever process the row now stands for. The executor is not asked. */
  lemma ReportCountsIff(w: World, id: DaemonId)
    requires Enabled(w, Deliver(id)) && SystemInv(w)
    ensures Next(w, Deliver(id)).n.At(id).row != w.n.At(id).row <==> w.n.At(id).Has({Starting, Running})
    ensures Next(w, Deliver(id)).n.table == w.n.table
  {
    assert SlotInv(w.n.At(id), w.now);
  }

  const OK := StartCall(Answered, 7, true)

  /** A daemon is started, runs for `ms` and exits. */
  function UpAndDown(ms: nat): seq<Step> {
    [UStart("d", [], OK), Tick(ms), Exit(0)]
  }

  /** Up for twenty minutes; the sweep sees the exit first, then its report comes. */
  const SWEPT: seq<Step> := UpAndDown(1_200_000) + [Sweep(["d"], true)]
  const REPORTED: seq<Step> := SWEPT + [Deliver("d")]

  lemma UpAndDownState(ms: nat)
    ensures Run(INITIAL, UpAndDown(ms))
    ensures var w := After(INITIAL, UpAndDown(ms));
            && w.n.At("d") == Slot(Some(Row(Running, Some(7), Some(0))), None, None)
            && w.n.table == Table(map[], map[], 1) && w.channel == multiset{"d"} && w.now == ms
  {
    var r := UpAndDown(ms);
    var w1 := Next(INITIAL, r[0]);
    assert w1.n.table == Table(map["d" := 0], map[0 := Child("d", 7, 0, true, false, false)], 1);
    var w2 := Next(w1, r[1]);
    var w3 := Next(w2, r[2]);
    assert w3.n.table == Table(map[], map[], 1);
    RunSnoc(INITIAL, [], r[0]);
    assert [] + [r[0]] == [r[0]];
    RunSnoc(INITIAL, [r[0]], r[1]);
    assert [r[0]] + [r[1]] == [r[0], r[1]];
    RunSnoc(INITIAL, [r[0], r[1]], r[2]);
    assert [r[0], r[1]] + [r[2]] == r;
  }

  lemma SweptState()
    ensures Run(INITIAL, SWEPT)
    ensures After(INITIAL, SWEPT).n.At("d") == Slot(Some(Row(Restarting, Some(7), Some(0))), Some(1_205_000), Some(1))
    ensures After(INITIAL, SWEPT).channel == multiset{"d"} && After(INITIAL, SWEPT).now == 1_200_000
  {
    UpAndDownState(1_200_000);
    var w3 := After(INITIAL, UpAndDown(1_200_000));
    ReconcilePointwise(w3.n, Listing(w3.n.table), ["d"], w3.now, "d");
    RunSnoc(INITIAL, UpAndDown(1_200_000), Sweep(["d"], true));
  }

  /** The report that comes after the sweep counted the crash makes the backend forget the count. */
  lemma LateReportForgetsTheAttempt()
    ensures Run(INITIAL, SWEPT) && After(INITIAL, SWEPT).n.At("d").attempts == Some(1)
    ensures Run(INITIAL, REPORTED) && After(INITIAL, REPORTED).n.At("d").attempts == None
    ensures After(INITIAL, REPORTED).n.At("d").Has({Restarting})
  {
    SweptState();
    RunSnoc(INITIAL, SWEPT, Deliver("d"));
  }

  /** One exit, reported twice: the first report counts it, the restart succeeds, the second
      report counts it again against the new process. */
  const COUNTED: seq<Step> := UpAndDown(1000) + [Duplicate("d")] + [Deliver("d")]
  const RESTARTED: seq<Step> := COUNTED + [Tick(5000)] + [Fire("d", OK)]
  const TWICE: seq<Step> := RESTARTED + [Deliver("d")]

  lemma CountedState()
    ensures Run(INITIAL, COUNTED)
    ensures var w := After(INITIAL, COUNTED);
            && w.n.At("d") == Slot(Some(Row(Restarting, Some(7), Some(0))), Some(6000), Some(1))
            && w.n.table == Table(map[], map[], 1) && w.channel == multiset{"d"} && w.now == 1000
  {
    UpAndDownState(1000);
    RunSnoc(INITIAL, UpAndDown(1000), Duplicate("d"));
    RunSnoc(INITIAL, UpAndDown(1000) + [Duplicate("d")], Deliver("d"));
  }

  lemma RestartedState()
    ensures Run(INITIAL, RESTARTED)
    ensures var w := After(INITIAL, RESTARTED);
            && w.n.At("d") == Slot(Some(Row(Running, Some(7), Some(6000))), None, Some(1))
            && w.n.table == Start(Table(map[], map[], 1), "d", 7, true, 6000)
            && w.channel == multiset{"d"} && w.now == 6000
  {
    CountedState();
    RunSnoc(INITIAL, COUNTED, Tick(5000));
    RunSnoc(INITIAL, COUNTED + [Tick(5000)], Fire("d", OK));
  }

  lemma OneExitCountsTwice()
    ensures Run(INITIAL, TWICE)
    ensures var w := After(INITIAL, TWICE);
            && w.n.At("d").Has({Restarting}) && w.n.At("d").attempts == Some(2)
            && "d" in Listing(w.n.table) && Listing(w.n.table)["d"].running
  {
    RestartedState();
    RunSnoc(INITIAL, RESTARTED, Deliver("d"));
  }

  // ── A restart whose start fails ───────────────────────────────────────────────

  const REFUSED := StartCall(Refused, 0, false)

  /** The steps that can take a row out of 'starting'. */
  predicate LeavesStarting(w: World, s: Step, id: DaemonId) {
    || s == Deliver(id)
    || (s.UStop? && s.id == id)
    || (s.URestart? && s.id == id && s.call.fate.Answered?)
    || (s.Sweep? && s.reachable && id in s.ids && id in Listing(w.n.table))
    || s.BackendReboot?
  }

  /** A row leaves 'starting' exactly by a report, the user's stop or answered restart, a sweep
      that finds a process of it, or a boot: nothing waits for a start that failed. */
  lemma StartingLeavesIff(w: World, s: Step, id: DaemonId)
    requires SystemInv(w) && Enabled(w, s) && w.n.At(id).Has({Starting})
    ensures !Next(w, s).n.At(id).Has({Starting}) <==> LeavesStarting(w, s, id)
  {
    SlotOfNext(w, s, id);
    assert SlotInv(w.n.At(id), w.now);
    assert id in w.n.table.entries ==> Owns(w.n.table, id, w.n.table.entries[id]);
    StartingSlotLeavesIff(w, s, id);
  }

  lemma StartingSlotLeavesIff(w: World, s: Step, id: DaemonId)
    requires Enabled(w, s) && w.n.At(id).Has({Starting}) && w.n.At(id).timer.None?
    requires id in Listing(w.n.table) ==> Listing(w.n.table)[id].running
    ensures !SlotNext(w, s, id).Has({Starting}) <==> LeavesStarting(w, s, id)
  {
  }

  ghost predicate NeverLeaves(w: World, ss: seq<Step>, id: DaemonId)
    requires Run(w, ss)
    decreases |ss|
  {
    ss == [] || (!LeavesStarting(w, ss[0], id) && NeverLeaves(Next(w, ss[0]), ss[1..], id))
  }

  /** The row is 'starting' after every step of the run. */
  ghost predicate StartingThroughout(w: World, ss: seq<Step>, id: DaemonId)
    requires Run(w, ss)
    decreases |ss|
  {
    w.n.At(id).Has({Starting}) && (ss == [] || StartingThroughout(Next(w, ss[0]), ss[1..], id))
  }

  lemma {:induction false} StartingStaysIff(w: World, ss: seq<Step>, id: DaemonId)
    requires SystemInv(w) && Run(w, ss) && w.n.At(id).Has({Starting})
    ensures StartingThroughout(w, ss, id) <==> NeverLeaves(w, ss, id)
    decreases |ss|
  {
    if ss != [] {
      StartingLeavesIff(w, ss[0], id);
      StepKeepsInv(w, ss[0]);
      if !LeavesStarting(w, ss[0], id) {
        StartingStaysIff(Next(w, ss[0]), ss[1..], id);
      }
    }
  }

  /** The user stops or restarts the daemon, a report of it arrives, or the backend boots. */
  predicate Rescues(s: Step, id: DaemonId) {
    (s.UStop? && s.id == id) || (s.URestart? && s.id == id) || s == Deliver(id) || s.BackendReboot?
  }

  /** A 'starting' row without a process is stuck: no sweep, timer, exit or other daemon's
      business moves it, over any run without one of those. */
  lemma {:induction false} StartingWithoutProcessIsStuck(w: World, ss: seq<Step>, id: DaemonId)
    requires SystemInv(w) && Run(w, ss) && w.n.At(id).Has({Starting}) && id !in w.n.table.entries
    requires forall s <- ss :: !Rescues(s, id)
    ensures After(w, ss).n.At(id).Has({Starting}) && id !in After(w, ss).n.table.entries
    decreases |ss|
  {
    if ss != [] {
      StartingLeavesIff(w, ss[0], id);
      StepKeepsInv(w, ss[0]);
      NoProcessStays(w, ss[0], id);
      StartingWithoutProcessIsStuck(Next(w, ss[0]), ss[1..], id);
    }
  }

  lemma NoProcessStays(w: World, s: Step, id: DaemonId)
    requires SystemInv(w) && Enabled(w, s) && w.n.At(id).Has({Starting}) && id !in w.n.table.entries && !Rescues(s, id)
    ensures id !in Next(w, s).n.table.entries
  {
    assert SlotInv(w.n.At(id), w.now);
    match s
    case UStart(k, zombies, call) => DeadStopAll(w.n.table, zombies, id);
    case Sweep(ids, _) => ReconcilePointwise(w.n, Listing(w.n.table), ids, w.now, id);
    case _ =>
  }

  /** A user's restart whose start is refused, after a stop that reached the executor or of a
      daemon that was not running, leaves such a row behind. */
  lemma FailedRestartIsStuck(w: World, id: DaemonId, fate: Fate, ss: seq<Step>)
    requires SystemInv(w) && w.n.At(id).row.Some?
    requires (w.n.At(id).Has({Starting, Running}) && !fate.Refused?) || id !in w.n.table.entries
    requires Run(w, [URestart(id, fate, REFUSED)] + ss) && forall s <- ss :: !Rescues(s, id)
    ensures After(w, [URestart(id, fate, REFUSED)] + ss).n.At(id).Has({Starting})
  {
    var run := [URestart(id, fate, REFUSED)] + ss;
    assert run[0] == URestart(id, fate, REFUSED) && run[1..] == ss;
    StepKeepsInv(w, run[0]);
    StartingWithoutProcessIsStuck(Next(w, run[0]), ss, id);
  }

  /** A daemon of one second whose restart is refused; a sweep later it is still 'starting'. */
  const REFUSED_RESTART: seq<Step> := UpAndDown(1000) + [Lose("d")] + [URestart("d", Answered, REFUSED)]
  const STUCK: seq<Step> := REFUSED_RESTART + [Sweep(["d"], true)]

  lemma RefusedState()
    ensures Run(INITIAL, REFUSED_RESTART)
    ensures var w := After(INITIAL, REFUSED_RESTART);
            w.n.At("d") == Slot(Some(Row(Starting, None, None)), None, None) && w.n.table == Table(map[], map[], 1)
  {
    UpAndDownState(1000);
    RunSnoc(INITIAL, UpAndDown(1000), Lose("d"));
    RunSnoc(INITIAL, UpAndDown(1000) + [Lose("d")], URestart("d", Answered, REFUSED));
  }

  lemma RefusedRestartStaysStarting()
    ensures Run(INITIAL, STUCK) && After(INITIAL, STUCK).n.At("d").Has({Starting})
  {
    RefusedState();
    var w := After(INITIAL, REFUSED_RESTART);
    ReconcilePointwise(w.n, Listing(w.n.table), ["d"], w.now, "d");
    RunSnoc(INITIAL, REFUSED_RESTART, Sweep(["d"], true));
  }

  // ── One step per handler is needed ────────────────────────────────────────────

  /** `autoRestart` awaits between reading the status and the update after the start. A user's
      stop in between is undone exactly when the executor answers: the update is unconditional. */
  lemma RaceRevivesStopped(n: Nodes, id: DaemonId, fate: Fate, call: StartCall, now: int)
    requires n.At(id).Has({Restarting})
    ensures var seen := n.At(id).row.value;
            var stopped := UserStop(n.With(id, n.At(id).(timer := None)), id, fate);
            && stopped.At(id).Has({Status.Stopped})
            && (FinishRestart(stopped, id, seen, call, now).At(id).Has({Running}) <==> call.fate.Answered?)
            && (FinishRestart(stopped, id, seen, call, now).At(id).Has({Status.Stopped}) <==> !call.fate.Answered?)
  {
  }
}
