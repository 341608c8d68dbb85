/** How many automatic restarts a crashing daemon gets: at most one per delay while every crash
    comes soon after the start, and without end when the restarts themselves fail. */
module RestartBound {
  import opened ExecutorTable
  import opened Options
  import opened DaemonHandlers
  import opened DaemonSystem
  import opened DaemonGuarantees

  /** Nobody acts on the daemon. */
  predicate NoUser(s: Step, id: DaemonId) {
    match s
    case UStart(k, _, _) => k != id
    case UStop(k, _) => k != id
    case URestart(k, _, _) => k != id
    case URemove(k) => k != id
    case _ => true
  }

  /** Nobody acts on the daemon and the backend process lives on (a new one has no counts). */
  predicate Quiet(s: Step, id: DaemonId) {
    NoUser(s, id) && !s.BackendReboot?
  }

  /** The step calls `crashed` for the daemon: a report of it, a sweep that misses the process
      of a 'running' row, an automatic restart that is not answered. */
  predicate CallsCrashed(w: World, s: Step, id: DaemonId) {
    || (s == Deliver(id) && w.n.At(id).row.Some?)
    || (s.Sweep? && s.reachable && id in s.ids && w.n.At(id).Has({Running}) && !Found(w, id))
    || (s.Fire? && s.id == id && w.n.At(id).Has({Restarting}) && !s.call.fate.Answered?)
  }

  predicate Found(w: World, id: DaemonId) {
    id in Listing(w.n.table) && Listing(w.n.table)[id].running
  }

  /** If the step calls `crashed`, the row tells less than a stable run. */
  predicate CrashIsYoung(w: World, s: Step, id: DaemonId) {
    CallsCrashed(w, s, id) ==> RanMs(w.n.At(id).row.value, w.now) < STABLE_RUN_MS
  }

  ghost predicate YoungRun(w: World, ss: seq<Step>, id: DaemonId)
    requires Run(w, ss)
    decreases |ss|
  {
    ss == [] || (CrashIsYoung(w, ss[0], id) && YoungRun(Next(w, ss[0]), ss[1..], id))
  }

  predicate IsAutoRestart(w: World, s: Step, id: DaemonId) {
    s.Fire? && s.id == id && w.n.At(id).Has({Restarting})
  }

  /** The automatic restarts of the daemon that a run attempts. */
  ghost function AutoRestarts(w: World, ss: seq<Step>, id: DaemonId): nat
    requires Run(w, ss)
    decreases |ss|
  {
    if ss == [] then 0
    else (if IsAutoRestart(w, ss[0], id) then 1 else 0) + AutoRestarts(Next(w, ss[0]), ss[1..], id)
  }

  /** The automatic restarts still to come: the delays not used yet and the pending one. */
  function Fuel(o: Slot): int {
    if !o.IsActive() then 0
    else |RESTART_DELAYS_S| - (if o.attempts.Some? then o.attempts.value else 0) + (if o.Has({Restarting}) then 1 else 0)
  }

  function Reboots(ss: seq<Step>): nat {
    if ss == [] then 0 else (if ss[0].BackendReboot? then 1 else 0) + Reboots(ss[1..])
  }

  /** An automatic restart uses up one of those left; only a new backend process adds any. */
  lemma FuelStep(w: World, s: Step, id: DaemonId)
    requires Enabled(w, s) && SystemInv(w) && NoUser(s, id) && CrashIsYoung(w, s, id)
    ensures (if IsAutoRestart(w, s, id) then 1 else 0) + Fuel(Next(w, s).n.At(id))
         <= Fuel(w.n.At(id)) + (if s.BackendReboot? then |RESTART_DELAYS_S| else 0)
  {
    SlotOfNext(w, s, id);
    assert SlotInv(w.n.At(id), w.now);
  }

  /** Over any run without user action on the daemon in which every call of `crashed` comes within
      a stable run of the start time: five restarts at most for each life of the backend process. */
  lemma {:induction false} RestartsAreBoundedPerBackendLife(w: World, ss: seq<Step>, id: DaemonId)
    requires Run(w, ss) && SystemInv(w) && YoungRun(w, ss, id)
    requires forall s <- ss :: NoUser(s, id)
    ensures AutoRestarts(w, ss, id) + Fuel(After(w, ss).n.At(id)) <= Fuel(w.n.At(id)) + |RESTART_DELAYS_S| * Reboots(ss)
    ensures Fuel(After(w, ss).n.At(id)) >= 0
    ensures w.n.At(id).Has({Starting, Running}) ==> AutoRestarts(w, ss, id) <= |RESTART_DELAYS_S| * (Reboots(ss) + 1)
    decreases |ss|
  {
    assert SlotInv(w.n.At(id), w.now);
    if ss != [] {
      FuelStep(w, ss[0], id);
      DaemonSystem.StepKeepsInv(w, ss[0]);
      RestartsAreBoundedPerBackendLife(Next(w, ss[0]), ss[1..], id);
    }
  }

  /** Without a new backend process the restarts attempted and those left never exceed what was
      left: five at most from a live daemon. */
  lemma RestartsAreBounded(w: World, ss: seq<Step>, id: DaemonId)
    requires Run(w, ss) && SystemInv(w) && YoungRun(w, ss, id)
    requires forall s <- ss :: Quiet(s, id)
    ensures AutoRestarts(w, ss, id) + Fuel(After(w, ss).n.At(id)) <= Fuel(w.n.At(id))
    ensures Fuel(After(w, ss).n.At(id)) >= 0
    ensures w.n.At(id).Has({Starting, Running}) ==> AutoRestarts(w, ss, id) <= |RESTART_DELAYS_S|
  {
    QuietHasNoReboot(ss, id);
    RestartsAreBoundedPerBackendLife(w, ss, id);
  }

  lemma {:induction false} QuietHasNoReboot(ss: seq<Step>, id: DaemonId)
    requires forall s <- ss :: Quiet(s, id)
    ensures Reboots(ss) == 0
  {
    if ss != [] {
      assert Quiet(ss[0], id);
      QuietHasNoReboot(ss[1..], id);
    }
  }

  /** The call of `crashed` affects the row. */
  predicate CountsCrash(w: World, s: Step, id: DaemonId) {
    CallsCrashed(w, s, id) && (s == Deliver(id) ==> w.n.At(id).Has({Starting, Running}))
  }

  /** A young crash that counts, however it was noticed, ends in 'error' exactly when all five
      attempts are used; otherwise it is the next attempt. */
  lemma YoungCrashGivesUpIff(w: World, s: Step, id: DaemonId)
    requires SystemInv(w) && Enabled(w, s) && CountsCrash(w, s, id) && CrashIsYoung(w, s, id)
    ensures Next(w, s).n.At(id).Has({Error}) <==> w.n.At(id).attempts == Some(|RESTART_DELAYS_S|)
    ensures !Next(w, s).n.At(id).Has({Error}) ==>
              && Next(w, s).n.At(id).Has({Restarting})
              && Next(w, s).n.At(id).attempts
              == Some(1 + if w.n.At(id).attempts.Some? then w.n.At(id).attempts.value else 0)
  {
    SlotOfNext(w, s, id);
    assert SlotInv(w.n.At(id), w.now);
  }

  /** With all attempts used, the next young crash is the last: 'error', for good. */
  lemma SpentDaemonSettles(w: World, s: Step, id: DaemonId, ss: seq<Step>)
    requires SystemInv(w) && Enabled(w, s) && CountsCrash(w, s, id) && CrashIsYoung(w, s, id)
    requires w.n.At(id).attempts == Some(|RESTART_DELAYS_S|)
    requires Run(Next(w, s), ss) && forall t <- ss :: !Unsettles(t, id)
    ensures After(Next(w, s), ss).n.At(id).Has({Error})
  {
    YoungCrashGivesUpIff(w, s, id);
    StepKeepsInv(w, s);
    SettledStaysSettled(Next(w, s), ss, id);
  }

  // ── Restarts that fail ────────────────────────────────────────────────────────

  /** A failed automatic restart ends in 'error' exactly when the last attempt is used and the
      row has no start time. With one, the last delay alone (30 minutes) is longer than a stable
      run (15 minutes): the downtime counts as uptime and the attempts are forgotten. */
  lemma FailedRestartGivesUpOnlyWithoutStartTime(w: World, id: DaemonId, call: StartCall)
    requires SystemInv(w) && Enabled(w, Fire(id, call)) && !call.fate.Answered?
    ensures Next(w, Fire(id, call)).n.At(id).Has({Error}) <==>
            w.n.At(id).attempts == Some(5) && w.n.At(id).row.value.startedAt.None?
    ensures !Next(w, Fire(id, call)).n.At(id).Has({Error}) ==>
              && Next(w, Fire(id, call)).n.At(id).Has({Restarting})
              && Next(w, Fire(id, call)).n.At(id).row.value.startedAt == w.n.At(id).row.value.startedAt
  {
    assert SlotInv(w.n.At(id), w.now);
  }

  /** Wait until the timer is due. */
  ghost function Wait(w: World, id: DaemonId): Step
    requires w.n.At(id).timer.Some?
  {
    Tick(if w.n.At(id).timer.value > w.now then w.n.At(id).timer.value - w.now else 0)
  }

  ghost predicate Pending(w: World, id: DaemonId) {
    SystemInv(w) && w.n.At(id).Has({Restarting}) && w.n.At(id).timer.Some? && w.n.At(id).row.value.startedAt.Some?
  }

  /** The state after a wait and a refused restart. */
  ghost function Round(w: World, id: DaemonId): (r: World)
    requires Pending(w, id)
    ensures Enabled(Next(w, Wait(w, id)), Fire(id, REFUSED)) && IsAutoRestart(Next(w, Wait(w, id)), Fire(id, REFUSED), id)
    ensures r == Next(Next(w, Wait(w, id)), Fire(id, REFUSED)) && Pending(r, id)
  {
    var w1 := Next(w, Wait(w, id));
    StepKeepsInv(w, Wait(w, id));
    FailedRestartGivesUpOnlyWithoutStartTime(w1, id, REFUSED);
    StepKeepsInv(w1, Fire(id, REFUSED));
    var w2 := Next(w1, Fire(id, REFUSED));
    assert SlotInv(w2.n.At(id), w2.now);
    w2
  }

  /** Wait until the timer is due, let it fire, have the start refused; `n` times. */
  ghost function Failing(w: World, id: DaemonId, n: nat): seq<Step>
    requires Pending(w, id)
    decreases n
  {
    if n == 0 then [] else [Wait(w, id), Fire(id, REFUSED)] + Failing(Round(w, id), id, n - 1)
  }

  /** However often the automatic restart fails, a daemon with a start time is never given up:
      for every `n` there is a run of quiet steps with `n` failed restarts and a next one pending. */
  lemma {:induction false} FailingRestartsNeverEnd(w: World, id: DaemonId, n: nat)
    requires Pending(w, id)
    ensures var ss := Failing(w, id, n);
            && Run(w, ss) && (forall s <- ss :: Quiet(s, id)) && AutoRestarts(w, ss, id) == n
            && Pending(After(w, ss), id)
    decreases n
  {
    if n > 0 {
      var w2 := Round(w, id);
      FailingRestartsNeverEnd(w2, id, n - 1);
      TwoSteps(w, Wait(w, id), Fire(id, REFUSED), Failing(w2, id, n - 1), id);
    }
  }

  lemma TwoSteps(w: World, a: Step, b: Step, rest: seq<Step>, id: DaemonId)
    requires Enabled(w, a) && Enabled(Next(w, a), b) && Run(Next(Next(w, a), b), rest)
    ensures var ss := [a, b] + rest;
            && Run(w, ss) && After(w, ss) == After(Next(Next(w, a), b), rest)
            && AutoRestarts(w, ss, id) == (if IsAutoRestart(w, a, id) then 1 else 0)
                                          + (if IsAutoRestart(Next(w, a), b, id) then 1 else 0)
                                          + AutoRestarts(Next(Next(w, a), b), rest, id)
  {
    OneStep(Next(w, a), b, rest, id);
    OneStep(w, a, [b] + rest, id);
    assert [a, b] + rest == [a] + ([b] + rest);
  }

  lemma OneStep(w: World, a: Step, rest: seq<Step>, id: DaemonId)
    requires Enabled(w, a) && Run(Next(w, a), rest)
    ensures var ss := [a] + rest;
            && Run(w, ss) && After(w, ss) == After(Next(w, a), rest)
            && AutoRestarts(w, ss, id) == (if IsAutoRestart(w, a, id) then 1 else 0) + AutoRestarts(Next(w, a), rest, id)
  {
    assert ([a] + rest)[1..] == rest;
  }

  /** A daemon that ran for one second before its first crash. */
  const CRASHED: seq<Step> := UpAndDown(1000) + [Deliver("d")]

  lemma CrashedState()
    ensures Run(INITIAL, CRASHED) && SystemInv(After(INITIAL, CRASHED))
    ensures After(INITIAL, CRASHED).n.At("d") == Slot(Some(Row(Restarting, Some(7), Some(0))), Some(6000), Some(1))
  {
    UpAndDownState(1000);
    RunSnoc(INITIAL, UpAndDown(1000), Deliver("d"));
    InitialIsSound();
    ReachableStatesAreSound(INITIAL, CRASHED);
  }

  /** One second of life is enough: from its first crash on, the restarts of this daemon can
      fail any number of times without the row ever staying in 'error'. */
  lemma OneSecondDaemonIsNeverGivenUp(n: nat)
    ensures Run(INITIAL, CRASHED) && SystemInv(After(INITIAL, CRASHED))
    ensures var w := After(INITIAL, CRASHED);
            && Pending(w, "d")
            && Run(w, Failing(w, "d", n)) && AutoRestarts(w, Failing(w, "d", n), "d") == n
            && Pending(After(w, Failing(w, "d", n)), "d")
  {
    CrashedState();
    FailingRestartsNeverEnd(After(INITIAL, CRASHED), "d", n);
  }
}
