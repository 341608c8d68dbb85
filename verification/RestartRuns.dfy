/** Runs of the daemon system from its empty state that show what the restart bound allows: five
    restarts that all succeed, each soon followed by a crash, and then 'error'. */
module RestartRuns {
  import opened Collections
  import opened ExecutorTable
  import opened Options
  import opened DaemonHandlers
  import opened DaemonSystem
  import opened DaemonGuarantees
  import opened RestartBound

  lemma {:induction false} Continue(w: World, a: seq<Step>, b: seq<Step>, id: DaemonId)
    requires Run(w, a) && Run(After(w, a), b)
    ensures Run(w, a + b) && After(w, a + b) == After(After(w, a), b)
    ensures AutoRestarts(w, a + b, id) == AutoRestarts(w, a, id) + AutoRestarts(After(w, a), b, id)
    ensures YoungRun(w, a + b, id) <==> YoungRun(w, a, id) && YoungRun(After(w, a), b, id)
    decreases |a|
  {
    if a == [] {
      assert a + b == b;
    } else {
      assert (a + b)[1..] == a[1..] + b;
      Continue(Next(w, a[0]), a[1..], b, id);
    }
  }

  function Delay(k: nat): nat
    requires k < 5
  {
    RESTART_DELAYS_S[k] * 1000
  }

  /** Crash k + 1 of "d" was counted just now; no process lives. */
  ghost predicate Waiting(w: World, k: nat) {
    && k < 5 && w.n.table == Table(map[], map[], k + 1) && w.channel == multiset{}
    && w.n.At("d").row.Some? && w.n.At("d").row.value.status == Restarting
    && w.n.At("d").timer == Some(w.now + Delay(k)) && w.n.At("d").attempts == Some(k + 1)
  }

  /** The restart after crash k + 1 has just succeeded. */
  ghost predicate Up(w: World, k: nat) {
    && w.n.table == Table(map["d" := k + 1], map[k + 1 := Child("d", 7, w.now, true, false, false)], k + 2)
    && w.channel == multiset{}
    && w.n.At("d") == Slot(Some(Row(Running, Some(7), Some(w.now))), None, Some(k + 1))
  }

  /** And the new process has ended at once; its report is on the way. */
  ghost predicate Down(w: World, k: nat) {
    && w.n.table == Table(map[], map[], k + 2) && w.channel == multiset{"d"}
    && w.n.At("d") == Slot(Some(Row(Running, Some(7), Some(w.now))), None, Some(k + 1))
  }

  function CrashRound(k: nat): seq<Step>
    requires k < 5
  {
    [Tick(Delay(k)), Fire("d", OK), Exit(k + 1), Deliver("d")]
  }

  lemma Restarts(w: World, k: nat)
    requires Waiting(w, k)
    ensures var w1 := Next(w, Tick(Delay(k))); Enabled(w1, Fire("d", OK)) && Up(Next(w1, Fire("d", OK)), k)
    ensures IsAutoRestart(Next(w, Tick(Delay(k))), Fire("d", OK), "d")
  {
    var w1 := Next(w, Tick(Delay(k)));
    var w2 := Next(w1, Fire("d", OK));
    assert w2.n.table == Start(w1.n.table, "d", 7, true, w1.now);
  }

  lemma Ends(w: World, k: nat)
    requires Up(w, k)
    ensures Enabled(w, Exit(k + 1)) && Down(Next(w, Exit(k + 1)), k)
  {
    assert Without(map["d" := k + 1], "d") == map[];
    assert Without(map[k + 1 := Child("d", 7, w.now, true, false, false)], k + 1) == map[];
  }

  lemma IsCounted(w: World, k: nat)
    requires k < 5 && Down(w, k)
    ensures Enabled(w, Deliver("d")) && CrashIsYoung(w, Deliver("d"), "d")
    ensures var w1 := Next(w, Deliver("d")); if k < 4 then Waiting(w1, k + 1) else w1.n.At("d").Has({Error})
  {
  }

  /** One round: the delay, a restart that succeeds, a crash at once, its report. */
  lemma CrashRoundRuns(w: World, k: nat)
    requires Waiting(w, k)
    ensures Run(w, CrashRound(k)) && YoungRun(w, CrashRound(k), "d") && AutoRestarts(w, CrashRound(k), "d") == 1
    ensures var e := After(w, CrashRound(k)); if k < 4 then Waiting(e, k + 1) else e.n.At("d").Has({Error})
  {
    var w1 := Next(w, Tick(Delay(k)));
    Restarts(w, k);
    var w2 := Next(w1, Fire("d", OK));
    Ends(w2, k);
    var w3 := Next(w2, Exit(k + 1));
    IsCounted(w3, k);
    OneYoungStep(w3, Deliver("d"), []);
    OneYoungStep(w2, Exit(k + 1), [Deliver("d")]);
    OneYoungStep(w1, Fire("d", OK), [Exit(k + 1), Deliver("d")]);
    OneYoungStep(w, Tick(Delay(k)), [Fire("d", OK), Exit(k + 1), Deliver("d")]);
    FourSteps(Tick(Delay(k)), Fire("d", OK), Exit(k + 1), Deliver("d"));
  }

  lemma FourSteps(a: Step, b: Step, c: Step, d: Step)
    ensures [c] + [d] == [c, d] && [b] + [c, d] == [b, c, d] && [a] + [b, c, d] == [a, b, c, d] && [d] + [] == [d]
  {
  }

  lemma OneYoungStep(w: World, s: Step, rest: seq<Step>)
    requires Enabled(w, s) && CrashIsYoung(w, s, "d") && Run(Next(w, s), rest) && YoungRun(Next(w, s), rest, "d")
    ensures Run(w, [s] + rest) && YoungRun(w, [s] + rest, "d") && After(w, [s] + rest) == After(Next(w, s), rest)
    ensures AutoRestarts(w, [s] + rest, "d")
         == (if IsAutoRestart(w, s, "d") then 1 else 0) + AutoRestarts(Next(w, s), rest, "d")
  {
    OneStep(w, s, rest, "d");
    assert ([s] + rest)[1..] == rest;
  }

  function CrashRounds(k: nat): seq<Step>
    requires k <= 5
    decreases 5 - k
  {
    if k == 5 then [] else CrashRound(k) + CrashRounds(k + 1)
  }

  lemma {:induction false} CrashRoundsRun(w: World, k: nat)
    requires k <= 5 && (if k < 5 then Waiting(w, k) else w.n.At("d").Has({Error}))
    ensures Run(w, CrashRounds(k)) && YoungRun(w, CrashRounds(k), "d") && AutoRestarts(w, CrashRounds(k), "d") == 5 - k
    ensures After(w, CrashRounds(k)).n.At("d").Has({Error})
    ensures forall s <- CrashRounds(k) :: Quiet(s, "d")
    decreases 5 - k
  {
    if k < 5 {
      CrashRoundRuns(w, k);
      CrashRoundsRun(After(w, CrashRound(k)), k + 1);
      Continue(w, CrashRound(k), CrashRounds(k + 1), "d");
    }
  }

  /** The bound is reached: a daemon that crashes a second after its start and at once after each
      automatic restart is restarted five times, every restart succeeds, each of its six crashes is
      young, and the sixth puts it in 'error'. */
  lemma BoundIsReached()
    ensures Run(INITIAL, UpAndDown(1000)) && SystemInv(After(INITIAL, UpAndDown(1000)))
    ensures var w, ss := After(INITIAL, UpAndDown(1000)), [Deliver("d")] + CrashRounds(0);
            && w.n.At("d").Has({Running})
            && Run(w, ss) && YoungRun(w, ss, "d") && (forall s <- ss :: Quiet(s, "d"))
            && AutoRestarts(w, ss, "d") == |RESTART_DELAYS_S|
            && After(w, ss).n.At("d").Has({Error})
  {
    UpAndDownState(1000);
    InitialIsSound();
    ReachableStatesAreSound(INITIAL, UpAndDown(1000));
    var w := After(INITIAL, UpAndDown(1000));
    CrashRoundsRun(Next(w, Deliver("d")), 0);
    OneYoungStep(w, Deliver("d"), CrashRounds(0));
  }
}
