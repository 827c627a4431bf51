// AIRProcessor with locks that block, as SMutex locks: every run ends, and what it ends in.
module AirLiveness {
  import opened RequestCore
  import opened AirPhases

  // No thread gives up its attempt to lock.
  ghost predicate Step(s: Air, t: Air) {
    Next(s, t) && t.core.missed == s.core.missed && t.core.owing <= s.core.owing
  }

  // ---------------------------------------------------------------------------
  // Every run ends: each step lowers a measure.

  function StartWeight(start: Start): nat {
    match start
    case Waiting => 10
    case Incremented => 9
    case Started => 0
  }

  function CallbackWeight(cb: CallbackAt): nat {
    match cb
    case Triggering => 12
    case Pushing => 11
    case Owing => 2
    case Leaving => 1
  }

  function WorkerWeight(at: WorkerAt): nat {
    match at
    case Entering => 6
    case InLoop => 5
    case SawNoQuery => 4
    case Deleting => 3
  }

  function LockWeight(lock: Lock): nat {
    match lock
    case Free => 0
    case ByWorker(at) => WorkerWeight(at)
    case ByCallback(cb) => CallbackWeight(cb)
    case Nested(cb) => 5 + CallbackWeight(cb)
  }

  function CoreWeight(c: Core): nat {
    StartWeight(c.start) + 8 * c.queued + 7 * c.popped + LockWeight(c.lock) + 2 * c.deleting
  }

  function QueryWeight(q: Query): nat {
    match q
    case Running => 15
    case ResultOut => 14
    case ExecutedOut => 13
    case _ => 0
  }

  function PhaseWeight(phase: Phase): nat {
    20 * Rank(phase)
  }

  function PcWeight(pc: Pc): nat {
    match pc
    case Gap => 3
    case Check => 2
    case In(_) => 1
  }

  function Weight(s: Air): nat {
    CoreWeight(s.core) + QueryWeight(s.sec) + QueryWeight(s.update) + PhaseWeight(s.phase) + PcWeight(s.pc)
  }

  lemma RoutineLowersWeight(c: Core, d: Core)
    requires Routine(c, d) && c.owing == 0 && d.missed == c.missed
    ensures CoreWeight(d) < CoreWeight(c)
  {
  }

  lemma TryWeighs12(c: Core, d: Core)
    requires CallbackTries(c, d) && d.owing <= c.owing
    ensures CoreWeight(d) == CoreWeight(c) + 12
  {
  }

  lemma LoopLowersWeight(c: Core, d: Core)
    requires WorkerLeaves(c, d) || SeesNoQuery(c, d) || TakesFinal(c, d)
    ensures CoreWeight(d) < CoreWeight(c)
  {
  }

  lemma TryLowersWeight(s: Air, t: Air)
    requires (SecTries(s, t) || UpdateTries(s, t)) && t.core.owing <= s.core.owing
    ensures Weight(t) < Weight(s)
  {
    hide CoreWeight, CallbackTries, CallbackNests, PhaseWeight, PcWeight;
    TryWeighs12(s.core, t.core);
  }

  lemma ExecutionLowersWeight(s: Air, t: Air)
    requires SecExecutes(s, t) || UpdateExecutes(s, t)
    ensures Weight(t) < Weight(s)
  {
    hide CoreWeight, PhaseWeight, PcWeight;
  }

  lemma PublicationLowersWeight(s: Air, t: Air, ok: bool)
    requires SecPublishes(s, t) || UpdatePublishes(s, t, ok)
    ensures Weight(t) < Weight(s)
  {
    hide CoreWeight, PhaseWeight, PcWeight, Published;
  }

  lemma CallbackLowersWeight(s: Air, t: Air)
    requires CallbackStep(s, t) && t.core.owing <= s.core.owing
    ensures Weight(t) < Weight(s)
  {
    hide Weight, SecTries, UpdateTries, SecExecutes, UpdateExecutes, SecPublishes, UpdatePublishes;
    if SecTries(s, t) || UpdateTries(s, t) {
      TryLowersWeight(s, t);
    } else if SecExecutes(s, t) || UpdateExecutes(s, t) {
      ExecutionLowersWeight(s, t);
    } else {
      PublicationLowersWeight(s, t, UpdatePublishes(s, t, true));
    }
  }

  lemma IssueLowersWeight(s: Air, t: Air)
    requires PhasesAgree(s) && (Phase1Issues(s, t) || Phase2Updates(s, t) || Counts(s, t))
    ensures Weight(t) < Weight(s)
  {
    hide PhaseReady;
    assert CoreWeight(t.core) == CoreWeight(s.core);
    hide CoreWeight;
  }

  lemma PhaseLowersWeight(s: Air, t: Air)
    requires PhasesAgree(s) && (PhaseStep(s, t) || EntersPhase(s, t) || Counts(s, t))
    ensures Weight(t) < Weight(s)
  {
    hide PhaseReady, CoreWeight, Phase1Issues, Phase2Updates, Counts;
    if Phase1Issues(s, t) || Phase2Updates(s, t) || Counts(s, t) {
      IssueLowersWeight(s, t);
    }
  }

  lemma StepLowersWeight(s: Air, t: Air)
    requires Inv(s) && Step(s, t) && s.core.owing == 0
    ensures Weight(t) < Weight(s)
  {
    hide Good, CountsAgree, PhasesAgree, MasksAgree, AnswersAgree, CoreWeight, CallbackStep, PhaseStep, EntersPhase,
      Counts, Routine, WorkerLeaves, SeesNoQuery, TakesFinal, PhaseReady;
    if RoutineStep(s, t) {
      RoutineLowersWeight(s.core, t.core);
    } else if CallbackStep(s, t) {
      CallbackLowersWeight(s, t);
    } else if Leaves(s, t) || FinalTest(s, t) {
      LoopLowersWeight(s.core, t.core);
    } else {
      PhaseLowersWeight(s, t);
    }
  }

  // ---------------------------------------------------------------------------
  // No wake-up is lost: if nothing is under way for a request, it is deleted, or phase 1
  // rejected it.

  predicate UnderWay(c: Core) {
    c.start != Started || c.queued + c.popped + c.pending + c.deleting > 0
  }

  // A callback that has pushed its message leaves it behind for the next worker.
  ghost predicate Woken(s: Air) {
    && s.core.missed == 0 && s.core.owing == 0
    && (s.core.lock in {ByCallback(Owing), ByCallback(Leaving)} ==> UnderWay(s.core))
    && (s.core.lock == Free && !UnderWay(s.core) ==> s.core.frees > 0 || s.phase == Foreign)
  }

  lemma RoutineKeepsWoken(s: Air, t: Air)
    requires Inv(s) && Woken(s) && RoutineStep(s, t) && t.core.missed == 0 && t.core.owing == 0
    ensures Woken(t)
  {
    hide Counted, NoQueryLeft, CountsAgree, PhasesAgree, MasksAgree, AnswersAgree;
    if StartIncrements(s.core, t.core) || StartPushes(s.core, t.core) {
      assert Woken(t);
    } else if Pop(s.core, t.core) || WorkerLocks(s.core, t.core) || WorkerUncounts(s.core, t.core) {
      assert Woken(t);
    } else if UnlocksToDelete(s.core, t.core) {
      assert Woken(t);
    } else if Deletes(s.core, t.core) {
      assert Woken(t);
    } else if CallbackIncrements(s.core, t.core) || CallbackPushes(s.core, t.core) {
      assert Woken(t);
    } else if CallbackUncounts(s.core, t.core) {
      assert Woken(t);
    } else if CallbackLeaves(s.core, t.core) {
      assert Woken(t);
    }
  }

  lemma CountersTell(c: Core)
    requires Counted(c) && c.uncounted == 0 && c.leads == 0 && c.missed == 0 && c.owing == 0
    requires c.lock == ByWorker(InLoop) || c.lock == ByWorker(SawNoQuery)
    ensures c.dbIssued % TWO_32 != 0 || c.msgIssued % TWO_32 != 0 ==> UnderWay(c)
  {
  }

  lemma QueriesTell(s: Air)
    requires CountsAgree(s) && PhasesAgree(s) && MasksAgree(s) && s.phase in {Phase1, Phase2, Phase3}
    ensures !PhaseReady(s) ==> UnderWay(s.core)
  {
  }

  // A worker leaves only if something else is under way.
  lemma LeavesKeepsWoken(s: Air, t: Air)
    requires Inv(s) && Woken(s) && Leaves(s, t)
    ensures Woken(t)
  {
    hide MasksAgree, PhasesAgree, AnswersAgree, Counted, NoQueryLeft, Safe;
    if s.phase == Final {
      CountersTell(s.core);
    } else if s.phase != Foreign {
      QueriesTell(s);
      hide PhaseReady, CountsAgree;
    }
  }

  lemma TryKeepsWoken(s: Air, t: Air)
    requires Woken(s) && t.core.owing == 0 && (SecTries(s, t) || UpdateTries(s, t))
    ensures Woken(t)
  {
    assert CallbackTries(s.core, t.core);
    hide SecTries, UpdateTries;
  }

  lemma CallbackKeepsWoken(s: Air, t: Air)
    requires Woken(s) && t.core.owing == 0 && CallbackStep(s, t)
    ensures Woken(t)
  {
    hide SecTries, UpdateTries, Published, Woken;
    if SecTries(s, t) || UpdateTries(s, t) {
      TryKeepsWoken(s, t);
    } else {
      SameCoreKeepsWoken(s, t);
    }
  }

  lemma SameCoreKeepsWoken(s: Air, t: Air)
    requires Woken(s) && t.core == s.core && t.phase == s.phase
    ensures Woken(t)
  {
  }

  lemma HeldLockKeepsWoken(s: Air, t: Air)
    requires Woken(s) && t.core.lock.ByWorker? && t.core.missed == s.core.missed && t.core.owing == s.core.owing
    ensures Woken(t)
  {
  }

  lemma PhaseKeepsWoken(s: Air, t: Air)
    requires Woken(s) && PhaseStep(s, t)
    ensures Woken(t)
  {
    hide Woken, PhaseReady;
    if Phase1Issues(s, t) || Phase2Updates(s, t) {
      HeldLockKeepsWoken(s, t);
    } else {
      assert t.core == s.core;
      HeldLockKeepsWoken(s, t);
    }
  }

  lemma LoopKeepsWoken(s: Air, t: Air)
    requires Woken(s) && (EntersPhase(s, t) || FinalTest(s, t) || Counts(s, t))
    ensures Woken(t)
  {
    hide Woken, PhaseReady;
    assert t.core.lock.ByWorker? && t.core.missed == s.core.missed && t.core.owing == s.core.owing;
    HeldLockKeepsWoken(s, t);
  }

  lemma StepKeepsWoken(s: Air, t: Air)
    requires Inv(s) && Woken(s) && Step(s, t)
    ensures Woken(t)
  {
    hide Inv, RoutineStep, CallbackStep, EntersPhase, Leaves, FinalTest, Counts, PhaseStep;
    if RoutineStep(s, t) {
      RoutineKeepsWoken(s, t);
    } else if Leaves(s, t) {
      LeavesKeepsWoken(s, t);
    } else if CallbackStep(s, t) {
      CallbackKeepsWoken(s, t);
    } else if PhaseStep(s, t) {
      PhaseKeepsWoken(s, t);
    } else {
      LoopKeepsWoken(s, t);
    }
  }

  // ---------------------------------------------------------------------------
  // A step for every state that is not the end.

  predicate HasRoutine(c: Core) {
    || c.start != Started || c.queued > 0 || (c.lock == Free && c.popped > 0) || c.deleting > 0
    || c.lock.ByCallback? || c.lock.Nested? || c.lock in {ByWorker(Entering), ByWorker(Deleting)}
  }

  function RoutineNext(c: Core): Core
    requires HasRoutine(c)
  {
    if c.start == Waiting then c.(start := Incremented, msgIssued := c.msgIssued + 1)
    else if c.start == Incremented then c.(start := Started, queued := c.queued + 1)
    else if c.queued > 0 then c.(queued := c.queued - 1, popped := c.popped + 1)
    else if c.deleting > 0 then c.(deleting := c.deleting - 1, frees := c.frees + 1)
    else
      match c.lock
      case Free => c.(popped := c.popped - 1, lock := ByWorker(Entering))
      case ByWorker(at) =>
        if at == Entering then c.(lock := ByWorker(InLoop), msgIssued := c.msgIssued - 1)
        else c.(lock := Free, deleting := c.deleting + 1)
      case _ =>
        match c.lock.cb
        case Triggering => c.(lock := c.lock.(cb := Pushing), msgIssued := c.msgIssued + 1)
        case Pushing => c.(lock := c.lock.(cb := Owing), queued := c.queued + 1)
        case Owing => c.(lock := c.lock.(cb := Leaving), dbIssued := c.dbIssued - 1)
        case Leaving => c.(lock := if c.lock.ByCallback? then Free else ByWorker(InLoop))
  }

  lemma RoutineNextIsRoutine(c: Core)
    requires HasRoutine(c)
    ensures Routine(c, RoutineNext(c))
    ensures RoutineNext(c).missed == c.missed && RoutineNext(c).owing == c.owing
  {
    var d := RoutineNext(c);
    if c.start == Waiting {
      assert StartIncrements(c, d);
    } else if c.start == Incremented {
      assert StartPushes(c, d);
    } else if c.queued > 0 {
      assert Pop(c, d);
    } else if c.deleting > 0 {
      assert Deletes(c, d);
    } else if c.lock == Free {
      assert WorkerLocks(c, d);
    } else if c.lock.ByWorker? {
      assert WorkerUncounts(c, d) || UnlocksToDelete(c, d);
    } else {
      assert CallbackIncrements(c, d) || CallbackPushes(c, d) || CallbackUncounts(c, d) || CallbackLeaves(c, d);
    }
  }

  lemma PhaseIsEnabled(s: Air) returns (t: Air)
    requires PhasesAgree(s) && s.core.lock == ByWorker(InLoop) && s.pc.In?
    ensures PhaseStep(s, t) && t.core == s.core
  {
    if s.pc.phase == Phase1 {
      t := s.(pc := Check, phase := Foreign, errors := s.errors + 1);
      assert Phase1Rejects(s, t);
    } else if s.pc.phase == Phase2 {
      if s.result & AIRDB_GET_IMSI_SEC == 0 {
        t := s.(pc := Check, phase := Final, errors := s.errors + 1);
        assert Phase2Fails(s, t);
      } else {
        t := s.(pc := Check, phase := Final, successes := s.successes + 1, updates := s.updates + 1);
        assert Phase2CannotSetCallback(s, t);
      }
    } else {
      t := s.(pc := Check, phase := Final);
      assert Phase3Ends(s, t);
    }
  }

  lemma CheckIsEnabled(s: Air) returns (t: Air)
    requires s.core.lock == ByWorker(InLoop) && s.pc == Check
    ensures EntersPhase(s, t) || Leaves(s, t) || FinalTest(s, t)
    ensures t.core.missed == s.core.missed && t.core.owing == s.core.owing
  {
    if !PhaseReady(s) {
      t := s.(core := s.core.(lock := Free));
      assert WorkerLeaves(s.core, t.core);
      assert Leaves(s, t);
    } else if s.phase == Final {
      t := s.(core := s.core.(lock := ByWorker(SawNoQuery)));
      assert SeesNoQuery(s.core, t.core);
      assert FinalTest(s, t);
    } else {
      t := s.(pc := In(s.phase));
      assert EntersPhase(s, t);
    }
  }

  lemma SecondReadIsEnabled(s: Air) returns (t: Air)
    requires s.core.lock == ByWorker(SawNoQuery) && s.pc == Check && s.phase == Final
    ensures Leaves(s, t) || FinalTest(s, t)
    ensures t.core.missed == s.core.missed && t.core.owing == s.core.owing
  {
    if s.core.msgIssued % TWO_32 == 0 {
      t := s.(core := s.core.(lock := ByWorker(Deleting)));
      assert TakesFinal(s.core, t.core);
      assert FinalTest(s, t);
    } else {
      t := s.(core := s.core.(lock := Free));
      assert WorkerLeaves(s.core, t.core);
      assert Leaves(s, t);
    }
  }

  lemma CallbackIsEnabled(s: Air) returns (t: Air)
    requires s.core.lock == Free && s.core.pending > 0 && Live(s.sec) + Live(s.update) > 0
    ensures CallbackStep(s, t) && t.core.missed == s.core.missed && t.core.owing == s.core.owing
  {
    var locked := s.core.(pending := s.core.pending - 1, lock := ByCallback(Triggering));
    assert CallbackLocks(s.core, locked) && !CallbackNests(s.core, locked);
    if Live(s.sec) > 0 {
      match s.sec
      case Running =>
        t := s.(sec := ResultOut, secOk := true, result := Published(s.result, AIRDB_GET_IMSI_SEC, true));
        assert SecPublishes(s, t);
      case ResultOut =>
        t := s.(sec := ExecutedOut, executed := s.executed | AIRDB_GET_IMSI_SEC);
        assert SecExecutes(s, t);
      case ExecutedOut =>
        t := s.(core := locked, sec := Finished);
        assert SecTries(s, t);
    } else {
      match s.update
      case Running =>
        t := s.(update := ResultOut, result := Published(s.result, AIRDB_UPDATE_IMSI, true));
        assert UpdatePublishes(s, t, true);
      case ResultOut =>
        t := s.(update := ExecutedOut, executed := s.executed | AIRDB_UPDATE_IMSI);
        assert UpdateExecutes(s, t);
      case ExecutedOut =>
        t := s.(core := locked, update := Finished);
        assert UpdateTries(s, t);
    }
  }

  lemma SomeStepIsEnabled(s: Air) returns (t: Air)
    requires Inv(s) && Woken(s) && s.core.frees == 0 && s.phase != Foreign
    ensures Step(s, t)
  {
    hide Good, MasksAgree, AnswersAgree, Routine, CallbackStep, EntersPhase, Leaves, FinalTest, PhaseStep;
    if HasRoutine(s.core) {
      RoutineNextIsRoutine(s.core);
      t := s.(core := RoutineNext(s.core));
      assert RoutineStep(s, t);
    } else if s.core.lock == Free {
      t := CallbackIsEnabled(s);
    } else if s.core.lock == ByWorker(SawNoQuery) {
      t := SecondReadIsEnabled(s);
    } else if s.pc == Gap {
      t := s.(pc := Check, core := CountIssued(s.core));
      assert Counts(s, t);
    } else if s.pc == Check {
      assert s.core.lock.ByWorker? && s.core.lock.at == InLoop;
      t := CheckIsEnabled(s);
    } else {
      t := PhaseIsEnabled(s);
    }
  }

  // ---------------------------------------------------------------------------
  // What every run comes to.

  ghost predicate IsBlockingRun(run: seq<Air>) {
    |run| > 0 && Initial(run[0]) && forall i :: 0 < i < |run| ==> Step(run[i - 1], run[i])
  }

  ghost predicate Stuck(s: Air) {
    forall t :: !Step(s, t)
  }

  lemma {:induction false} BlockingRunKeeps(run: seq<Air>, i: nat)
    requires IsBlockingRun(run) && i < |run|
    ensures Inv(run[i]) && Woken(run[i])
    ensures i + Weight(run[i]) <= 72
  {
    hide Inv, Woken, Step, Initial, Weight;
    if i == 0 {
      InitialInv(run[0]);
      InitialIsWoken(run[0]);
    } else {
      BlockingRunKeeps(run, i - 1);
      StepIsNext(run[i - 1], run[i]);
      NextKeepsInv(run[i - 1], run[i]);
      StepKeepsWoken(run[i - 1], run[i]);
      StepLowersWeight(run[i - 1], run[i]);
    }
  }

  lemma StepIsNext(s: Air, t: Air)
    requires Woken(s) && Step(s, t)
    ensures Next(s, t) && s.core.owing == 0
  {
    hide Next;
  }

  lemma InitialIsWoken(s: Air)
    requires Initial(s)
    ensures Woken(s) && Weight(s) == 72
  {
  }

  // Phase 1 rejects the request.
  ghost predicate Rejected(run: seq<Air>) {
    exists i :: 0 <= i < |run| - 1 && Phase1Rejects(run[i], run[i + 1])
  }

  lemma ForeignStep(s: Air, t: Air)
    requires PhasesAgree(s) && Next(s, t)
    ensures t.phase == Foreign <==> s.phase == Foreign || Phase1Rejects(s, t)
  {
    if PhaseStep(s, t) {
      hide PhaseReady, IssueFirst;
    } else {
      hide PhasesAgree, Next, PhaseStep;
      OtherStepsKeepPhase(s, t);
      if Phase1Rejects(s, t) {
        RejectionIsPhaseStep(s, t);
      }
    }
  }

  lemma RejectionIsPhaseStep(s: Air, t: Air)
    requires Phase1Rejects(s, t)
    ensures PhaseStep(s, t)
  {
  }

  lemma {:induction false} ForeignMeansRejected(run: seq<Air>)
    requires IsBlockingRun(run)
    ensures run[|run| - 1].phase == Foreign <==> Rejected(run)
  {
    hide Inv, Next, Phase1Rejects;
    var last := |run| - 1;
    if last > 0 {
      var before := run[..last];
      ForeignMeansRejected(before);
      BlockingRunKeeps(run, last - 1);
      StepIsNext(run[last - 1], run[last]);
      ForeignStepOfInv(run[last - 1], run[last]);
      if Rejected(before) {
        var i :| 0 <= i < |before| - 1 && Phase1Rejects(before[i], before[i + 1]);
        assert Phase1Rejects(run[i], run[i + 1]);
      }
      if Rejected(run) && !Phase1Rejects(run[last - 1], run[last]) {
        var i :| 0 <= i < |run| - 1 && Phase1Rejects(run[i], run[i + 1]);
        assert i != last - 1;
        assert Phase1Rejects(before[i], before[i + 1]);
      }
      assert Phase1Rejects(run[last - 1], run[last - 1 + 1]) ==> Rejected(run);
    }
  }

  lemma ForeignStepOfInv(s: Air, t: Air)
    requires Inv(s) && Next(s, t)
    ensures t.phase == Foreign <==> s.phase == Foreign || Phase1Rejects(s, t)
  {
    hide Next, PhasesAgree, Phase1Rejects;
    ForeignStep(s, t);
  }

  // Every run ends within 72 steps; and at its end the request has been answered, once,
  // and it has been deleted if and only if phase 1 did not reject it. A rejected one
  // stays for ever.
  lemma EveryRunEnds(run: seq<Air>)
    requires IsBlockingRun(run)
    ensures |run| <= 73
    ensures var s := run[|run| - 1]; Stuck(s) ==>
      s.core.frees == (if Rejected(run) then 0 else 1) && s.errors + s.successes == 1
  {
    hide Initial, Step, Good, MasksAgree, PhasesAgree, Weight, Rejected;
    BlockingRunKeeps(run, |run| - 1);
    ForeignMeansRejected(run);
    var s := run[|run| - 1];
    FreedOnce(s);
    if Stuck(s) && s.core.frees == 0 && s.phase != Foreign {
      var _ := SomeStepIsEnabled(s);
    }
  }

  lemma FreedOnce(s: Air)
    requires Good(s.core)
    ensures s.core.frees <= 1
  {
    hide Counted, NoQueryLeft;
  }

  // ---------------------------------------------------------------------------
  // A request that is never deleted.

  lemma Extend(run: seq<Air>, t: Air)
    requires IsBlockingRun(run) && Step(run[|run| - 1], t)
    ensures IsBlockingRun(run + [t])
  {
    hide Step, Initial;
    assert forall i :: 0 <= i < |run| ==> (run + [t])[i] == run[i];
  }

  lemma RoutineIsStep(s: Air)
    requires HasRoutine(s.core)
    ensures Step(s, s.(core := RoutineNext(s.core)))
  {
    RoutineNextIsRoutine(s.core);
    hide Routine, CallbackStep, EntersPhase, Leaves, FinalTest, Counts, PhaseStep, RoutineNext;
    assert RoutineStep(s, s.(core := RoutineNext(s.core)));
  }

  // The starting thread and the worker, up to the phase loop.
  lemma ReachLoop() returns (run: seq<Air>)
    ensures IsBlockingRun(run)
    ensures run[|run| - 1] == Air(Core(Started, 0, 0, 0, 0, 0, 0, 0, ByWorker(InLoop), 0, 0, 0, 0, 0), Phase1, Check,
                                  Unissued, Unissued, 0, 0xFFFF_FFFF, false, 0, 0, 0)
  {
    var s := Air(Core(Waiting, 0, 0, 0, 0, 0, 0, 0, Free, 0, 0, 0, 0, 0), Phase1, Check, Unissued, Unissued, 0,
                 0xFFFF_FFFF, false, 0, 0, 0);
    assert Initial(s);
    run := [s];
    hide Step, Initial;
    for k := 0 to 5
      invariant IsBlockingRun(run) && run[|run| - 1] == s && s.core == OnTheWay(k)
      invariant s == Air(s.core, Phase1, Check, Unissued, Unissued, 0, 0xFFFF_FFFF, false, 0, 0, 0)
    {
      RoutineIsStep(s);
      s := s.(core := RoutineNext(s.core));
      Extend(run, s);
      run := run + [s];
    }
  }

  function OnTheWay(k: nat): Core {
    match k
    case 0 => Core(Waiting, 0, 0, 0, 0, 0, 0, 0, Free, 0, 0, 0, 0, 0)
    case 1 => Core(Incremented, 0, 0, 0, 0, 0, 0, 0, Free, 1, 0, 0, 0, 0)
    case 2 => Core(Started, 1, 0, 0, 0, 0, 0, 0, Free, 1, 0, 0, 0, 0)
    case 3 => Core(Started, 0, 1, 0, 0, 0, 0, 0, Free, 1, 0, 0, 0, 0)
    case 4 => Core(Started, 0, 0, 0, 0, 0, 0, 0, ByWorker(Entering), 1, 0, 0, 0, 0)
    case _ => Core(Started, 0, 0, 0, 0, 0, 0, 0, ByWorker(InLoop), 0, 0, 0, 0, 0)
  }

  lemma WorkerIsStep(s: Air, t: Air)
    requires EntersPhase(s, t) || PhaseStep(s, t) || Leaves(s, t) || Counts(s, t) || FinalTest(s, t) || CallbackStep(s, t)
    requires t.core.missed == s.core.missed && t.core.owing == s.core.owing
    ensures Step(s, t)
  {
    hide RoutineStep, CallbackStep, EntersPhase, Leaves, FinalTest, Counts, PhaseStep;
  }

  // Nothing is left to do for a rejected request once the worker is gone.
  lemma RejectedIsStuck(s: Air)
    requires s.phase == Foreign && s.pc == Check && s.sec == Unissued && s.update == Unissued
    requires s.core.start == Started && s.core.lock == Free && s.core.queued == 0 && s.core.popped == 0
    requires s.core.pending == 0 && s.core.owing == 0 && s.core.deleting == 0
    ensures Stuck(s)
  {
    forall t ensures !Step(s, t) {
      NoRoutine(s.core, t.core);
      hide Routine, PhaseReady, Published, CallbackTries, CallbackNests;
    }
  }

  lemma NoRoutine(c: Core, d: Core)
    requires c.start == Started && c.lock == Free && c.queued == 0 && c.popped == 0 && c.owing == 0 && c.deleting == 0
    ensures !Routine(c, d)
  {
  }

  // Phase 1 rejects, the worker leaves, and the answered request is there for ever.
  lemma RejectedRequestStays() returns (run: seq<Air>)
    ensures IsBlockingRun(run) && Rejected(run) && Stuck(run[|run| - 1])
    ensures run[|run| - 1].core.frees == 0 && run[|run| - 1].errors == 1
  {
    run := ReachLoop();
    var s := run[|run| - 1];
    var t := s.(pc := In(Phase1));
    var u := t.(pc := Check, phase := Foreign, errors := 1);
    var v := u.(core := u.core.(lock := Free));
    assert EntersPhase(s, t);
    assert Phase1Rejects(t, u);
    RejectionIsPhaseStep(t, u);
    assert WorkerLeaves(u.core, v.core) && Leaves(u, v);
    WorkerIsStep(s, t);
    WorkerIsStep(t, u);
    WorkerIsStep(u, v);
    RejectedIsStuck(v);
    hide Step, Stuck, Initial, EntersPhase, Phase1Rejects, Leaves, PhaseStep;
    Extend(run, t);
    run := run + [t];
    Extend(run, u);
    run := run + [u];
    Extend(run, v);
    run := run + [v];
    assert Phase1Rejects(run[|run| - 3], run[|run| - 3 + 1]);
  }

  // ---------------------------------------------------------------------------
  // A request that is answered with success, stored and deleted.

  // A callback inside its lock, up to the worker that it has triggered.
  function CallbackRound(c: Core, k: nat): Core {
    match k
    case 0 => c.(lock := ByCallback(Triggering))
    case 1 => c.(lock := ByCallback(Pushing), msgIssued := c.msgIssued + 1)
    case 2 => c.(lock := ByCallback(Owing), msgIssued := c.msgIssued + 1, queued := 1)
    case 3 => c.(lock := ByCallback(Owing), msgIssued := c.msgIssued + 1, popped := 1)
    case 4 => c.(lock := ByCallback(Leaving), msgIssued := c.msgIssued + 1, popped := 1, dbIssued := c.dbIssued - 1)
    case 5 => c.(lock := Free, msgIssued := c.msgIssued + 1, popped := 1, dbIssued := c.dbIssued - 1)
    case 6 => c.(lock := ByWorker(Entering), msgIssued := c.msgIssued + 1, dbIssued := c.dbIssued - 1)
    case _ => c.(lock := ByWorker(InLoop), dbIssued := c.dbIssued - 1)
  }

  lemma CallbackRoundGoesOn(c: Core, k: nat)
    requires c.start == Started && c.queued == 0 && c.popped == 0 && c.deleting == 0 && k < 7
    ensures HasRoutine(CallbackRound(c, k)) && RoutineNext(CallbackRound(c, k)) == CallbackRound(c, k + 1)
  {
  }

  lemma ReachNextWorker(run: seq<Air>, c: Core) returns (longer: seq<Air>)
    requires IsBlockingRun(run) && run[|run| - 1].core == c.(lock := ByCallback(Triggering))
    requires c.start == Started && c.queued == 0 && c.popped == 0 && c.deleting == 0
    ensures IsBlockingRun(longer)
    ensures longer[|longer| - 1] ==
            run[|run| - 1].(core := c.(lock := ByWorker(InLoop), dbIssued := c.dbIssued - 1))
  {
    var s := run[|run| - 1];
    longer := run;
    hide Step, Initial, HasRoutine, RoutineNext, CallbackRound;
    assert s == s.(core := CallbackRound(c, 0)) by {
      RoundBegins(c);
    }
    for k := 0 to 7
      invariant IsBlockingRun(longer) && longer[|longer| - 1] == s.(core := CallbackRound(c, k))
    {
      CallbackRoundGoesOn(c, k);
      RoutineIsStep(longer[|longer| - 1]);
      Extend(longer, s.(core := CallbackRound(c, k + 1)));
      longer := longer + [s.(core := CallbackRound(c, k + 1))];
    }
    RoundBegins(c);
  }

  lemma RoundBegins(c: Core)
    ensures CallbackRound(c, 0) == c.(lock := ByCallback(Triggering))
    ensures CallbackRound(c, 7) == c.(lock := ByWorker(InLoop), dbIssued := c.dbIssued - 1)
  {
  }

  function LoopCore(pending: nat, uncounted: nat, dbIssued: int, effort: nat): Core {
    Core(Started, 0, 0, 0, pending, 0, 0, uncounted, ByWorker(InLoop), 0, dbIssued, 0, 0, effort)
  }

  lemma ReachPhase2() returns (run: seq<Air>)
    ensures IsBlockingRun(run)
    ensures run[|run| - 1] == Air(LoopCore(1, 0, 1, 1), Phase2, In(Phase2), ExecutedOut, Unissued, 1, 0xFFFF_FFFF, true,
                                  0, 0, 0)
  {
    run := ReachLoop();
    var s0 := run[|run| - 1];
    var s1 := s0.(pc := In(Phase1));
    var s2 := s1.(pc := Gap, phase := Phase2, sec := Running, core := LoopCore(1, 1, 0, 1));
    var s3 := s2.(pc := Check, core := LoopCore(1, 0, 1, 1));
    var s4 := s3.(sec := ResultOut, secOk := true);
    var s5 := s4.(sec := ExecutedOut, executed := 1);
    var s6 := s5.(pc := In(Phase2));
    assert EntersPhase(s0, s1);
    assert Phase1Issues(s1, s2) && PhaseStep(s1, s2);
    assert Counts(s2, s3);
    assert SecPublishes(s3, s4) && CallbackStep(s3, s4);
    assert SecExecutes(s4, s5) && CallbackStep(s4, s5);
    assert EntersPhase(s5, s6);
    hide Initial, EntersPhase, PhaseStep, Counts, CallbackStep, Step;
    run := ReachSix(run, s1, s2, s3, s4, s5, s6);
  }

  lemma ReachSix(run: seq<Air>, s1: Air, s2: Air, s3: Air, s4: Air, s5: Air, s6: Air) returns (longer: seq<Air>)
    requires IsBlockingRun(run)
    requires IsQuick(run[|run| - 1], s1) && IsQuick(s1, s2) && IsQuick(s2, s3)
    requires IsQuick(s3, s4) && IsQuick(s4, s5) && IsQuick(s5, s6)
    ensures IsBlockingRun(longer) && longer[|longer| - 1] == s6
  {
    hide IsQuick, Step, Initial;
    longer := ReachOne(run, s1);
    longer := ReachOne(longer, s2);
    longer := ReachOne(longer, s3);
    longer := ReachOne(longer, s4);
    longer := ReachOne(longer, s5);
    longer := ReachOne(longer, s6);
  }

  // A step of a worker in its phases or of a callback.
  ghost predicate IsQuick(s: Air, t: Air) {
    && (EntersPhase(s, t) || PhaseStep(s, t) || Leaves(s, t) || Counts(s, t) || FinalTest(s, t) || CallbackStep(s, t))
    && t.core.missed == s.core.missed && t.core.owing == s.core.owing
  }

  lemma ReachOne(run: seq<Air>, t: Air) returns (longer: seq<Air>)
    requires IsBlockingRun(run) && IsQuick(run[|run| - 1], t)
    ensures IsBlockingRun(longer) && longer[|longer| - 1] == t
  {
    WorkerIsStep(run[|run| - 1], t);
    hide Step, IsQuick, Initial;
    Extend(run, t);
    longer := run + [t];
  }

  lemma ReachFinal() returns (run: seq<Air>)
    ensures IsBlockingRun(run)
    ensures run[|run| - 1] == Air(LoopCore(2, 0, 2, 2), Final, Check, ExecutedOut, ExecutedOut, 3, 0xFFFF_FFFF, true,
                                  0, 1, 1)
  {
    run := ReachPhase2();
    var s0 := run[|run| - 1];
    var s1 := s0.(pc := Gap, phase := Phase3, update := Running, core := LoopCore(2, 1, 1, 2), successes := 1,
                  updates := 1);
    var s2 := s1.(pc := Check, core := LoopCore(2, 0, 2, 2));
    var s3 := s2.(update := ResultOut);
    var s4 := s3.(update := ExecutedOut, executed := 3);
    var s5 := s4.(pc := In(Phase3));
    var s6 := s5.(pc := Check, phase := Final);
    assert Phase2Updates(s0, s1) && PhaseStep(s0, s1);
    assert Counts(s1, s2);
    assert UpdatePublishes(s2, s3, true) && CallbackStep(s2, s3);
    assert UpdateExecutes(s3, s4) && CallbackStep(s3, s4);
    assert EntersPhase(s4, s5);
    assert Phase3Ends(s5, s6) && PhaseStep(s5, s6);
    hide Initial, EntersPhase, PhaseStep, Counts, CallbackStep, Step;
    run := ReachSix(run, s1, s2, s3, s4, s5, s6);
  }

  // The worker leaves the two callbacks to finish, each with a worker of its own.
  lemma ReachNoCallback() returns (run: seq<Air>)
    ensures IsBlockingRun(run)
    ensures run[|run| - 1] == Air(LoopCore(0, 0, 0, 2), Final, Check, Finished, Finished, 3, 0xFFFF_FFFF, true, 0, 1, 1)
  {
    run := ReachFinal();
    var s0 := run[|run| - 1];
    var s1 := s0.(core := s0.core.(lock := Free));
    var c2 := LoopCore(1, 0, 2, 2);
    var s2 := s1.(core := c2.(lock := ByCallback(Triggering)), sec := Finished);
    LeavesThenTries(s0, s1, s2);
    hide IsQuick, Step, Initial;
    run := ReachOne(run, s1);
    run := ReachOne(run, s2);
    run := ReachNextWorker(run, c2);
    var t0 := run[|run| - 1];
    var t1 := t0.(core := t0.core.(lock := Free));
    var c3 := LoopCore(0, 0, 1, 2);
    var t2 := t1.(core := c3.(lock := ByCallback(Triggering)), update := Finished);
    LeavesThenTries(t0, t1, t2);
    run := ReachOne(run, t1);
    run := ReachOne(run, t2);
    run := ReachNextWorker(run, c3);
  }

  lemma LeavesThenTries(s: Air, t: Air, u: Air)
    requires s.core.lock == ByWorker(InLoop) && s.pc == Check && s.phase == Final && s.core.dbIssued in {1, 2}
    requires t == s.(core := s.core.(lock := Free)) && s.core.pending > 0
    requires u.core == t.core.(pending := t.core.pending - 1, lock := ByCallback(Triggering))
    requires || (t.sec == ExecutedOut && u == t.(core := u.core, sec := Finished))
             || (t.update == ExecutedOut && u == t.(core := u.core, update := Finished))
    ensures IsQuick(s, t) && IsQuick(t, u)
  {
    assert WorkerLeaves(s.core, t.core) && !PhaseReady(s);
    assert Leaves(s, t);
    assert CallbackLocks(t.core, u.core) && !CallbackNests(t.core, u.core);
    assert SecTries(t, u) || UpdateTries(t, u);
    hide EntersPhase, PhaseStep, Leaves, Counts, FinalTest, SecTries, UpdateTries;
    assert CallbackStep(t, u);
  }

  // The subscriber is found, the answer is a success, its update is executed, and the
  // request is deleted.
  lemma SuccessfulRequest() returns (run: seq<Air>)
    ensures IsBlockingRun(run)
    ensures var s := run[|run| - 1];
      s.core.frees == 1 && s.successes == 1 && s.updates == 1 && s.errors == 0 && s.secOk
  {
    run := ReachNoCallback();
    var s0 := run[|run| - 1];
    var s1 := s0.(core := s0.core.(lock := ByWorker(SawNoQuery)));
    var s2 := s0.(core := s0.core.(lock := ByWorker(Deleting)));
    var s3 := s0.(core := s0.core.(lock := Free, deleting := 1));
    var s4 := s0.(core := s0.core.(lock := Free, frees := 1));
    assert SeesNoQuery(s0.core, s1.core) && FinalTest(s0, s1);
    assert TakesFinal(s1.core, s2.core) && FinalTest(s1, s2);
    assert IsQuick(s0, s1) && IsQuick(s1, s2);
    assert HasRoutine(s2.core) && RoutineNext(s2.core) == s3.core;
    assert HasRoutine(s3.core) && RoutineNext(s3.core) == s4.core;
    hide IsQuick, Step, Initial, HasRoutine, RoutineNext;
    run := ReachOne(run, s1);
    run := ReachOne(run, s2);
    RoutineIsStep(s2);
    Extend(run, s3);
    run := run + [s3];
    RoutineIsStep(s3);
    Extend(run, s4);
    run := run + [s4];
  }
}
