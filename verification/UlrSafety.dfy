// When a location update is safe: nothing refers to it after it takes PHASEFINAL.
module UlrSafety {
  import opened RequestCore
  import opened UlrPhases
  import opened UlrReach

  // Nothing is uncounted outside phase1, unless phase1 gives up after its first query.
  ghost predicate Sound(s: Ulr) {
    Good(s.core) && s.core.uncounted == Count(s.pc.Issuing? || s.pc == Closing)
  }

  lemma InitialIsSound(s: Ulr)
    requires Initial(s)
    ensures Sound(s)
  {
    hide Good;
    InitialIsGood(s.core);
  }

  lemma SameCoreIsSound(s: Ulr, t: Ulr)
    requires Sound(s) && t.core == s.core && t.pc == s.pc
    ensures Sound(t)
  {
    hide Good;
  }

  lemma TryIsSound(s: Ulr, t: Ulr)
    requires Sound(s) && CallbackTries(s.core, t.core) && t.pc == s.pc
    ensures Sound(t)
  {
    hide Good;
    TryKeepsGood(s.core, t.core);
  }

  lemma RoutineIsSound(s: Ulr, t: Ulr)
    requires Sound(s) && RoutineStep(s, t)
    ensures Sound(t)
  {
    hide Good;
    RoutineKeepsGood(s.core, t.core);
  }

  lemma InfoIsSound(s: Ulr, t: Ulr)
    requires Sound(s) && InfoStep(s, t)
    ensures Sound(t)
  {
    hide Sound, CallbackTries, Published;
    if InfoTries(s, t) {
      TryIsSound(s, t);
    } else {
      SameCoreIsSound(s, t);
    }
  }

  lemma MmeIsSound(s: Ulr, t: Ulr)
    requires Sound(s) && MmeStep(s, t)
    ensures Sound(t)
  {
    hide Sound, CallbackTries, Published;
    if MmeTries(s, t) {
      TryIsSound(s, t);
    } else {
      SameCoreIsSound(s, t);
    }
  }

  lemma RecordIsSound(s: Ulr, t: Ulr)
    requires Sound(s) && UpdateStep(s, t)
    ensures Sound(t)
  {
    hide Sound, CallbackTries, Published;
    if UpdateTries(s, t) {
      TryIsSound(s, t);
    } else {
      SameCoreIsSound(s, t);
    }
  }

  lemma EventQueryIsSound(s: Ulr, t: Ulr)
    requires Sound(s) && (EventCounts(s, t) || EventIssues(s, t) || EventGivesUp(s, t))
    ensures Sound(t)
  {
    hide Good;
    if EventCounts(s, t) {
      CountFirstKeepsGood(s.core);
    } else {
      IssueCountedKeepsGood(s.core);
    }
  }

  lemma EventIsSound(s: Ulr, t: Ulr)
    requires Sound(s) && EventStep(s, t)
    ensures Sound(t)
  {
    hide Sound, CallbackTries, Published, EventCounts, EventIssues, EventGivesUp, IsEventItem;
    if EventCounts(s, t) || EventIssues(s, t) || EventGivesUp(s, t) {
      EventQueryIsSound(s, t);
    } else if CallbackTries(s.core, t.core) {
      TryIsSound(s, t);
    } else {
      SameCoreIsSound(s, t);
    }
  }

  lemma FinalTestIsSound(s: Ulr, t: Ulr)
    requires Sound(s) && FinalTest(s, t) && s.core.effort < TWO_32 - 1
    ensures Sound(t)
  {
    hide Good, SeesNoQuery, TakesFinal;
    if SeesNoQuery(s.core, t.core) {
      SeesNoQueryKeepsGood(s.core, t.core);
    } else {
      TakesFinalKeepsGood(s.core, t.core);
    }
    FinalTestCountsNothing(s.core, t.core);
  }

  lemma FinalTestCountsNothing(c: Core, d: Core)
    requires SeesNoQuery(c, d) || TakesFinal(c, d) || WorkerLeaves(c, d)
    ensures d.uncounted == c.uncounted
  {
  }

  lemma LeavesIsSound(s: Ulr, t: Ulr)
    requires Sound(s) && Leaves(s, t)
    ensures Sound(t)
  {
    hide Good, WorkerLeaves, PhaseReady;
    LeaveKeepsGood(s.core, t.core);
    FinalTestCountsNothing(s.core, t.core);
  }

  lemma LoopIsSound(s: Ulr, t: Ulr)
    requires Sound(s) && LoopStep(s, t) && s.core.effort < TWO_32 - 1
    ensures Sound(t)
  {
    hide Good, Leaves, FinalTest, PhaseReady;
    if Leaves(s, t) {
      LeavesIsSound(s, t);
    } else if FinalTest(s, t) {
      FinalTestIsSound(s, t);
    }
  }

  // The steps that issue or count a query.
  lemma IssueIsSound(f: Failing, s: Ulr, t: Ulr)
    requires Inv(f, s) && Sound(s) && (InfoIssues(f, s, t) || QueryCounts(s, t) || QueryIssues(f, s, t) || Closes(s, t))
    ensures Sound(t)
  {
    hide Good, CountsAgree, MasksAgree, AnswersAgree;
    if InfoIssues(f, s, t) {
      IssueFirstKeepsGood(s.core);
    } else if QueryCounts(s, t) {
      CountFirstKeepsGood(s.core);
    } else if QueryIssues(f, s, t) {
      IssueCountedKeepsGood(s.core);
    } else {
      CountIssuedKeepsGood(s.core);
    }
  }

  lemma Phase1IsSound(f: Failing, s: Ulr, t: Ulr)
    requires f in {Nothing, Info}
    requires Inv(f, s) && Sound(s) && Phase1Step(f, s, t)
    ensures Sound(t)
  {
    hide Good, CountsAgree, MasksAgree, AnswersAgree, InfoIssues, QueryCounts, QueryIssues, Closes, Published, PhaseReady;
    if InfoIssues(f, s, t) || QueryCounts(s, t) || QueryIssues(f, s, t) || Closes(s, t) {
      IssueIsSound(f, s, t);
    }
  }

  lemma UpdateIsSound(s: Ulr, t: Ulr)
    requires Sound(s) && (Phase4Counts(s, t) || Phase4Updates(s, t) || Phase4Fails(s, t))
    ensures Sound(t)
  {
    hide Good, Published;
    if Phase4Counts(s, t) {
      CountFirstKeepsGood(s.core);
    } else {
      IssueCountedKeepsGood(s.core);
    }
  }

  lemma LaterPhaseIsSound(s: Ulr, t: Ulr)
    requires Sound(s) && LaterPhaseStep(s, t)
    ensures Sound(t)
  {
    hide Good, Phase4Counts, Phase4Updates, Phase4Fails;
    if Phase4Counts(s, t) || Phase4Updates(s, t) || Phase4Fails(s, t) {
      UpdateIsSound(s, t);
    }
  }

  lemma NextIsSound(f: Failing, s: Ulr, t: Ulr)
    requires f in {Nothing, Info}
    requires Inv(f, s) && Sound(s) && Next(f, s, t) && s.core.effort < TWO_32 - 1
    ensures Sound(t)
  {
    hide Inv, Sound, RoutineStep, InfoStep, MmeStep, UpdateStep, EventStep, LoopStep, Phase1Step, LaterPhaseStep;
    if RoutineStep(s, t) {
      RoutineIsSound(s, t);
    } else if InfoStep(s, t) {
      InfoIsSound(s, t);
    } else if MmeStep(s, t) {
      MmeIsSound(s, t);
    } else if UpdateStep(s, t) {
      RecordIsSound(s, t);
    } else if EventStep(s, t) {
      EventIsSound(s, t);
    } else if LoopStep(s, t) {
      LoopIsSound(s, t);
    } else if Phase1Step(f, s, t) {
      Phase1IsSound(f, s, t);
    } else {
      LaterPhaseIsSound(s, t);
    }
  }

  lemma {:induction false} RunIsSound(f: Failing, run: seq<Ulr>, i: nat)
    requires IsRun(f, run) && Bounded(run) && i < |run| && f in {Nothing, Info}
    ensures Sound(run[i])
  {
    hide Inv, Sound, Next, Initial;
    if i == 0 {
      InitialIsSound(run[0]);
    } else {
      RunIsSound(f, run, i - 1);
      RunKeepsInv(f, run, i - 1);
      NextIsSound(f, run[i - 1], run[i]);
    }
  }

  lemma NoCallbackIsLeft(s: Ulr, t: Ulr)
    requires CountsAgree(s) && Unreferenced(s.core)
    ensures !InfoStep(s, t) && !MmeStep(s, t) && !UpdateStep(s, t) && !EventStep(s, t)
  {
    hide Publish, Execute, CallbackTries;
    assert Live(s.info) == 0 && Live(s.mme) == 0 && Live(s.update) == 0 && s.events == 0;
  }

  lemma NoPhaseIsLeft(f: Failing, s: Ulr, t: Ulr)
    requires Unreferenced(s.core)
    ensures !LoopStep(s, t) && !Phase1Step(f, s, t) && !LaterPhaseStep(s, t)
  {
    hide Publish, Execute, PhaseReady;
  }

  // After PHASEFINAL is taken nothing can happen to the request but its deletion.
  lemma OnlyDeletion(f: Failing, s: Ulr, t: Ulr)
    requires Inv(f, s) && Sound(s) && Next(f, s, t) && Finalisations(s.core) > 0
    ensures UnlocksToDelete(s.core, t.core) || Deletes(s.core, t.core)
    ensures t == s.(core := t.core)
  {
    hide CountsAgree, PhasesAgree, MasksAgree, AnswersAgree, InfoStep, MmeStep, UpdateStep, EventStep, LoopStep,
      Phase1Step, LaterPhaseStep, Routine, Counted, NoQueryLeft, Unreferenced, Finalisations, UnlocksToDelete, Deletes;
    NoCallbackIsLeft(s, t);
    NoPhaseIsLeft(f, s, t);
    OnlyDeletionIsRoutine(s.core, t.core);
  }

  lemma OnlyDeletionFollows(f: Failing, run: seq<Ulr>, i: nat)
    requires IsRun(f, run) && Bounded(run) && i + 1 < |run| && f in {Nothing, Info}
    requires Finalisations(run[i].core) > 0
    ensures UnlocksToDelete(run[i].core, run[i + 1].core) || Deletes(run[i].core, run[i + 1].core)
    ensures run[i + 1] == run[i].(core := run[i + 1].core)
  {
    hide Inv, Sound, Next, Initial, Finalisations, UnlocksToDelete, Deletes;
    RunKeepsInv(f, run, i);
    RunIsSound(f, run, i);
    OnlyDeletion(f, run[i], run[i + 1]);
  }

  // ---------------------------------------------------------------------------
  // The runs that delete a request too early.

  // A query after the first cannot be issued: phase1 gives up with its first query
  // pending but not counted, and the request can be deleted under that callback.
  ghost predicate Dangling(s: Ulr) {
    s.core.frees == 1 && s.core.pending == 1 && s.info == Running
  }

  ghost predicate GivenUp(s: Ulr, done: nat) {
    Quiet(s, done) && s.phase == Final && s.pc == Check && s.core.dbIssued == done && s.core.leads == 0
  }

  lemma ReachAnswering(f: Failing, s: Ulr, done: nat) returns (t: Ulr)
    requires Reached(f, s) && Ahead(s, f, true, done) && done < 3
    ensures Reached(f, t) && Working(t, Answering) && Quiet(t, done) && t.core.dbIssued == done && t.core.leads == 0
  {
    t := Execute(Publish(s.(pc := Answering, core := UndoCount(s.core)), ItemsOf(f), false), ItemsOf(f));
    assert QueryFails(f, s, t);
    hide Reached, Phase1Rejects, InfoIssues, InfoFails, QueryCounts, QueryIssues, QueryFails, Closes, AnswersUnknown;
    ReachPhase1Step(f, s, t);
  }

  lemma ReachGivenUp(f: Failing, s: Ulr, done: nat) returns (t: Ulr)
    requires Reached(f, s) && Working(s, Answering) && Quiet(s, done) && s.core.dbIssued == done && s.core.leads == 0
    ensures Reached(f, t) && GivenUp(t, done)
  {
    t := s.(pc := Check, phase := Final, errors := s.errors + 1);
    assert AnswersUnknown(s, t);
    hide Reached, Phase1Rejects, InfoIssues, InfoFails, QueryCounts, QueryIssues, QueryFails, Closes, AnswersUnknown;
    ReachPhase1Step(f, s, t);
  }

  // An event callback publishes the failure of its query.
  lemma ReachEventFailure(f: Failing, s: Ulr, done: nat, item: bv32) returns (t: Ulr)
    requires Reached(f, s) && GivenUp(s, done) && done > 0 && IsEventItem(item)
    ensures Reached(f, t) && GivenUp(t, done)
  {
    t := Publish(s, item, false);
    assert EventPublishes(s, t, false);
    var u := Execute(t, item);
    assert EventExecutes(t, u);
    hide Reached, EventPublishes, EventExecutes, EventTries, EventCounts, EventIssues, EventGivesUp;
    ReachEventStep(f, s, t);
    ReachEventStep(f, t, u);
    t := u;
  }

  lemma ReachEventStep(f: Failing, s: Ulr, t: Ulr)
    requires Reached(f, s) && EventStep(s, t) && t.core.effort < TWO_32 - 1
    ensures Reached(f, t)
  {
    hide Reached, RoutineStep, InfoStep, MmeStep, UpdateStep, EventStep, LoopStep, Phase1Step, LaterPhaseStep;
    ReachNext(f, s, t);
  }

  // The worker leaves, as a callback still owes its decrement.
  lemma ReachLeave(f: Failing, s: Ulr, done: nat)
    requires Reached(f, s) && GivenUp(s, done) && 0 < done < 3
    ensures Reached(f, s.(core := s.core.(lock := Free)))
  {
    var t := s.(core := s.core.(lock := Free));
    assert WorkerLeaves(s.core, t.core) && !PhaseReady(s);
    assert Leaves(s, t);
    hide Reached, EntersPhase, Leaves, FinalTest, RoutineStep, InfoStep, MmeStep, UpdateStep, EventStep, Phase1Step,
      LaterPhaseStep;
    ReachNext(f, s, t);
  }

  // Then the callback takes the lock.
  lemma ReachCallback(f: Failing, s: Ulr, c: Core)
    requires Reached(f, s) && s.events > s.eventLeads && s.core.effort < TWO_32 - 1
    requires CallbackLocks(s.core, c)
    ensures Reached(f, s.(events := s.events - 1, core := c))
  {
    var t := s.(events := s.events - 1, core := c);
    assert CallbackTries(s.core, t.core) && t.core.effort == s.core.effort;
    assert EventTries(s, t);
    hide Reached, EventPublishes, EventExecutes, EventTries, EventCounts, EventIssues, EventGivesUp, CallbackLocks;
    ReachEventStep(f, s, t);
  }

  lemma CallbackIsRoutine(c: Core, d: Core)
    requires CallbackIncrements(c, d) || CallbackPushes(c, d) || CallbackUncounts(c, d) || CallbackLeaves(c, d)
    ensures Routine(c, d)
  {
    hide CallbackIncrements, CallbackPushes, CallbackUncounts, CallbackLeaves;
  }

  // In the lock it triggers a worker, takes its query off the count, and leaves.
  lemma ReachTriggered(f: Failing, s: Ulr, c: Core)
    requires Reached(f, s) && s.core == c.(lock := ByCallback(Triggering)) && c.effort < TWO_32 - 1
    ensures Reached(f, s.(core := c.(lock := Free, msgIssued := c.msgIssued + 1, queued := c.queued + 1,
                                     dbIssued := c.dbIssued - 1)))
  {
    var c1 := c.(lock := ByCallback(Pushing), msgIssued := c.msgIssued + 1);
    var c2 := c1.(lock := ByCallback(Owing), queued := c.queued + 1);
    var c3 := c2.(lock := ByCallback(Leaving), dbIssued := c.dbIssued - 1);
    var c4 := c3.(lock := Free);
    hide Reached, Routine;
    CallbackIsRoutine(s.core, c1);
    CallbackIsRoutine(c1, c2);
    CallbackIsRoutine(c2, c3);
    CallbackIsRoutine(c3, c4);
    ReachCore(f, s, c1);
    ReachCore(f, s.(core := c1), c2);
    ReachCore(f, s.(core := c2), c3);
    ReachCore(f, s.(core := c3), c4);
  }

  // The worker that it triggered enters the loop.
  lemma ReachLoop(f: Failing, s: Ulr)
    requires Reached(f, s) && s.core.lock == Free && s.core.queued == 1 && s.core.popped == 0
    requires s.core.effort < TWO_32 - 1
    ensures Reached(f, s.(core := s.core.(lock := ByWorker(InLoop), queued := 0, msgIssued := s.core.msgIssued - 1)))
  {
    var c1 := s.core.(queued := 0, popped := 1);
    var c2 := c1.(lock := ByWorker(Entering), popped := 0);
    var c3 := c2.(lock := ByWorker(InLoop), msgIssued := s.core.msgIssued - 1);
    hide Reached, Routine;
    StartIsRoutine(s.core, c1);
    StartIsRoutine(c1, c2);
    StartIsRoutine(c2, c3);
    ReachCore(f, s, c1);
    ReachCore(f, s.(core := c1), c2);
    ReachCore(f, s.(core := c2), c3);
  }

  lemma ReachOneLess(f: Failing, s: Ulr, done: nat) returns (t: Ulr)
    requires Reached(f, s) && GivenUp(s, done) && 0 < done < 3
    ensures Reached(f, t) && GivenUp(t, done - 1)
  {
    ReachLeave(f, s, done);
    hide Reached;
    var left := s.(core := s.core.(lock := Free));
    var c := s.core.(pending := s.core.pending - 1);
    ReachCallback(f, left, c.(lock := ByCallback(Triggering)));
    var inside := s.(events := s.events - 1, core := c.(lock := ByCallback(Triggering)));
    ReachTriggered(f, inside, c);
    var out := s.(events := s.events - 1,
                  core := c.(lock := Free, msgIssued := 1, queued := 1, dbIssued := c.dbIssued - 1));
    ReachLoop(f, out);
    t := s.(events := s.events - 1, core := c.(lock := ByWorker(InLoop), dbIssued := c.dbIssued - 1));
  }

  lemma ReachFinalTest(f: Failing, s: Ulr, d: Core)
    requires Reached(f, s) && s.phase == Final && s.pc == Check && d.effort < TWO_32 - 1
    requires SeesNoQuery(s.core, d) || TakesFinal(s.core, d)
    ensures Reached(f, s.(core := d))
  {
    hide Reached, SeesNoQuery, TakesFinal, EntersPhase, Leaves;
    assert FinalTest(s, s.(core := d));
    hide FinalTest;
    ReachNext(f, s, s.(core := d));
  }

  lemma ReachDeletion(f: Failing, s: Ulr) returns (t: Ulr)
    requires Reached(f, s) && s.core.lock == ByWorker(Deleting) && s.core.deleting == 0 && s.core.frees == 0
    requires s.core.pending == 1 && s.info == Running && s.core.effort <= 10
    ensures Reached(f, t) && Dangling(t)
  {
    var c := s.core.(lock := Free, deleting := 1);
    var d := c.(deleting := 0, frees := 1);
    assert UnlocksToDelete(s.core, c) && Deletes(c, d);
    hide Reached, StartIncrements, StartPushes, Pop, WorkerLocks, WorkerMisses, WorkerUncounts, UnlocksToDelete,
      Deletes, CallbackIncrements, CallbackPushes, CallbackUncounts, CallbackLeaves, OwingUncounts;
    ReachCore(f, s, c);
    ReachCore(f, s.(core := c), d);
    t := s.(core := d);
  }

  lemma ReachDangling(f: Failing, s: Ulr) returns (t: Ulr)
    requires Reached(f, s) && GivenUp(s, 0)
    ensures Reached(f, t) && Dangling(t)
  {
    var c := s.core.(lock := ByWorker(SawNoQuery));
    var d := c.(lock := ByWorker(Deleting));
    assert SeesNoQuery(s.core, c) && TakesFinal(c, d);
    hide Reached;
    ReachFinalTest(f, s, c);
    ReachFinalTest(f, s.(core := c), d);
    t := ReachDeletion(f, s.(core := d));
  }

  lemma ReachGiveUp(f: Failing) returns (t: Ulr, done: nat)
    requires f !in {Nothing, Info}
    ensures Reached(f, t) && GivenUp(t, done) && done < 3
  {
    hide Reached, Ahead, GivenUp, Quiet;
    t := ReachBegin(f);
    done := 0;
    if f != ExtIds {
      t := ReachIssued(f, t, ExtIds, 0);
      t := ReachCounted(f, t, Msisdn, 1);
      done := 1;
      if f != Msisdn {
        t := ReachIssued(f, t, Msisdn, 1);
        t := ReachCounted(f, t, Mme, 2);
        done := 2;
      }
    }
    t := ReachAnswering(f, t, done);
    t := ReachGivenUp(f, t, done);
  }

  // The callbacks that were counted fail one after the other, the one for the MSISDN and
  // then the one for the external identifiers.
  lemma {:induction false} ReachDrained(f: Failing, s: Ulr, done: nat) returns (t: Ulr)
    requires Reached(f, s) && GivenUp(s, done) && done < 3
    ensures Reached(f, t) && GivenUp(t, 0)
    decreases done
  {
    hide Reached, GivenUp;
    t := s;
    if done > 0 {
      t := ReachEventFailure(f, t, done, if done == 2 then ULRDB_GET_EVNTIDS_MSISDN else ULRDB_GET_EXT_IDS);
      if done == 1 {
        t := ReachEventFailure(f, t, done, ULRDB_GET_EVNTIDS_EXTIDS);
      }
      t := ReachOneLess(f, t, done);
      t := ReachDrained(f, t, done - 1);
    }
  }

  // No use after finalisation, exactly when no query after the first fails to be
  // issued in phase1. Otherwise some interleaving frees the request while the callback
  // of its first query still runs.
  lemma SafeExactlyWhen(f: Failing)
    ensures (forall s :: Reached(f, s) ==> Safe(s.core)) <==> f in {Nothing, Info}
    ensures f !in {Nothing, Info} ==> exists s :: Reached(f, s) && Dangling(s)
  {
    if f in {Nothing, Info} {
      forall s | Reached(f, s) ensures Safe(s.core) {
        ReachedIsSafe(f, s);
      }
    } else {
      var s, done := ReachGiveUp(f);
      s := ReachDrained(f, s, done);
      s := ReachDangling(f, s);
      assert !Safe(s.core);
    }
  }

  lemma ReachedIsSafe(f: Failing, s: Ulr)
    requires Reached(f, s) && f in {Nothing, Info}
    ensures Safe(s.core) && s.core.frees <= 1
  {
    hide Next, Initial, Inv, Counted, NoQueryLeft;
    var run :| IsRun(f, run) && Bounded(run) && run[|run| - 1] == s;
    RunIsSound(f, run, |run| - 1);
  }
}
