// The result mask of a location update, and what its second phase makes of it.
module UlrResults {
  import opened RequestCore
  import opened UlrPhases
  import opened UlrReach

  // A query fails, or cannot be issued.
  ghost predicate PublishesFailure(f: Failing, s: Ulr, t: Ulr) {
    || InfoPublishes(s, t, false) || MmePublishes(s, t, false) || UpdatePublishes(s, t, false)
    || EventPublishes(s, t, false) || InfoFails(f, s, t) || QueryFails(f, s, t) || Phase4Fails(s, t)
  }

  // The negated item is 0: one failure clears every result.
  lemma EventFailureClears(s: Ulr, t: Ulr)
    requires EventPublishes(s, t, false)
    ensures t.result == 0
  {
    var item :| IsEventItem(item) && t == Publish(s, item, false);
    FailureClears(s.result, item);
  }

  lemma FailureClearsAll(f: Failing, s: Ulr, t: Ulr)
    requires PublishesFailure(f, s, t)
    ensures t.result == 0
  {
    hide EventPublishes, Published;
    FailureClears(s.result, ULRDB_GET_IMSI_INFO);
    FailureClears(s.result, ULRDB_GET_MMEID_HOST);
    FailureClears(s.result, ULRDB_UPDATE_IMSI);
    FailureClears(s.result, ItemsOf(f));
    if EventPublishes(s, t, false) {
      EventFailureClears(s, t);
    } else if InfoPublishes(s, t, false) || MmePublishes(s, t, false) || UpdatePublishes(s, t, false) {
      assert t.result == 0;
    } else {
      assert t.result == 0;
    }
  }

  // A query that cannot be issued is marked as done, and with it those that depend on it:
  // the event queries by external identifier, and the events.
  lemma FailedQueryIsMarked(f: Failing, s: Ulr, t: Ulr)
    requires QueryFails(f, s, t) && f in {ExtIds, Msisdn, Mme}
    ensures t.result == 0
    ensures t.executed == s.executed | if f == ExtIds then 0x1a else if f == Msisdn then 0x14 else 0x20
  {
    MarksOf(f);
    FailureClears(s.result, ItemsOf(f));
    hide Published, ItemsOf;
  }

  lemma MarksOf(f: Failing)
    requires f in {ExtIds, Msisdn, Mme}
    ensures ItemsOf(f) == if f == ExtIds then 0x1a else if f == Msisdn then 0x14 else 0x20
  {
  }

  predicate InfoResult(s: Ulr) {
    s.result & ULRDB_GET_IMSI_INFO != 0
  }

  // Nothing is cleared, and the subscriber's bit is as it was.
  predicate KeepsResults(s: Ulr, t: Ulr) {
    (InfoResult(t) <==> InfoResult(s)) && (s.result == 0xFFFF_FFFF ==> t.result == 0xFFFF_FFFF)
  }

  lemma SuccessAdds(result: bv32, item: bv32)
    requires item & ULRDB_GET_IMSI_INFO == 0
    ensures Published(result, item, true) & ULRDB_GET_IMSI_INFO == result & ULRDB_GET_IMSI_INFO
    ensures result == 0xFFFF_FFFF ==> Published(result, item, true) == 0xFFFF_FFFF
  {
    SuccessAddsNoOther(result, item, ULRDB_GET_IMSI_INFO);
  }

  lemma MmeSuccessKeepsResults(s: Ulr, t: Ulr)
    requires MmeStep(s, t) && !MmePublishes(s, t, false)
    ensures KeepsResults(s, t) && t.info == s.info
  {
    SuccessAdds(s.result, ULRDB_GET_MMEID_HOST);
    hide CallbackTries, Published;
    if MmePublishes(s, t, true) {
      hide MmeExecutes, MmeTries;
      assert KeepsResults(s, t) && t.info == s.info;
    } else {
      hide MmePublishes;
      assert t.result == s.result && t.info == s.info;
    }
  }

  lemma UpdateSuccessKeepsResults(s: Ulr, t: Ulr)
    requires UpdateStep(s, t) && !UpdatePublishes(s, t, false)
    ensures KeepsResults(s, t) && t.info == s.info
  {
    SuccessAdds(s.result, ULRDB_UPDATE_IMSI);
    hide CallbackTries, Published;
    if UpdatePublishes(s, t, true) {
      hide UpdateExecutes, UpdateTries;
      assert KeepsResults(s, t) && t.info == s.info;
    } else {
      hide UpdatePublishes;
      assert t.result == s.result && t.info == s.info;
    }
  }

  lemma EventSuccessKeepsResults(s: Ulr, t: Ulr)
    requires EventStep(s, t) && !EventPublishes(s, t, false)
    ensures KeepsResults(s, t) && t.info == s.info
  {
    hide CallbackTries, CountFirst, IssueCounted, UndoCount;
    if EventPublishes(s, t, true) {
      hide EventExecutes, EventTries, EventCounts, EventIssues, EventGivesUp, Published;
      var item :| IsEventItem(item) && t == Publish(s, item, true);
      SuccessAdds(s.result, item);
    } else {
      hide EventPublishes, IsEventItem, Published;
      assert t.result == s.result;
    }
  }

  // Only its own callback changes what the subscriber's query has come to.
  lemma InfoSuccessKeepsResults(s: Ulr, t: Ulr)
    requires InfoStep(s, t)
    ensures t.info == ResultOut && s.info == Running ==> InfoPublishes(s, t, true) || InfoPublishes(s, t, false)
    ensures InfoPublishes(s, t, true) ==> InfoResult(t) && (s.result == 0xFFFF_FFFF ==> t.result == 0xFFFF_FFFF)
    ensures !InfoPublishes(s, t, true) && !InfoPublishes(s, t, false) ==>
      KeepsResults(s, t) && (HasResult(t.info) <==> HasResult(s.info))
  {
    hide CallbackTries;
  }

  predicate HasResult(q: Query) {
    q in {ResultOut, ExecutedOut, Finished}
  }

  // The same of the steps that publish nothing.
  predicate SameResults(s: Ulr, t: Ulr) {
    t.result == s.result && (HasResult(t.info) ==> HasResult(s.info))
  }

  lemma QueriesKeepResults(f: Failing, s: Ulr, t: Ulr)
    requires Phase1Rejects(s, t) || InfoIssues(f, s, t) || QueryCounts(s, t) || QueryIssues(f, s, t)
    ensures SameResults(s, t)
  {
    if QueryCounts(s, t) || QueryIssues(f, s, t) {
      assert SameResults(s, t);
    }
  }

  lemma AnswersKeepResults(s: Ulr, t: Ulr)
    requires Closes(s, t) || AnswersUnknown(s, t) || Phase2Rejects(s, t) || Phase2Passes(s, t)
    ensures SameResults(s, t)
  {
  }

  lemma UpdatesKeepResults(s: Ulr, t: Ulr)
    requires Phase3Answers(s, t) || Phase4Counts(s, t) || Phase4Updates(s, t) || Phase5Ends(s, t)
    ensures SameResults(s, t)
  {
  }

  lemma LoopKeepsResults(s: Ulr, t: Ulr)
    requires LoopStep(s, t) || RoutineStep(s, t)
    ensures SameResults(s, t)
  {
    hide PhaseReady, Routine, WorkerLeaves, SeesNoQuery, TakesFinal;
  }

  lemma PhasesKeepResults(f: Failing, s: Ulr, t: Ulr)
    requires !PublishesFailure(f, s, t) && (Phase1Step(f, s, t) || LaterPhaseStep(s, t))
    ensures SameResults(s, t)
  {
    hide SameResults, Phase1Rejects, InfoIssues, QueryCounts, QueryIssues, Closes, AnswersUnknown, Phase2Rejects,
      Phase2Passes, Phase3Answers, Phase4Counts, Phase4Updates, Phase5Ends, InfoFails, QueryFails, Phase4Fails,
      InfoPublishes, MmePublishes, UpdatePublishes, EventPublishes;
    if Phase1Rejects(s, t) || InfoIssues(f, s, t) || QueryCounts(s, t) || QueryIssues(f, s, t) {
      QueriesKeepResults(f, s, t);
    } else if Closes(s, t) || AnswersUnknown(s, t) || Phase2Rejects(s, t) || Phase2Passes(s, t) {
      AnswersKeepResults(s, t);
    } else {
      UpdatesKeepResults(s, t);
    }
  }

  // What a step does to the subscriber's bit, unless it publishes a failure.
  lemma StepKeepsResults(f: Failing, s: Ulr, t: Ulr)
    requires Next(f, s, t) && !PublishesFailure(f, s, t)
    ensures s.result == 0xFFFF_FFFF ==> t.result == 0xFFFF_FFFF
    ensures InfoPublishes(s, t, true) ==> InfoResult(t)
    ensures !InfoPublishes(s, t, true) ==>
      (InfoResult(t) <==> InfoResult(s)) && (HasResult(t.info) ==> HasResult(s.info))
  {
    hide RoutineStep, MmeStep, UpdateStep, EventStep, LoopStep, Phase1Step, LaterPhaseStep, InfoFails, QueryFails,
      Phase4Fails, InfoStep, InfoPublishes, MmePublishes, UpdatePublishes, EventPublishes;
    if InfoStep(s, t) {
      InfoSuccessKeepsResults(s, t);
    } else if MmeStep(s, t) {
      MmeSuccessKeepsResults(s, t);
    } else if UpdateStep(s, t) {
      UpdateSuccessKeepsResults(s, t);
    } else if EventStep(s, t) {
      EventSuccessKeepsResults(s, t);
    } else if LoopStep(s, t) || RoutineStep(s, t) {
      LoopKeepsResults(s, t);
    } else {
      PhasesKeepResults(f, s, t);
    }
    if InfoPublishes(s, t, true) {
      InfoPublication(s, t);
    }
  }

  lemma InfoPublication(s: Ulr, t: Ulr)
    requires InfoPublishes(s, t, true)
    ensures InfoResult(t) && HasResult(t.info)
  {
  }

  // Up to state i the subscriber has been read, and no query has failed since.
  ghost predicate ReadStands(f: Failing, run: seq<Ulr>, i: nat)
    requires i < |run|
  {
    exists j :: 0 <= j < i && ReadAt(f, run, j, i)
  }

  ghost predicate ReadAt(f: Failing, run: seq<Ulr>, j: nat, i: nat)
    requires j < i < |run|
  {
    InfoPublishes(run[j], run[j + 1], true) && forall k :: j < k < i ==> !PublishesFailure(f, run[k], run[k + 1])
  }

  // A step with no failure and no read leaves it standing or not; a failure ends it.
  lemma ReadStandsStep(f: Failing, run: seq<Ulr>, i: nat)
    requires 0 < i < |run|
    ensures PublishesFailure(f, run[i - 1], run[i]) ==>
      (ReadStands(f, run, i) <==> InfoPublishes(run[i - 1], run[i], true))
    ensures !PublishesFailure(f, run[i - 1], run[i]) ==>
      (ReadStands(f, run, i) <==> InfoPublishes(run[i - 1], run[i], true) || ReadStands(f, run, i - 1))
  {
    hide InfoPublishes, PublishesFailure;
    if ReadStands(f, run, i) {
      var j :| 0 <= j < i && ReadAt(f, run, j, i);
      if j < i - 1 {
        assert ReadAt(f, run, j, i - 1);
        assert !PublishesFailure(f, run[i - 1], run[i - 1 + 1]);
      }
    }
    if InfoPublishes(run[i - 1], run[i - 1 + 1], true) {
      assert ReadAt(f, run, i - 1, i);
    }
    if ReadStands(f, run, i - 1) && !PublishesFailure(f, run[i - 1], run[i]) {
      var j :| 0 <= j < i - 1 && ReadAt(f, run, j, i - 1);
      assert ReadAt(f, run, j, i);
    }
  }

  lemma {:induction false} BitIsTheRead(f: Failing, run: seq<Ulr>, i: nat)
    requires IsRun(f, run) && i < |run|
    ensures HasResult(run[i].info) ==> (InfoResult(run[i]) <==> ReadStands(f, run, i))
  {
    hide Next, Initial, InfoResult, HasResult, InfoPublishes, PublishesFailure, ReadStands;
    if i == 0 {
      NothingReadYet(run[0]);
    } else {
      BitIsTheRead(f, run, i - 1);
      assert Next(f, run[i - 1], run[i]);
      hide IsRun;
      ReadStandsStep(f, run, i);
      if PublishesFailure(f, run[i - 1], run[i]) {
        FailureLeavesNoBit(f, run[i - 1], run[i]);
      } else {
        StepKeepsResults(f, run[i - 1], run[i]);
      }
    }
  }

  lemma NothingReadYet(s: Ulr)
    requires Initial(s)
    ensures !HasResult(s.info)
  {
  }

  lemma FailureLeavesNoBit(f: Failing, s: Ulr, t: Ulr)
    requires PublishesFailure(f, s, t)
    ensures !InfoResult(t) && !InfoPublishes(s, t, true)
  {
    hide PublishesFailure, InfoPublishes, InfoResult;
    FailureClearsAll(f, s, t);
    NoBits(t);
    if InfoPublishes(s, t, true) {
      InfoPublication(s, t);
    }
  }

  lemma NoBits(t: Ulr)
    requires t.result == 0
    ensures !InfoResult(t)
  {
  }

  // Phase2 passes its check exactly when the read of the subscriber succeeded and no
  // query has failed since: a failure turns a known subscriber into an unknown one.
  lemma CheckIsTheReadsResult(f: Failing, run: seq<Ulr>, i: nat)
    requires IsRun(f, run) && i < |run| && run[i].pc == In(Phase2)
    ensures InfoResult(run[i]) <==> ReadStands(f, run, i)
  {
    hide IsRun, ReadStands, InfoResult;
    PhasesSeeResults(f, run, i);
    BitIsTheRead(f, run, i);
  }

  // Every result bit is set while no query has failed.
  lemma {:induction false} AllResultsStand(f: Failing, run: seq<Ulr>, i: nat)
    requires IsRun(f, run) && i < |run|
    requires forall k :: 0 <= k < i ==> !PublishesFailure(f, run[k], run[k + 1])
    ensures run[i].result == 0xFFFF_FFFF
  {
    if i > 0 {
      hide Next, PublishesFailure, Initial;
      AllResultsStand(f, run, i - 1);
      assert !PublishesFailure(f, run[i - 1], run[i - 1 + 1]);
      StepKeepsResults(f, run[i - 1], run[i]);
    }
  }

  // ---------------------------------------------------------------------------
  // A known subscriber answered as unknown.

  lemma ReachClosed(s: Ulr) returns (t: Ulr)
    requires Reached(Nothing, s) && Ahead(s, Mme, true, 2)
    ensures Reached(Nothing, t) && Working(t, Check) && t.phase == Phase2 && t.info == Running && t.mme == Running
    ensures t.core.effort <= 10
  {
    var closing := s.(pc := Closing, core := IssueCounted(s.core), mme := Running);
    assert QueryIssues(Nothing, s, closing);
    t := closing.(pc := Check, core := CountIssued(closing.core));
    assert Closes(closing, t);
    hide Reached, Phase1Rejects, InfoIssues, InfoFails, QueryCounts, QueryIssues, QueryFails, Closes, AnswersUnknown;
    ReachPhase1Step(Nothing, s, closing);
    ReachPhase1Step(Nothing, closing, t);
  }

  lemma ReachAllIssued() returns (t: Ulr)
    ensures Reached(Nothing, t) && Working(t, Check) && t.phase == Phase2 && t.info == Running && t.mme == Running
    ensures t.core.effort <= 10
  {
    hide Reached, Ahead, Quiet, Working;
    t := ReachBegin(Nothing);
    t := ReachIssued(Nothing, t, ExtIds, 0);
    t := ReachCounted(Nothing, t, Msisdn, 1);
    t := ReachIssued(Nothing, t, Msisdn, 1);
    t := ReachCounted(Nothing, t, Mme, 2);
    t := ReachClosed(t);
  }

  lemma Extend(f: Failing, run: seq<Ulr>, t: Ulr)
    requires IsRun(f, run) && Next(f, run[|run| - 1], t)
    ensures IsRun(f, run + [t])
  {
    hide Next, Initial;
    assert forall i :: 0 <= i < |run| ==> (run + [t])[i] == run[i];
  }

  // No query fails to be issued, the read of the subscriber succeeds, the query for the
  // MME fails, and phase 2 runs with the subscriber's bit cleared: it can only reject.
  lemma KnownSubscriberIsRejected() returns (run: seq<Ulr>, j: nat)
    ensures IsRun(Nothing, run) && j + 3 < |run|
    ensures InfoPublishes(run[j], run[j + 1], true) && MmePublishes(run[j + 2], run[j + 3], false)
    ensures run[|run| - 1].pc == In(Phase2) && !InfoResult(run[|run| - 1])
    ensures OnlyRejects(run[|run| - 1])
  {
    var s := ReachAllIssued();
    var before :| IsRun(Nothing, before) && Bounded(before) && before[|before| - 1] == s;
    var t1 := Publish(s.(info := ResultOut), ULRDB_GET_IMSI_INFO, true);
    var t2 := Execute(t1.(info := ExecutedOut), ULRDB_GET_IMSI_INFO);
    var t3 := Publish(t2.(mme := ResultOut), ULRDB_GET_MMEID_HOST, false);
    var t4 := t3.(pc := In(Phase2));
    Rejection(s, t1, t2, t3, t4);
    hide IsRun, Next, InfoPublishes, MmePublishes, InfoResult, Reached, OnlyRejects;
    j := |before| - 1;
    run := before + [t1];
    assert before[|before| - 1] == s;
    Extend(Nothing, before, t1);
    Extend(Nothing, run, t2);
    run := run + [t2];
    Extend(Nothing, run, t3);
    run := run + [t3];
    Extend(Nothing, run, t4);
    run := run + [t4];
    RejectionIsAllThatIsLeft(t4);
  }

  // The worker's next step is the error answer.
  ghost predicate OnlyRejects(s: Ulr) {
    && (forall t :: !Phase1Step(Nothing, s, t))
    && (forall t :: LaterPhaseStep(s, t) ==> Phase2Rejects(s, t))
  }

  lemma RejectionIsAllThatIsLeft(s: Ulr)
    requires s.pc == In(Phase2) && !InfoResult(s)
    ensures OnlyRejects(s)
  {
  }

  lemma Rejection(s: Ulr, t1: Ulr, t2: Ulr, t3: Ulr, t4: Ulr)
    requires Working(s, Check) && s.phase == Phase2 && s.info == Running && s.mme == Running
    requires t1 == Publish(s.(info := ResultOut), ULRDB_GET_IMSI_INFO, true)
    requires t2 == Execute(t1.(info := ExecutedOut), ULRDB_GET_IMSI_INFO)
    requires t3 == Publish(t2.(mme := ResultOut), ULRDB_GET_MMEID_HOST, false)
    requires t4 == t3.(pc := In(Phase2))
    ensures InfoPublishes(s, t1, true) && MmePublishes(t2, t3, false) && !InfoResult(t4)
    ensures Next(Nothing, s, t1) && Next(Nothing, t1, t2) && Next(Nothing, t2, t3) && Next(Nothing, t3, t4)
  {
    assert InfoPublishes(s, t1, true);
    assert InfoExecutes(t1, t2);
    assert MmePublishes(t2, t3, false);
    assert EntersPhase(t3, t4);
    FailureClears(t2.result, ULRDB_GET_MMEID_HOST);
    assert !InfoResult(t4);
    hide InfoPublishes, InfoExecutes, InfoTries, MmePublishes, MmeExecutes, MmeTries, EntersPhase, Leaves, FinalTest,
      InfoResult, RoutineStep, UpdateStep, EventStep, Phase1Step, LaterPhaseStep;
    assert InfoStep(s, t1) && InfoStep(t1, t2) && MmeStep(t2, t3) && LoopStep(t3, t4);
  }

  // ---------------------------------------------------------------------------
  // A location update that succeeds.

  // A step in which the event callbacks have no part.
  ghost predicate IsQuick(s: Ulr, t: Ulr) {
    InfoStep(s, t) || MmeStep(s, t) || UpdateStep(s, t) || LoopStep(s, t) || LaterPhaseStep(s, t)
  }

  lemma ReachOne(s: Ulr, t: Ulr)
    requires Reached(Nothing, s) && IsQuick(s, t) && t.core.effort < TWO_32 - 1
    ensures Reached(Nothing, t)
  {
    hide Reached, InfoStep, MmeStep, UpdateStep, LoopStep, LaterPhaseStep, RoutineStep, EventStep, Phase1Step;
    ReachNext(Nothing, s, t);
  }

  lemma ReachFour(s: Ulr, t1: Ulr, t2: Ulr, t3: Ulr, t4: Ulr)
    requires Reached(Nothing, s) && IsQuick(s, t1) && IsQuick(t1, t2) && IsQuick(t2, t3) && IsQuick(t3, t4)
    requires t1.core.effort < TWO_32 - 1 && t2.core.effort < TWO_32 - 1
    requires t3.core.effort < TWO_32 - 1 && t4.core.effort < TWO_32 - 1
    ensures Reached(Nothing, t4)
  {
    hide Reached, IsQuick;
    ReachOne(s, t1);
    ReachOne(t1, t2);
    ReachOne(t2, t3);
    ReachOne(t3, t4);
  }

  // Both reads succeed, and phase2 can pass its check.
  lemma ReachBothRead() returns (t: Ulr)
    ensures Reached(Nothing, t) && Working(t, Check) && t.phase == Phase2 && t.core.effort <= 10
    ensures PhaseReady(t) && InfoResult(t) && t.executed & ULRDB_GET_MMEID_HOST != 0
  {
    var s := ReachAllIssued();
    var t1 := Publish(s.(info := ResultOut), ULRDB_GET_IMSI_INFO, true);
    var t2 := Execute(t1.(info := ExecutedOut), ULRDB_GET_IMSI_INFO);
    var t3 := Publish(t2.(mme := ResultOut), ULRDB_GET_MMEID_HOST, true);
    t := Execute(t3.(mme := ExecutedOut), ULRDB_GET_MMEID_HOST);
    SuccessAddsItsBit(s.result, ULRDB_GET_IMSI_INFO);
    SuccessAdds(t1.result, ULRDB_GET_MMEID_HOST);
    BothExecuted(s.executed);
    assert InfoPublishes(s, t1, true) && InfoStep(s, t1);
    assert InfoExecutes(t1, t2) && InfoStep(t1, t2);
    assert MmePublishes(t2, t3, true) && MmeStep(t2, t3);
    assert MmeExecutes(t3, t) && MmeStep(t3, t);
    hide Reached, InfoStep, MmeStep, Published;
    ReachFour(s, t1, t2, t3, t);
  }

  lemma BothExecuted(executed: bv32)
    ensures (executed | ULRDB_GET_IMSI_INFO | ULRDB_GET_MMEID_HOST) & ULRDB_GET_IMSI_INFO != 0
    ensures (executed | ULRDB_GET_IMSI_INFO | ULRDB_GET_MMEID_HOST) & ULRDB_GET_MMEID_HOST != 0
  {
  }

  // The answer goes out, without subscriber data, and phase4 is next.
  lemma ReachAnswered() returns (t: Ulr)
    ensures Reached(Nothing, t) && Working(t, Check) && t.phase == Phase4 && t.core.effort <= 10
    ensures PhaseReady(t) && t.successes > 0
  {
    var s := ReachBothRead();
    var t1 := s.(pc := In(Phase2));
    var t2 := t1.(pc := Check, phase := Phase3, skip := true);
    var t3 := t2.(pc := In(Phase3));
    t := t3.(pc := Check, phase := Phase4, successes := t3.successes + 1);
    assert EntersPhase(s, t1) && LoopStep(s, t1);
    assert Phase2Passes(t1, t2) && LaterPhaseStep(t1, t2);
    assert EntersPhase(t2, t3) && LoopStep(t2, t3);
    assert Phase3Answers(t3, t) && LaterPhaseStep(t3, t);
    hide Reached, LoopStep, LaterPhaseStep;
    ReachFour(s, t1, t2, t3, t);
  }

  lemma ReachStored() returns (t: Ulr)
    ensures Reached(Nothing, t) && Working(t, Check) && t.phase == Phase5 && t.update == Running
    ensures t.successes > 0 && t.updates > 0 && t.core.effort <= 12
  {
    var s := ReachAnswered();
    var t1 := s.(pc := In(Phase4));
    var t2 := t1.(pc := Updating, phase := Phase5, core := CountFirst(t1.core));
    t := t2.(pc := Check, update := Running, updates := t2.updates + 1, core := IssueCounted(t2.core));
    assert EntersPhase(s, t1) && LoopStep(s, t1);
    assert Phase4Counts(t1, t2) && LaterPhaseStep(t1, t2);
    assert Phase4Updates(t2, t) && LaterPhaseStep(t2, t);
    hide Reached, LoopStep, LaterPhaseStep;
    ReachOne(s, t1);
    ReachOne(t1, t2);
    ReachOne(t2, t);
  }

  // One success answer, one update, and the final phase.
  lemma SuccessfulUpdate() returns (t: Ulr)
    ensures Reached(Nothing, t) && t.phase == Final
    ensures t.successes == 1 && t.errors == 0 && t.updates == 1
  {
    var s := ReachStored();
    var t1 := Publish(s.(update := ResultOut), ULRDB_UPDATE_IMSI, true);
    var t2 := Execute(t1.(update := ExecutedOut), ULRDB_UPDATE_IMSI);
    var t3 := t2.(pc := In(Phase5));
    t := t3.(pc := Check, phase := Final);
    assert (s.executed | ULRDB_UPDATE_IMSI) & ULRDB_UPDATE_IMSI != 0;
    assert UpdatePublishes(s, t1, true) && UpdateStep(s, t1);
    assert UpdateExecutes(t1, t2) && UpdateStep(t1, t2);
    assert EntersPhase(t2, t3) && LoopStep(t2, t3);
    assert Phase5Ends(t3, t) && LaterPhaseStep(t3, t);
    hide Reached, UpdateStep, LoopStep, LaterPhaseStep, Published;
    ReachFour(s, t1, t2, t3, t);
    OneAnswerReached(t);
  }

  lemma OneAnswerReached(t: Ulr)
    requires Reached(Nothing, t) && t.phase == Final
    ensures t.errors + t.successes == 1 && t.updates <= t.successes
  {
    hide Next, Initial;
    var run :| IsRun(Nothing, run) && Bounded(run) && run[|run| - 1] == t;
    OneAnswer(Nothing, run, |run| - 1);
  }
}
