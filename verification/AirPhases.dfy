// AIRProcessor as a phase machine (src/s6as6d_impl.cpp): phase1 to phase3, the two
// database callbacks and the bit masks, in every interleaving of the threads.
module AirPhases {
  import opened RequestCore

  const AIRDB_GET_IMSI_SEC: bv32 := 0x00000001
  const AIRDB_UPDATE_IMSI: bv32 := 0x00000002

  // m_nextphase. A rejection in phase1 stores ULRSTATE_PHASEFINAL, a constant of the
  // other processor that no AIR phase matches (Foreign).
  datatype Phase = Phase1 | Phase2 | Phase3 | Final | Foreign

  // The worker inside the phase loop: about to test phaseReady, in a phase, or between
  // issuing that phase's query and counting it.
  datatype Pc = Check | In(phase: Phase) | Gap

  // A query and its callback, up to the moment the callback tries the lock.
  datatype Query = Unissued | Running | ResultOut | ExecutedOut | Finished

  datatype Air = Air(
    core: Core,
    phase: Phase,
    pc: Pc,
    sec: Query,        // getImsiSec
    update: Query,     // updateRandSqn
    executed: bv32,    // m_dbexecuted
    result: bv32,      // m_dbresult
    secOk: bool,       // what getImsiSecData returned
    errors: nat,       // error answers sent
    successes: nat,    // success answers sent
    updates: nat)      // database updates executed

  predicate Initial(s: Air) {
    && InitialCore(s.core)
    && s.phase == Phase1 && s.pc == Check && s.sec == Unissued && s.update == Unissued
    && s.executed == 0 && s.result == 0xFFFF_FFFF
    && s.errors == 0 && s.successes == 0 && s.updates == 0
  }

  predicate PhaseReady(s: Air) {
    match s.phase
    case Phase1 => true
    case Phase2 => s.executed & AIRDB_GET_IMSI_SEC != 0
    case Phase3 => s.executed & AIRDB_UPDATE_IMSI != 0
    case Final => s.core.dbIssued % TWO_32 == 0 && s.core.msgIssued % TWO_32 == 0
    case Foreign => false
  }

  // ---------------------------------------------------------------------------
  // Steps of the callbacks.

  predicate SecPublishes(s: Air, t: Air) {
    s.sec == Running &&
    t == s.(sec := ResultOut, secOk := t.secOk, result := Published(s.result, AIRDB_GET_IMSI_SEC, t.secOk))
  }

  predicate SecExecutes(s: Air, t: Air) {
    s.sec == ResultOut && t == s.(sec := ExecutedOut, executed := s.executed | AIRDB_GET_IMSI_SEC)
  }

  predicate UpdatePublishes(s: Air, t: Air, ok: bool) {
    s.update == Running && t == s.(update := ResultOut, result := Published(s.result, AIRDB_UPDATE_IMSI, ok))
  }

  predicate UpdateExecutes(s: Air, t: Air) {
    s.update == ResultOut && t == s.(update := ExecutedOut, executed := s.executed | AIRDB_UPDATE_IMSI)
  }

  // The lock is tried last; the driver may run a callback on the issuing thread.
  predicate SecTries(s: Air, t: Air) {
    s.sec == ExecutedOut && CallbackTries(s.core, t.core) && (CallbackNests(s.core, t.core) ==> s.pc == Gap) &&
    t == s.(core := t.core, sec := Finished)
  }

  predicate UpdateTries(s: Air, t: Air) {
    s.update == ExecutedOut && CallbackTries(s.core, t.core) && (CallbackNests(s.core, t.core) ==> s.pc == Gap) &&
    t == s.(core := t.core, update := Finished)
  }

  predicate CallbackStep(s: Air, t: Air) {
    || SecPublishes(s, t) || SecExecutes(s, t) || SecTries(s, t)
    || UpdatePublishes(s, t, true) || UpdatePublishes(s, t, false) || UpdateExecutes(s, t) || UpdateTries(s, t)
  }

  // ---------------------------------------------------------------------------
  // Steps of the worker in the phase loop.

  predicate Working(s: Air, pc: Pc) {
    s.core.lock == ByWorker(InLoop) && s.pc == pc
  }

  predicate EntersPhase(s: Air, t: Air) {
    Working(s, Check) && s.phase in {Phase1, Phase2, Phase3} && PhaseReady(s) && t == s.(pc := In(s.phase))
  }

  predicate Leaves(s: Air, t: Air) {
    && s.pc == Check && !PhaseReady(s) && WorkerLeaves(s.core, t.core)
    && t == s.(core := t.core)
  }

  predicate FinalTest(s: Air, t: Air) {
    && s.phase == Final && s.pc == Check
    && (SeesNoQuery(s.core, t.core) || TakesFinal(s.core, t.core))
    && t == s.(core := t.core)
  }

  // Any of the checks before the query fails.
  predicate Phase1Rejects(s: Air, t: Air) {
    Working(s, In(Phase1)) && t == s.(pc := Check, phase := Foreign, errors := s.errors + 1)
  }

  predicate Phase1Issues(s: Air, t: Air) {
    Working(s, In(Phase1)) && t == s.(pc := Gap, phase := Phase2, sec := Running, core := IssueFirst(s.core))
  }

  predicate Phase1CannotIssue(s: Air, t: Air) {
    Working(s, In(Phase1)) && t == s.(pc := Check, phase := Final, errors := s.errors + 1)
  }

  predicate Counts(s: Air, t: Air) {
    Working(s, Gap) && s.core.uncounted > 0 && t == s.(pc := Check, core := CountIssued(s.core))
  }

  predicate Phase2Fails(s: Air, t: Air) {
    Working(s, In(Phase2)) && s.result & AIRDB_GET_IMSI_SEC == 0 &&
    t == s.(pc := Check, phase := Final, errors := s.errors + 1)
  }

  // The answer goes out, then the statement is executed and its callback set.
  predicate Phase2Updates(s: Air, t: Air) {
    Working(s, In(Phase2)) && s.result & AIRDB_GET_IMSI_SEC != 0 &&
    t == s.(pc := Gap, phase := Phase3, update := Running, core := IssueFirst(s.core),
            successes := s.successes + 1, updates := s.updates + 1)
  }

  predicate Phase2CannotSetCallback(s: Air, t: Air) {
    Working(s, In(Phase2)) && s.result & AIRDB_GET_IMSI_SEC != 0 &&
    t == s.(pc := Check, phase := Final, successes := s.successes + 1, updates := s.updates + 1)
  }

  predicate Phase3Ends(s: Air, t: Air) {
    Working(s, In(Phase3)) && t == s.(pc := Check, phase := Final)
  }

  predicate PhaseStep(s: Air, t: Air) {
    || Phase1Rejects(s, t) || Phase1Issues(s, t) || Phase1CannotIssue(s, t)
    || Phase2Fails(s, t) || Phase2Updates(s, t) || Phase2CannotSetCallback(s, t)
    || Phase3Ends(s, t)
  }

  predicate RoutineStep(s: Air, t: Air) {
    Routine(s.core, t.core) && t == s.(core := t.core)
  }

  predicate Next(s: Air, t: Air) {
    || RoutineStep(s, t) || CallbackStep(s, t)
    || EntersPhase(s, t) || Leaves(s, t) || FinalTest(s, t) || Counts(s, t) || PhaseStep(s, t)
  }

  // ---------------------------------------------------------------------------
  // The invariant.

  function Live(q: Query): nat {
    Count(q in {Running, ResultOut, ExecutedOut})
  }

  function Issued(q: Query): nat {
    Count(q != Unissued)
  }

  ghost predicate CountsAgree(s: Air) {
    && s.core.uncounted == Count(s.pc == Gap)
    && s.core.leads == 0
    && s.core.pending == Live(s.sec) + Live(s.update)
    && s.core.effort == Issued(s.sec) + Issued(s.update)
    && (s.pc != Check ==> s.core.lock == ByWorker(InLoop) || s.core.lock.Nested?)
    && (s.core.lock.Nested? ==> s.pc == Gap)
    && (Finalisations(s.core) > 0 || s.core.lock == ByWorker(SawNoQuery) ==> s.phase == Final)
  }

  ghost predicate PhasesAgree(s: Air) {
    && (s.phase in {Phase1, Foreign} ==> s.sec == Unissued)
    && (s.phase == Phase2 ==> s.sec != Unissued)
    && (s.phase in {Phase1, Phase2, Foreign} ==> s.update == Unissued)
    && (s.phase == Phase3 ==> s.update != Unissued)
    && (s.update != Unissued ==> s.sec in {ExecutedOut, Finished})
    && (s.pc.In? ==> s.pc.phase == s.phase && s.phase in {Phase1, Phase2, Phase3} && PhaseReady(s))
  }

  // A query's executed bit is set only after its result bit was written.
  ghost predicate MasksAgree(s: Air) {
    && (s.executed & AIRDB_GET_IMSI_SEC != 0 <==> s.sec in {ExecutedOut, Finished})
    && (s.executed & AIRDB_UPDATE_IMSI != 0 <==> s.update in {ExecutedOut, Finished})
    && (s.update == Unissued && s.sec in {ResultOut, ExecutedOut, Finished} ==>
          (s.result & AIRDB_GET_IMSI_SEC != 0 <==> s.secOk))
  }

  // No answer while the next phase is 1 or 2, exactly one in every other state; one
  // update with every success answer and none otherwise.
  ghost predicate AnswersAgree(s: Air) {
    && s.errors + s.successes == Count(s.phase !in {Phase1, Phase2})
    && s.updates == s.successes
    && (s.phase == Phase3 ==> s.successes == 1)
    && (s.successes > 0 ==> s.sec in {ExecutedOut, Finished} && s.secOk)
    && (s.errors > 0 && s.sec != Unissued ==> s.sec in {ExecutedOut, Finished} && !s.secOk)
  }

  ghost predicate Inv(s: Air) {
    Good(s.core) && CountsAgree(s) && PhasesAgree(s) && MasksAgree(s) && AnswersAgree(s)
  }

  lemma InitialInv(s: Air)
    requires Initial(s)
    ensures Inv(s)
  {
    hide Good;
    InitialIsGood(s.core);
  }

  lemma RoutineKeepsInv(s: Air, t: Air)
    requires Inv(s) && RoutineStep(s, t)
    ensures Inv(t)
  {
    hide Good;
    RoutineKeepsGood(s.core, t.core);
    RoutineKeepsRest(s, t);
  }

  lemma RoutineKeepsRest(s: Air, t: Air)
    requires Inv(s) && RoutineStep(s, t)
    ensures CountsAgree(t) && PhasesAgree(t) && MasksAgree(t) && AnswersAgree(t)
  {
    hide Good;
  }

  lemma SecPublishesKeepsInv(s: Air, t: Air)
    requires Inv(s) && SecPublishes(s, t)
    ensures Inv(t)
  {
    hide Good;
  }

  lemma SecExecutesKeepsInv(s: Air, t: Air)
    requires Inv(s) && SecExecutes(s, t)
    ensures Inv(t)
  {
    hide Good;
  }

  lemma SecTriesKeepsInv(s: Air, t: Air)
    requires Inv(s) && SecTries(s, t)
    ensures Inv(t)
  {
    hide Good;
    TryKeepsGood(s.core, t.core);
  }

  lemma UpdatePublishesKeepsInv(s: Air, t: Air, ok: bool)
    requires Inv(s) && UpdatePublishes(s, t, ok)
    ensures Inv(t)
  {
    hide Good;
  }

  lemma UpdateExecutesKeepsInv(s: Air, t: Air)
    requires Inv(s) && UpdateExecutes(s, t)
    ensures Inv(t)
  {
    hide Good;
  }

  lemma UpdateTriesKeepsInv(s: Air, t: Air)
    requires Inv(s) && UpdateTries(s, t)
    ensures Inv(t)
  {
    hide Good;
    TryKeepsGood(s.core, t.core);
  }

  lemma EntersPhaseKeepsInv(s: Air, t: Air)
    requires Inv(s) && EntersPhase(s, t)
    ensures Inv(t)
  {
    hide Good;
  }

  lemma LeavesKeepsInv(s: Air, t: Air)
    requires Inv(s) && Leaves(s, t)
    ensures Inv(t)
  {
    hide Good;
    LeaveKeepsGood(s.core, t.core);
  }

  lemma FinalTestKeepsInv(s: Air, t: Air)
    requires Inv(s) && FinalTest(s, t)
    ensures Inv(t)
  {
    hide Good;
    if SeesNoQuery(s.core, t.core) {
      SeesNoQueryKeepsGood(s.core, t.core);
    } else {
      TakesFinalKeepsGood(s.core, t.core);
    }
  }

  lemma CountsKeepsInv(s: Air, t: Air)
    requires Inv(s) && Counts(s, t)
    ensures Inv(t)
  {
    hide Good;
    CountIssuedKeepsGood(s.core);
  }

  lemma IssuesKeepsInv(s: Air, t: Air)
    requires Inv(s) && (Phase1Issues(s, t) || Phase2Updates(s, t))
    ensures Inv(t)
  {
    hide Good;
    IssueFirstKeepsGood(s.core);
  }

  lemma Phase1KeepsInv(s: Air, t: Air)
    requires Inv(s) && (Phase1Rejects(s, t) || Phase1CannotIssue(s, t))
    ensures Inv(t)
  {
    hide Good;
  }

  lemma Phase23KeepsInv(s: Air, t: Air)
    requires Inv(s) && (Phase2Fails(s, t) || Phase2CannotSetCallback(s, t) || Phase3Ends(s, t))
    ensures Inv(t)
  {
    hide Good;
  }

  lemma CallbackKeepsInv(s: Air, t: Air)
    requires Inv(s) && CallbackStep(s, t)
    ensures Inv(t)
  {
    hide Inv, SecPublishes, SecExecutes, SecTries, UpdatePublishes, UpdateExecutes, UpdateTries;
    if SecPublishes(s, t) {
      SecPublishesKeepsInv(s, t);
    } else if SecExecutes(s, t) {
      SecExecutesKeepsInv(s, t);
    } else if SecTries(s, t) {
      SecTriesKeepsInv(s, t);
    } else if UpdateExecutes(s, t) {
      UpdateExecutesKeepsInv(s, t);
    } else if UpdateTries(s, t) {
      UpdateTriesKeepsInv(s, t);
    } else {
      UpdatePublishesKeepsInv(s, t, UpdatePublishes(s, t, true));
    }
  }

  lemma PhaseKeepsInv(s: Air, t: Air)
    requires Inv(s) && PhaseStep(s, t)
    ensures Inv(t)
  {
    hide Inv, Phase1Rejects, Phase1Issues, Phase1CannotIssue, Phase2Fails, Phase2Updates, Phase2CannotSetCallback,
      Phase3Ends;
    if Phase1Issues(s, t) || Phase2Updates(s, t) {
      IssuesKeepsInv(s, t);
    } else if Phase1Rejects(s, t) || Phase1CannotIssue(s, t) {
      Phase1KeepsInv(s, t);
    } else {
      Phase23KeepsInv(s, t);
    }
  }

  lemma NextKeepsInv(s: Air, t: Air)
    requires Inv(s) && Next(s, t)
    ensures Inv(t)
  {
    hide Inv, RoutineStep, CallbackStep, EntersPhase, Leaves, FinalTest, Counts, PhaseStep;
    if RoutineStep(s, t) {
      RoutineKeepsInv(s, t);
    } else if CallbackStep(s, t) {
      CallbackKeepsInv(s, t);
    } else if EntersPhase(s, t) {
      EntersPhaseKeepsInv(s, t);
    } else if Leaves(s, t) {
      LeavesKeepsInv(s, t);
    } else if FinalTest(s, t) {
      FinalTestKeepsInv(s, t);
    } else if Counts(s, t) {
      CountsKeepsInv(s, t);
    } else {
      PhaseKeepsInv(s, t);
    }
  }

  // ---------------------------------------------------------------------------
  // What holds of every run.

  ghost predicate IsRun(run: seq<Air>) {
    |run| > 0 && Initial(run[0]) && forall i :: 0 < i < |run| ==> Next(run[i - 1], run[i])
  }

  lemma {:induction false} RunKeepsInv(run: seq<Air>, i: nat)
    requires IsRun(run) && i < |run|
    ensures Inv(run[i])
  {
    hide Inv, Next, Initial;
    if i == 0 {
      InitialInv(run[0]);
    } else {
      RunKeepsInv(run, i - 1);
      NextKeepsInv(run[i - 1], run[i]);
    }
  }

  // No use after finalisation: whoever takes PHASEFINAL is the only thread with a
  // reference, so the request is taken and freed at most once.
  lemma RequestIsSafe(run: seq<Air>, i: nat)
    requires IsRun(run) && i < |run|
    ensures Safe(run[i].core) && run[i].core.frees <= 1
  {
    hide IsRun;
    RunKeepsInv(run, i);
  }

  lemma NoStepIsLeft(s: Air, t: Air)
    requires CountsAgree(s) && Unreferenced(s.core)
    ensures !CallbackStep(s, t) && !EntersPhase(s, t) && !Leaves(s, t) && !FinalTest(s, t) && !Counts(s, t)
    ensures !PhaseStep(s, t)
  {
    hide Published, PhaseReady, CallbackTries;
    assert Live(s.sec) == 0 && Live(s.update) == 0;
  }

  lemma OnlyDeletion(s: Air, t: Air)
    requires Inv(s) && Next(s, t) && Finalisations(s.core) > 0
    ensures UnlocksToDelete(s.core, t.core) || Deletes(s.core, t.core)
    ensures t == s.(core := t.core)
  {
    hide CountsAgree, PhasesAgree, MasksAgree, AnswersAgree, CallbackStep, EntersPhase, Leaves, FinalTest, Counts,
      PhaseStep, Routine, Counted, NoQueryLeft, Unreferenced, Finalisations, UnlocksToDelete, Deletes;
    NoStepIsLeft(s, t);
    OnlyDeletionIsRoutine(s.core, t.core);
  }

  // After that nothing can happen to the request but its deletion.
  lemma OnlyDeletionFollows(run: seq<Air>, i: nat)
    requires IsRun(run) && i + 1 < |run| && Finalisations(run[i].core) > 0
    ensures UnlocksToDelete(run[i].core, run[i + 1].core) || Deletes(run[i].core, run[i + 1].core)
    ensures run[i + 1] == run[i].(core := run[i + 1].core)
  {
    hide Inv, Next, Initial, Finalisations, UnlocksToDelete, Deletes;
    RunKeepsInv(run, i);
    OnlyDeletion(run[i], run[i + 1]);
  }

  // Exactly one answer: none while the next phase is 1 or 2, one in every other state;
  // a database update only with, and as often as, the success answer.
  lemma OneAnswer(run: seq<Air>, i: nat)
    requires IsRun(run) && i < |run|
    ensures run[i].errors + run[i].successes == Count(run[i].phase !in {Phase1, Phase2})
    ensures run[i].updates == run[i].successes
    ensures run[i].core.frees > 0 ==> run[i].phase == Final
  {
    hide IsRun, Good, PhasesAgree, MasksAgree;
    RunKeepsInv(run, i);
  }

  // Once the read was issued, the answer is its result: a success answer exactly when the
  // subscriber was found, and an error answer exactly when not.
  lemma AnswerIsTheReadsResult(run: seq<Air>, i: nat)
    requires IsRun(run) && i < |run| && run[i].sec != Unissued && run[i].errors + run[i].successes > 0
    ensures run[i].successes == 1 <==> run[i].secOk
    ensures run[i].errors == 1 <==> !run[i].secOk
  {
    hide IsRun, Good, PhasesAgree, MasksAgree;
    RunKeepsInv(run, i);
  }

  // Result before executed: phase2 passes its check exactly when the read succeeded.
  lemma CheckIsTheReadsResult(run: seq<Air>, i: nat)
    requires IsRun(run) && i < |run| && run[i].pc == In(Phase2)
    ensures run[i].result & AIRDB_GET_IMSI_SEC != 0 <==> run[i].secOk
  {
    hide IsRun, Good;
    RunKeepsInv(run, i);
  }

  // A phase that waits for a query runs only after its result was written.
  lemma PhasesSeeResults(run: seq<Air>, i: nat)
    requires IsRun(run) && i < |run|
    ensures run[i].pc == In(Phase2) ==> run[i].sec in {ExecutedOut, Finished}
    ensures run[i].pc == In(Phase3) ==> run[i].update in {ExecutedOut, Finished}
  {
    hide IsRun, Good;
    RunKeepsInv(run, i);
  }

  // The phase loop ends: every phase lowers the rank of the next phase, whatever the
  // callbacks do in between, and after the last one the loop cannot go on.
  function Rank(phase: Phase): nat {
    match phase
    case Phase1 => 3
    case Phase2 => 2
    case Phase3 => 1
    case Final => 0
    case Foreign => 0
  }

  lemma PhaseLowersRank(s: Air, t: Air)
    requires Inv(s) && PhaseStep(s, t)
    ensures Rank(t.phase) < Rank(s.phase)
  {
    hide Good, CountsAgree, MasksAgree, AnswersAgree, PhaseReady, IssueFirst;
  }

  lemma OtherStepsKeepPhase(s: Air, t: Air)
    requires Next(s, t) && !PhaseStep(s, t)
    ensures t.phase == s.phase
  {
    hide PhaseStep, Routine, CallbackTries, CallbackNests, WorkerLeaves, SeesNoQuery, TakesFinal, PhaseReady, CountIssued;
  }

  ghost function PhasesRun(run: seq<Air>): nat {
    if |run| < 2 then 0
    else PhasesRun(run[..|run| - 1]) + Count(PhaseStep(run[|run| - 2], run[|run| - 1]))
  }

  lemma {:induction false} AtMostThreePhases(run: seq<Air>)
    requires IsRun(run)
    ensures PhasesRun(run) + Rank(run[|run| - 1].phase) <= 3
  {
    hide Inv, Next, PhaseStep;
    var last := |run| - 1;
    if last > 0 {
      AtMostThreePhases(run[..last]);
      hide IsRun;
      RunKeepsInv(run, last - 1);
      if PhaseStep(run[last - 1], run[last]) {
        PhaseLowersRank(run[last - 1], run[last]);
      } else {
        OtherStepsKeepPhase(run[last - 1], run[last]);
      }
    }
  }
}
