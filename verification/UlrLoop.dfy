// The phase loop of a location update ends: every step of its worker lowers a rank that
// no other step raises.
module UlrLoop {
  import opened RequestCore
  import opened UlrPhases

  function PhaseRank(phase: Phase): nat {
    match phase
    case Phase1 => 50
    case Phase2 => 40
    case Phase3 => 30
    case Phase4 => 20
    case Phase5 => 10
    case Final => 0
  }

  function PcRank(pc: Pc): nat {
    match pc
    case Issuing(q, counted) =>
      if q == ExtIds then (if counted then 8 else 9)
      else if q == Msisdn then (if counted then 6 else 7)
      else (if counted then 4 else 5)
    case Check => 2
    case In(_) => 1
    case _ => 3
  }

  function Rank(s: Ulr): nat {
    PhaseRank(s.phase) + PcRank(s.pc)
  }

  predicate LoopWork(f: Failing, s: Ulr, t: Ulr) {
    EntersPhase(s, t) || Phase1Step(f, s, t) || LaterPhaseStep(s, t)
  }

  lemma FirstQueryLowersRank(f: Failing, s: Ulr, t: Ulr)
    requires PhasesAgree(f, s) && (Phase1Rejects(s, t) || InfoIssues(f, s, t) || InfoFails(f, s, t))
    ensures Rank(t) < Rank(s)
  {
  }

  lemma QueriesLowerRank(f: Failing, s: Ulr, t: Ulr)
    requires PhasesAgree(f, s) && (QueryCounts(s, t) || QueryIssues(f, s, t) || QueryFails(f, s, t))
    ensures Rank(t) < Rank(s)
  {
  }

  lemma Phase12LowersRank(f: Failing, s: Ulr, t: Ulr)
    requires PhasesAgree(f, s) && (Closes(s, t) || AnswersUnknown(s, t) || Phase2Rejects(s, t) || Phase2Passes(s, t))
    ensures Rank(t) < Rank(s)
  {
  }

  lemma Phase345LowersRank(f: Failing, s: Ulr, t: Ulr)
    requires PhasesAgree(f, s) && (Phase3Answers(s, t) || Phase4Counts(s, t) || Phase5Ends(s, t))
    ensures Rank(t) < Rank(s)
  {
  }

  lemma Phase4EndsLowerRank(f: Failing, s: Ulr, t: Ulr)
    requires PhasesAgree(f, s) && (Phase4Updates(s, t) || Phase4Fails(s, t))
    ensures Rank(t) < Rank(s)
  {
  }

  lemma WorkLowersRank(f: Failing, s: Ulr, t: Ulr)
    requires Inv(f, s) && LoopWork(f, s, t)
    ensures Rank(t) < Rank(s)
  {
    hide PhasesAgree, PhaseReady, Rank, Phase1Rejects, InfoIssues, InfoFails, QueryCounts, QueryIssues, QueryFails,
      Closes, AnswersUnknown, Phase2Rejects, Phase2Passes, Phase3Answers, Phase4Counts, Phase4Updates, Phase4Fails,
      Phase5Ends, EntersPhase;
    if EntersPhase(s, t) {
      EntryLowersRank(s, t);
    } else if Phase1Rejects(s, t) || InfoIssues(f, s, t) || InfoFails(f, s, t) {
      FirstQueryLowersRank(f, s, t);
    } else if QueryCounts(s, t) || QueryIssues(f, s, t) || QueryFails(f, s, t) {
      QueriesLowerRank(f, s, t);
    } else if Closes(s, t) || AnswersUnknown(s, t) || Phase2Rejects(s, t) || Phase2Passes(s, t) {
      Phase12LowersRank(f, s, t);
    } else if Phase3Answers(s, t) || Phase4Counts(s, t) || Phase5Ends(s, t) {
      Phase345LowersRank(f, s, t);
    } else {
      Phase4EndsLowerRank(f, s, t);
    }
  }

  lemma EntryLowersRank(s: Ulr, t: Ulr)
    requires EntersPhase(s, t)
    ensures Rank(t) < Rank(s)
  {
  }

  lemma EventsKeepRank(s: Ulr, t: Ulr)
    requires EventStep(s, t)
    ensures Rank(t) == Rank(s)
  {
    hide PhaseRank, PcRank, IsEventItem, CallbackTries, Published, CountFirst, IssueCounted, UndoCount;
    if EventIssues(s, t) || EventGivesUp(s, t) {
      assert t.phase == s.phase && t.pc == s.pc;
    }
  }

  lemma PublishesKeepRank(s: Ulr, t: Ulr, ok: bool)
    requires InfoPublishes(s, t, ok) || MmePublishes(s, t, ok) || UpdatePublishes(s, t, ok)
    ensures Rank(t) == Rank(s)
  {
    hide PhaseRank, PcRank, CallbackTries, Published;
  }

  lemma ExecutesKeepRank(s: Ulr, t: Ulr)
    requires InfoExecutes(s, t) || MmeExecutes(s, t) || UpdateExecutes(s, t)
    ensures Rank(t) == Rank(s)
  {
    hide PhaseRank, PcRank, CallbackTries, Published;
  }

  lemma TriesKeepRank(s: Ulr, t: Ulr)
    requires InfoTries(s, t) || MmeTries(s, t) || UpdateTries(s, t)
    ensures Rank(t) == Rank(s)
  {
    hide PhaseRank, PcRank, CallbackTries, Published;
  }

  lemma CallbacksKeepRank(s: Ulr, t: Ulr)
    requires InfoStep(s, t) || MmeStep(s, t) || UpdateStep(s, t)
    ensures Rank(t) == Rank(s)
  {
    hide Rank, InfoPublishes, InfoExecutes, InfoTries, MmePublishes, MmeExecutes, MmeTries, UpdatePublishes,
      UpdateExecutes, UpdateTries;
    if InfoTries(s, t) || MmeTries(s, t) || UpdateTries(s, t) {
      TriesKeepRank(s, t);
    } else if InfoExecutes(s, t) || MmeExecutes(s, t) || UpdateExecutes(s, t) {
      ExecutesKeepRank(s, t);
    } else {
      PublishesKeepRank(s, t, InfoPublishes(s, t, true) || MmePublishes(s, t, true) || UpdatePublishes(s, t, true));
    }
  }

  lemma OtherStepsKeepRank(f: Failing, s: Ulr, t: Ulr)
    requires Next(f, s, t) && !LoopWork(f, s, t)
    ensures Rank(t) == Rank(s)
  {
    hide PhaseRank, PcRank, EntersPhase, Phase1Step, LaterPhaseStep, EventStep, InfoStep, MmeStep, UpdateStep, Routine,
      WorkerLeaves, SeesNoQuery, TakesFinal, PhaseReady;
    if InfoStep(s, t) || MmeStep(s, t) || UpdateStep(s, t) {
      CallbacksKeepRank(s, t);
    } else if EventStep(s, t) {
      EventsKeepRank(s, t);
    }
  }

  ghost function WorkOf(f: Failing, run: seq<Ulr>): nat {
    if |run| < 2 then 0
    else WorkOf(f, run[..|run| - 1]) + Count(LoopWork(f, run[|run| - 2], run[|run| - 1]))
  }

  lemma {:induction false} LoopEnds(f: Failing, run: seq<Ulr>)
    requires IsRun(f, run)
    ensures WorkOf(f, run) + Rank(run[|run| - 1]) <= 52
  {
    hide Inv, Next, LoopWork;
    var last := |run| - 1;
    if last > 0 {
      LoopEnds(f, run[..last]);
      RunKeepsInv(f, run, last - 1);
      hide IsRun, Rank;
      if LoopWork(f, run[last - 1], run[last]) {
        WorkLowersRank(f, run[last - 1], run[last]);
      } else {
        OtherStepsKeepRank(f, run[last - 1], run[last]);
      }
    }
  }
}
