// ULRProcessor as a phase machine (src/s6as6d_impl.cpp): phase1 to phase5, the database
// callbacks and the bit masks, in every interleaving of the threads.
module UlrPhases {
  import opened RequestCore

  const ULRDB_GET_IMSI_INFO: bv32 := 0x00000001
  const ULRDB_GET_EXT_IDS: bv32 := 0x00000002
  const ULRDB_GET_EVNTIDS_MSISDN: bv32 := 0x00000004
  const ULRDB_GET_EVNTIDS_EXTIDS: bv32 := 0x00000008
  const ULRDB_GET_EVNTS_EVNTIDS: bv32 := 0x00000010
  const ULRDB_GET_MMEID_HOST: bv32 := 0x00000020
  const ULRDB_UPDATE_IMSI: bv32 := 0x00000040

  // The queries of phase1, in the order it issues them. A run is given the first of
  // them that cannot be issued, if there is one: phase1 then issues no more.
  datatype Failing = Nothing | Info | ExtIds | Msisdn | Mme

  datatype Phase = Phase1 | Phase2 | Phase3 | Phase4 | Phase5 | Final

  // The worker inside the phase loop. Issuing(q, counted) is phase1 about to count or to
  // issue q; Closing is phase1 before its last count; Answering is phase1 before its
  // error answer; Updating is phase4 between its count and its query.
  datatype Pc =
    | Check
    | In(phase: Phase)
    | Issuing(query: Failing, counted: bool)
    | Closing
    | Answering
    | Updating

  datatype Query = Unissued | Running | ResultOut | ExecutedOut | Finished

  // The callbacks that look up monitoring events may issue queries of their own, whose
  // number depends on the data; events counts those that have not tried the lock.
  datatype Ulr = Ulr(
    core: Core,
    phase: Phase,
    pc: Pc,
    skip: bool,        // ULR_SKIP_SUBSCRIBER_DATA in m_ulrflags
    info: Query,       // getImsiInfo
    mme: Query,        // getMmeIdFromHost
    update: Query,     // updateLocation
    events: nat,
    eventLeads: nat,   // of the events: those that counted a query not yet issued
    executed: bv32,    // m_dbexecuted
    result: bv32,      // m_dbresult
    errors: nat,
    successes: nat,
    updates: nat)

  predicate Initial(s: Ulr) {
    && InitialCore(s.core)
    && s.phase == Phase1 && s.pc == Check && !s.skip
    && s.info == Unissued && s.mme == Unissued && s.update == Unissued && s.events == 0 && s.eventLeads == 0
    && s.executed == 0 && s.result == 0xFFFF_FFFF
    && s.errors == 0 && s.successes == 0 && s.updates == 0
  }

  predicate IsEventItem(item: bv32) {
    item in {ULRDB_GET_EXT_IDS, ULRDB_GET_EVNTIDS_MSISDN, ULRDB_GET_EVNTIDS_EXTIDS, ULRDB_GET_EVNTS_EVNTIDS}
  }

  function Publish(s: Ulr, item: bv32, ok: bool): Ulr {
    s.(result := Published(s.result, item, ok))
  }

  function Execute(s: Ulr, item: bv32): Ulr {
    s.(executed := s.executed | item)
  }

  predicate PhaseReady(s: Ulr) {
    match s.phase
    case Phase1 => true
    case Phase2 => s.executed & ULRDB_GET_IMSI_INFO != 0
    case Phase3 => s.skip || s.executed & ULRDB_GET_EVNTS_EVNTIDS != 0
    case Phase4 => s.executed & ULRDB_GET_MMEID_HOST != 0
    case Phase5 => s.executed & ULRDB_UPDATE_IMSI != 0
    case Final => s.core.dbIssued % TWO_32 == 0 && s.core.msgIssued % TWO_32 == 0
  }

  // ---------------------------------------------------------------------------
  // Steps of the callbacks. The steps of the event callbacks allow every order of the
  // atomic actions in getExternalIds, getEventIdsMsisdn, getEventIdsExternalIds and
  // getEvents, and so those that the code takes.

  predicate InfoPublishes(s: Ulr, t: Ulr, ok: bool) {
    s.info == Running && t == Publish(s.(info := ResultOut), ULRDB_GET_IMSI_INFO, ok)
  }

  predicate InfoExecutes(s: Ulr, t: Ulr) {
    s.info == ResultOut && t == Execute(s.(info := ExecutedOut), ULRDB_GET_IMSI_INFO)
  }

  predicate InfoTries(s: Ulr, t: Ulr) {
    s.info == ExecutedOut && CallbackTries(s.core, t.core) && t == s.(info := Finished, core := t.core)
  }

  predicate MmePublishes(s: Ulr, t: Ulr, ok: bool) {
    s.mme == Running && t == Publish(s.(mme := ResultOut), ULRDB_GET_MMEID_HOST, ok)
  }

  predicate MmeExecutes(s: Ulr, t: Ulr) {
    s.mme == ResultOut && t == Execute(s.(mme := ExecutedOut), ULRDB_GET_MMEID_HOST)
  }

  predicate MmeTries(s: Ulr, t: Ulr) {
    s.mme == ExecutedOut && CallbackTries(s.core, t.core) && t == s.(mme := Finished, core := t.core)
  }

  predicate UpdatePublishes(s: Ulr, t: Ulr, ok: bool) {
    s.update == Running && t == Publish(s.(update := ResultOut), ULRDB_UPDATE_IMSI, ok)
  }

  predicate UpdateExecutes(s: Ulr, t: Ulr) {
    s.update == ResultOut && t == Execute(s.(update := ExecutedOut), ULRDB_UPDATE_IMSI)
  }

  predicate UpdateTries(s: Ulr, t: Ulr) {
    s.update == ExecutedOut && CallbackTries(s.core, t.core) && t == s.(update := Finished, core := t.core)
  }

  ghost predicate EventPublishes(s: Ulr, t: Ulr, ok: bool) {
    s.events > 0 && exists item :: IsEventItem(item) && t == Publish(s, item, ok)
  }

  ghost predicate EventExecutes(s: Ulr, t: Ulr) {
    s.events > 0 && exists item :: IsEventItem(item) && t == Execute(s, item)
  }

  predicate EventCounts(s: Ulr, t: Ulr) {
    s.events > s.eventLeads && s.core.pending > 0 &&
    t == s.(eventLeads := s.eventLeads + 1, core := CountFirst(s.core))
  }

  predicate EventIssues(s: Ulr, t: Ulr) {
    s.eventLeads > 0 && s.core.leads > 0 &&
    t == s.(eventLeads := s.eventLeads - 1, events := s.events + 1, core := IssueCounted(s.core))
  }

  predicate EventGivesUp(s: Ulr, t: Ulr) {
    s.eventLeads > 0 && s.core.leads > 0 &&
    t == s.(eventLeads := s.eventLeads - 1, core := UndoCount(s.core))
  }

  predicate EventTries(s: Ulr, t: Ulr) {
    s.events > s.eventLeads && CallbackTries(s.core, t.core) && t == s.(events := s.events - 1, core := t.core)
  }

  predicate InfoStep(s: Ulr, t: Ulr) {
    InfoPublishes(s, t, true) || InfoPublishes(s, t, false) || InfoExecutes(s, t) || InfoTries(s, t)
  }

  predicate MmeStep(s: Ulr, t: Ulr) {
    MmePublishes(s, t, true) || MmePublishes(s, t, false) || MmeExecutes(s, t) || MmeTries(s, t)
  }

  predicate UpdateStep(s: Ulr, t: Ulr) {
    UpdatePublishes(s, t, true) || UpdatePublishes(s, t, false) || UpdateExecutes(s, t) || UpdateTries(s, t)
  }

  ghost predicate EventStep(s: Ulr, t: Ulr) {
    || EventPublishes(s, t, true) || EventPublishes(s, t, false) || EventExecutes(s, t)
    || EventCounts(s, t) || EventIssues(s, t) || EventGivesUp(s, t) || EventTries(s, t)
  }

  // ---------------------------------------------------------------------------
  // Steps of the worker in the phase loop.

  predicate Working(s: Ulr, pc: Pc) {
    s.core.lock == ByWorker(InLoop) && s.pc == pc
  }

  predicate EntersPhase(s: Ulr, t: Ulr) {
    Working(s, Check) && s.phase != Final && PhaseReady(s) && t == s.(pc := In(s.phase))
  }

  predicate Leaves(s: Ulr, t: Ulr) {
    s.pc == Check && !PhaseReady(s) && WorkerLeaves(s.core, t.core) && t == s.(core := t.core)
  }

  predicate FinalTest(s: Ulr, t: Ulr) {
    && s.phase == Final && s.pc == Check
    && (SeesNoQuery(s.core, t.core) || TakesFinal(s.core, t.core))
    && t == s.(core := t.core)
  }

  predicate Phase1Rejects(s: Ulr, t: Ulr) {
    Working(s, In(Phase1)) && t == s.(pc := Check, phase := Final, errors := s.errors + 1)
  }

  // The first query is issued before it is counted: its count is phase1's last act.
  predicate InfoIssues(f: Failing, s: Ulr, t: Ulr) {
    Working(s, In(Phase1)) && f != Info &&
    t == s.(pc := Issuing(ExtIds, false), phase := Phase2, info := Running, core := IssueFirst(s.core))
  }

  predicate InfoFails(f: Failing, s: Ulr, t: Ulr) {
    Working(s, In(Phase1)) && f == Info &&
    t == Execute(Publish(s.(pc := Answering, phase := Phase2), ULRDB_GET_IMSI_INFO, false), ULRDB_GET_IMSI_INFO)
  }

  predicate QueryCounts(s: Ulr, t: Ulr) {
    s.core.lock == ByWorker(InLoop) && s.pc.Issuing? && !s.pc.counted &&
    t == s.(pc := Issuing(s.pc.query, true), core := CountFirst(s.core))
  }

  function AfterQuery(q: Failing): Pc {
    match q
    case ExtIds => Issuing(Msisdn, false)
    case Msisdn => Issuing(Mme, false)
    case _ => Closing
  }

  predicate QueryIssues(f: Failing, s: Ulr, t: Ulr) {
    s.core.lock == ByWorker(InLoop) && s.pc.Issuing? && s.pc.counted && s.core.leads > 0 && f != s.pc.query &&
    t == s.(pc := AfterQuery(s.pc.query), core := IssueCounted(s.core),
            events := if s.pc.query == Mme then s.events else s.events + 1,
            mme := if s.pc.query == Mme then Running else s.mme)
  }

  function ItemsOf(q: Failing): bv32 {
    match q
    case ExtIds => ULRDB_GET_EXT_IDS | ULRDB_GET_EVNTIDS_EXTIDS | ULRDB_GET_EVNTS_EVNTIDS
    case Msisdn => ULRDB_GET_EVNTIDS_MSISDN | ULRDB_GET_EVNTS_EVNTIDS
    case _ => ULRDB_GET_MMEID_HOST
  }

  predicate QueryFails(f: Failing, s: Ulr, t: Ulr) {
    s.core.lock == ByWorker(InLoop) && s.pc.Issuing? && s.pc.counted && s.core.leads > 0 && f == s.pc.query &&
    t == Execute(Publish(s.(pc := Answering, core := UndoCount(s.core)), ItemsOf(f), false), ItemsOf(f))
  }

  predicate Closes(s: Ulr, t: Ulr) {
    Working(s, Closing) && s.core.uncounted > 0 && t == s.(pc := Check, core := CountIssued(s.core))
  }

  predicate AnswersUnknown(s: Ulr, t: Ulr) {
    Working(s, Answering) && t == s.(pc := Check, phase := Final, errors := s.errors + 1)
  }

  // The check of the result and every other check of phase2.
  predicate Phase2Rejects(s: Ulr, t: Ulr) {
    Working(s, In(Phase2)) && t == s.(pc := Check, phase := Final, errors := s.errors + 1, skip := t.skip)
  }

  predicate Phase2Passes(s: Ulr, t: Ulr) {
    Working(s, In(Phase2)) && s.result & ULRDB_GET_IMSI_INFO != 0 &&
    t == s.(pc := Check, phase := Phase3, skip := t.skip)
  }

  predicate Phase3Answers(s: Ulr, t: Ulr) {
    Working(s, In(Phase3)) && t == s.(pc := Check, phase := Phase4, successes := s.successes + 1)
  }

  predicate Phase4Counts(s: Ulr, t: Ulr) {
    Working(s, In(Phase4)) && t == s.(pc := Updating, phase := Phase5, core := CountFirst(s.core))
  }

  predicate Phase4Updates(s: Ulr, t: Ulr) {
    Working(s, Updating) && s.core.leads > 0 &&
    t == s.(pc := Check, update := Running, updates := s.updates + 1, core := IssueCounted(s.core))
  }

  // The statement fails, or it was executed and its callback cannot be set.
  predicate Phase4Fails(s: Ulr, t: Ulr) {
    Working(s, Updating) && s.core.leads > 0 && s.updates <= t.updates <= s.updates + 1 &&
    t == Execute(Publish(s.(pc := Check, phase := Final, updates := t.updates, core := UndoCount(s.core)),
                         ULRDB_UPDATE_IMSI, false), ULRDB_UPDATE_IMSI)
  }

  predicate Phase5Ends(s: Ulr, t: Ulr) {
    Working(s, In(Phase5)) && t == s.(pc := Check, phase := Final)
  }

  predicate Phase1Step(f: Failing, s: Ulr, t: Ulr) {
    || Phase1Rejects(s, t) || InfoIssues(f, s, t) || InfoFails(f, s, t)
    || QueryCounts(s, t) || QueryIssues(f, s, t) || QueryFails(f, s, t)
    || Closes(s, t) || AnswersUnknown(s, t)
  }

  predicate LaterPhaseStep(s: Ulr, t: Ulr) {
    || Phase2Rejects(s, t) || Phase2Passes(s, t) || Phase3Answers(s, t)
    || Phase4Counts(s, t) || Phase4Updates(s, t) || Phase4Fails(s, t) || Phase5Ends(s, t)
  }

  predicate LoopStep(s: Ulr, t: Ulr) {
    EntersPhase(s, t) || Leaves(s, t) || FinalTest(s, t)
  }

  predicate RoutineStep(s: Ulr, t: Ulr) {
    Routine(s.core, t.core) && t == s.(core := t.core)
  }

  ghost predicate Next(f: Failing, s: Ulr, t: Ulr) {
    || RoutineStep(s, t) || InfoStep(s, t) || MmeStep(s, t) || UpdateStep(s, t) || EventStep(s, t)
    || LoopStep(s, t) || Phase1Step(f, s, t) || LaterPhaseStep(s, t)
  }

  ghost predicate IsRun(f: Failing, run: seq<Ulr>) {
    && |run| > 0 && Initial(run[0])
    && (forall i :: 0 < i < |run| ==> Next(f, run[i - 1], run[i]))
  }

  // ---------------------------------------------------------------------------
  // The invariant.

  function Live(q: Query): nat {
    Count(q in {Running, ResultOut, ExecutedOut})
  }

  ghost predicate CountsAgree(s: Ulr) {
    && s.core.leads == Count(s.pc.Issuing? && s.pc.counted) + Count(s.pc == Updating) + s.eventLeads
    && s.core.pending == Live(s.info) + Live(s.mme) + Live(s.update) + s.events
    && s.eventLeads <= s.events
    && (s.pc != Check ==> s.core.lock == ByWorker(InLoop) || s.core.lock.Nested?)
    && (Finalisations(s.core) > 0 || s.core.lock == ByWorker(SawNoQuery) ==> s.phase == Final)
  }

  ghost predicate PhasesAgree(f: Failing, s: Ulr) {
    && (s.pc.In? ==> s.pc.phase == s.phase && s.phase != Final && PhaseReady(s))
    && (s.pc.Issuing? || s.pc == Closing ==> s.phase == Phase2 && s.info != Unissued && f != Info)
    && (s.pc.Issuing? ==> s.pc.query in {ExtIds, Msisdn, Mme})
    && (s.pc.Issuing? || s.phase == Phase1 ==> s.mme == Unissued)
    && (s.pc == Answering ==> s.phase == Phase2 && f != Nothing)
    && (s.pc == Updating ==> s.phase == Phase5 && s.update == Unissued && s.updates == 0)
    && (s.phase in {Phase2, Phase3, Phase4, Phase5} && s.pc != Answering ==> s.info != Unissued)
    && (s.phase in {Phase1, Phase2, Phase3, Phase4} ==> s.update == Unissued && s.updates == 0)
    && (s.phase == Phase1 ==> s.info == Unissued)
  }

  // A query's executed bit is set only after its result bit was written.
  ghost predicate MasksAgree(s: Ulr) {
    && (s.info != Unissued ==>
          (s.executed & ULRDB_GET_IMSI_INFO != 0 <==> s.info in {ExecutedOut, Finished}))
    && (s.phase == Phase1 ==> s.executed & ULRDB_GET_IMSI_INFO == 0)
    && (s.executed & ULRDB_GET_MMEID_HOST != 0 ==>
          s.mme in {ExecutedOut, Finished} || s.pc == Answering || s.phase == Final)
    && (s.executed & ULRDB_UPDATE_IMSI != 0 ==> s.update in {ExecutedOut, Finished} || s.phase == Final)
    && (s.mme in {ExecutedOut, Finished} ==> s.executed & ULRDB_GET_MMEID_HOST != 0)
    && (s.update in {ExecutedOut, Finished} ==> s.executed & ULRDB_UPDATE_IMSI != 0)
  }

  // No answer while the next phase is 1, 2 or 3, exactly one in every other state; an
  // update at most once, and only after a success answer.
  ghost predicate AnswersAgree(s: Ulr) {
    && s.errors + s.successes == Count(s.phase in {Phase4, Phase5, Final})
    && (s.phase in {Phase4, Phase5} ==> s.errors == 0)
    && s.updates <= s.successes
    && (s.update != Unissued ==> s.updates == 1)
  }

  ghost predicate Inv(f: Failing, s: Ulr) {
    CountsAgree(s) && PhasesAgree(f, s) && MasksAgree(s) && AnswersAgree(s)
  }

  lemma InitialInv(f: Failing, s: Ulr)
    requires Initial(s)
    ensures Inv(f, s)
  {
  }

  lemma RoutineKeepsInv(f: Failing, s: Ulr, t: Ulr)
    requires Inv(f, s) && RoutineStep(s, t)
    ensures Inv(f, t)
  {
  }

  lemma InfoPublishesKeepsInv(f: Failing, s: Ulr, t: Ulr, ok: bool)
    requires Inv(f, s) && InfoPublishes(s, t, ok)
    ensures Inv(f, t)
  {
  }

  lemma InfoEndsKeepInv(f: Failing, s: Ulr, t: Ulr)
    requires Inv(f, s) && (InfoExecutes(s, t) || InfoTries(s, t))
    ensures Inv(f, t)
  {
  }

  lemma MmePublishesKeepsInv(f: Failing, s: Ulr, t: Ulr, ok: bool)
    requires Inv(f, s) && MmePublishes(s, t, ok)
    ensures Inv(f, t)
  {
  }

  lemma MmeEndsKeepInv(f: Failing, s: Ulr, t: Ulr)
    requires Inv(f, s) && (MmeExecutes(s, t) || MmeTries(s, t))
    ensures Inv(f, t)
  {
  }

  lemma UpdatePublishesKeepsInv(f: Failing, s: Ulr, t: Ulr, ok: bool)
    requires Inv(f, s) && UpdatePublishes(s, t, ok)
    ensures Inv(f, t)
  {
  }

  lemma UpdateEndsKeepInv(f: Failing, s: Ulr, t: Ulr)
    requires Inv(f, s) && (UpdateExecutes(s, t) || UpdateTries(s, t))
    ensures Inv(f, t)
  {
  }

  lemma EventPublishesKeepsInv(f: Failing, s: Ulr, t: Ulr, ok: bool)
    requires Inv(f, s) && EventPublishes(s, t, ok)
    ensures Inv(f, t)
  {
  }

  lemma EventEndsKeepInv(f: Failing, s: Ulr, t: Ulr)
    requires Inv(f, s) && (EventExecutes(s, t) || EventTries(s, t))
    ensures Inv(f, t)
  {
  }

  lemma EventQueriesKeepInv(f: Failing, s: Ulr, t: Ulr)
    requires Inv(f, s) && (EventCounts(s, t) || EventIssues(s, t) || EventGivesUp(s, t))
    ensures Inv(f, t)
  {
    if EventCounts(s, t) {
      assert Inv(f, t);
    } else if EventIssues(s, t) {
      assert Inv(f, t);
    }
  }

  lemma LoopKeepsInv(f: Failing, s: Ulr, t: Ulr)
    requires Inv(f, s) && LoopStep(s, t)
    ensures Inv(f, t)
  {
    if EntersPhase(s, t) {
      assert Inv(f, t);
    }
  }

  lemma FirstQueryKeepsInv(f: Failing, s: Ulr, t: Ulr)
    requires Inv(f, s) && (Phase1Rejects(s, t) || InfoIssues(f, s, t) || InfoFails(f, s, t))
    ensures Inv(f, t)
  {
  }

  lemma QueriesKeepInv(f: Failing, s: Ulr, t: Ulr)
    requires Inv(f, s) && (QueryCounts(s, t) || QueryIssues(f, s, t) || QueryFails(f, s, t))
    ensures Inv(f, t)
  {
  }

  lemma Phase12KeepInv(f: Failing, s: Ulr, t: Ulr)
    requires Inv(f, s) && (Closes(s, t) || AnswersUnknown(s, t) || Phase2Rejects(s, t) || Phase2Passes(s, t))
    ensures Inv(f, t)
  {
  }

  lemma Phase345KeepInv(f: Failing, s: Ulr, t: Ulr)
    requires Inv(f, s) && (Phase3Answers(s, t) || Phase4Counts(s, t) || Phase5Ends(s, t))
    ensures Inv(f, t)
  {
  }

  lemma Phase4EndsKeepInv(f: Failing, s: Ulr, t: Ulr)
    requires Inv(f, s) && (Phase4Updates(s, t) || Phase4Fails(s, t))
    ensures Inv(f, t)
  {
  }

  lemma CallbackKeepsInv(f: Failing, s: Ulr, t: Ulr)
    requires Inv(f, s) && (InfoStep(s, t) || MmeStep(s, t) || UpdateStep(s, t))
    ensures Inv(f, t)
  {
    hide Inv, InfoPublishes, InfoExecutes, InfoTries, MmePublishes, MmeExecutes, MmeTries, UpdatePublishes,
      UpdateExecutes, UpdateTries;
    if InfoExecutes(s, t) || InfoTries(s, t) {
      InfoEndsKeepInv(f, s, t);
    } else if MmeExecutes(s, t) || MmeTries(s, t) {
      MmeEndsKeepInv(f, s, t);
    } else if UpdateExecutes(s, t) || UpdateTries(s, t) {
      UpdateEndsKeepInv(f, s, t);
    } else if InfoStep(s, t) {
      InfoPublishesKeepsInv(f, s, t, InfoPublishes(s, t, true));
    } else if MmeStep(s, t) {
      MmePublishesKeepsInv(f, s, t, MmePublishes(s, t, true));
    } else {
      UpdatePublishesKeepsInv(f, s, t, UpdatePublishes(s, t, true));
    }
  }

  lemma EventKeepsInv(f: Failing, s: Ulr, t: Ulr)
    requires Inv(f, s) && EventStep(s, t)
    ensures Inv(f, t)
  {
    hide Inv, EventPublishes, EventExecutes, EventTries, EventCounts, EventIssues, EventGivesUp;
    if EventExecutes(s, t) || EventTries(s, t) {
      EventEndsKeepInv(f, s, t);
    } else if EventCounts(s, t) || EventIssues(s, t) || EventGivesUp(s, t) {
      EventQueriesKeepInv(f, s, t);
    } else {
      EventPublishesKeepsInv(f, s, t, EventPublishes(s, t, true));
    }
  }

  lemma PhasesKeepInv(f: Failing, s: Ulr, t: Ulr)
    requires Inv(f, s) && (Phase1Step(f, s, t) || LaterPhaseStep(s, t))
    ensures Inv(f, t)
  {
    hide Inv, Phase1Rejects, InfoIssues, InfoFails, QueryCounts, QueryIssues, QueryFails, Closes, AnswersUnknown,
      Phase2Rejects, Phase2Passes, Phase3Answers, Phase4Counts, Phase4Updates, Phase4Fails, Phase5Ends;
    if Phase1Rejects(s, t) || InfoIssues(f, s, t) || InfoFails(f, s, t) {
      FirstQueryKeepsInv(f, s, t);
    } else if QueryCounts(s, t) || QueryIssues(f, s, t) || QueryFails(f, s, t) {
      QueriesKeepInv(f, s, t);
    } else if Closes(s, t) || AnswersUnknown(s, t) || Phase2Rejects(s, t) || Phase2Passes(s, t) {
      Phase12KeepInv(f, s, t);
    } else if Phase3Answers(s, t) || Phase4Counts(s, t) || Phase5Ends(s, t) {
      Phase345KeepInv(f, s, t);
    } else {
      Phase4EndsKeepInv(f, s, t);
    }
  }

  lemma NextKeepsInv(f: Failing, s: Ulr, t: Ulr)
    requires Inv(f, s) && Next(f, s, t)
    ensures Inv(f, t)
  {
    hide Inv, RoutineStep, InfoStep, MmeStep, UpdateStep, EventStep, LoopStep, Phase1Step, LaterPhaseStep;
    if RoutineStep(s, t) {
      RoutineKeepsInv(f, s, t);
    } else if InfoStep(s, t) || MmeStep(s, t) || UpdateStep(s, t) {
      CallbackKeepsInv(f, s, t);
    } else if EventStep(s, t) {
      EventKeepsInv(f, s, t);
    } else if LoopStep(s, t) {
      LoopKeepsInv(f, s, t);
    } else {
      PhasesKeepInv(f, s, t);
    }
  }

  // ---------------------------------------------------------------------------
  // What holds of every run.

  lemma {:induction false} RunKeepsInv(f: Failing, run: seq<Ulr>, i: nat)
    requires IsRun(f, run) && i < |run|
    ensures Inv(f, run[i])
  {
    hide Inv, Next, Initial;
    if i == 0 {
      InitialInv(f, run[0]);
    } else {
      RunKeepsInv(f, run, i - 1);
      NextKeepsInv(f, run[i - 1], run[i]);
    }
  }

  // A phase that waits for a query can run exactly when the query's result was written;
  // the third runs when subscriber data is skipped or the event queries are done.
  lemma PhasesSeeResults(f: Failing, run: seq<Ulr>, i: nat)
    requires IsRun(f, run) && i < |run| && (run[i].pc == Check || run[i].pc.In?)
    ensures run[i].phase == Phase2 ==> (PhaseReady(run[i]) <==> run[i].info in {ExecutedOut, Finished})
    ensures run[i].phase == Phase3 ==> (PhaseReady(run[i]) <==> run[i].skip || run[i].executed & 0x10 != 0)
    ensures run[i].phase == Phase4 ==> (PhaseReady(run[i]) <==> run[i].mme in {ExecutedOut, Finished})
    ensures run[i].phase == Phase5 ==> (PhaseReady(run[i]) <==> run[i].update in {ExecutedOut, Finished})
    ensures run[i].pc.In? ==> run[i].pc == In(run[i].phase) && PhaseReady(run[i])
  {
    hide IsRun, CountsAgree, AnswersAgree;
    RunKeepsInv(f, run, i);
  }

  // Exactly one answer: none while the next phase is 1, 2 or 3, one in every other
  // state; a database update at most once, and only after a success answer.
  lemma OneAnswer(f: Failing, run: seq<Ulr>, i: nat)
    requires IsRun(f, run) && i < |run|
    ensures run[i].errors + run[i].successes == Count(run[i].phase in {Phase4, Phase5, Final})
    ensures run[i].updates <= run[i].successes <= 1
    ensures run[i].core.frees > 0 ==> run[i].phase == Final
  {
    hide IsRun, PhasesAgree, MasksAgree;
    RunKeepsInv(f, run, i);
  }

}
