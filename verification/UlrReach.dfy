// States that a location update can reach: the runs up to the queries of phase1.
module UlrReach {
  import opened RequestCore
  import opened UlrPhases

  // With fewer than 2^32 - 1 counts and queries, so that the 32-bit counters stay apart
  // from their wrapped values.
  ghost predicate Bounded(run: seq<Ulr>) {
    forall i :: 0 <= i < |run| ==> run[i].core.effort < TWO_32 - 1
  }

  ghost predicate Reached(f: Failing, s: Ulr) {
    exists run :: IsRun(f, run) && Bounded(run) && run[|run| - 1] == s
  }

  lemma ReachNext(f: Failing, s: Ulr, t: Ulr)
    requires Reached(f, s) && Next(f, s, t) && t.core.effort < TWO_32 - 1
    ensures Reached(f, t)
  {
    hide Next, Initial;
    var run :| IsRun(f, run) && Bounded(run) && run[|run| - 1] == s;
    var longer := run + [t];
    assert forall i :: 0 <= i < |run| ==> longer[i] == run[i];
    assert IsRun(f, longer);
    assert longer[|longer| - 1] == t;
  }

  // The worker holds the lock and no message is left; the first callback and done more
  // are running.
  ghost predicate Quiet(s: Ulr, done: nat) {
    && s.core.lock == ByWorker(InLoop) && s.core.msgIssued == 0
    && s.core.start == Started && s.core.queued == 0 && s.core.popped == 0 && s.core.uncounted == 1
    && s.info == Running && s.core.pending == 1 + done && s.events == done && s.eventLeads == 0
    && s.core.owing == 0 && s.core.deleting == 0 && s.core.frees == 0
    && s.core.effort <= 10
  }

  // Phase1 before the count of query q, and before its issue.
  ghost predicate Ahead(s: Ulr, q: Failing, counted: bool, done: nat) {
    && Quiet(s, done) && s.phase == Phase2 && s.pc == Issuing(q, counted)
    && s.core.dbIssued == done + Count(counted) && s.core.leads == Count(counted)
    && s.core.effort == 1 + 2 * done + Count(counted)
  }

  lemma ReachCore(f: Failing, s: Ulr, d: Core)
    requires Reached(f, s) && d.effort < TWO_32 - 1
    requires Routine(s.core, d)
    ensures Reached(f, s.(core := d))
  {
    hide Reached, Routine;
    assert RoutineStep(s, s.(core := d));
    ReachNext(f, s, s.(core := d));
  }

  lemma StartIsRoutine(c: Core, d: Core)
    requires StartIncrements(c, d) || StartPushes(c, d) || Pop(c, d) || WorkerLocks(c, d) || WorkerUncounts(c, d)
    ensures Routine(c, d)
  {
    hide StartIncrements, StartPushes, Pop, WorkerLocks, WorkerUncounts;
  }

  function Begun(start: Start, queued: nat, popped: nat, lock: Lock, msgIssued: int): Core {
    Core(start, queued, popped, 0, 0, 0, 0, 0, lock, msgIssued, 0, 0, 0, 0)
  }

  lemma BeginIsRoutine()
    ensures Routine(Begun(Waiting, 0, 0, Free, 0), Begun(Incremented, 0, 0, Free, 1))
    ensures Routine(Begun(Incremented, 0, 0, Free, 1), Begun(Started, 1, 0, Free, 1))
    ensures Routine(Begun(Started, 1, 0, Free, 1), Begun(Started, 0, 1, Free, 1))
  {
    hide Routine;
    StartIsRoutine(Begun(Waiting, 0, 0, Free, 0), Begun(Incremented, 0, 0, Free, 1));
    StartIsRoutine(Begun(Incremented, 0, 0, Free, 1), Begun(Started, 1, 0, Free, 1));
    StartIsRoutine(Begun(Started, 1, 0, Free, 1), Begun(Started, 0, 1, Free, 1));
  }

  lemma EnteringIsRoutine()
    ensures Routine(Begun(Started, 0, 1, Free, 1), Begun(Started, 0, 0, ByWorker(Entering), 1))
    ensures Routine(Begun(Started, 0, 0, ByWorker(Entering), 1), Begun(Started, 0, 0, ByWorker(InLoop), 0))
  {
    hide Routine;
    StartIsRoutine(Begun(Started, 0, 1, Free, 1), Begun(Started, 0, 0, ByWorker(Entering), 1));
    StartIsRoutine(Begun(Started, 0, 0, ByWorker(Entering), 1), Begun(Started, 0, 0, ByWorker(InLoop), 0));
  }

  lemma InitialIsReached(f: Failing, s: Ulr)
    requires Initial(s)
    ensures Reached(f, s)
  {
    hide Next;
    assert IsRun(f, [s]) && [s][0] == s;
  }

  lemma ReachQueue(f: Failing, s: Ulr)
    requires Initial(s) && s.core == Begun(Waiting, 0, 0, Free, 0)
    ensures Reached(f, s.(core := Begun(Started, 0, 1, Free, 1)))
  {
    InitialIsReached(f, s);
    hide Reached, Routine, Initial;
    BeginIsRoutine();
    ReachCore(f, s, Begun(Incremented, 0, 0, Free, 1));
    ReachCore(f, s.(core := Begun(Incremented, 0, 0, Free, 1)), Begun(Started, 1, 0, Free, 1));
    ReachCore(f, s.(core := Begun(Started, 1, 0, Free, 1)), Begun(Started, 0, 1, Free, 1));
  }

  lemma ReachPhase1(f: Failing, s: Ulr)
    requires s.core == Begun(Started, 0, 1, Free, 1) && s.phase == Phase1 && s.pc == Check && Reached(f, s)
    ensures Reached(f, s.(core := Begun(Started, 0, 0, ByWorker(InLoop), 0), pc := In(Phase1)))
  {
    hide Reached, Routine;
    EnteringIsRoutine();
    ReachCore(f, s, Begun(Started, 0, 0, ByWorker(Entering), 1));
    ReachCore(f, s.(core := Begun(Started, 0, 0, ByWorker(Entering), 1)), Begun(Started, 0, 0, ByWorker(InLoop), 0));
    var t := s.(core := Begun(Started, 0, 0, ByWorker(InLoop), 0));
    ReachEntry(f, t, t.(pc := In(Phase1)));
  }

  lemma ReachEntry(f: Failing, s: Ulr, t: Ulr)
    requires Reached(f, s) && EntersPhase(s, t) && s.core.effort < TWO_32 - 1
    ensures Reached(f, t)
  {
    hide Reached, PhaseReady;
    assert LoopStep(s, t);
    assert Next(f, s, t) by {
      hide LoopStep;
    }
    hide Next;
    ReachNext(f, s, t);
  }

  lemma ReachPhase1Step(f: Failing, s: Ulr, t: Ulr)
    requires Reached(f, s) && Phase1Step(f, s, t) && t.core.effort < TWO_32 - 1
    ensures Reached(f, t)
  {
    hide Reached, Phase1Step;
    ReachNext(f, s, t);
  }

  lemma ReachAhead(f: Failing, s: Ulr) returns (t: Ulr)
    requires f != Info && Reached(f, s) && Working(s, In(Phase1)) && s.events == 0 && s.eventLeads == 0
    requires s.core == Begun(Started, 0, 0, ByWorker(InLoop), 0)
    ensures Reached(f, t) && Ahead(t, ExtIds, false, 0)
  {
    t := s.(pc := Issuing(ExtIds, false), phase := Phase2, info := Running, core := IssueFirst(s.core));
    assert InfoIssues(f, s, t);
    hide Reached, Phase1Rejects, InfoIssues, InfoFails, QueryCounts, QueryIssues, QueryFails, Closes, AnswersUnknown;
    ReachPhase1Step(f, s, t);
  }

  lemma ReachCounted(f: Failing, s: Ulr, q: Failing, done: nat) returns (t: Ulr)
    requires Reached(f, s) && Ahead(s, q, false, done) && done < 3
    ensures Reached(f, t) && Ahead(t, q, true, done)
  {
    t := s.(pc := Issuing(q, true), core := CountFirst(s.core));
    assert QueryCounts(s, t);
    hide Reached, Phase1Rejects, InfoIssues, InfoFails, QueryCounts, QueryIssues, QueryFails, Closes, AnswersUnknown;
    ReachPhase1Step(f, s, t);
  }

  lemma ReachIssued(f: Failing, s: Ulr, q: Failing, done: nat) returns (t: Ulr)
    requires Reached(f, s) && Ahead(s, q, true, done) && done < 3 && q in {ExtIds, Msisdn} && q != f
    ensures Reached(f, t) && Ahead(t, AfterQuery(q).query, false, done + 1)
  {
    t := s.(pc := AfterQuery(q), core := IssueCounted(s.core), events := s.events + 1);
    assert QueryIssues(f, s, t);
    hide Reached, Phase1Rejects, InfoIssues, InfoFails, QueryCounts, QueryIssues, QueryFails, Closes, AnswersUnknown;
    ReachPhase1Step(f, s, t);
  }

  lemma ReachBegin(f: Failing) returns (t: Ulr)
    requires f != Info
    ensures Reached(f, t) && Ahead(t, ExtIds, true, 0)
  {
    t := Ulr(Begun(Waiting, 0, 0, Free, 0), Phase1, Check, false, Unissued, Unissued, Unissued, 0, 0, 0, 0xFFFF_FFFF,
             0, 0, 0);
    ReachQueue(f, t);
    hide Reached, Quiet;
    t := t.(core := Begun(Started, 0, 1, Free, 1));
    ReachPhase1(f, t);
    t := t.(core := Begun(Started, 0, 0, ByWorker(InLoop), 0), pc := In(Phase1));
    t := ReachAhead(f, t);
    t := ReachCounted(f, t, ExtIds, 0);
  }
}
