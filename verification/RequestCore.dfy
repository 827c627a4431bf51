// The counters, the lock and the worker messages that ULRProcessor and AIRProcessor
// share line for line: on_ulr_callback / on_air_callback, triggerNextPhase,
// processNextPhase and the PHASEFINAL test of phaseReady in src/s6as6d_impl.cpp.
//
// One request is a state; every atomic action of every thread that refers to it is a
// step. The threads are anonymous, so the state counts them by where they are.
module RequestCore {

  const TWO_32: int := 0x1_0000_0000

  // The thread that takes the request out of the work queue and triggers it once.
  datatype Start = Waiting | Incremented | Started

  // A callback inside its lock: it triggers (one increment, one push), takes its query
  // off the count, and leaves.
  datatype CallbackAt = Triggering | Pushing | Owing | Leaving

  // A worker inside the lock: before it uncounts its message, in the phase loop,
  // between the two reads of the PHASEFINAL test, and after that test succeeded.
  datatype WorkerAt = Entering | InLoop | SawNoQuery | Deleting

  // The mutex is recursive: a callback that the driver runs on the worker's own thread
  // while a query is being issued passes it too (Nested).
  datatype Lock =
    | Free
    | ByWorker(at: WorkerAt)
    | ByCallback(cb: CallbackAt)
    | Nested(cb: CallbackAt)

  datatype Core = Core(
    start: Start,
    queued: nat,      // worker messages in the queue
    popped: nat,      // workers that hold a message and have not tried the lock
    missed: nat,      // messages whose worker did not get the lock: never uncounted
    pending: nat,     // callbacks issued that have not tried the lock
    owing: nat,       // callbacks that did not get the lock and still owe their decrement
    leads: nat,       // queries counted by a thread that has not issued them yet
    uncounted: nat,   // queries issued but not counted
    lock: Lock,
    msgIssued: int,   // m_msgissued
    dbIssued: int,    // m_dbissued, before reduction modulo 2^32
    deleting: nat,    // workers on their way to delete the request
    frees: nat,
    effort: nat)      // queries issued and counted so far, for bounds

  predicate InitialCore(c: Core) {
    && c.start == Waiting && c.lock == Free
    && c.queued == 0 && c.popped == 0 && c.missed == 0
    && c.pending == 0 && c.owing == 0 && c.leads == 0 && c.uncounted == 0
    && c.msgIssued == 0 && c.dbIssued == 0
    && c.deleting == 0 && c.frees == 0 && c.effort == 0
  }

  predicate CallbackIs(c: Core, cb: CallbackAt) {
    c.lock == ByCallback(cb) || c.lock == Nested(cb)
  }

  function Count(b: bool): nat {
    if b then 1 else 0
  }

  // Callbacks that have not made their decrement.
  function Outstanding(c: Core): nat {
    c.pending + c.owing + Count(CallbackIs(c, Triggering) || CallbackIs(c, Pushing) || CallbackIs(c, Owing))
  }

  // Messages whose worker has not uncounted them, and those a thread is about to push.
  function Messages(c: Core): nat {
    Count(c.start == Incremented) + c.queued + c.popped + c.missed
    + Count(c.lock == ByWorker(Entering)) + Count(CallbackIs(c, Pushing))
  }

  // ---------------------------------------------------------------------------
  // Steps.

  // triggerNextPhase by the starting thread, which holds no lock.
  predicate StartIncrements(c: Core, d: Core) {
    c.start == Waiting && d == c.(start := Incremented, msgIssued := c.msgIssued + 1)
  }

  predicate StartPushes(c: Core, d: Core) {
    c.start == Incremented && d == c.(start := Started, queued := c.queued + 1)
  }

  predicate Pop(c: Core, d: Core) {
    c.queued > 0 && d == c.(queued := c.queued - 1, popped := c.popped + 1)
  }

  predicate WorkerLocks(c: Core, d: Core) {
    c.popped > 0 && c.lock == Free && d == c.(popped := c.popped - 1, lock := ByWorker(Entering))
  }

  // The worker returns at once, and its message stays counted.
  predicate WorkerMisses(c: Core, d: Core) {
    c.popped > 0 && d == c.(popped := c.popped - 1, missed := c.missed + 1)
  }

  predicate WorkerUncounts(c: Core, d: Core) {
    c.lock == ByWorker(Entering) && d == c.(lock := ByWorker(InLoop), msgIssued := c.msgIssued - 1)
  }

  // The loop ends because the next phase is not ready.
  predicate WorkerLeaves(c: Core, d: Core) {
    (c.lock == ByWorker(InLoop) || c.lock == ByWorker(SawNoQuery)) && d == c.(lock := Free)
  }

  // The two reads of phaseReady(PHASEFINAL), on unsigned 32-bit counters.
  predicate SeesNoQuery(c: Core, d: Core) {
    c.lock == ByWorker(InLoop) && c.dbIssued % TWO_32 == 0 && d == c.(lock := ByWorker(SawNoQuery))
  }

  predicate TakesFinal(c: Core, d: Core) {
    c.lock == ByWorker(SawNoQuery) && c.msgIssued % TWO_32 == 0 && d == c.(lock := ByWorker(Deleting))
  }

  predicate UnlocksToDelete(c: Core, d: Core) {
    c.lock == ByWorker(Deleting) && d == c.(lock := Free, deleting := c.deleting + 1)
  }

  predicate Deletes(c: Core, d: Core) {
    c.deleting > 0 && d == c.(deleting := c.deleting - 1, frees := c.frees + 1)
  }

  // A callback done with its results tries the lock.
  predicate CallbackLocks(c: Core, d: Core) {
    c.pending > 0 && c.lock == Free && d == c.(pending := c.pending - 1, lock := ByCallback(Triggering))
  }

  predicate CallbackNests(c: Core, d: Core) {
    c.pending > 0 && c.lock == ByWorker(InLoop) && d == c.(pending := c.pending - 1, lock := Nested(Triggering))
  }

  predicate CallbackMisses(c: Core, d: Core) {
    c.pending > 0 && d == c.(pending := c.pending - 1, owing := c.owing + 1)
  }

  predicate CallbackTries(c: Core, d: Core) {
    CallbackLocks(c, d) || CallbackNests(c, d) || CallbackMisses(c, d)
  }

  predicate CallbackIncrements(c: Core, d: Core) {
    CallbackIs(c, Triggering) && d == c.(lock := c.lock.(cb := Pushing), msgIssued := c.msgIssued + 1)
  }

  predicate CallbackPushes(c: Core, d: Core) {
    CallbackIs(c, Pushing) && d == c.(lock := c.lock.(cb := Owing), queued := c.queued + 1)
  }

  predicate CallbackUncounts(c: Core, d: Core) {
    CallbackIs(c, Owing) && d == c.(lock := c.lock.(cb := Leaving), dbIssued := c.dbIssued - 1)
  }

  predicate CallbackLeaves(c: Core, d: Core) {
    CallbackIs(c, Leaving) && d == c.(lock := if c.lock.ByCallback? then Free else ByWorker(InLoop))
  }

  predicate OwingUncounts(c: Core, d: Core) {
    c.owing > 0 && d == c.(owing := c.owing - 1, dbIssued := c.dbIssued - 1)
  }

  // DB_OP_COMPLETE_RESULT: a failure masks with the logical negation of the item.
  function Published(result: bv32, item: bv32, ok: bool): bv32 {
    if ok then result | item else result & (if item == 0 then 1 else 0)
  }

  // The negated item is 0, for every item there is: one failure clears every result, and a
  // success adds its own bit and no other.
  lemma FailureClears(result: bv32, item: bv32)
    requires item != 0
    ensures Published(result, item, false) == 0
  {
  }

  lemma SuccessAddsItsBit(result: bv32, item: bv32)
    ensures Published(result, item, true) & item == item
  {
  }

  lemma SuccessAddsNoOther(result: bv32, item: bv32, other: bv32)
    requires item & other == 0
    ensures Published(result, item, true) & other == result & other
  {
  }

  // The steps in which the phases have no part.
  predicate Routine(c: Core, d: Core) {
    || StartIncrements(c, d) || StartPushes(c, d)
    || Pop(c, d) || WorkerLocks(c, d) || WorkerMisses(c, d) || WorkerUncounts(c, d)
    || UnlocksToDelete(c, d) || Deletes(c, d)
    || CallbackIncrements(c, d) || CallbackPushes(c, d) || CallbackUncounts(c, d) || CallbackLeaves(c, d)
    || OwingUncounts(c, d)
  }

  // A query issued before it is counted, and its count.
  function IssueFirst(c: Core): Core {
    c.(pending := c.pending + 1, uncounted := c.uncounted + 1, effort := c.effort + 1)
  }

  function CountIssued(c: Core): Core
    requires c.uncounted > 0
  {
    c.(uncounted := c.uncounted - 1, dbIssued := c.dbIssued + 1)
  }

  // A query counted before it is issued; then it is issued, or the count is undone.
  function CountFirst(c: Core): Core {
    c.(leads := c.leads + 1, dbIssued := c.dbIssued + 1, effort := c.effort + 1)
  }

  function IssueCounted(c: Core): Core
    requires c.leads > 0
  {
    c.(leads := c.leads - 1, pending := c.pending + 1, effort := c.effort + 1)
  }

  function UndoCount(c: Core): Core
    requires c.leads > 0
  {
    c.(leads := c.leads - 1, dbIssued := c.dbIssued - 1)
  }

  // ---------------------------------------------------------------------------
  // Invariants.

  // Both counters mean what they should, up to the queries never counted.
  ghost predicate Counted(c: Core) {
    && c.dbIssued == Outstanding(c) + c.leads - c.uncounted
    && c.msgIssued == Messages(c)
    && Outstanding(c) + c.leads <= c.effort
    && c.msgIssued + c.pending + Count(CallbackIs(c, Triggering)) <= 1 + c.effort - Count(c.start == Waiting)
    && (c.start == Waiting ==> Untouched(c))
  }

  ghost predicate Untouched(c: Core) {
    && c.queued == c.popped == c.missed == c.pending == c.owing == c.leads == c.uncounted == 0
    && c.lock == Free && c.deleting == c.frees == 0
  }

  // Nothing but a deleting worker refers to the request.
  ghost predicate Unreferenced(c: Core) {
    && c.start == Started
    && c.queued == 0 && c.popped == 0 && c.pending == 0 && c.owing == 0 && c.leads == 0
    && (c.lock == Free || c.lock == ByWorker(Deleting))
  }

  function Finalisations(c: Core): nat {
    Count(c.lock == ByWorker(Deleting)) + c.deleting + c.frees
  }

  // Taken at most once, and only when nothing else refers to the request; so no later
  // step can touch it, and it is freed at most once.
  ghost predicate Safe(c: Core) {
    Finalisations(c) > 0 ==> Finalisations(c) == 1 && Unreferenced(c)
  }

  ghost predicate NoQueryLeft(c: Core) {
    c.lock == ByWorker(SawNoQuery) ==> Outstanding(c) == 0 && c.leads == 0
  }

  ghost predicate Good(c: Core) {
    Counted(c) && NoQueryLeft(c) && Safe(c)
  }

  lemma InitialQueries(c: Core)
    requires InitialCore(c)
    ensures c.dbIssued == Outstanding(c) + c.leads - c.uncounted
  {
  }

  lemma InitialMessages(c: Core)
    requires InitialCore(c)
    ensures c.msgIssued == Messages(c)
  {
  }

  lemma InitialBounds(c: Core)
    requires InitialCore(c)
    ensures Outstanding(c) + c.leads <= c.effort && Untouched(c)
    ensures c.msgIssued + c.pending + Count(CallbackIs(c, Triggering)) <= 1 + c.effort - Count(c.start == Waiting)
    ensures NoQueryLeft(c) && Safe(c)
  {
  }

  lemma InitialIsGood(c: Core)
    requires InitialCore(c)
    ensures Good(c)
  {
    hide Outstanding, Messages, CallbackIs, Untouched, NoQueryLeft, Safe, InitialCore;
    InitialQueries(c);
    InitialMessages(c);
    InitialBounds(c);
  }

  lemma StartKeepsGood(c: Core, d: Core)
    requires Good(c) && (StartIncrements(c, d) || StartPushes(c, d))
    ensures Good(d)
  {
  }

  lemma WorkerKeepsGood(c: Core, d: Core)
    requires Good(c) && (Pop(c, d) || WorkerLocks(c, d) || WorkerMisses(c, d) || WorkerUncounts(c, d))
    ensures Good(d)
  {
  }

  lemma DeleteKeepsGood(c: Core, d: Core)
    requires Good(c) && (UnlocksToDelete(c, d) || Deletes(c, d))
    ensures Good(d)
  {
  }

  lemma CallbackKeepsGood(c: Core, d: Core)
    requires Good(c) && (CallbackIncrements(c, d) || CallbackPushes(c, d))
    ensures Good(d)
  {
  }

  lemma UncountKeepsGood(c: Core, d: Core)
    requires Good(c) && (CallbackUncounts(c, d) || CallbackLeaves(c, d) || OwingUncounts(c, d))
    ensures Good(d)
  {
  }

  lemma LockKeepsGood(c: Core, d: Core)
    requires Good(c) && (CallbackLocks(c, d) || CallbackNests(c, d))
    ensures Good(d)
  {
  }

  lemma MissKeepsGood(c: Core, d: Core)
    requires Good(c) && CallbackMisses(c, d)
    ensures Good(d)
  {
  }

  lemma RoutineKeepsGood(c: Core, d: Core)
    requires Good(c) && Routine(c, d)
    ensures Good(d)
  {
    hide Good, StartIncrements, StartPushes, Pop, WorkerLocks, WorkerMisses, WorkerUncounts, UnlocksToDelete,
      Deletes, CallbackIncrements, CallbackPushes, CallbackUncounts, CallbackLeaves, OwingUncounts;
    if StartIncrements(c, d) || StartPushes(c, d) {
      StartKeepsGood(c, d);
    } else if Pop(c, d) || WorkerLocks(c, d) || WorkerMisses(c, d) || WorkerUncounts(c, d) {
      WorkerKeepsGood(c, d);
    } else if UnlocksToDelete(c, d) || Deletes(c, d) {
      DeleteKeepsGood(c, d);
    } else if CallbackIncrements(c, d) || CallbackPushes(c, d) {
      CallbackKeepsGood(c, d);
    } else {
      UncountKeepsGood(c, d);
    }
  }

  lemma TryKeepsGood(c: Core, d: Core)
    requires Good(c) && CallbackTries(c, d)
    ensures Good(d)
  {
    hide Good, CallbackLocks, CallbackNests, CallbackMisses;
    if CallbackMisses(c, d) {
      MissKeepsGood(c, d);
    } else {
      LockKeepsGood(c, d);
    }
  }

  lemma LeaveKeepsGood(c: Core, d: Core)
    requires Good(c) && WorkerLeaves(c, d)
    ensures Good(d)
  {
  }

  // The first read proves no query is left, if none is uncounted.
  lemma SeesNoQueryKeepsGood(c: Core, d: Core)
    requires Good(c) && SeesNoQuery(c, d) && c.uncounted == 0 && c.effort < TWO_32
    ensures Good(d)
  {
  }

  // The second read completes the proof: no worker or message can appear in between.
  lemma TakesFinalKeepsGood(c: Core, d: Core)
    requires Good(c) && TakesFinal(c, d) && c.effort < TWO_32 - 1
    ensures Good(d)
  {
  }

  lemma IssueFirstKeepsGood(c: Core)
    requires Good(c) && c.lock == ByWorker(InLoop)
    ensures Good(IssueFirst(c))
  {
  }

  lemma CountIssuedKeepsGood(c: Core)
    requires Good(c) && c.lock == ByWorker(InLoop) && c.uncounted > 0
    ensures Good(CountIssued(c))
  {
  }

  // A worker in its phases, or a callback that is still to try the lock, may count
  // a query before it issues it.
  lemma CountFirstKeepsGood(c: Core)
    requires Good(c) && (c.lock == ByWorker(InLoop) || c.pending > 0)
    ensures Good(CountFirst(c))
  {
  }

  lemma IssueCountedKeepsGood(c: Core)
    requires Good(c) && c.leads > 0
    ensures Good(IssueCounted(c)) && Good(UndoCount(c))
  {
  }

  // Once the request is taken, its deletion is the only routine step left.
  lemma OnlyDeletionIsRoutine(c: Core, d: Core)
    requires Unreferenced(c) && Routine(c, d)
    ensures UnlocksToDelete(c, d) || Deletes(c, d)
  {
  }
}
