// The queue that limits how many requests run at once: QueueManager in include/worker.h
// and HSSWorkerQueue in src/fdhss.cpp, with the threads that call it.
module WorkQueue {
  import opened Wrappers

  // The fields of a QueueManager.
  datatype Fields<T> = Fields(queue: seq<T>, concurrent: int, active: int, pending: int)

  function WithEntry<T>(m: Fields<T>, data: T): Fields<T> {
    m.(queue := m.queue + [data], pending := m.pending + 1)
  }

  predicate CanStart<T>(m: Fields<T>) {
    m.active < m.concurrent && m.pending > 0 && |m.queue| > 0
  }

  function WithStart<T>(m: Fields<T>): Fields<T> {
    if CanStart(m) then m.(queue := m.queue[1..], pending := m.pending - 1, active := m.active + 1) else m
  }

  function WithFinish<T>(m: Fields<T>): Fields<T> {
    m.(active := m.active - 1)
  }

  class QueueManager<T> {
    var queue: seq<T>
    var concurrent: int
    var active: int
    var pending: int

    constructor ()
      ensures Value() == Fields([], 10, 0, 0)
    {
      queue, concurrent, active, pending := [], 10, 0, 0;
    }

    ghost predicate Valid()
      reads this
    {
      pending == |queue|
    }

    ghost function Value(): Fields<T>
      reads this
    {
      Fields(queue, concurrent, active, pending)
    }

    method AddEntry(data: T)
      requires Valid()
      modifies this`queue, this`pending
      ensures Valid() && Value() == WithEntry(old(Value()), data)
    {
      queue := queue + [data];
      pending := pending + 1;
    }

    method StartMessage() returns (data: Option<T>)
      requires Valid()
      modifies this`queue, this`pending, this`active
      ensures Valid() && Value() == WithStart(old(Value()))
      ensures data == if CanStart(old(Value())) then Some(old(queue)[0]) else None
    {
      data := None;
      if active < concurrent && pending > 0 {
        data := Some(queue[0]);
        queue := queue[1..];
        pending := pending - 1;
        active := active + 1;
      }
    }

    method FinishMessage()
      requires Valid()
      modifies this`active
      ensures Valid() && Value() == WithFinish(old(Value()))
    {
      active := active - 1;
    }
  }

  // ---------------------------------------------------------------------------
  // Every thread that adds a request, or that has deleted one, calls startProcessor
  // afterwards; in between any other thread may act. owed counts those threads.
  datatype System<T> = System(
    manager: Fields<T>,
    owed: nat,
    added: seq<T>,          // every request ever added, in order
    started: seq<T>,        // every request ever triggered, in order
    running: multiset<T>)   // triggered and not yet deleted

  predicate Initial<T(==)>(s: System<T>, concurrent: int) {
    s == System(Fields([], concurrent, 0, 0), 0, [], [], multiset{})
  }

  // UPLRcmd::process and AUIRcmd::process, up to startProcessor.
  predicate Adds<T(==)>(s: System<T>, t: System<T>, data: T) {
    t == s.(manager := WithEntry(s.manager, data), owed := s.owed + 1, added := s.added + [data])
  }

  predicate Starts<T(==)>(s: System<T>, t: System<T>) {
    s.owed > 0 &&
    if CanStart(s.manager)
    then t == s.(manager := WithStart(s.manager), owed := s.owed - 1,
                 started := s.started + [s.manager.queue[0]], running := s.running + multiset{s.manager.queue[0]})
    else t == s.(owed := s.owed - 1)
  }

  // The end of processNextPhase, up to startProcessor: a request is deleted once.
  predicate Finishes<T(==)>(s: System<T>, t: System<T>, data: T) {
    data in s.running &&
    t == s.(manager := WithFinish(s.manager), owed := s.owed + 1, running := s.running - multiset{data})
  }

  ghost predicate Next<T(!new)>(s: System<T>, t: System<T>) {
    || (exists data :: Adds(s, t, data))
    || Starts(s, t)
    || (exists data :: Finishes(s, t, data))
  }

  function Min(a: int, b: int): int {
    if a < b then a else b
  }

  ghost predicate Inv<T>(s: System<T>, concurrent: int) {
    && s.manager.concurrent == concurrent
    && s.manager.pending == |s.manager.queue|
    && s.manager.active == |s.running|
    && (s.running == multiset{} || s.manager.active <= concurrent)
    && s.added == s.started + s.manager.queue
    && Min(s.manager.pending, concurrent - s.manager.active) <= s.owed
  }

  lemma AddKeepsInv<T>(s: System<T>, t: System<T>, concurrent: int, data: T)
    requires Inv(s, concurrent) && Adds(s, t, data)
    ensures Inv(t, concurrent)
  {
    assert t.added == s.started + (s.manager.queue + [data]);
  }

  lemma StartKeepsInv<T>(s: System<T>, t: System<T>, concurrent: int)
    requires Inv(s, concurrent) && Starts(s, t)
    ensures Inv(t, concurrent)
  {
    if CanStart(s.manager) {
      var first := s.manager.queue[0];
      assert s.manager.queue == [first] + s.manager.queue[1..];
      assert t.added == (s.started + [first]) + s.manager.queue[1..];
      assert |t.running| == |s.running| + 1;
    }
  }

  lemma FinishKeepsInv<T>(s: System<T>, t: System<T>, concurrent: int, data: T)
    requires Inv(s, concurrent) && Finishes(s, t, data)
    ensures Inv(t, concurrent)
  {
    assert |t.running| == |s.running| - 1;
  }

  lemma NextKeepsInv<T(!new)>(s: System<T>, t: System<T>, concurrent: int)
    requires Inv(s, concurrent) && Next(s, t)
    ensures Inv(t, concurrent)
  {
    hide Inv, Adds, Starts, Finishes;
    if Starts(s, t) {
      StartKeepsInv(s, t, concurrent);
    } else if data :| Adds(s, t, data) {
      AddKeepsInv(s, t, concurrent, data);
    } else {
      var data :| Finishes(s, t, data);
      FinishKeepsInv(s, t, concurrent, data);
    }
  }

  ghost predicate IsRun<T(!new)>(run: seq<System<T>>, concurrent: int) {
    |run| > 0 && Initial(run[0], concurrent) && forall i :: 0 < i < |run| ==> Next(run[i - 1], run[i])
  }

  lemma {:induction false} RunKeepsInv<T(!new)>(run: seq<System<T>>, concurrent: int, i: nat)
    requires IsRun(run, concurrent) && i < |run|
    ensures Inv(run[i], concurrent)
  {
    if i > 0 {
      RunKeepsInv(run, concurrent, i - 1);
      NextKeepsInv(run[i - 1], run[i], concurrent);
    }
  }

  // At most the configured number run at once, and requests start in the order in which
  // they were added.
  lemma LimitedAndInOrder<T(!new)>(run: seq<System<T>>, concurrent: int, i: nat)
    requires IsRun(run, concurrent) && i < |run|
    ensures |run[i].running| <= if concurrent > 0 then concurrent else 0
    ensures run[i].manager.active == |run[i].running| && run[i].manager.pending == |run[i].manager.queue|
    ensures run[i].started <= run[i].added && run[i].added[|run[i].started|..] == run[i].manager.queue
  {
    RunKeepsInv(run, concurrent, i);
  }

  // Work conservation: once every thread has made its startProcessor call, no request
  // waits while a slot is free; so no call is ever lost.
  lemma NothingWaitsBesideAFreeSlot<T(!new)>(run: seq<System<T>>, concurrent: int, i: nat)
    requires IsRun(run, concurrent) && i < |run|
    ensures Min(run[i].manager.pending, concurrent - run[i].manager.active) <= run[i].owed
    ensures run[i].owed == 0 ==> run[i].manager.queue == [] || run[i].manager.active >= concurrent
  {
    RunKeepsInv(run, concurrent, i);
  }

  // Requests that are triggered and never deleted keep their slots: while as many of
  // them as the limit stay, no other request starts.
  lemma {:induction false} HeldSlotsStopTheQueue<T(!new)>(run: seq<System<T>>, concurrent: int, held: multiset<T>,
                                                          i: nat, j: nat)
    requires IsRun(run, concurrent) && i <= j < |run|
    requires |held| >= concurrent && forall k :: i <= k <= j ==> held <= run[k].running
    ensures run[j].started == run[i].started
  {
    if i < j {
      HeldSlotsStopTheQueue(run, concurrent, held, i, j - 1);
      RunKeepsInv(run, concurrent, j - 1);
      assert run[j - 1].running == held + (run[j - 1].running - held);
      assert !CanStart(run[j - 1].manager);
      NoStart(run[j - 1], run[j]);
    }
  }

  lemma NoStart<T(!new)>(s: System<T>, t: System<T>)
    requires Next(s, t) && !CanStart(s.manager)
    ensures t.started == s.started
  {
  }
}
