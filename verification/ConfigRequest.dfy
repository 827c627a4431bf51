// The database part of a configuration request: processHssDb in src/s6t_impl.cpp. Each
// monitoring event configuration may delete events and may configure one; the outcome of
// each goes into a status map that later answers and reports read.
module ConfigRequest {
  import opened Wrappers
  import opened MonitoringEvents
  import opened EventStore

  datatype Addition = Addition(
    scefRefId: nat, maxReports: Option<nat>, durationSet: bool, configuration: string, monitoringType: int)

  datatype MonitoringConfig = MonitoringConfig(scefId: string, deletions: seq<nat>, addition: Option<Addition>)

  // The user identifier that all configurations of a request share.
  datatype User = User(msisdn: int, extId: string, json: string)

  // What the database rejects during one action: the getEvent before a deletion, or a
  // statement of deleteEvent or addEvent.
  datatype Fault = Fault(read: bool, write: Fails)

  const NoFault := Fault(false, Never)

  datatype Action =
    | Remove(key: EventKey)
    | Configure(key: EventKey, event: Event, maxReports: Option<nat>, durationSet: bool)

  function Removals(scefId: string, refIds: seq<nat>): seq<Action> {
    if refIds == [] then []
    else Removals(scefId, refIds[..|refIds| - 1]) + [Remove(EventKey(scefId, refIds[|refIds| - 1]))]
  }

  function EventOf(user: User, a: Addition): Event {
    Event(user.msisdn, user.extId, a.configuration, user.json, a.monitoringType)
  }

  function ActionsOf(c: MonitoringConfig, user: User): seq<Action> {
    Removals(c.scefId, c.deletions) +
    match c.addition
    case None => []
    case Some(a) => [Configure(EventKey(c.scefId, a.scefRefId), EventOf(user, a), a.maxReports, a.durationSet)]
  }

  function ActionsOfAll(cs: seq<MonitoringConfig>, user: User): seq<Action> {
    if cs == [] then [] else ActionsOfAll(cs[..|cs| - 1], user) + ActionsOf(cs[|cs| - 1], user)
  }

  // ---------------------------------------------------------------------------
  // One action.

  function Unresolved(a: Action): ConfStatus
    requires a.Configure?
  {
    ConfStatus(a.maxReports, a.durationSet, 0, false, None)
  }

  predicate IsLongTermAction(a: Action) {
    a.Configure? && IsLongTerm(Unresolved(a))
  }

  predicate Removes(t: Tables, key: EventKey, f: Fault) {
    !f.read && key in t.events && !DeleteThrows(t, key, f.write)
  }

  function StatusOf(t: Tables, a: Action, f: Fault): ConfStatus {
    match a
    case Remove(key) =>
      var ok := Removes(t, key, f);
      ConfStatus(None, false, if ok then DIAMETER_SUCCESS else DIAMETER_ERROR_CONFIGURATION_EVENT_NON_EXISTANT,
                 true, Some(ok))
    case Configure(key, event, _, _) =>
      if !IsLongTermAction(a) then Unresolved(a)
      else if AddThrows(event, f.write) then
        Unresolved(a).(result := DIAMETER_ERROR_CONFIGURATION_EVENT_STORAGE_NOT_SUCCESSFUL)
      else Unresolved(a).(result := DIAMETER_SUCCESS)
  }

  function TablesAfter(t: Tables, a: Action, f: Fault): Tables {
    match a
    case Remove(key) => if f.read then t else Deleted(t, key, f.write)
    case Configure(key, event, _, _) => if IsLongTermAction(a) then Added(t, key, event, f.write) else t
  }

  // std::map::insert: an entry that is there stays.
  function Inserted(statuses: StatusMap, key: EventKey, status: ConfStatus): StatusMap {
    if key in statuses then statuses else statuses[key := status]
  }

  datatype Outcome = Outcome(tables: Tables, statuses: StatusMap)

  function Done(o: Outcome, a: Action, f: Fault): Outcome {
    Outcome(TablesAfter(o.tables, a, f), Inserted(o.statuses, a.key, StatusOf(o.tables, a, f)))
  }

  function After(o: Outcome, actions: seq<Action>, faults: nat -> Fault): Outcome {
    if actions == [] then o
    else Done(After(o, actions[..|actions| - 1], faults), actions[|actions| - 1], faults(|actions| - 1))
  }

  lemma AfterOne(o: Outcome, actions: seq<Action>, a: Action, faults: nat -> Fault)
    ensures After(o, actions + [a], faults) == Done(After(o, actions, faults), a, faults(|actions|))
  {
    assert (actions + [a])[..|actions|] == actions;
  }

  // ---------------------------------------------------------------------------
  // The loops.

  method RemoveOne(db: EventTables, evtMap: StatusMap, key: EventKey, f: Fault) returns (statuses: StatusMap)
    modifies db
    ensures Outcome(db.Value(), statuses) == Done(Outcome(old(db.Value()), evtMap), Remove(key), f)
  {
    var isLongEvt, deleteEvtFail := true, false;
    if f.read {
      isLongEvt, deleteEvtFail := false, true;
    } else {
      var event := db.GetEvent(key);
      if event.Some? {
        var thrown := db.DeleteEvent(key, f.write);
        if thrown {
          isLongEvt, deleteEvtFail := false, true;
        }
      } else {
        isLongEvt, deleteEvtFail := false, true;
      }
    }
    var result :=
      if deleteEvtFail then DIAMETER_ERROR_CONFIGURATION_EVENT_NON_EXISTANT else DIAMETER_SUCCESS;
    statuses := Inserted(evtMap, key, ConfStatus(None, false, result, true, Some(isLongEvt)));
  }

  method ConfigureOne(db: EventTables, evtMap: StatusMap, key: EventKey, event: Event, maxReports: Option<nat>,
                      durationSet: bool, f: Fault)
    returns (statuses: StatusMap)
    modifies db
    ensures Outcome(db.Value(), statuses) ==
            Done(Outcome(old(db.Value()), evtMap), Configure(key, event, maxReports, durationSet), f)
  {
    var conf := ConfStatus(maxReports, durationSet, 0, false, None);
    var addEvtFail := false;
    if IsLongTerm(conf) {
      addEvtFail := db.AddEvent(key, event, f.write);
    } else {
      addEvtFail := true;
    }
    if IsLongTerm(conf) {
      if addEvtFail {
        conf := conf.(result := DIAMETER_ERROR_CONFIGURATION_EVENT_STORAGE_NOT_SUCCESSFUL);
      } else {
        conf := conf.(result := DIAMETER_SUCCESS);
      }
    }
    statuses := Inserted(evtMap, key, conf);
  }

  // The inner loop, over the deletions of one configuration; n actions came before.
  method RemoveAll(db: EventTables, evtMap: StatusMap, c: MonitoringConfig, n: nat, faults: nat -> Fault,
                   ghost start: Outcome, ghost done: seq<Action>)
    returns (statuses: StatusMap)
    requires Outcome(db.Value(), evtMap) == After(start, done, faults) && n == |done|
    modifies db
    ensures Outcome(db.Value(), statuses) == After(start, done + Removals(c.scefId, c.deletions), faults)
  {
    hide Done, After;
    statuses := evtMap;
    var j := 0;
    assert done + [] == done;
    while j < |c.deletions|
      invariant 0 <= j <= |c.deletions|
      invariant Outcome(db.Value(), statuses) == After(start, done + Removals(c.scefId, c.deletions[..j]), faults)
    {
      var key := EventKey(c.scefId, c.deletions[j]);
      ghost var before := done + Removals(c.scefId, c.deletions[..j]);
      RemovalsInOrder(c.scefId, c.deletions[..j]);
      statuses := RemoveOne(db, statuses, key, faults(n + j));
      AfterOne(start, before, Remove(key), faults);
      assert c.deletions[..j + 1][..j] == c.deletions[..j];
      assert before + [Remove(key)] == done + Removals(c.scefId, c.deletions[..j + 1]);
      j := j + 1;
    }
    assert c.deletions[..j] == c.deletions;
  }

  // The body of the outer loop.
  method ProcessConfig(db: EventTables, evtMap: StatusMap, c: MonitoringConfig, user: User, n: nat,
                       faults: nat -> Fault, ghost start: Outcome, ghost done: seq<Action>)
    returns (statuses: StatusMap, count: nat)
    requires Outcome(db.Value(), evtMap) == After(start, done, faults) && n == |done|
    modifies db
    ensures Outcome(db.Value(), statuses) == After(start, done + ActionsOf(c, user), faults)
    ensures count == |done + ActionsOf(c, user)|
  {
    hide Done, After;
    RemovalsInOrder(c.scefId, c.deletions);
    statuses := RemoveAll(db, evtMap, c, n, faults, start, done);
    count := n + |c.deletions|;
    ghost var removed := done + Removals(c.scefId, c.deletions);
    if c.addition.Some? {
      var a := c.addition.value;
      var key := EventKey(c.scefId, a.scefRefId);
      statuses := ConfigureOne(db, statuses, key, EventOf(user, a), a.maxReports, a.durationSet, faults(count));
      ghost var action := Configure(key, EventOf(user, a), a.maxReports, a.durationSet);
      AfterOne(start, removed, action, faults);
      assert removed + [action] == done + ActionsOf(c, user);
      count := count + 1;
    } else {
      assert removed == done + ActionsOf(c, user);
    }
  }

  // faults(n) is what the database rejects during the n-th action.
  method ProcessHssDb(cs: seq<MonitoringConfig>, user: User, evtMap: StatusMap, db: EventTables, faults: nat -> Fault)
    returns (statuses: StatusMap)
    modifies db
    ensures Outcome(db.Value(), statuses) ==
            After(Outcome(old(db.Value()), evtMap), ActionsOfAll(cs, user), faults)
  {
    hide ActionsOf;
    statuses := evtMap;
    ghost var start := Outcome(db.Value(), evtMap);
    var n, i := 0, 0;
    while i < |cs|
      invariant 0 <= i <= |cs| && n == |ActionsOfAll(cs[..i], user)|
      invariant Outcome(db.Value(), statuses) == After(start, ActionsOfAll(cs[..i], user), faults)
    {
      statuses, n := ProcessConfig(db, statuses, cs[i], user, n, faults, start, ActionsOfAll(cs[..i], user));
      assert cs[..i + 1][..i] == cs[..i];
      i := i + 1;
    }
    assert cs[..i] == cs;
  }

  // ---------------------------------------------------------------------------
  // What a request does.

  ghost predicate DistinctKeys(actions: seq<Action>) {
    forall i, j :: 0 <= i < j < |actions| ==> actions[i].key != actions[j].key
  }

  ghost predicate FaultFree(faults: nat -> Fault) {
    forall n: nat :: faults(n) == NoFault
  }

  // Two or more reports, or a duration and no number of reports.
  predicate ReachesTables(a: Action) {
    a.Configure? && if a.maxReports.Some? then a.maxReports.value >= 2 else a.durationSet
  }

  // What one action has achieved, and what its status says.
  ghost predicate Fulfilled(before: Tables, after: Outcome, a: Action) {
    a.key in after.statuses &&
    var status := after.statuses[a.key];
    match a
    case Remove(key) =>
      && key !in after.tables.events
      && status.result == if key in before.events then 2001 else 5514
    case Configure(key, event, _, _) =>
      if ReachesTables(a)
      then key in after.tables.events && after.tables.events[key] == event && status.result == 2001
      else SameRow(before, after.tables, key) && status.result == 0
  }

  ghost predicate SameRow(t: Tables, u: Tables, key: EventKey) {
    (key in t.events <==> key in u.events) && (key in t.events ==> u.events[key] == t.events[key])
  }

  ghost predicate Mentions(actions: seq<Action>, key: EventKey) {
    exists i :: 0 <= i < |actions| && actions[i].key == key
  }

  lemma ActionIsFulfilled(t: Tables, o: Outcome, a: Action)
    requires SameRow(t, o.tables, a.key) && a.key !in o.statuses
    ensures Fulfilled(t, Done(o, a, NoFault), a)
  {
  }

  lemma OtherActionsStand(t: Tables, o: Outcome, a: Action, b: Action)
    requires Fulfilled(t, o, a) && a.key != b.key
    ensures Fulfilled(t, Done(o, b, NoFault), a)
  {
    OtherRowsStand(t, o, b, a.key);
  }

  lemma OtherRowsStand(t: Tables, o: Outcome, b: Action, key: EventKey)
    requires key != b.key
    ensures SameRow(o.tables, Done(o, b, NoFault).tables, key)
    ensures key in o.statuses <==> key in Done(o, b, NoFault).statuses
    ensures key in o.statuses ==> o.statuses[key] == Done(o, b, NoFault).statuses[key]
  {
  }

  // For distinct keys and no database error: the events are the old ones without those
  // deleted and with the long-term ones configured, nothing else changes, and every
  // status tells what happened.
  lemma {:induction false} RequestIsFulfilled(t: Tables, actions: seq<Action>, faults: nat -> Fault)
    requires DistinctKeys(actions) && FaultFree(faults)
    ensures var o := After(Outcome(t, map[]), actions, faults);
      && (forall i :: 0 <= i < |actions| ==> Fulfilled(t, o, actions[i]))
      && (forall key :: !Mentions(actions, key) ==> SameRow(t, o.tables, key) && key !in o.statuses)
  {
    if actions != [] {
      var last := |actions| - 1;
      var before, a := actions[..last], actions[last];
      RequestIsFulfilled(t, before, faults);
      var o := After(Outcome(t, map[]), before, faults);
      assert faults(last) == NoFault;
      hide Done, Fulfilled, SameRow;
      assert !Mentions(before, a.key);
      ActionIsFulfilled(t, o, a);
      forall i | 0 <= i < last ensures Fulfilled(t, Done(o, a, NoFault), actions[i]) {
        assert before[i] == actions[i];
        OtherActionsStand(t, o, actions[i], a);
      }
      forall key | !Mentions(actions, key)
        ensures SameRow(t, Done(o, a, NoFault).tables, key) && key !in Done(o, a, NoFault).statuses
      {
        NotMentioned(actions, key);
        UntouchedStands(t, o, a, key);
      }
    }
  }

  lemma NotMentioned(actions: seq<Action>, key: EventKey)
    requires actions != [] && !Mentions(actions, key)
    ensures !Mentions(actions[..|actions| - 1], key) && actions[|actions| - 1].key != key
  {
    var before := actions[..|actions| - 1];
    assert forall i :: 0 <= i < |before| ==> before[i] == actions[i];
  }

  lemma UntouchedStands(t: Tables, o: Outcome, b: Action, key: EventKey)
    requires SameRow(t, o.tables, key) && key !in o.statuses && key != b.key
    ensures SameRow(t, Done(o, b, NoFault).tables, key) && key !in Done(o, b, NoFault).statuses
  {
    OtherRowsStand(t, o, b, key);
  }

  // Which configurations reach the tables, by their decoded fields: two or more reports,
  // or a duration and no number of reports. Any other is left to the MME.
  lemma StoredConfigurations(t: Tables, key: EventKey, e: Event, durationSet: bool)
    ensures forall reports: nat :: reports >= 2 ==>
      var a := Configure(key, e, Some(reports), durationSet);
      TablesAfter(t, a, NoFault) == Added(t, key, e, Never) && StatusOf(t, a, NoFault).result == 2001
    ensures forall reports: nat :: reports < 2 ==>
      var a := Configure(key, e, Some(reports), durationSet);
      TablesAfter(t, a, NoFault) == t && StatusOf(t, a, NoFault).result == 0
    ensures TablesAfter(t, Configure(key, e, None, true), NoFault) == Added(t, key, e, Never)
    ensures TablesAfter(t, Configure(key, e, None, false), NoFault) == t
  {
  }

  // The actions of a request, in their order: for each configuration its deletions, under
  // its SCEF, and then its event, with the identifiers of the user.
  lemma {:induction false} RemovalsInOrder(scefId: string, refIds: seq<nat>)
    ensures |Removals(scefId, refIds)| == |refIds|
    ensures forall i :: 0 <= i < |refIds| ==> Removals(scefId, refIds)[i] == Remove(EventKey(scefId, refIds[i]))
  {
    if refIds != [] {
      RemovalsInOrder(scefId, refIds[..|refIds| - 1]);
    }
  }

  lemma ActionsOfOne(scefId: string, refIds: seq<nat>, a: Addition, user: User)
    ensures ActionsOf(MonitoringConfig(scefId, refIds, None), user) == Removals(scefId, refIds)
    ensures ActionsOf(MonitoringConfig(scefId, refIds, Some(a)), user) ==
            Removals(scefId, refIds) +
            [Configure(EventKey(scefId, a.scefRefId),
                       Event(user.msisdn, user.extId, a.configuration, user.json, a.monitoringType),
                       a.maxReports, a.durationSet)]
  {
  }

  lemma ActionsOfSingle(c: MonitoringConfig, user: User)
    ensures ActionsOfAll([c], user) == ActionsOf(c, user)
  {
    hide ActionsOf;
    assert [c][..0] == [];
  }

  lemma {:induction false} ActionsInOrder(cs: seq<MonitoringConfig>, ds: seq<MonitoringConfig>, user: User)
    ensures ActionsOfAll(cs + ds, user) == ActionsOfAll(cs, user) + ActionsOfAll(ds, user)
  {
    hide ActionsOf;
    if ds == [] {
      assert cs + ds == cs;
    } else {
      var before, d := ds[..|ds| - 1], ds[|ds| - 1];
      ActionsInOrder(cs, before, user);
      assert (cs + ds)[..|cs + ds| - 1] == cs + before;
      assert (cs + ds)[|cs + ds| - 1] == d;
    }
  }

  // With repeated keys and any database errors: the status of a key is the outcome of
  // its first action, on the tables as that action found them.
  lemma {:induction false} FirstStatusWins(o: Outcome, actions: seq<Action>, faults: nat -> Fault, i: nat)
    requires i < |actions| && actions[i].key !in o.statuses && !Mentions(actions[..i], actions[i].key)
    ensures var end := After(o, actions, faults);
      actions[i].key in end.statuses &&
      end.statuses[actions[i].key] == StatusOf(After(o, actions[..i], faults).tables, actions[i], faults(i))
  {
    var last := |actions| - 1;
    if i == last {
      NoStatusBefore(o, actions[..i], faults, actions[i].key);
    } else {
      assert actions[..last][..i] == actions[..i];
      FirstStatusWins(o, actions[..last], faults, i);
    }
  }

  lemma {:induction false} NoStatusBefore(o: Outcome, actions: seq<Action>, faults: nat -> Fault, key: EventKey)
    requires key !in o.statuses && !Mentions(actions, key)
    ensures key !in After(o, actions, faults).statuses
  {
    if actions != [] {
      NotMentioned(actions, key);
      NoStatusBefore(o, actions[..|actions| - 1], faults, key);
    }
  }

  // When a status is true. A deletion reported as successful happened; an event that was
  // there is reported as absent although its row is gone exactly when an index
  // statement is rejected.
  lemma RemovalStatusIsTrue(t: Tables, key: EventKey, f: Fault)
    ensures var (status, after) := (StatusOf(t, Remove(key), f), TablesAfter(t, Remove(key), f));
      && (status.result == DIAMETER_SUCCESS <==> key in t.events && key !in after.events && !StopsAtIndex(t, key, f))
      && (status.result != DIAMETER_SUCCESS && key in t.events && key !in after.events <==> StopsAtIndex(t, key, f))
      && status.result in {2001, 5514} && status.isRemove && (IsLongTerm(status) <==> status.result == 2001)
  {
  }

  predicate StopsAtIndex(t: Tables, key: EventKey, f: Fault) {
    !f.read && key in t.events &&
    ((t.events[key].msisdn != 0 && f.write == MsisdnIndex) || (t.events[key].extId != "" && f.write == ExtIdIndex))
  }

  // An event reported as stored is stored, and the searches by its identifiers find it.
  // One reported as not stored is there all the same exactly when only an index
  // statement was rejected, or the row was there before.
  lemma StorageStatusIsTrue(t: Tables, a: Action, f: Fault)
    requires ReachesTables(a)
    ensures var (status, after) := (StatusOf(t, a, f), TablesAfter(t, a, f));
      && (status.result == DIAMETER_SUCCESS ==>
            && a.key in after.events && after.events[a.key] == a.event
            && (a.event.msisdn != 0 ==> a.key in Lookup(after, a.event.msisdn, []))
            && (forall m :: a.event.extId != "" ==> a.key in Lookup(after, m, [a.event.extId])))
      && (status.result != DIAMETER_SUCCESS && a.key in after.events && after.events[a.key] == a.event <==>
            || StopsPartWay(Add(a.key, a.event, f.write))
            || (f.write == Primary && a.key in t.events && t.events[a.key] == a.event))
      && status.result in {2001, 5513} && !status.isRemove
  {
    assert a.event.extId in [a.event.extId];
  }
}
