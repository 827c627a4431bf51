// The monitoring-event tables (src/dataaccess.cpp): one row per event, two index tables
// that lead to it by MSISDN and by external identifier, and the search through them.
module EventStore {
  import opened Wrappers
  import opened MonitoringEvents

  datatype Event = Event(msisdn: int, extId: string, configuration: string, userIdentifier: string, monitoringType: int)

  // events, events_msisdn and events_extid.
  datatype Tables = Tables(events: map<EventKey, Event>, byMsisdn: set<(int, EventKey)>, byExtId: set<(string, EventKey)>)

  const NoTables := Tables(map[], {}, {})

  // The statement of one operation that the database rejects; it has no effect, and the
  // operation throws before its next statement.
  datatype Fails = Never | Select | Primary | MsisdnIndex | ExtIdIndex

  // addEvent.
  function Added(t: Tables, key: EventKey, e: Event, fails: Fails): Tables {
    if fails == Primary then t
    else
      var t1 := t.(events := t.events[key := e]);
      if e.msisdn != 0 && fails == MsisdnIndex then t1
      else
        var t2 := if e.msisdn != 0 then t1.(byMsisdn := t1.byMsisdn + {(e.msisdn, key)}) else t1;
        if e.extId == "" || fails == ExtIdIndex then t2 else t2.(byExtId := t2.byExtId + {(e.extId, key)})
  }

  predicate AddThrows(e: Event, fails: Fails) {
    fails == Primary || (e.msisdn != 0 && fails == MsisdnIndex) || (e.extId != "" && fails == ExtIdIndex)
  }

  // deleteEvent: the index entries removed are those of the row that was found.
  function Deleted(t: Tables, key: EventKey, fails: Fails): Tables {
    if fails in {Select, Primary} || key !in t.events then t
    else
      var e := t.events[key];
      var t1 := t.(events := t.events - {key});
      if e.msisdn != 0 && fails == MsisdnIndex then t1
      else
        var t2 := if e.msisdn != 0 then t1.(byMsisdn := t1.byMsisdn - {(e.msisdn, key)}) else t1;
        if e.extId == "" || fails == ExtIdIndex then t2 else t2.(byExtId := t2.byExtId - {(e.extId, key)})
  }

  predicate DeleteThrows(t: Tables, key: EventKey, fails: Fails) {
    fails == Select ||
    (key in t.events &&
     (fails == Primary || (t.events[key].msisdn != 0 && fails == MsisdnIndex) ||
      (t.events[key].extId != "" && fails == ExtIdIndex)))
  }

  // What getEventsFromImsi finds: the existing events that an index leads to.
  function Lookup(t: Tables, msisdn: int, extIds: seq<string>): set<EventKey> {
    set key | key in t.events && ((msisdn, key) in t.byMsisdn || exists x :: x in extIds && (x, key) in t.byExtId)
  }

  // What a scan of the events table finds; 0 and "" stand for no identifier.
  function Scan(t: Tables, msisdn: int, extIds: seq<string>): set<EventKey> {
    set key | key in t.events && Belongs(t.events[key], msisdn, extIds)
  }

  predicate Belongs(e: Event, msisdn: int, extIds: seq<string>) {
    (e.msisdn != 0 && e.msisdn == msisdn) || (e.extId != "" && e.extId in extIds)
  }

  // Every event can be found by its identifiers.
  ghost predicate Indexed(t: Tables) {
    forall key :: key in t.events ==>
      && (t.events[key].msisdn != 0 ==> (t.events[key].msisdn, key) in t.byMsisdn)
      && (t.events[key].extId != "" ==> (t.events[key].extId, key) in t.byExtId)
  }

  // No index entry leads to an event with another identifier.
  ghost predicate Exact(t: Tables) {
    && (forall m, key :: (m, key) in t.byMsisdn && key in t.events ==> m != 0 && t.events[key].msisdn == m)
    && (forall x, key :: (x, key) in t.byExtId && key in t.events ==> x != "" && t.events[key].extId == x)
  }

  // ---------------------------------------------------------------------------
  // The search against the scan.

  lemma LookupFindsScan(t: Tables, msisdn: int, extIds: seq<string>)
    requires Indexed(t)
    ensures Scan(t, msisdn, extIds) <= Lookup(t, msisdn, extIds) <= t.events.Keys
  {
  }

  lemma LookupIsScan(t: Tables, msisdn: int, extIds: seq<string>)
    requires Indexed(t) && Exact(t)
    ensures Lookup(t, msisdn, extIds) == Scan(t, msisdn, extIds)
  {
    LookupFindsScan(t, msisdn, extIds);
  }

  ghost predicate Agrees(t: Tables) {
    forall msisdn, extIds :: Lookup(t, msisdn, extIds) == Scan(t, msisdn, extIds)
  }

  lemma AgreementByMsisdn(t: Tables, m: int, key: EventKey)
    requires Agrees(t) && key in t.events
    ensures (m, key) in t.byMsisdn <==> m != 0 && t.events[key].msisdn == m
  {
    assert key in Lookup(t, m, []) <==> key in Scan(t, m, []);
  }

  lemma AgreementByExtId(t: Tables, x: string, key: EventKey)
    requires Agrees(t) && key in t.events
    ensures (x, key) in t.byExtId <==> x != "" && t.events[key].extId == x
  {
    AgreementByMsisdn(t, 0, key);
    assert x in [x];
    assert key in Lookup(t, 0, [x]) <==> key in Scan(t, 0, [x]);
  }

  // The two agree on every search exactly when both hold of the tables.
  lemma LookupIsScanExactly(t: Tables)
    ensures Agrees(t) <==> Indexed(t) && Exact(t)
  {
    if Indexed(t) && Exact(t) {
      forall msisdn, extIds ensures Lookup(t, msisdn, extIds) == Scan(t, msisdn, extIds) {
        LookupIsScan(t, msisdn, extIds);
      }
    }
    if Agrees(t) {
      forall m, key | key in t.events ensures (m, key) in t.byMsisdn <==> m != 0 && t.events[key].msisdn == m {
        AgreementByMsisdn(t, m, key);
      }
      forall x, key | key in t.events ensures (x, key) in t.byExtId <==> x != "" && t.events[key].extId == x {
        AgreementByExtId(t, x, key);
      }
    }
  }

  // ---------------------------------------------------------------------------
  // Runs of adds and deletes.

  datatype Op = Add(key: EventKey, event: Event, fails: Fails) | Delete(key: EventKey, fails: Fails)

  function Apply(t: Tables, op: Op): Tables {
    match op
    case Add(key, e, fails) => Added(t, key, e, fails)
    case Delete(key, fails) => Deleted(t, key, fails)
  }

  function ApplyAll(t: Tables, ops: seq<Op>): Tables {
    if ops == [] then t else Apply(ApplyAll(t, ops[..|ops| - 1]), ops[|ops| - 1])
  }

  // An add that throws after its first statement leaves an event that the index misses.
  predicate StopsPartWay(op: Op) {
    op.Add? && op.fails != Primary && AddThrows(op.event, op.fails)
  }

  // The entries that an add which stops part-way leaves out are there already.
  predicate LeftOutAreThere(t: Tables, key: EventKey, e: Event, fails: Fails) {
    StopsPartWay(Add(key, e, fails)) ==>
      && (e.msisdn != 0 && fails == MsisdnIndex ==> (e.msisdn, key) in t.byMsisdn)
      && (e.extId != "" ==> (e.extId, key) in t.byExtId)
  }

  // So an add keeps every event findable exactly when it leaves out no entry that is not
  // there already.
  lemma AddKeepsIndexedExactly(t: Tables, key: EventKey, e: Event, fails: Fails)
    requires Indexed(t)
    ensures Indexed(Added(t, key, e, fails)) <==> LeftOutAreThere(t, key, e, fails)
  {
    var after := Added(t, key, e, fails);
    if StopsPartWay(Add(key, e, fails)) {
      assert key in after.events && after.events[key] == e;
    }
  }

  // The entries of a key that an earlier event of that key, or a failed delete, left.
  ghost predicate NoOtherEntries(t: Tables, key: EventKey, e: Event) {
    && (forall m :: (m, key) in t.byMsisdn ==> m == e.msisdn && m != 0)
    && (forall x :: (x, key) in t.byExtId ==> x == e.extId && x != "")
  }

  // An add keeps the search equal to the scan exactly when it writes nothing, or the key
  // has no entry under other identifiers and no entry is left out; a delete always does.
  lemma AddKeepsAgreementExactly(t: Tables, key: EventKey, e: Event, fails: Fails)
    requires Agrees(t)
    ensures Agrees(Added(t, key, e, fails)) <==>
      fails == Primary || (NoOtherEntries(t, key, e) && LeftOutAreThere(t, key, e, fails))
  {
    var after := Added(t, key, e, fails);
    LookupIsScanExactly(t);
    LookupIsScanExactly(after);
    AddKeepsIndexedExactly(t, key, e, fails);
    if fails != Primary {
      AddKeepsExactly(t, key, e, fails);
    }
  }

  lemma AddKeepsExactly(t: Tables, key: EventKey, e: Event, fails: Fails)
    requires Exact(t) && fails != Primary
    ensures Exact(Added(t, key, e, fails)) <==> NoOtherEntries(t, key, e)
  {
    var after := Added(t, key, e, fails);
    assert key in after.events && after.events[key] == e;
    assert t.byMsisdn <= after.byMsisdn && t.byExtId <= after.byExtId;
  }

  lemma DeleteKeepsAgreement(t: Tables, key: EventKey, fails: Fails)
    requires Agrees(t)
    ensures Agrees(Deleted(t, key, fails))
  {
    LookupIsScanExactly(t);
    LookupIsScanExactly(Deleted(t, key, fails));
  }

  lemma ApplyKeepsIndexed(t: Tables, op: Op)
    requires Indexed(t) && !StopsPartWay(op)
    ensures Indexed(Apply(t, op))
  {
  }

  // Deletes may fail anywhere: the event goes first.
  lemma {:induction false} EveryEventIsFound(ops: seq<Op>, msisdn: int, extIds: seq<string>)
    requires forall op :: op in ops ==> !StopsPartWay(op)
    ensures var t := ApplyAll(NoTables, ops);
      Indexed(t) && Scan(t, msisdn, extIds) <= Lookup(t, msisdn, extIds) <= t.events.Keys
  {
    if ops != [] {
      EveryEventIsFound(ops[..|ops| - 1], msisdn, extIds);
      ApplyKeepsIndexed(ApplyAll(NoTables, ops[..|ops| - 1]), ops[|ops| - 1]);
    }
    LookupFindsScan(ApplyAll(NoTables, ops), msisdn, extIds);
  }

  // Every add of a key gives it the same identifiers.
  ghost predicate Steady(ops: seq<Op>) {
    forall i, j :: 0 <= i < |ops| && 0 <= j < |ops| && ops[i].Add? && ops[j].Add? && ops[i].key == ops[j].key ==>
      ops[i].event.msisdn == ops[j].event.msisdn && ops[i].event.extId == ops[j].event.extId
  }

  // Whatever the tables hold for a key came from an add of that key.
  ghost predicate ComesFrom(t: Tables, ops: seq<Op>) {
    && (forall key :: key in t.events ==>
          exists i :: 0 <= i < |ops| && ops[i].Add? && ops[i].key == key && ops[i].event == t.events[key])
    && (forall m, key :: (m, key) in t.byMsisdn ==>
          m != 0 && exists i :: 0 <= i < |ops| && ops[i].Add? && ops[i].key == key && ops[i].event.msisdn == m)
    && (forall x, key :: (x, key) in t.byExtId ==>
          x != "" && exists i :: 0 <= i < |ops| && ops[i].Add? && ops[i].key == key && ops[i].event.extId == x)
  }

  lemma {:induction false} TablesComeFrom(ops: seq<Op>)
    ensures ComesFrom(ApplyAll(NoTables, ops), ops)
  {
    if ops != [] {
      var before := ops[..|ops| - 1];
      TablesComeFrom(before);
      assert forall i :: 0 <= i < |before| ==> ops[i] == before[i];
      assert ComesFrom(ApplyAll(NoTables, before), ops);
      ApplyComesFrom(ApplyAll(NoTables, before), ops);
    }
  }

  lemma ApplyComesFrom(t: Tables, ops: seq<Op>)
    requires ops != [] && ComesFrom(t, ops)
    ensures ComesFrom(Apply(t, ops[|ops| - 1]), ops)
  {
  }

  // When no key changes its identifiers, the search finds what a scan finds.
  lemma SearchIsScan(ops: seq<Op>, msisdn: int, extIds: seq<string>)
    requires Steady(ops) && forall op :: op in ops ==> !StopsPartWay(op)
    ensures var t := ApplyAll(NoTables, ops); Lookup(t, msisdn, extIds) == Scan(t, msisdn, extIds)
  {
    var t := ApplyAll(NoTables, ops);
    EveryEventIsFound(ops, msisdn, extIds);
    TablesComeFrom(ops);
    assert Exact(t);
    LookupIsScan(t, msisdn, extIds);
  }

  // A deletion that completes takes the row and its index entries, and nothing else.
  lemma DeletionIsComplete(t: Tables, key: EventKey, fails: Fails)
    requires key in t.events && !DeleteThrows(t, key, fails)
    ensures var after, e := Deleted(t, key, fails), t.events[key];
      && key !in after.events && after.events.Keys == t.events.Keys - {key}
      && (forall other :: other in after.events ==> after.events[other] == t.events[other])
      && (e.msisdn != 0 ==> (e.msisdn, key) !in after.byMsisdn)
      && (e.extId != "" ==> (e.extId, key) !in after.byExtId)
      && (forall m, k :: (m, k) in t.byMsisdn && (m, k) != (e.msisdn, key) ==> (m, k) in after.byMsisdn)
      && (forall x, k :: (x, k) in t.byExtId && (x, k) != (e.extId, key) ==> (x, k) in after.byExtId)
      && after.byMsisdn <= t.byMsisdn && after.byExtId <= t.byExtId
  {
  }

  // The index tables hold the entries of the rows and no others.
  ghost predicate Mirrors(t: Tables) {
    && (forall m, k :: (m, k) in t.byMsisdn <==> k in t.events && m != 0 && t.events[k].msisdn == m)
    && (forall x, k :: (x, k) in t.byExtId <==> k in t.events && x != "" && t.events[k].extId == x)
  }

  // A deletion that stops after the row has gone leaves entries behind.
  predicate LeavesEntries(t: Tables, op: Op) {
    op.Delete? && op.key in t.events && op.fails in {MsisdnIndex, ExtIdIndex} && DeleteThrows(t, op.key, op.fails)
  }

  // An operation that completes or does nothing, and does not change the identifiers of a
  // row that is there.
  predicate IsTidy(t: Tables, op: Op) {
    && !StopsPartWay(op) && !LeavesEntries(t, op)
    && (op.Add? && op.key in t.events ==>
          op.event.msisdn == t.events[op.key].msisdn && op.event.extId == t.events[op.key].extId)
  }

  predicate TidyRun(ops: seq<Op>) {
    ops == [] ||
    (TidyRun(ops[..|ops| - 1]) && IsTidy(ApplyAll(NoTables, ops[..|ops| - 1]), ops[|ops| - 1]))
  }

  lemma TidyKeepsMirrors(t: Tables, op: Op)
    requires Mirrors(t) && IsTidy(t, op)
    ensures Mirrors(Apply(t, op))
  {
    if op.Delete? && op.key in t.events && !DeleteThrows(t, op.key, op.fails) {
      DeletionIsComplete(t, op.key, op.fails);
    }
  }

  // So a key may come back under other identifiers once it was deleted: the search finds
  // what a scan finds.
  lemma {:induction false} SearchIsScanAfterDeletions(ops: seq<Op>)
    requires TidyRun(ops)
    ensures Mirrors(ApplyAll(NoTables, ops)) && Agrees(ApplyAll(NoTables, ops))
  {
    if ops != [] {
      SearchIsScanAfterDeletions(ops[..|ops| - 1]);
      TidyKeepsMirrors(ApplyAll(NoTables, ops[..|ops| - 1]), ops[|ops| - 1]);
    }
    LookupIsScanExactly(ApplyAll(NoTables, ops));
  }

  // A key added again under another MSISDN is still found under the old one.
  lemma SearchIsNotScan(key: EventKey, e: Event, m: int)
    requires e.msisdn != 0 && m != 0 && m != e.msisdn
    ensures var t := ApplyAll(NoTables, [Add(key, e, Never), Add(key, e.(msisdn := m), Never)]);
      key in Lookup(t, e.msisdn, []) && key !in Scan(t, e.msisdn, [])
  {
    var first, second := Add(key, e, Never), Add(key, e.(msisdn := m), Never);
    assert [first, second][..1] == [first];
    assert ApplyAll(NoTables, [first]) == Apply(NoTables, first);
  }

  // ---------------------------------------------------------------------------
  // The operations. fails says which statement the database rejects; thrown stands for
  // the DAException that follows.

  class EventTables {
    var events: map<EventKey, Event>
    var byMsisdn: set<(int, EventKey)>
    var byExtId: set<(string, EventKey)>

    constructor ()
      ensures Value() == NoTables
    {
      events, byMsisdn, byExtId := map[], {}, {};
    }

    ghost function Value(): Tables
      reads this
    {
      Tables(events, byMsisdn, byExtId)
    }

    method AddEvent(key: EventKey, e: Event, fails: Fails) returns (thrown: bool)
      modifies this
      ensures Value() == Added(old(Value()), key, e, fails)
      ensures thrown == AddThrows(e, fails)
    {
      if fails == Primary {
        return true;
      }
      events := events[key := e];
      if e.msisdn != 0 {
        if fails == MsisdnIndex {
          return true;
        }
        byMsisdn := byMsisdn + {(e.msisdn, key)};
      }
      if e.extId != "" {
        if fails == ExtIdIndex {
          return true;
        }
        byExtId := byExtId + {(e.extId, key)};
      }
      return false;
    }

    method GetEvent(key: EventKey) returns (e: Option<Event>)
      ensures e == if key in events then Some(events[key]) else None
    {
      e := if key in events then Some(events[key]) else None;
    }

    // deleteEvent reads the row first, then deletes it and its index entries.
    method DeleteEvent(key: EventKey, fails: Fails) returns (thrown: bool)
      modifies this
      ensures Value() == Deleted(old(Value()), key, fails)
      ensures thrown == DeleteThrows(old(Value()), key, fails)
    {
      if fails == Select {
        return true;
      }
      var found := GetEvent(key);
      if found.None? {
        return false;
      }
      var e := found.value;
      if fails == Primary {
        return true;
      }
      events := events - {key};
      if e.msisdn != 0 {
        if fails == MsisdnIndex {
          return true;
        }
        byMsisdn := byMsisdn - {(e.msisdn, key)};
      }
      if e.extId != "" {
        if fails == ExtIdIndex {
          return true;
        }
        byExtId := byExtId - {(e.extId, key)};
      }
      return false;
    }

    // The rows of a query come in some order, each once.
    method GetEventIdsFromMsisdn(msisdn: int, before: seq<EventKey>) returns (ids: seq<EventKey>)
      ensures before <= ids
      ensures forall key :: multiset(ids)[key] == multiset(before)[key] + Count((msisdn, key) in byMsisdn)
    {
      ids := before;
      var rest := byMsisdn;
      while rest != {}
        invariant rest <= byMsisdn && before <= ids
        invariant forall key ::
          multiset(ids)[key] == multiset(before)[key] + Count((msisdn, key) in byMsisdn && (msisdn, key) !in rest)
        decreases rest
      {
        var entry :| entry in rest;
        rest := rest - {entry};
        if entry.0 == msisdn {
          ids := ids + [entry.1];
        }
      }
    }

    method GetEventIdsFromExtId(extId: string, before: seq<EventKey>) returns (ids: seq<EventKey>)
      ensures before <= ids
      ensures forall key :: multiset(ids)[key] == multiset(before)[key] + Count((extId, key) in byExtId)
    {
      ids := before;
      var rest := byExtId;
      while rest != {}
        invariant rest <= byExtId && before <= ids
        invariant forall key ::
          multiset(ids)[key] == multiset(before)[key] + Count((extId, key) in byExtId && (extId, key) !in rest)
        decreases rest
      {
        var entry :| entry in rest;
        rest := rest - {entry};
        if entry.0 == extId {
          ids := ids + [entry.1];
        }
      }
    }

    // getEventsFromImsi, given the MSISDN and the external identifiers of the IMSI: an
    // event is found once for each index entry that leads to it.
    method GetEventsFromImsi(msisdn: int, extIds: seq<string>) returns (found: seq<(EventKey, Event)>)
      ensures forall f :: f in found ==> f.0 in events && f.1 == events[f.0]
      ensures forall key :: Occurrences(found, key) == Entries(Value(), msisdn, extIds, key)
      ensures (set f | f in found :: f.0) == Lookup(Value(), msisdn, extIds)
    {
      var ids := GetEventIdsFromMsisdn(msisdn, []);
      var i := 0;
      while i < |extIds|
        invariant 0 <= i <= |extIds|
        invariant forall key :: multiset(ids)[key] == Count((msisdn, key) in byMsisdn) + Hits(byExtId, extIds[..i], key)
      {
        ids := GetEventIdsFromExtId(extIds[i], ids);
        assert extIds[..i + 1][..i] == extIds[..i];
        i := i + 1;
      }
      assert extIds[..i] == extIds;
      found := GetEventsOf(ids);
      FoundIsLookup(Value(), msisdn, extIds, found);
    }

    // Its second loop.
    method GetEventsOf(ids: seq<EventKey>) returns (found: seq<(EventKey, Event)>)
      ensures forall f :: f in found ==> f.0 in events && f.1 == events[f.0]
      ensures forall key :: Occurrences(found, key) == if key in events then multiset(ids)[key] else 0
    {
      found := [];
      var j := 0;
      while j < |ids|
        invariant 0 <= j <= |ids|
        invariant forall f :: f in found ==> f.0 in events && f.1 == events[f.0]
        invariant forall key :: Occurrences(found, key) == if key in events then multiset(ids[..j])[key] else 0
      {
        var e := GetEvent(ids[j]);
        assert ids[..j + 1] == ids[..j] + [ids[j]];
        if e.Some? {
          found := found + [(ids[j], e.value)];
        }
        j := j + 1;
      }
      assert ids[..j] == ids;
    }
  }

  // The index entries that lead a search to an existing event.
  function Entries(t: Tables, msisdn: int, extIds: seq<string>, key: EventKey): nat {
    if key in t.events then Count((msisdn, key) in t.byMsisdn) + Hits(t.byExtId, extIds, key) else 0
  }

  function Count(b: bool): nat {
    if b then 1 else 0
  }

  // Index entries that lead to key under one of the external identifiers.
  function Hits(byExtId: set<(string, EventKey)>, extIds: seq<string>, key: EventKey): nat {
    if extIds == [] then 0
    else Hits(byExtId, extIds[..|extIds| - 1], key) + Count((extIds[|extIds| - 1], key) in byExtId)
  }

  function Occurrences(found: seq<(EventKey, Event)>, key: EventKey): nat {
    if found == [] then 0 else Occurrences(found[..|found| - 1], key) + Count(found[|found| - 1].0 == key)
  }

  lemma {:induction false} HitsMeansIndexed(byExtId: set<(string, EventKey)>, extIds: seq<string>, key: EventKey)
    ensures Hits(byExtId, extIds, key) > 0 <==> exists x :: x in extIds && (x, key) in byExtId
  {
    if extIds != [] {
      var last := |extIds| - 1;
      HitsMeansIndexed(byExtId, extIds[..last], key);
      assert extIds == extIds[..last] + [extIds[last]];
    }
  }

  lemma {:induction false} OccurrencesMeansFound(found: seq<(EventKey, Event)>, key: EventKey)
    ensures Occurrences(found, key) > 0 <==> exists f :: f in found && f.0 == key
  {
    if found != [] {
      var last := |found| - 1;
      OccurrencesMeansFound(found[..last], key);
      assert found == found[..last] + [found[last]];
    }
  }

  lemma FoundIsLookup(t: Tables, msisdn: int, extIds: seq<string>, found: seq<(EventKey, Event)>)
    requires forall key :: Occurrences(found, key) == Entries(t, msisdn, extIds, key)
    ensures (set f | f in found :: f.0) == Lookup(t, msisdn, extIds)
  {
    var keys := set f | f in found :: f.0;
    forall key ensures key in keys <==> key in Lookup(t, msisdn, extIds) {
      OccurrencesMeansFound(found, key);
      HitsMeansIndexed(t.byExtId, extIds, key);
    }
  }
}
