// The group report: RIRBuilder in src/fdhss.cpp waits for one response per IMSI and for
// the event that the CIA was sent, in any order, and sends the report when it has all.
module RirBuilder {
  import opened Wrappers
  import opened MonitoringEvents
  import opened Sequences

  const MME_DOWN := 100
  const IMSI_NOT_ACTIVE := 101

  datatype ImsiStatus = ImsiStatus(imsi: string, status: ConfStatus, reachability: int, msisdn: string)

  type Report = map<EventKey, seq<ImsiStatus>>

  // The response of an MME, or a simulated one without statuses.
  datatype Response = Response(mme: Option<StatusMap>, imsi: string, reachability: int, msisdn: string)

  datatype Message = GUARD_TIMEOUT | HANDLE_MME_RESPONSE(response: Response) | HANDLE_CIA_SENT

  // A long-term event keeps the result of the database; a one-shot event takes that of
  // the MME, if the MME reported it.
  function Mixed(key: EventKey, status: ConfStatus, r: Response): ConfStatus {
    if IsLongTerm(status) then status
    else
      match r.mme
      case Some(statuses) => if key in statuses then status.(result := statuses[key].result) else status
      case None => status.(result := DIAMETER_UNABLE_TO_COMPLY)
  }

  function StatusFor(key: EventKey, status: ConfStatus, r: Response): ImsiStatus {
    ImsiStatus(r.imsi, Mixed(key, status, r), r.reachability, r.msisdn)
  }

  function ListAt(report: Report, key: EventKey): seq<ImsiStatus> {
    if key in report then report[key] else []
  }

  // The report after one more response, for the given keys of the configured events.
  function WithResponse(report: Report, hss: StatusMap, keys: set<EventKey>, r: Response): Report
    requires keys <= hss.Keys
  {
    map key | key in report.Keys + keys ::
      if key in keys then ListAt(report, key) + [StatusFor(key, hss[key], r)] else report[key]
  }

  lemma OneMoreKey(report: Report, hss: StatusMap, keys: set<EventKey>, key: EventKey, r: Response)
    requires keys <= hss.Keys && key in hss && key !in keys
    ensures var done := WithResponse(report, hss, keys, r);
      WithResponse(report, hss, keys + {key}, r) == done[key := ListAt(done, key) + [StatusFor(key, hss[key], r)]]
  {
    var done := WithResponse(report, hss, keys, r);
    assert ListAt(done, key) == ListAt(report, key);
  }

  datatype Builder = Builder(
    awaited: int,              // m_nb_ida_proc
    hss: Option<StatusMap>,    // m_hss_insert_status, null once deleted
    collected: Report,         // imsi_status_map
    ciaSent: bool,
    sent: seq<Report>,         // every RIR sent, in order
    quits: nat)                // completions: calls of quit

  function Started(n: nat, hss: StatusMap): Builder {
    Builder(n, Some(hss), map[], false, [], 0)
  }

  // The common end of both branches of dispatch.
  function Completed(b: Builder): Builder {
    if b.awaited == 0 && b.ciaSent
    then b.(sent := b.sent + [b.collected], hss := None, quits := b.quits + 1)
    else b
  }

  predicate CanDispatch(b: Builder, m: Message) {
    m.HANDLE_MME_RESPONSE? ==> b.hss.Some?
  }

  function Dispatched(b: Builder, m: Message): Builder
    requires CanDispatch(b, m)
  {
    match m
    case GUARD_TIMEOUT => b.(sent := b.sent + [b.collected])
    case HANDLE_MME_RESPONSE(r) =>
      Completed(b.(awaited := b.awaited - 1,
                   collected := WithResponse(b.collected, b.hss.value, b.hss.value.Keys, r)))
    case HANDLE_CIA_SENT => Completed(b.(ciaSent := true))
  }

  class RIRBuilder {
    var nbIdaProc: int
    var hssInsertStatus: Option<StatusMap>
    var imsiStatusMap: Report
    var ciaSent: bool
    var sent: seq<Report>
    var quits: nat

    constructor (nbIdaProc: nat, hssInsertStatus: StatusMap)
      ensures Value() == Started(nbIdaProc, hssInsertStatus)
    {
      this.nbIdaProc, this.hssInsertStatus := nbIdaProc, Some(hssInsertStatus);
      imsiStatusMap, ciaSent, sent, quits := map[], false, [], 0;
    }

    ghost function Value(): Builder
      reads this
    {
      Builder(nbIdaProc, hssInsertStatus, imsiStatusMap, ciaSent, sent, quits)
    }

    method SendRIR()
      modifies this`sent
      ensures sent == old(sent) + [imsiStatusMap]
    {
      sent := sent + [imsiStatusMap];
    }

    method Complete()
      modifies this`sent, this`hssInsertStatus, this`quits
      ensures Value() == old(Value()).(sent := old(sent) + [imsiStatusMap], hss := None, quits := old(quits) + 1)
    {
      SendRIR();
      hssInsertStatus := None;
      quits := quits + 1;
    }

    method Collect(r: Response)
      requires hssInsertStatus.Some?
      modifies this`imsiStatusMap
      ensures imsiStatusMap == WithResponse(old(imsiStatusMap), hssInsertStatus.value, hssInsertStatus.value.Keys, r)
    {
      var hss := hssInsertStatus.value;
      var rest := hss.Keys;
      ghost var before := imsiStatusMap;
      while rest != {}
        invariant rest <= hss.Keys
        invariant imsiStatusMap == WithResponse(before, hss, hss.Keys - rest, r)
        decreases rest
      {
        var key :| key in rest;
        var mixed := hss[key];
        if !IsLongTerm(hss[key]) {
          if r.mme.Some? {
            if key in r.mme.value {
              mixed := mixed.(result := r.mme.value[key].result);
            }
          } else {
            mixed := mixed.(result := DIAMETER_UNABLE_TO_COMPLY);
          }
        }
        var imsiStatus := ImsiStatus(r.imsi, mixed, r.reachability, r.msisdn);
        assert imsiStatus == StatusFor(key, hss[key], r);
        OneMoreKey(before, hss, hss.Keys - rest, key, r);
        if key in imsiStatusMap {
          imsiStatusMap := imsiStatusMap[key := imsiStatusMap[key] + [imsiStatus]];
        } else {
          assert [] + [imsiStatus] == [imsiStatus];
          imsiStatusMap := imsiStatusMap[key := [imsiStatus]];
        }
        assert imsiStatusMap == WithResponse(before, hss, hss.Keys - rest + {key}, r);
        assert hss.Keys - (rest - {key}) == hss.Keys - rest + {key};
        rest := rest - {key};
      }
      assert hss.Keys - rest == hss.Keys;
    }

    method Dispatch(m: Message)
      requires CanDispatch(Value(), m)
      modifies this
      ensures Value() == Dispatched(old(Value()), m)
    {
      match m
      case GUARD_TIMEOUT =>
        SendRIR();
      case HANDLE_MME_RESPONSE(r) =>
        nbIdaProc := nbIdaProc - 1;
        Collect(r);
        if nbIdaProc == 0 && ciaSent {
          Complete();
        }
      case HANDLE_CIA_SENT =>
        ciaSent := true;
        if nbIdaProc == 0 {
          Complete();
        }
    }
  }

  // ---------------------------------------------------------------------------
  // A run: the messages that arrive, in their order.

  function Responses(ms: seq<Message>): seq<Response> {
    if ms == [] then []
    else
      var last := ms[|ms| - 1];
      Responses(ms[..|ms| - 1]) + if last.HANDLE_MME_RESPONSE? then [last.response] else []
  }

  function CiasSent(ms: seq<Message>): nat {
    if ms == [] then 0
    else CiasSent(ms[..|ms| - 1]) + if ms[|ms| - 1] == HANDLE_CIA_SENT then 1 else 0
  }

  function Timeouts(ms: seq<Message>): nat {
    if ms == [] then 0
    else Timeouts(ms[..|ms| - 1]) + if ms[|ms| - 1] == GUARD_TIMEOUT then 1 else 0
  }

  // At most n responses and one CIA; any number of timeouts.
  ghost predicate Arrivals(n: nat, ms: seq<Message>) {
    |Responses(ms)| <= n && CiasSent(ms) <= 1
  }

  ghost predicate IsComplete(n: nat, ms: seq<Message>) {
    |Responses(ms)| == n && CiasSent(ms) == 1
  }

  function ReportOf(hss: StatusMap, rs: seq<Response>): Report {
    if rs == [] then map[]
    else WithResponse(ReportOf(hss, rs[..|rs| - 1]), hss, hss.Keys, rs[|rs| - 1])
  }

  // What the messages so far have led to. Every report sent is the one of some first
  // responses, so one that a timeout sends is part of those sent later.
  ghost predicate IsState(n: nat, hss: StatusMap, ms: seq<Message>, b: Builder) {
    && b.awaited == n - |Responses(ms)|
    && b.ciaSent == (CiasSent(ms) == 1)
    && b.collected == ReportOf(hss, Responses(ms))
    && b.quits == (if IsComplete(n, ms) then 1 else 0)
    && b.hss == (if IsComplete(n, ms) then None else Some(hss))
    && |b.sent| == Timeouts(ms) + b.quits
    && SentSoFar(hss, Responses(ms), b.sent)
  }

  ghost predicate SentSoFar(hss: StatusMap, rs: seq<Response>, sent: seq<Report>) {
    forall report :: report in sent ==> IsPartial(hss, rs, report)
  }

  ghost predicate IsPartial(hss: StatusMap, rs: seq<Response>, report: Report) {
    exists first :: first <= rs && report == ReportOf(hss, first)
  }

  // The states between the messages. That every dispatch finds its status map is a
  // result, not an assumption.
  ghost predicate IsRun(n: nat, hss: StatusMap, ms: seq<Message>, bs: seq<Builder>) {
    && |bs| == |ms| + 1 && bs[0] == Started(n, hss)
    && forall i :: 0 <= i < |ms| ==> (CanDispatch(bs[i], ms[i]) ==> bs[i + 1] == Dispatched(bs[i], ms[i]))
  }

  lemma SentStays(hss: StatusMap, rs: seq<Response>, more: seq<Response>, sent: seq<Report>)
    requires SentSoFar(hss, rs, sent)
    ensures SentSoFar(hss, rs + more, sent)
  {
    forall report | report in sent ensures IsPartial(hss, rs + more, report) {
      var first :| first <= rs && report == ReportOf(hss, first);
      assert first <= rs + more;
    }
  }

  lemma SendAll(hss: StatusMap, rs: seq<Response>, sent: seq<Report>)
    requires SentSoFar(hss, rs, sent)
    ensures SentSoFar(hss, rs, sent + [ReportOf(hss, rs)])
  {
    assert rs <= rs;
  }

  lemma Append(ms: seq<Message>, m: Message)
    ensures Responses(ms + [m]) == if m.HANDLE_MME_RESPONSE? then Responses(ms) + [m.response] else Responses(ms)
    ensures CiasSent(ms + [m]) == CiasSent(ms) + (if m == HANDLE_CIA_SENT then 1 else 0)
    ensures Timeouts(ms + [m]) == Timeouts(ms) + (if m == GUARD_TIMEOUT then 1 else 0)
  {
    assert (ms + [m])[..|ms|] == ms;
  }

  lemma ReportAppend(hss: StatusMap, rs: seq<Response>, r: Response)
    ensures ReportOf(hss, rs + [r]) == WithResponse(ReportOf(hss, rs), hss, hss.Keys, r)
  {
    assert (rs + [r])[..|rs|] == rs;
  }

  lemma DispatchKeepsState(n: nat, hss: StatusMap, ms: seq<Message>, b: Builder, m: Message)
    requires IsState(n, hss, ms, b) && Arrivals(n, ms + [m])
    ensures CanDispatch(b, m) && IsState(n, hss, ms + [m], Dispatched(b, m))
    ensures IsComplete(n, ms + [m]) && !IsComplete(n, ms) ==>
      Dispatched(b, m).sent == b.sent + [ReportOf(hss, Responses(ms + [m]))]
  {
    Append(ms, m);
    match m
    case GUARD_TIMEOUT =>
      SendAll(hss, Responses(ms), b.sent);
    case HANDLE_MME_RESPONSE(r) =>
      ReportAppend(hss, Responses(ms), r);
      SentStays(hss, Responses(ms), [r], b.sent);
      SendAll(hss, Responses(ms) + [r], b.sent);
    case HANDLE_CIA_SENT =>
      SendAll(hss, Responses(ms), b.sent);
  }

  lemma {:induction false} PrefixArrives(n: nat, ms: seq<Message>, i: nat)
    requires Arrivals(n, ms) && i <= |ms|
    ensures Arrivals(n, ms[..i])
    decreases |ms|
  {
    if i < |ms| {
      PrefixArrives(n, ms[..|ms| - 1], i);
      assert ms[..|ms| - 1][..i] == ms[..i];
    } else {
      assert ms[..i] == ms;
    }
  }

  lemma {:induction false} StateAt(n: nat, hss: StatusMap, ms: seq<Message>, bs: seq<Builder>, i: nat)
    requires IsRun(n, hss, ms, bs) && Arrivals(n, ms) && i <= |ms|
    ensures IsState(n, hss, ms[..i], bs[i])
  {
    if i == 0 {
      assert !IsComplete(n, []);
    } else {
      StateAt(n, hss, ms, bs, i - 1);
      assert ms[..i] == ms[..i - 1] + [ms[i - 1]];
      PrefixArrives(n, ms, i);
      DispatchKeepsState(n, hss, ms[..i - 1], bs[i - 1], ms[i - 1]);
    }
  }

  // ---------------------------------------------------------------------------
  // The join.

  // In any order of arrival the report is completed exactly once, at the last of the n
  // responses and the CIA event, with every response in it; and no response finds the
  // status map gone.
  lemma ReportComesOnce(n: nat, hss: StatusMap, ms: seq<Message>, bs: seq<Builder>, i: nat)
    requires IsRun(n, hss, ms, bs) && Arrivals(n, ms) && i < |ms|
    ensures CanDispatch(bs[i], ms[i])
    ensures bs[i].quits == (if IsComplete(n, ms[..i]) then 1 else 0)
    ensures bs[i + 1].quits > bs[i].quits <==> IsComplete(n, ms[..i + 1]) && !IsComplete(n, ms[..i])
    ensures bs[i + 1].quits > bs[i].quits ==> bs[i + 1].sent == bs[i].sent + [ReportOf(hss, Responses(ms))]
    ensures |bs[i].sent| == Timeouts(ms[..i]) + bs[i].quits
  {
    StateAt(n, hss, ms, bs, i);
    StateAt(n, hss, ms, bs, i + 1);
    assert ms[..i + 1] == ms[..i] + [ms[i]];
    PrefixArrives(n, ms, i + 1);
    DispatchKeepsState(n, hss, ms[..i], bs[i], ms[i]);
    CompleteStays(n, ms, i);
    CompleteStays(n, ms, i + 1);
  }

  // A guard timeout sends the report of the responses so far, and changes nothing else.
  lemma TimeoutSendsTheReportSoFar(n: nat, hss: StatusMap, ms: seq<Message>, bs: seq<Builder>, i: nat)
    requires IsRun(n, hss, ms, bs) && Arrivals(n, ms) && i < |ms| && ms[i] == GUARD_TIMEOUT
    ensures bs[i + 1].sent == bs[i].sent + [ReportOf(hss, Responses(ms[..i]))]
    ensures bs[i + 1] == bs[i].(sent := bs[i + 1].sent)
  {
    StateAt(n, hss, ms, bs, i);
  }

  // And nothing is sent but by a timeout or by the completion.
  lemma OthersSendNothing(n: nat, hss: StatusMap, ms: seq<Message>, bs: seq<Builder>, i: nat)
    requires IsRun(n, hss, ms, bs) && Arrivals(n, ms) && i < |ms|
    requires ms[i] != GUARD_TIMEOUT && (IsComplete(n, ms[..i]) || !IsComplete(n, ms[..i + 1]))
    ensures bs[i + 1].sent == bs[i].sent
  {
    StateAt(n, hss, ms, bs, i);
    StateAt(n, hss, ms, bs, i + 1);
    PrefixArrives(n, ms, i + 1);
    assert ms[..i + 1] == ms[..i] + [ms[i]];
    Append(ms[..i], ms[i]);
    DispatchKeepsState(n, hss, ms[..i], bs[i], ms[i]);
  }

  lemma {:induction false} CompleteStays(n: nat, ms: seq<Message>, i: nat)
    requires Arrivals(n, ms) && i <= |ms|
    ensures IsComplete(n, ms[..i]) ==> IsComplete(n, ms) && Responses(ms[..i]) == Responses(ms)
    decreases |ms|
  {
    if i < |ms| {
      PrefixArrives(n, ms, |ms| - 1);
      CompleteStays(n, ms[..|ms| - 1], i);
      assert ms[..|ms| - 1][..i] == ms[..i];
    } else {
      assert ms[..i] == ms;
    }
  }

  function StatusOf(key: EventKey, status: ConfStatus): Response -> ImsiStatus {
    r => StatusFor(key, status, r)
  }

  function Statuses(key: EventKey, status: ConfStatus, rs: seq<Response>): seq<ImsiStatus> {
    Mapped(StatusOf(key, status), rs)
  }

  lemma {:induction false} ListIsStatuses(hss: StatusMap, rs: seq<Response>, key: EventKey)
    requires key in hss
    ensures ListAt(ReportOf(hss, rs), key) == Statuses(key, hss[key], rs)
  {
    if rs != [] {
      var before, r := rs[..|rs| - 1], rs[|rs| - 1];
      ListIsStatuses(hss, before, key);
      assert rs == before + [r];
      MappedConcat(StatusOf(key, hss[key]), before, [r]);
      assert Statuses(key, hss[key], [r]) == [StatusFor(key, hss[key], r)];
    }
  }

  lemma {:induction false} KeysOfReport(hss: StatusMap, rs: seq<Response>)
    ensures ReportOf(hss, rs).Keys == if rs == [] then {} else hss.Keys
  {
    if rs != [] {
      KeysOfReport(hss, rs[..|rs| - 1]);
    }
  }

  // Every configured key holds exactly one status for each response, in the order of
  // their arrival.
  lemma OneStatusEach(hss: StatusMap, rs: seq<Response>)
    ensures ReportOf(hss, rs).Keys == if rs == [] then {} else hss.Keys
    ensures forall key :: key in ReportOf(hss, rs) ==>
      var list := ReportOf(hss, rs)[key];
      |list| == |rs| && forall i :: 0 <= i < |rs| ==> list[i] == StatusFor(key, hss[key], rs[i])
  {
    KeysOfReport(hss, rs);
    forall key | key in ReportOf(hss, rs) ensures ReportOf(hss, rs)[key] == Statuses(key, hss[key], rs) {
      ListIsStatuses(hss, rs, key);
    }
  }

  // The report does not depend on the order of the responses, but for the order of the
  // statuses under each key.
  lemma OrderDoesNotMatter(hss: StatusMap, rs: seq<Response>, others: seq<Response>, key: EventKey)
    requires key in hss && multiset(rs) == multiset(others)
    ensures multiset(ListAt(ReportOf(hss, rs), key)) == multiset(ListAt(ReportOf(hss, others), key))
  {
    ListIsStatuses(hss, rs, key);
    ListIsStatuses(hss, others, key);
    MappedPermutes(StatusOf(key, hss[key]), rs, others);
  }

  // Every report that a timeout sends is part of the completing one: under each of its
  // keys it holds a prefix of the statuses there.
  lemma TimeoutsSendPrefixes(n: nat, hss: StatusMap, ms: seq<Message>, bs: seq<Builder>, i: nat, report: Report)
    requires IsRun(n, hss, ms, bs) && Arrivals(n, ms) && i <= |ms| && report in bs[i].sent
    ensures forall key :: key in report ==>
      key in ReportOf(hss, Responses(ms)) && report[key] <= ReportOf(hss, Responses(ms))[key]
  {
    StateAt(n, hss, ms, bs, i);
    var first :| first <= Responses(ms[..i]) && report == ReportOf(hss, first);
    ResponsesGrow(ms, i);
    PrefixesGiveParts(hss, first, Responses(ms));
  }

  lemma PrefixesGiveParts(hss: StatusMap, first: seq<Response>, all: seq<Response>)
    requires first <= all
    ensures forall key :: key in ReportOf(hss, first) ==>
      key in ReportOf(hss, all) && ReportOf(hss, first)[key] <= ReportOf(hss, all)[key]
  {
    KeysOfReport(hss, first);
    KeysOfReport(hss, all);
    forall key | key in ReportOf(hss, first) ensures ReportOf(hss, first)[key] <= ReportOf(hss, all)[key] {
      ListIsStatuses(hss, first, key);
      ListIsStatuses(hss, all, key);
    }
  }

  lemma {:induction false} ResponsesGrow(ms: seq<Message>, i: nat)
    requires i <= |ms|
    ensures Responses(ms[..i]) <= Responses(ms)
    decreases |ms|
  {
    if i < |ms| {
      ResponsesGrow(ms[..|ms| - 1], i);
      assert ms[..|ms| - 1][..i] == ms[..i];
    } else {
      assert ms[..i] == ms;
    }
  }
}
