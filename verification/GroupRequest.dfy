// A configuration request for a group: the loop of processMultiImsi (src/s6t_impl.cpp)
// with sendINSDRreq and IDRRreq::processAnswer (src/s6as6d_impl.cpp), which between them
// give the group report one response for each IMSI.
module GroupRequest {
  import opened Wrappers
  import opened MonitoringEvents
  import opened Sequences
  import opened RirBuilder

  // An IMSI that is detached, or whose MME is down, gets its response from the sender of
  // the request (sendINSDRreq); any other gets it from the MME's answer.
  function Simulated(imsi: string, attached: bool, mmeOpen: bool, msisdn: string): Option<Response> {
    if attached && mmeOpen then None
    else Some(Response(None, imsi, if attached then MME_DOWN else IMSI_NOT_ACTIVE, msisdn))
  }

  // A configuration status in the answer: its key, and the service result code if there
  // is a service report with one.
  type AnswerItem = (EventKey, Option<nat>)

  function ItemStatus(item: AnswerItem): ConfStatus {
    ConfStatus(None, false, if item.1.Some? then item.1.value else 0, false, None)
  }

  function MmeStatuses(items: seq<AnswerItem>): StatusMap {
    if items == [] then map[]
    else
      var before, item := MmeStatuses(items[..|items| - 1]), items[|items| - 1];
      if item.0 in before then before else before[item.0 := ItemStatus(item)]
  }

  // IDRRreq::processAnswer for a group.
  function Answered(result: nat, items: seq<AnswerItem>, imsi: string, msisdn: string): Response {
    if result == DIAMETER_SUCCESS then Response(Some(MmeStatuses(items)), imsi, 0, msisdn)
    else Response(None, imsi, MME_DOWN, msisdn)
  }

  lemma {:induction false} FirstItemWins(items: seq<AnswerItem>, i: nat)
    requires i < |items| && forall j :: 0 <= j < i ==> items[j].0 != items[i].0
    ensures items[i].0 in MmeStatuses(items) && MmeStatuses(items)[items[i].0] == ItemStatus(items[i])
  {
    if i < |items| - 1 {
      FirstItemWins(items[..|items| - 1], i);
    } else {
      KeysOfItems(items[..i], items[i].0);
    }
  }

  lemma {:induction false} KeysOfItems(items: seq<AnswerItem>, key: EventKey)
    ensures key in MmeStatuses(items) <==> exists j :: 0 <= j < |items| && items[j].0 == key
  {
    if items != [] {
      KeysOfItems(items[..|items| - 1], key);
    }
  }

  // What a group report says of an event and an IMSI: a long-term event has the result of
  // the database; a one-shot event has the first result that the MME gave for it, or what
  // the request recorded if a successful answer does not name it, or
  // DIAMETER_UNABLE_TO_COMPLY if there is no successful answer.
  lemma ReportedResult(key: EventKey, status: ConfStatus, result: nat, items: seq<AnswerItem>, imsi: string,
                       msisdn: string)
    ensures var reported := StatusFor(key, status, Answered(result, items, imsi, msisdn)).status.result;
      if IsLongTerm(status) then reported == status.result
      else if result != 2001 then reported == 5012
      else
        && (forall i :: 0 <= i < |items| && items[i].0 == key && (forall j :: 0 <= j < i ==> items[j].0 != key) ==>
              reported == if items[i].1.Some? then items[i].1.value else 0)
        && ((forall i :: 0 <= i < |items| ==> items[i].0 != key) ==> reported == status.result)
  {
    KeysOfItems(items, key);
    forall i | 0 <= i < |items| && items[i].0 == key && (forall j :: 0 <= j < i ==> items[j].0 != key)
      ensures key in MmeStatuses(items) && MmeStatuses(items)[key] == ItemStatus(items[i])
    {
      FirstItemWins(items, i);
    }
  }

  // ---------------------------------------------------------------------------
  // The sending loop.

  // What the loop finds of an IMSI: the columns it reads, whether the MME's connection is
  // open, and whether a request to it goes out.
  datatype Subscriber = Subscriber(attached: bool, mmeOpen: bool, sends: bool, msisdn: string)

  datatype MmeAnswer = MmeAnswer(result: nat, items: seq<AnswerItem>)

  predicate Reachable(s: Subscriber) {
    s.attached && s.mmeOpen
  }

  // The responses that the loop posts itself, and the IMSIs that it asks the MMEs about.
  method SendToAll(imsis: seq<string>, find: string -> Subscriber) returns (posted: seq<Response>, asked: seq<string>)
    ensures posted == Posted(imsis, find) && asked == Asked(imsis, find)
  {
    posted, asked := [], [];
    for i := 0 to |imsis|
      invariant posted == Posted(imsis[..i], find) && asked == Asked(imsis[..i], find)
    {
      var imsi := imsis[i];
      var found := find(imsi);
      var simulated := Simulated(imsi, found.attached, found.mmeOpen, found.msisdn);
      if simulated.Some? {
        posted := posted + [simulated.value];
      } else if found.sends {
        asked := asked + [imsi];
      }
      assert imsis[..i + 1][..i] == imsis[..i];
    }
    assert imsis[..|imsis|] == imsis;
  }

  function Posted(imsis: seq<string>, find: string -> Subscriber): seq<Response> {
    if imsis == [] then []
    else
      var x := imsis[|imsis| - 1];
      var s := find(x);
      Posted(imsis[..|imsis| - 1], find) +
      match Simulated(x, s.attached, s.mmeOpen, s.msisdn)
      case Some(r) => [r]
      case None => []
  }

  function Asked(imsis: seq<string>, find: string -> Subscriber): seq<string> {
    if imsis == [] then []
    else
      var x := imsis[|imsis| - 1];
      Asked(imsis[..|imsis| - 1], find) + if Reachable(find(x)) && find(x).sends then [x] else []
  }

  function AnswerOf(find: string -> Subscriber, answers: string -> MmeAnswer): string -> Response {
    x => Answered(answers(x).result, answers(x).items, x, find(x).msisdn)
  }

  // What arrives in the end, in any order: what the loop posted, and one answer to each
  // request that went out.
  ghost predicate ArriveFrom(imsis: seq<string>, find: string -> Subscriber, answers: string -> MmeAnswer,
                             rs: seq<Response>) {
    multiset(rs) == multiset(Posted(imsis, find)) + multiset(Mapped(AnswerOf(find, answers), Asked(imsis, find)))
  }

  // ---------------------------------------------------------------------------
  // One response for each IMSI.

  predicate Responds(s: Subscriber) {
    Reachable(s) ==> s.sends
  }

  // The IMSIs that get a response, in the order of the list.
  function Responding(imsis: seq<string>, find: string -> Subscriber): seq<string> {
    if imsis == [] then []
    else
      var x := imsis[|imsis| - 1];
      Responding(imsis[..|imsis| - 1], find) + if Responds(find(x)) then [x] else []
  }

  function ResponseOf(find: string -> Subscriber, answers: string -> MmeAnswer): string -> Response {
    x =>
      var s := find(x);
      if Reachable(s) then AnswerOf(find, answers)(x)
      else Response(None, x, if s.attached then MME_DOWN else IMSI_NOT_ACTIVE, s.msisdn)
  }

  lemma {:induction false} ResponsesAreOfTheList(imsis: seq<string>, find: string -> Subscriber,
                                                 answers: string -> MmeAnswer)
    ensures multiset(Posted(imsis, find)) + multiset(Mapped(AnswerOf(find, answers), Asked(imsis, find))) ==
            multiset(Mapped(ResponseOf(find, answers), Responding(imsis, find)))
  {
    if imsis != [] {
      var before, x := imsis[..|imsis| - 1], imsis[|imsis| - 1];
      var f, g := AnswerOf(find, answers), ResponseOf(find, answers);
      ResponsesAreOfTheList(before, find, answers);
      MappedOneMore(g, Responding(before, find), x);
      if !Reachable(find(x)) {
        assert Posted(imsis, find) == Posted(before, find) + [g(x)];
        assert Asked(imsis, find) == Asked(before, find);
      } else {
        assert Posted(imsis, find) == Posted(before, find);
        if find(x).sends {
          MappedOneMore(f, Asked(before, find), x);
          assert f(x) == g(x);
          assert Asked(imsis, find) == Asked(before, find) + [x];
          assert Responding(imsis, find) == Responding(before, find) + [x];
        } else {
          assert Asked(imsis, find) == Asked(before, find);
          assert Responding(imsis, find) == Responding(before, find);
        }
      }
    }
  }

  lemma MappedOneMore<A, B>(f: A -> B, xs: seq<A>, x: A)
    ensures Mapped(f, xs + [x]) == Mapped(f, xs) + [f(x)]
  {
    MappedConcat(f, xs, [x]);
    assert Mapped(f, [x]) == [f(x)];
  }

  lemma {:induction false} RespondingIsTheList(imsis: seq<string>, find: string -> Subscriber)
    ensures |Responding(imsis, find)| <= |imsis|
    ensures |Responding(imsis, find)| == |imsis| <==> forall x <- imsis :: Responds(find(x))
    ensures |Responding(imsis, find)| == |imsis| ==> Responding(imsis, find) == imsis
    ensures forall x :: x in Responding(imsis, find) <==> x in imsis && Responds(find(x))
  {
    if imsis != [] {
      var before, x := imsis[..|imsis| - 1], imsis[|imsis| - 1];
      RespondingIsTheList(before, find);
      assert imsis == before + [x];
    }
  }

  function ImsiOf(): ImsiStatus -> string {
    (st: ImsiStatus) => st.imsi
  }

  // What the report says of an IMSI, beside the result that its MME gives: 101 is the
  // detached subscriber, reported as absent, and 100 an MME that gave no good answer.
  ghost predicate TellsOf(status: ConfStatus, s: Subscriber, answer: MmeAnswer, st: ImsiStatus) {
    && st.msisdn == s.msisdn
    && st.reachability == (if !s.attached then 101 else if s.mmeOpen && answer.result == 2001 then 0 else 100)
    && (IsLongTerm(status) ==> st.status == status)
    && (!IsLongTerm(status) && st.reachability != 0 ==> st.status.result == 5012)
  }

  lemma ResponseTellsOf(key: EventKey, status: ConfStatus, find: string -> Subscriber, answers: string -> MmeAnswer,
                        x: string)
    ensures var st := StatusFor(key, status, ResponseOf(find, answers)(x));
      st.imsi == x && TellsOf(status, find(x), answers(x), st)
  {
    var s, r := find(x), ResponseOf(find, answers)(x);
    hide IsLongTerm;
    if Reachable(s) {
      assert r == Answered(answers(x).result, answers(x).items, x, s.msisdn);
    } else {
      assert r == Response(None, x, if s.attached then MME_DOWN else IMSI_NOT_ACTIVE, s.msisdn);
    }
  }

  // Under every configured key the report names the IMSIs that respond, each as often as
  // the list does, with the status of its own response; whatever the order of arrival.
  lemma EachImsiIsReported(imsis: seq<string>, find: string -> Subscriber, answers: string -> MmeAnswer,
                           hss: StatusMap, rs: seq<Response>, key: EventKey)
    requires key in hss && ArriveFrom(imsis, find, answers, rs)
    ensures var list := ListAt(ReportOf(hss, rs), key);
      && multiset(Mapped(ImsiOf(), list)) == multiset(Responding(imsis, find))
      && (forall st <- list :: st == StatusFor(key, hss[key], ResponseOf(find, answers)(st.imsi)))
      && (forall st <- list :: TellsOf(hss[key], find(st.imsi), answers(st.imsi), st))
  {
    var xs := Responding(imsis, find);
    var all := Mapped(ResponseOf(find, answers), xs);
    ResponsesAreOfTheList(imsis, find, answers);
    OrderDoesNotMatter(hss, rs, all, key);
    ListIsStatuses(hss, all, key);
    var list, same := ListAt(ReportOf(hss, rs), key), Statuses(key, hss[key], all);
    assert multiset(list) == multiset(same);
    MappedPermutes(ImsiOf(), list, same);
    assert Mapped(ImsiOf(), same) == xs;
    hide TellsOf;
    forall st | st in list
      ensures st == StatusFor(key, hss[key], ResponseOf(find, answers)(st.imsi))
      ensures TellsOf(hss[key], find(st.imsi), answers(st.imsi), st)
    {
      assert st in multiset(same);
      ResponseTellsOf(key, hss[key], find, answers, st.imsi);
    }
  }

  // The join waits for as many responses as the list has IMSIs. So once all that arrives
  // has arrived, the report is out exactly when every request to an MME could be sent;
  // and then it has every IMSI of a list without repetitions exactly once.
  lemma GroupIsReported(imsis: seq<string>, find: string -> Subscriber, answers: string -> MmeAnswer,
                        hss: StatusMap, ms: seq<Message>, bs: seq<Builder>)
    requires IsRun(|imsis|, hss, ms, bs) && CiasSent(ms) == 1
    requires ArriveFrom(imsis, find, answers, Responses(ms))
    ensures Arrivals(|imsis|, ms)
    ensures bs[|ms|].quits == if forall x <- imsis :: Responds(find(x)) then 1 else 0
    ensures bs[|ms|].quits == 1 ==> forall key :: key in hss ==>
      multiset(Mapped(ImsiOf(), ListAt(bs[|ms|].collected, key))) == multiset(imsis)
  {
    var rs, n := Responses(ms), |imsis|;
    RespondingIsTheList(imsis, find);
    ResponsesAreOfTheList(imsis, find, answers);
    SameLength(rs, Mapped(ResponseOf(find, answers), Responding(imsis, find)));
    StateAt(n, hss, ms, bs, |ms|);
    assert ms[..|ms|] == ms;
    if bs[|ms|].quits == 1 {
      forall key | key in hss
        ensures multiset(Mapped(ImsiOf(), ListAt(bs[|ms|].collected, key))) == multiset(imsis)
      {
        EachImsiIsReported(imsis, find, answers, hss, rs, key);
      }
    }
  }

  lemma SameLength<A>(xs: seq<A>, ys: seq<A>)
    requires multiset(xs) == multiset(ys)
    ensures |xs| == |ys|
  {
    assert |multiset(xs)| == |xs| && |multiset(ys)| == |ys|;
  }
}
