// The network's row and a USIM over whole runs of authentication requests.
module AkaRuns {
  import opened Wrappers
  import opened Rijndael
  import opened Milenage
  import opened SqnCodec
  import opened SubscriberStore
  import opened Aka
  import opened AirAuthentication

  datatype World = World(row: Row, usim: Usim)

  // The two sides hold the same secrets.
  predicate Shared(w: World) {
    w.row.Valid() && SecretsOf(w.row) == w.usim.x
  }

  // The stored sequence number is ahead of the USIM's.
  predicate InStep(w: World) {
    Shared(w) && w.row.sqn > SqnValue(w.usim.sqnMs)
  }

  // One request for one vector. The database takes its update or rejects it, after the
  // answer is out; and the challenge reaches the USIM or is lost.
  datatype Attempt = Attempt(rand: Bytes16, plmn: Bytes3, auts: Option<Bytes30>, stored: bool, delivered: bool)

  function Challenge(a: Algorithms, w: World, e: Attempt): Vector
    requires Shared(w)
  {
    VectorFor(a, w.usim.x, e.rand, e.plmn, SqnToUse(a, w.row, e.auts))
  }

  function ReplyTo(a: Algorithms, w: World, e: Attempt): Reply
    requires Shared(w)
  {
    Answer(a, w.usim, e.rand, e.plmn, Challenge(a, w, e).autn).0
  }

  // The USIM answers with the network's XRES and derives the network's KASME.
  predicate Accepts(a: Algorithms, w: World, e: Attempt)
    requires Shared(w)
  {
    ReplyTo(a, w, e) == Accepted(Challenge(a, w, e).xres, Challenge(a, w, e).kasme)
  }

  function After(a: Algorithms, w: World, e: Attempt): (w': World)
    requires Shared(w)
  {
    World(if e.stored then RowAfter(a, w.row, e.auts, [e.rand]) else w.row,
          if e.delivered then Answer(a, w.usim, e.rand, e.plmn, Challenge(a, w, e).autn).1 else w.usim)
  }

  // The challenge is the vector the program makes.
  lemma ChallengeIsTheVector(a: Algorithms, w: World, e: Attempt)
    requires Shared(w)
    ensures VectorsFor(a, w.row, e.auts, e.plmn, [e.rand]) == [Challenge(a, w, e)]
  {
    hide SqnToUse;
  }

  // What a reader of the updated row finds: the RAND byte for byte, and the sequence
  // number used plus 32, modulo 2^48 and with its low five bits kept.
  lemma StoreLoadRoundTrip(a: Algorithms, row: Row, auts: Option<Bytes30>, rands: seq<Bytes16>)
    requires row.Valid() && |rands| > 0
    ensures var row' := RowAfter(a, row, auts, rands); var q := SqnValue(SqnToUse(a, row, auts));
      && row'.Valid()
      && SecretsOf(row') == SecretsOf(row)
      && RandOf(row') == rands[|rands| - 1]
      && SqnValue(SqnIn(row')) == (q + 32) % TWO_48
      && SqnValue(SqnIn(row')) % 32 == q % 32
  {
    hide Unhex, Hex, SqnToUse, SqnValue, SqnOf;
    UnhexOfHex(rands[|rands| - 1]);
    SqnOfSqnValue(SqnToUse(a, row, auts));
    SqnValueOfSqnOf(SqnValue(SqnToUse(a, row, auts)) + SQN_STEP);
  }

  // A delivered challenge is accepted exactly when its sequence number is above the
  // USIM's; a rejected one brings back the USIM's own.
  lemma OneAttempt(a: Algorithms, w: World, e: Attempt)
    requires Shared(w)
    ensures var q := SqnToUse(a, w.row, e.auts); var w' := After(a, w, e);
      && Shared(w')
      && (if e.stored then w'.row.sqn == SqnValue(q) + SQN_STEP && RandOf(w'.row) == e.rand else w'.row == w.row)
      && (Accepts(a, w, e) <==> SqnValue(q) > SqnValue(w.usim.sqnMs))
      && (!Accepts(a, w, e) ==> ReplyTo(a, w, e) == SyncFailure(UeAuts(a, w.usim.x, e.rand, w.usim.sqnMs)))
      && w'.usim == if e.delivered && Accepts(a, w, e) then w.usim.(sqnMs := q) else w.usim
  {
    hide SqnToUse, SqnValue, VectorFor, Answer, UeAuts, RandOf, SecretsOf, RowAfter;
    StoreLoadRoundTrip(a, w.row, e.auts, [e.rand]);
    UsimAnswersVector(a, w.usim, e.rand, e.plmn, SqnToUse(a, w.row, e.auts));
    RowAfterSqn(a, w.row, e.auts, e.rand);
    VectorRand(a, w.usim.x, e.rand, e.plmn, SqnToUse(a, w.row, e.auts));
  }

  lemma RowAfterSqn(a: Algorithms, row: Row, auts: Option<Bytes30>, rand: Bytes16)
    requires row.Valid()
    ensures RowAfter(a, row, auts, [rand]).sqn == SqnValue(SqnToUse(a, row, auts)) + SQN_STEP
  {
  }

  lemma VectorRand(a: Algorithms, x: Secrets, rand: Bytes16, plmn: Bytes3, sqn: Bytes6)
    ensures VectorFor(a, x, rand, plmn, sqn).rand == rand
  {
  }

  // ---------------------------------------------------------------------------
  // Which number a request uses.

  // The request brings no AUTS, or one that does not open under the stored RAND.
  predicate Plain(a: Algorithms, w: World, e: Attempt)
    requires Shared(w)
  {
    e.auts == None || SqnMs(a, w.usim.x, RandOf(w.row), e.auts.value) == None
  }

  // The request brings the AUTS of this USIM under the stored RAND.
  predicate FromUsim(a: Algorithms, w: World, e: Attempt)
    requires Shared(w)
  {
    e.auts == Some(UeAuts(a, w.usim.x, RandOf(w.row), w.usim.sqnMs))
  }

  // The stored number, modulo 2^48.
  lemma PlainNumber(a: Algorithms, w: World, e: Attempt)
    requires Shared(w) && Plain(a, w, e) && w.row.sqn >= 0
    ensures SqnValue(SqnToUse(a, w.row, e.auts)) == w.row.sqn % TWO_48
  {
    hide SqnValue, SqnOf, SqnMs, SecretsOf, RandOf;
    SqnValueOfSqnOf(w.row.sqn);
  }

  // The USIM's number plus 32, modulo 2^48.
  lemma UsimNumber(a: Algorithms, w: World, e: Attempt)
    requires Shared(w) && FromUsim(a, w, e)
    ensures SqnValue(SqnToUse(a, w.row, e.auts)) == (SqnValue(w.usim.sqnMs) + SQN_STEP) % TWO_48
  {
    hide SqnValue, SqnOf, SqnMs, SecretsOf, RandOf, UeAuts;
    SqnMsOpensExactlyUeAuts(a, w.usim.x, RandOf(w.row), e.auts.value, w.usim.sqnMs);
    SqnOfSqnValue(w.usim.sqnMs);
    SqnValueOfSqnOf(SqnValue(w.usim.sqnMs) + SQN_STEP);
  }

  // ---------------------------------------------------------------------------
  // One step.

  // While 48 bits last, a challenge in step is always accepted; and the two sides are
  // in step afterwards if and only if the update was stored, or the challenge did not
  // move the USIM up to the stored number.
  lemma StepKeepsInStepExactly(a: Algorithms, w: World, e: Attempt)
    requires InStep(w) && (Plain(a, w, e) || FromUsim(a, w, e))
    requires w.row.sqn < TWO_48 && SqnValue(w.usim.sqnMs) + SQN_STEP < TWO_48
    ensures Accepts(a, w, e)
    ensures InStep(After(a, w, e)) <==>
      e.stored || !e.delivered || SqnValue(SqnToUse(a, w.row, e.auts)) < w.row.sqn
  {
    hide SqnToUse, SqnValue, After, Accepts, SecretsOf, Plain, FromUsim;
    OneAttempt(a, w, e);
    if Plain(a, w, e) {
      PlainNumber(a, w, e);
    } else {
      UsimNumber(a, w, e);
    }
  }

  // So a rejected update after an answer that arrives takes the two sides out of step,
  // and the next challenge is refused although nothing was lost.
  lemma RejectedUpdateBreaksStep(a: Algorithms, w: World, e: Attempt, next: Attempt)
    requires InStep(w) && w.row.sqn < TWO_48 && e.auts == None && next.auts == None
    requires e.delivered && !e.stored
    ensures !InStep(After(a, w, e)) && Shared(After(a, w, e))
    ensures ReplyTo(a, After(a, w, e), next).SyncFailure?
  {
    hide SqnToUse, SqnValue, After, Accepts, ReplyTo, SecretsOf;
    OneAttempt(a, w, e);
    PlainNumber(a, w, e);
    var w1 := After(a, w, e);
    OneAttempt(a, w1, next);
    PlainNumber(a, w1, next);
  }

  // ---------------------------------------------------------------------------
  // Runs.

  function AfterAll(a: Algorithms, w: World, es: seq<Attempt>): World
    requires Shared(w)
    ensures Shared(AfterAll(a, w, es))
    decreases |es|
  {
    hide SqnToUse, SqnValue, Answer, RowAfter, SecretsOf;
    if es == [] then w
    else
      OneAttempt(a, w, es[0]);
      AfterAll(a, After(a, w, es[0]), es[1..])
  }

  // How many challenges arrive and are refused.
  function Refusals(a: Algorithms, w: World, es: seq<Attempt>): nat
    requires Shared(w)
    decreases |es|
  {
    hide SqnToUse, SqnValue, Answer, RowAfter, SecretsOf;
    if es == [] then 0
    else
      OneAttempt(a, w, es[0]);
      (if es[0].delivered && !Accepts(a, w, es[0]) then 1 else 0) + Refusals(a, After(a, w, es[0]), es[1..])
  }

  // How many attempts move the stored number before the last one uses it.
  function StoredBeforeLast(es: seq<Attempt>): nat {
    if |es| <= 1 then 0 else (if es[0].stored then 1 else 0) + StoredBeforeLast(es[1..])
  }

  // Some attempt from i up to but not including j is stored.
  ghost predicate StoredBetween(es: seq<Attempt>, i: int, j: int)
    requires 0 <= i <= j <= |es|
  {
    exists k :: i <= k < j && es[k].stored
  }

  // Between any two challenges that arrive, from the first of them on, some update is
  // stored.
  ghost predicate Covered(es: seq<Attempt>) {
    forall i, j :: 0 <= i < j < |es| && es[i].delivered && es[j].delivered ==> StoredBetween(es, i, j)
  }

  // And some update is stored from the last of them on.
  ghost predicate CoveredToTheEnd(es: seq<Attempt>) {
    forall i :: 0 <= i < |es| && es[i].delivered ==> StoredBetween(es, i, |es|)
  }

  // The same, attempt by attempt: stale says that the stored number was used up.
  predicate CoveredFrom(stale: bool, es: seq<Attempt>)
    decreases |es|
  {
    es == [] || ((es[0].delivered ==> !stale) && CoveredFrom(StaleAfter(stale, es[0]), es[1..]))
  }

  predicate StaleAfter(stale: bool, e: Attempt) {
    !e.stored && (stale || e.delivered)
  }

  predicate StaleAtEnd(stale: bool, es: seq<Attempt>)
    decreases |es|
  {
    if es == [] then stale else StaleAtEnd(StaleAfter(stale, es[0]), es[1..])
  }

  lemma StoredBetweenShifts(es: seq<Attempt>, i: int, j: int)
    requires 1 <= i <= j <= |es|
    ensures StoredBetween(es, i, j) <==> StoredBetween(es[1..], i - 1, j - 1)
  {
    if StoredBetween(es, i, j) {
      var k :| i <= k < j && es[k].stored;
      assert es[1..][k - 1].stored;
    }
  }

  lemma StoredBetweenFromFirst(es: seq<Attempt>, j: int)
    requires 1 <= j <= |es|
    ensures StoredBetween(es, 0, j) <==> es[0].stored || StoredBetween(es[1..], 0, j - 1)
  {
    StoredBetweenShifts(es, 1, j);
    if StoredBetween(es, 0, j) {
      var k :| 0 <= k < j && es[k].stored;
      assert k > 0 ==> StoredBetween(es, 1, j);
    }
  }

  // The condition on the attempts, if the number in store has been used already.
  ghost predicate Opening(es: seq<Attempt>) {
    forall j :: 0 <= j < |es| && es[j].delivered ==> StoredBetween(es, 0, j)
  }

  lemma OpeningShifts(es: seq<Attempt>)
    requires es != []
    ensures Opening(es) <==> !es[0].delivered && (es[0].stored || Opening(es[1..]))
  {
    var rest := es[1..];
    forall j | 1 <= j < |es| ensures StoredBetween(es, 0, j) <==> es[0].stored || StoredBetween(rest, 0, j - 1) {
      StoredBetweenFromFirst(es, j);
    }
    assert !StoredBetween(es, 0, 0);
    assert forall j :: 0 <= j < |rest| ==> rest[j] == es[j + 1];
    if es[0].stored || Opening(rest) {
      assert !es[0].delivered ==> Opening(es);
    }
    if Opening(es) && !es[0].stored {
      forall j | 0 <= j < |rest| && rest[j].delivered ensures StoredBetween(rest, 0, j) {
        assert StoredBetween(es, 0, j + 1);
      }
    }
  }

  // What the first attempt asks of the others, if it arrives.
  lemma CoveredShifts(es: seq<Attempt>)
    requires es != []
    ensures Covered(es) <==> Covered(es[1..]) && (es[0].delivered && !es[0].stored ==> Opening(es[1..]))
  {
    var rest := es[1..];
    forall i, j | 1 <= i < j < |es| ensures StoredBetween(es, i, j) <==> StoredBetween(rest, i - 1, j - 1) {
      StoredBetweenShifts(es, i, j);
    }
    forall j | 1 <= j < |es| ensures StoredBetween(es, 0, j) <==> es[0].stored || StoredBetween(rest, 0, j - 1) {
      StoredBetweenFromFirst(es, j);
    }
    if Covered(es) {
      forall i, j | 0 <= i < j < |rest| && rest[i].delivered && rest[j].delivered ensures StoredBetween(rest, i, j) {
        assert StoredBetween(es, i + 1, j + 1);
      }
      if es[0].delivered && !es[0].stored {
        forall j | 0 <= j < |rest| && rest[j].delivered ensures StoredBetween(rest, 0, j) {
          assert StoredBetween(es, 0, j + 1);
        }
      }
    }
  }

  lemma {:induction false} CoveredFromMeans(stale: bool, es: seq<Attempt>)
    ensures CoveredFrom(stale, es) <==> Covered(es) && (stale ==> Opening(es))
    decreases |es|
  {
    hide Covered, Opening;
    if es == [] {
      NoAttempts(es);
    } else {
      CoveredShifts(es);
      OpeningShifts(es);
      CoveredFromMeans(StaleAfter(stale, es[0]), es[1..]);
    }
  }

  lemma NoAttempts(es: seq<Attempt>)
    requires es == []
    ensures Covered(es) && Opening(es)
  {
  }

  lemma CoveredToTheEndShifts(es: seq<Attempt>)
    requires es != []
    ensures CoveredToTheEnd(es) <==>
      CoveredToTheEnd(es[1..]) && (es[0].delivered ==> StoredBetween(es, 0, |es|))
  {
    var rest := es[1..];
    forall i | 1 <= i < |es| ensures StoredBetween(es, i, |es|) <==> StoredBetween(rest, i - 1, |rest|) {
      StoredBetweenShifts(es, i, |es|);
    }
    if CoveredToTheEnd(es) {
      forall i | 0 <= i < |rest| && rest[i].delivered ensures StoredBetween(rest, i, |rest|) {
        assert StoredBetween(es, i + 1, |es|);
      }
    }
  }

  lemma {:induction false} StaleAtEndMeans(stale: bool, es: seq<Attempt>)
    ensures StaleAtEnd(stale, es) <==> !CoveredToTheEnd(es) || (stale && !StoredBetween(es, 0, |es|))
    decreases |es|
  {
    if es != [] {
      StaleAtEndMeans(StaleAfter(stale, es[0]), es[1..]);
      hide CoveredToTheEnd, StoredBetween;
      CoveredToTheEndShifts(es);
      StoredBetweenFromFirst(es, |es|);
    }
  }

  ghost predicate WithoutAuts(es: seq<Attempt>) {
    forall e <- es :: e.auts == None
  }

  function StoredCount(es: seq<Attempt>): nat
    decreases |es|
  {
    if es == [] then 0 else (if es[0].stored then 1 else 0) + StoredCount(es[1..])
  }

  // The stored number is ahead of the USIM's, or used up.
  predicate Standing(w: World, stale: bool) {
    Shared(w) && if stale then w.row.sqn == SqnValue(w.usim.sqnMs) else w.row.sqn > SqnValue(w.usim.sqnMs)
  }

  // One attempt without AUTS while 48 bits last.
  lemma StandingAfter(a: Algorithms, w: World, e: Attempt, stale: bool)
    requires Standing(w, stale) && w.row.sqn < TWO_48 && e.auts == None
    ensures Accepts(a, w, e) <==> !stale
    ensures Shared(After(a, w, e))
    ensures After(a, w, e).row.sqn == w.row.sqn + if e.stored then SQN_STEP else 0
    ensures !stale || !e.delivered ==> Standing(After(a, w, e), StaleAfter(stale, e))
  {
    hide SqnToUse, SqnValue, After, Accepts, SecretsOf;
    OneAttempt(a, w, e);
    PlainNumber(a, w, e);
  }

  lemma {:induction false} RunStands(a: Algorithms, w: World, es: seq<Attempt>, stale: bool)
    requires Standing(w, stale) && WithoutAuts(es)
    requires es != [] ==> w.row.sqn + SQN_STEP * StoredBeforeLast(es) < TWO_48
    ensures Refusals(a, w, es) == 0 <==> CoveredFrom(stale, es)
    ensures CoveredFrom(stale, es) ==>
      && Standing(AfterAll(a, w, es), StaleAtEnd(stale, es))
      && AfterAll(a, w, es).row.sqn == w.row.sqn + SQN_STEP * StoredCount(es)
    decreases |es|
  {
    hide After, Accepts, SecretsOf, SqnValue, SqnToUse;
    if es != [] {
      StandingAfter(a, w, es[0], stale);
      if !stale || !es[0].delivered {
        RunStands(a, After(a, w, es[0]), es[1..], StaleAfter(stale, es[0]));
      }
    }
  }

  // Over every run of requests without AUTS, with any challenges lost and any updates
  // rejected, while 48 bits last: no challenge that arrives is refused if and only if,
  // between any two that arrive, some update is stored; and then the two sides end in
  // step if and only if some update is stored from the last of them on.
  lemma StaysInStep(a: Algorithms, w: World, es: seq<Attempt>)
    requires InStep(w) && WithoutAuts(es)
    requires es != [] ==> w.row.sqn + SQN_STEP * StoredBeforeLast(es) < TWO_48
    ensures Refusals(a, w, es) == 0 <==> Covered(es)
    ensures Covered(es) ==>
      && (InStep(AfterAll(a, w, es)) <==> CoveredToTheEnd(es))
      && AfterAll(a, w, es).row.sqn == w.row.sqn + SQN_STEP * StoredCount(es)
  {
    hide Covered, CoveredToTheEnd, CoveredFrom, StaleAtEnd, AfterAll, Refusals, SqnValue, SecretsOf;
    RunStands(a, w, es, false);
    CoveredFromMeans(false, es);
    StaleAtEndMeans(false, es);
  }

  // In particular when the update after every challenge that arrives is stored.
  lemma StoredUpdatesCover(es: seq<Attempt>)
    requires forall e <- es :: e.delivered ==> e.stored
    ensures Covered(es) && CoveredToTheEnd(es)
  {
    forall i, j | 0 <= i < j <= |es| && es[i].delivered ensures StoredBetween(es, i, j) {
      assert es[i] in es;
    }
  }

  // The bound is exact: when every update is stored and every challenge arrives, none is
  // refused if and only if the last number issued still fits in 48 bits.
  lemma {:induction false} BoundIsExact(a: Algorithms, w: World, es: seq<Attempt>)
    requires InStep(w) && w.row.sqn < TWO_48 && es != [] && WithoutAuts(es)
    requires forall e <- es :: e.delivered && e.stored
    ensures Refusals(a, w, es) == 0 <==> w.row.sqn + SQN_STEP * (|es| - 1) < TWO_48
    decreases |es|
  {
    hide SqnToUse, SqnValue, After, Accepts, SecretsOf;
    var e := es[0];
    var w1 := After(a, w, e);
    StandingAfter(a, w, e, false);
    assert InStep(w1);
    if |es| > 1 {
      if w1.row.sqn < TWO_48 {
        BoundIsExact(a, w1, es[1..]);
      } else {
        WrappedIsRefused(a, w, e, es[1]);
      }
    }
  }

  // The first number past 48 bits starts again below the USIM's.
  lemma WrappedIsRefused(a: Algorithms, w: World, e: Attempt, next: Attempt)
    requires InStep(w) && w.row.sqn < TWO_48 <= w.row.sqn + SQN_STEP
    requires e.auts == None && next.auts == None && e.delivered && e.stored
    ensures Shared(After(a, w, e)) && !Accepts(a, After(a, w, e), next)
  {
    hide SqnToUse, SqnValue, After, Accepts, SecretsOf;
    OneAttempt(a, w, e);
    PlainNumber(a, w, e);
    OneAttempt(a, After(a, w, e), next);
    PlainNumber(a, After(a, w, e), next);
  }

  // ---------------------------------------------------------------------------
  // Resynchronisation.

  // However far apart the two sides are: if the USIM refuses a challenge whose update
  // was stored and its AUTS comes with the next request, the number used is SQN_MS + 32
  // and the next challenge is accepted if and only if 48 bits do not wrap. Then the two
  // sides are in step again if that update is stored, even if the challenge is lost.
  lemma ResyncRepairs(a: Algorithms, w: World, refused: Attempt, next: Attempt)
    requires Shared(w) && refused.delivered && refused.stored
    requires ReplyTo(a, w, refused).SyncFailure? && next.auts == Some(ReplyTo(a, w, refused).auts)
    ensures var w1 := After(a, w, refused); var m := SqnValue(w.usim.sqnMs);
      && Shared(w1)
      && SqnValue(SqnToUse(a, w1.row, next.auts)) == (m + 32) % TWO_48
      && (Accepts(a, w1, next) <==> m + 32 < TWO_48)
      && (m + 32 < TWO_48 && next.stored ==>
            InStep(After(a, w1, next)) && After(a, w1, next).row.sqn == m + 64)
  {
    hide SqnToUse, SqnValue, After, ReplyTo, SecretsOf, RandOf, UeAuts, VectorFor, XorSeq;
    OneAttempt(a, w, refused);
    var w1 := After(a, w, refused);
    UsimNumber(a, w1, next);
    SqnOfSqnValue(w.usim.sqnMs);
    OneAttempt(a, w1, next);
  }

  // If the update of the refused challenge was rejected, the stored RAND is not the one
  // of the AUTS: nothing changes, and unless the AUTS opens under the stored RAND all the
  // same the next challenge is refused again.
  lemma RejectedRandLosesAuts(a: Algorithms, w: World, refused: Attempt, next: Attempt)
    requires Shared(w) && refused.delivered && !refused.stored && Plain(a, w, refused)
    requires ReplyTo(a, w, refused).SyncFailure? && next.auts == Some(ReplyTo(a, w, refused).auts)
    ensures After(a, w, refused) == w
    ensures Plain(a, w, next) ==> ReplyTo(a, w, next).SyncFailure?
    ensures RandOf(w.row) == refused.rand ==> FromUsim(a, w, next)
  {
    hide SqnToUse, SqnValue, After, ReplyTo, SecretsOf, RandOf, UeAuts, SqnMs, VectorFor;
    OneAttempt(a, w, refused);
    OneAttempt(a, w, next);
    if Plain(a, w, next) {
      SameNumber(a, w, refused, next);
    }
  }

  lemma SameNumber(a: Algorithms, w: World, e: Attempt, next: Attempt)
    requires Shared(w) && Plain(a, w, e) && Plain(a, w, next)
    ensures SqnToUse(a, w.row, e.auts) == SqnToUse(a, w.row, next.auts)
  {
    hide SqnMs, SecretsOf, RandOf, SqnIn;
  }

  // ---------------------------------------------------------------------------
  // Runs with resynchronisation.

  // Every request brings no AUTS, or one that does not open, or the USIM's own under the
  // stored RAND.
  predicate Played(a: Algorithms, w: World, es: seq<Attempt>)
    requires Shared(w)
    decreases |es|
  {
    hide SqnToUse, SqnValue, Answer, RowAfter, SecretsOf, Accepts, Plain, FromUsim;
    es == [] ||
    (OneAttempt(a, w, es[0]);
     (Plain(a, w, es[0]) || FromUsim(a, w, es[0])) && Played(a, After(a, w, es[0]), es[1..]))
  }

  // The network owes the USIM its resynchronisation: from a refusal whose update was
  // stored until the next update that is stored, or challenge that arrives.
  predicate OwedAfter(a: Algorithms, w: World, e: Attempt, owed: bool)
    requires Shared(w)
  {
    if e.delivered then e.stored && !Accepts(a, w, e) else owed && !e.stored
  }

  // How many requests do not bring the AUTS although it is owed.
  function Ignored(a: Algorithms, w: World, es: seq<Attempt>, owed: bool): nat
    requires Shared(w)
    decreases |es|
  {
    hide SqnToUse, SqnValue, Answer, RowAfter, SecretsOf, Accepts, FromUsim;
    if es == [] then 0
    else
      OneAttempt(a, w, es[0]);
      (if owed && !FromUsim(a, w, es[0]) then 1 else 0) +
      Ignored(a, After(a, w, es[0]), es[1..], OwedAfter(a, w, es[0], owed))
  }

  // How many updates are rejected although their challenge arrives.
  function RejectedAfterArrival(es: seq<Attempt>): nat
    decreases |es|
  {
    if es == [] then 0 else (if es[0].delivered && !es[0].stored then 1 else 0) + RejectedAfterArrival(es[1..])
  }

  // Every number of the next n requests fits in 48 bits.
  predicate Lasts(w: World, n: nat) {
    0 <= w.row.sqn && w.row.sqn + 64 * n < TWO_48 && SqnValue(w.usim.sqnMs) + 64 * (n + 1) < TWO_48
  }

  lemma PlayedStep(a: Algorithms, w: World, e: Attempt, n: nat)
    requires Shared(w) && (Plain(a, w, e) || FromUsim(a, w, e)) && Lasts(w, n + 1)
    ensures Shared(After(a, w, e)) && Lasts(After(a, w, e), n)
    ensures InStep(w) || FromUsim(a, w, e) ==> Accepts(a, w, e)
    ensures e.stored && Accepts(a, w, e) && (InStep(w) || FromUsim(a, w, e) || e.delivered) ==> InStep(After(a, w, e))
    ensures !e.stored && !e.delivered ==> After(a, w, e) == w
  {
    hide SqnToUse, SqnValue, After, Accepts, SecretsOf, Plain, FromUsim;
    OneAttempt(a, w, e);
    if FromUsim(a, w, e) {
      UsimNumber(a, w, e);
    } else {
      PlainNumber(a, w, e);
    }
  }

  // From any distance, while 48 bits last: beside a first refusal, every refusal has a
  // rejected update or an ignored AUTS to answer for it.
  lemma {:induction false} RefusalsAreBounded(a: Algorithms, w: World, es: seq<Attempt>, owed: bool)
    requires Shared(w) && Played(a, w, es) && Lasts(w, |es|)
    ensures Refusals(a, w, es) <=
            RejectedAfterArrival(es) + Ignored(a, w, es, owed) + if InStep(w) || owed then 0 else 1
    decreases |es|
  {
    hide SqnToUse, SqnValue, After, Accepts, SecretsOf, Plain, FromUsim, Lasts, InStep;
    if es != [] {
      PlayedStep(a, w, es[0], |es| - 1);
      RefusalsAreBounded(a, After(a, w, es[0]), es[1..], OwedAfter(a, w, es[0], owed));
    }
  }

  // So if every update after a challenge that arrives is stored and no AUTS is ignored,
  // at most one challenge that arrives is refused; and from in step, none.
  lemma AtMostOneRefusal(a: Algorithms, w: World, es: seq<Attempt>)
    requires Shared(w) && Played(a, w, es) && Lasts(w, |es|)
    requires RejectedAfterArrival(es) == 0 && Ignored(a, w, es, false) == 0
    ensures Refusals(a, w, es) <= if InStep(w) then 0 else 1
  {
    hide Refusals, InStep, Lasts, Played;
    RefusalsAreBounded(a, w, es, false);
  }

  // The bound is reached: from out of step, one rejected update after an arrival costs a
  // second refusal, and so does one request that ignores the AUTS.
  lemma BoundIsReached(a: Algorithms, w: World, first: Attempt, second: Attempt)
    requires Shared(w) && 0 <= w.row.sqn && w.row.sqn + SQN_STEP <= SqnValue(w.usim.sqnMs)
    requires first.auts == None && second.auts == None && first.delivered && second.delivered && second.stored
    ensures Refusals(a, w, [first, second]) == 2
    ensures RejectedAfterArrival([first, second]) == if first.stored then 0 else 1
    ensures Ignored(a, w, [first, second], false) == if first.stored then 1 else 0
  {
    hide SqnToUse, SqnValue, After, Accepts, SecretsOf, FromUsim;
    BothAreRefused(a, w, first, second);
    var es, w1 := [first, second], After(a, w, first);
    assert es[1..] == [second];
    OneMore(a, w1, second, first.stored);
  }

  lemma OneMore(a: Algorithms, w: World, e: Attempt, owed: bool)
    requires Shared(w) && e.auts == None && e.delivered && e.stored && !Accepts(a, w, e)
    ensures Refusals(a, w, [e]) == 1 && RejectedAfterArrival([e]) == 0
    ensures Ignored(a, w, [e], owed) == if owed then 1 else 0
  {
    hide SqnToUse, SqnValue, After, Accepts, SecretsOf, FromUsim;
    OneAttempt(a, w, e);
    NoneIsNotFromUsim(a, w, e);
    assert [e][1..] == [];
  }

  lemma BothAreRefused(a: Algorithms, w: World, first: Attempt, second: Attempt)
    requires Shared(w) && 0 <= w.row.sqn && w.row.sqn + SQN_STEP <= SqnValue(w.usim.sqnMs)
    requires first.auts == None && second.auts == None
    ensures !Accepts(a, w, first)
    ensures Shared(After(a, w, first)) && !Accepts(a, After(a, w, first), second)
  {
    hide SqnValue, After, Accepts, SecretsOf;
    LowNumberIsRefused(a, w, first);
    LowNumberIsRefused(a, After(a, w, first), second);
  }

  lemma LowNumberIsRefused(a: Algorithms, w: World, e: Attempt)
    requires Shared(w) && 0 <= w.row.sqn <= SqnValue(w.usim.sqnMs) && e.auts == None
    ensures !Accepts(a, w, e)
    ensures Shared(After(a, w, e)) && After(a, w, e).usim == w.usim
    ensures w.row.sqn <= After(a, w, e).row.sqn <= w.row.sqn + SQN_STEP
  {
    hide SqnToUse, SqnValue, After, Accepts, SecretsOf;
    SqnOfSqnValue(w.usim.sqnMs);
    PlainNumber(a, w, e);
    OneAttempt(a, w, e);
  }

  lemma NoneIsNotFromUsim(a: Algorithms, w: World, e: Attempt)
    requires Shared(w) && e.auts == None
    ensures !FromUsim(a, w, e)
  {
  }

  // The AUTS owed is the one of the reply to the refusal.
  lemma ReplyIsFromUsim(a: Algorithms, w: World, refused: Attempt, next: Attempt)
    requires Shared(w) && refused.delivered && refused.stored && ReplyTo(a, w, refused).SyncFailure?
    ensures Shared(After(a, w, refused)) && OwedAfter(a, w, refused, false)
    ensures FromUsim(a, After(a, w, refused), next) <==> next.auts == Some(ReplyTo(a, w, refused).auts)
  {
    hide SqnToUse, SqnValue, After, ReplyTo, SecretsOf, RandOf, UeAuts, VectorFor;
    OneAttempt(a, w, refused);
  }
}
