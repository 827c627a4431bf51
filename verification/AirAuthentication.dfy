// AIRProcessor::phase2 (src/s6as6d_impl.cpp) and FDHss::synchFix (src/fdhss.cpp):
// what one authentication request does to a subscriber's row.
module AirAuthentication {
  import opened Wrappers
  import opened Rijndael
  import opened Milenage
  import opened SqnCodec
  import opened SubscriberStore
  import opened Aka
  import opened Auc

  const SQN_STEP := 32
  const AUTH_MAX_EUTRAN_VECTORS := 6

  function SecretsOf(row: Row): Secrets
    requires row.Valid()
  {
    Secrets(Unhex(row.key, 16), Unhex(row.opc, 16))
  }

  function RandOf(row: Row): Bytes16
    requires row.Valid()
  {
    Unhex(row.rand, 16)
  }

  function SqnIn(row: Row): Bytes6 {
    SqnOf(row.sqn % TWO_64)
  }

  // An AUTS that opens moves the network past the USIM; one that does not is ignored.
  function SqnToUse(a: Algorithms, row: Row, auts: Option<Bytes30>): Bytes6
    requires row.Valid()
  {
    match auts
    case None => SqnIn(row)
    case Some(t) =>
      match SqnMs(a, SecretsOf(row), RandOf(row), t)
      case None => SqnIn(row)
      case Some(s) => SqnOf((SqnValue(s) + SQN_STEP) % TWO_64)
  }

  // The vectors of one answer: they share one sequence number.
  function VectorsFor(a: Algorithms, row: Row, auts: Option<Bytes30>, plmn: Bytes3, rands: seq<Bytes16>): seq<Vector>
    requires row.Valid()
  {
    hide SqnToUse;
    seq(|rands|, i requires 0 <= i < |rands| =>
      VectorFor(a, SecretsOf(row), rands[i], plmn, SqnToUse(a, row, auts)))
  }

  // The row afterwards: the last RAND, and the sequence number past the one used.
  function RowAfter(a: Algorithms, row: Row, auts: Option<Bytes30>, rands: seq<Bytes16>): Row
    requires row.Valid() && |rands| > 0
  {
    hide SqnToUse;
    row.(rand := Hex(rands[|rands| - 1]), sqn := SqnValue(SqnToUse(a, row, auts)) + SQN_STEP)
  }

  class AirProcessor {
    const imsi: string
    const sec: ImsiSec
    const plmn: array<bv8>
    const auts: array<bv8>
    const autsSet: bool
    const numVectors: nat
    var vectors: seq<Vector>

    ghost predicate Valid() {
      && sec.Valid() && plmn.Length == 4 && auts.Length == 31
      && plmn !in {sec.key, sec.sqn, sec.rand, sec.opc}
      && auts !in {sec.key, sec.sqn, sec.rand, sec.opc}
      && sec.sqn !in {sec.key, sec.rand, sec.opc}
      && numVectors <= AUTH_MAX_EUTRAN_VECTORS
    }

    ghost function Auts(): Option<Bytes30>
      requires Valid()
      reads auts
    {
      if autsSet then Some(auts[..30]) else None
    }

    constructor (imsi: string, plmnId: Bytes3, token: Option<Bytes30>, numVectors: nat)
      requires numVectors <= AUTH_MAX_EUTRAN_VECTORS
      ensures Valid() && this.imsi == imsi && this.numVectors == numVectors
      ensures plmn[..3] == plmnId && Auts() == token
      ensures fresh(sec) && fresh(sec.key) && fresh(sec.sqn) && fresh(sec.rand) && fresh(sec.opc)
    {
      this.imsi := imsi;
      this.numVectors := numVectors;
      autsSet := token.Some?;
      sec := new ImsiSec();
      plmn := new bv8[4](i => if 0 <= i < 3 then plmnId[i] else 0);
      auts := new bv8[31](i => if 0 <= i < 30 && token.Some? then token.value[i] else 0);
      vectors := [];
      new;
      assert plmn[..3] == plmnId;
      assert token.Some? ==> auts[..30] == token.value;
    }

    // The resynchronisation branch.
    method Resynchronise(sched: Schedule, ghost kdf: Kdf, ghost row: Row)
      requires Valid() && sched.Valid() && row.Valid()
      requires sec.key[..] == SecretsOf(row).k && sec.opc[..] == SecretsOf(row).opc
      requires sec.rand[..] == RandOf(row) && sec.sqn[..] == SqnIn(row)
      modifies sched.roundKeys, sec.sqn
      ensures sec.sqn[..] == SqnToUse(MilenageWith(kdf), row, Auts())
    {
      hide SqnMs, SecretsOf, RandOf, SqnIn, MilenageWith, SqnOf, SqnValue;
      if autsSet {
        var sqn := SqnMsDerive(sched, kdf, sec.opc, sec.key, auts, sec.rand);
        if sqn != null {
          var eu := new SqnU64Union();
          eu.FromSqn(sqn);
          eu.Add(SQN_STEP);
          eu.ToSqn(sec.sqn);
        }
      }
    }

    // One vector: a RAND from the random source, and the rest computed from it.
    method MakeVector(sched: Schedule, kdf: Kdf, rand: Bytes16) returns (v: Vector)
      requires Valid() && sched.Valid()
      modifies sched.roundKeys
      ensures v == VectorFor(MilenageWith(kdf), Secrets(sec.key[..], sec.opc[..]), rand, plmn[..3], sec.sqn[..])
    {
      hide VectorFor, MilenageWith;
      var vector := new AuthVector();
      for i := 0 to 16
        invariant vector.rand[..i] == rand[..i]
      {
        vector.rand[i] := rand[i];
      }
      assert vector.rand[..] == rand;
      var _ := GenerateVector(sched, kdf, sec.opc, sec.key, plmn, sec.sqn, vector);
      v := vector.Contents();
    }

    // phase2, after the row was read: resynchronise, make the vectors, store the last
    // RAND and the next sequence number in one update. The answer is out by then,
    // whatever becomes of the update; the result is whether phase 3 will wait for it.
    method Phase2(sched: Schedule, kdf: Kdf, db: DataAccess, rands: seq<Bytes16>, callbackSet: bool, rejected: bool,
                  ghost row: Row) returns (waits: bool)
      requires Valid() && sched.Valid() && row.Valid() && |rands| == numVectors && numVectors > 0
      requires imsi in db.usersImsi && db.usersImsi[imsi] == row
      requires sec.key[..] == SecretsOf(row).k && sec.opc[..] == SecretsOf(row).opc
      requires sec.rand[..] == RandOf(row) && sec.sqn[..] == SqnIn(row)
      modifies this, db, sched.roundKeys, sec.sqn, sec.rand
      ensures vectors == VectorsFor(MilenageWith(kdf), row, Auts(), plmn[..3], rands)
      ensures db.usersImsi == if rejected then old(db.usersImsi) else
        old(db.usersImsi)[imsi := RowAfter(MilenageWith(kdf), row, Auts(), rands)]
      ensures waits == callbackSet
    {
      hide SecretsOf, RandOf, SqnIn, MilenageWith, SqnToUse, VectorFor, Hex, SqnValue;
      Resynchronise(sched, kdf, row);
      ghost var x := SecretsOf(row);
      ghost var q := SqnToUse(MilenageWith(kdf), row, Auts());
      vectors := [];
      for i := 0 to numVectors
        invariant |vectors| == i
        invariant sec.sqn[..] == q && sec.key[..] == x.k && sec.opc[..] == x.opc
        invariant db.usersImsi == old(db.usersImsi)
        invariant forall j :: 0 <= j < i ==> vectors[j] == VectorFor(MilenageWith(kdf), x, rands[j], plmn[..3], q)
      {
        var v := MakeVector(sched, kdf, rands[i]);
        vectors := vectors + [v];
      }
      // The local copy takes the first RAND, the database the last.
      ghost var made := vectors;
      for i := 0 to 16
        invariant vectors == made && sec.sqn[..] == q
        invariant db.usersImsi == old(db.usersImsi)
      {
        sec.rand[i] := vectors[0].rand[i];
      }
      var last := new bv8[16](i requires 0 <= i < 16 => rands[numVectors - 1][i]);
      assert last[..] == rands[numVectors - 1];
      var outcome := db.UpdateRandSqn(imsi, last, sec.sqn, true, Some(callbackSet), rejected);
      waits := outcome.ok;
    }

    // The request from its database query to its database update. Without a row the
    // request fails and nothing changes.
    method Authenticate(sched: Schedule, kdf: Kdf, db: DataAccess, rands: seq<Bytes16>, callbackSet: bool,
                        rejected: bool) returns (ok: bool)
      requires Valid() && sched.Valid() && |rands| == numVectors
      requires imsi in db.usersImsi ==> db.usersImsi[imsi].Valid() && numVectors > 0
      modifies this, db, sched.roundKeys, sec.key, sec.sqn, sec.rand, sec.opc
      ensures ok <==> imsi in old(db.usersImsi)
      ensures !ok || rejected ==> db.usersImsi == old(db.usersImsi)
      ensures ok ==> vectors == VectorsFor(MilenageWith(kdf), old(db.usersImsi)[imsi], Auts(), plmn[..3], rands)
      ensures ok && !rejected ==> db.usersImsi == old(db.usersImsi)[imsi :=
        RowAfter(MilenageWith(kdf), old(db.usersImsi)[imsi], Auts(), rands)]
    {
      hide Unhex, SqnOf, MilenageWith, VectorsFor, RowAfter;
      ok := db.GetImsiSec(imsi, sec);
      if ok {
        var _ := Phase2(sched, kdf, db, rands, callbackSet, rejected, db.usersImsi[imsi]);
      }
    }
  }

  predicate IsHexChar(c: char) {
    '0' <= c <= '9' || 'A' <= c <= 'F' || 'a' <= c <= 'f'
  }

  predicate IsHexText(text: string) {
    |text| % 2 == 0 && forall c <- text :: IsHexChar(c)
  }

  // parsehex without an expected length.
  method ParseHex(src: string, dst: array<bv8>) returns (ok: bool)
    requires '\0' !in src && |src| <= 2 * dst.Length
    modifies dst
    ensures ok <==> IsHexText(src)
    ensures ok ==> dst[..] == Unhex(src, |src| / 2) + old(dst[|src| / 2..])
  {
    hide UnhexPair;
    if |src| % 2 != 0 {
      return false;
    }
    for k := 0 to |src| / 2
      invariant forall j :: 0 <= j < 2 * k ==> IsHexChar(src[j])
      invariant dst[..k] == Unhex(src, k) && dst[k..] == old(dst[k..])
    {
      if !IsHexChar(src[2 * k]) {
        return false;
      }
      if !IsHexChar(src[2 * k + 1]) {
        return false;
      }
      dst[k] := UnhexPair(src[2 * k], src[2 * k + 1]);
      UnhexExtends(src, k);
      assert dst[..k + 1] == dst[..k] + [dst[k]];
    }
    assert dst[..] == dst[..|src| / 2] + dst[|src| / 2..];
    return true;
  }

  // The token that a text gives; a short one is filled up with zeroes.
  function AutsOf(text: string): Bytes30
    requires |text| <= 62
  {
    var bytes := Unhex(text, |text| / 2);
    (bytes + seq(31 - |bytes|, _ => 0))[..30]
  }

  // Repairing a subscriber by hand from the text of an AUTS: on success the row holds
  // the given RAND and the sequence number of the USIM plus 32, modulo 2^48. A rejected
  // update is an exception.
  method SynchFix(sched: Schedule, ghost kdf: Kdf, db: DataAccess, imsi: string, autsText: string, newRand: Bytes16,
                  rejected: bool) returns (outcome: Outcome)
    requires sched.Valid() && '\0' !in autsText && |autsText| <= 62
    requires imsi in db.usersImsi ==> db.usersImsi[imsi].Valid()
    modifies db, sched.roundKeys
    ensures outcome == Returned(false) <==> !(IsHexText(autsText) && imsi in old(db.usersImsi) &&
                                              Opens(MilenageWith(kdf), old(db.usersImsi)[imsi], AutsOf(autsText)))
    ensures outcome == Threw ==> rejected
    ensures outcome == Returned(true) ==> !rejected && db.usersImsi == old(db.usersImsi)[imsi :=
      RowAfterFix(MilenageWith(kdf), old(db.usersImsi)[imsi], AutsOf(autsText), newRand)]
    ensures outcome != Returned(true) ==> db.usersImsi == old(db.usersImsi)
  {
    hide SqnMs, MilenageWith, SqnOf, SqnValue, Unhex, Hex, IsHexText;
    var auts := new bv8[31](_ => 0);
    ghost var zeroes := auts[|autsText| / 2..];
    assert zeroes == seq(31 - |autsText| / 2, _ => 0);
    var parsed := ParseHex(autsText, auts);
    if !parsed {
      return Returned(false);
    }
    assert auts[..30] == auts[..][..30] == AutsOf(autsText);
    var imsisec := new ImsiSec();
    var found := db.GetImsiSec(imsi, imsisec);
    if !found {
      return Returned(false);
    }
    var sqn := SqnMsDerive(sched, kdf, imsisec.opc, imsisec.key, auts, imsisec.rand);
    if sqn == null {
      return Returned(false);
    }
    outcome := StoreFix(db, imsi, sqn, newRand, rejected);
  }

  // The rest of synchFix, once the AUTS has given the USIM's number.
  method StoreFix(db: DataAccess, imsi: string, sqn: array<bv8>, newRand: Bytes16, rejected: bool)
    returns (outcome: Outcome)
    requires imsi in db.usersImsi && sqn.Length == 6
    modifies db, sqn
    ensures db.usersImsi == if rejected then old(db.usersImsi) else old(db.usersImsi)[imsi :=
      old(db.usersImsi)[imsi].(rand := Hex(newRand), sqn := (SqnValue(old(sqn[..])) + SQN_STEP) % TWO_48)]
    ensures outcome == if rejected then Threw else Returned(true)
  {
    hide SqnOf, SqnValue, Hex;
    var rand := new bv8[16](i requires 0 <= i < 16 => newRand[i]);
    assert rand[..] == newRand;
    ghost var s: Bytes6 := sqn[..];
    var eu := new SqnU64Union();
    eu.FromSqn(sqn);
    eu.Add(SQN_STEP);
    eu.ToSqn(sqn);
    SqnOfSqnValue(s);
    SqnValueOfSqnOf(SqnValue(s) + SQN_STEP);
    outcome := db.UpdateRandSqn(imsi, rand, sqn, false, None, rejected);
  }

  ghost predicate Opens(a: Algorithms, row: Row, auts: Bytes30)
    requires row.Valid()
  {
    SqnMs(a, SecretsOf(row), RandOf(row), auts).Some?
  }

  ghost function RowAfterFix(a: Algorithms, row: Row, auts: Bytes30, rand: Bytes16): Row
    requires row.Valid() && Opens(a, row, auts)
  {
    var s := SqnMs(a, SecretsOf(row), RandOf(row), auts).value;
    row.(rand := Hex(rand), sqn := (SqnValue(s) + SQN_STEP) % TWO_48)
  }

  // ---------------------------------------------------------------------------
  // From octets to rows and texts, and back.

  // What a row holds of the octets it was written from.
  lemma RowHoldsItsOctets(k: Bytes16, sqn: Bytes6, rand: Bytes16, opc: Bytes16)
    ensures var row := Row(Hex(k), SqnValue(sqn), Hex(rand), Hex(opc));
      row.Valid() && SecretsOf(row) == Secrets(k, opc) && RandOf(row) == rand && SqnIn(row) == sqn
  {
    hide Hex, Unhex, SqnValue, SqnOf;
    UnhexOfHex(k);
    UnhexOfHex(rand);
    UnhexOfHex(opc);
    SqnOfSqnValue(sqn);
  }

  // The text of a whole AUTS gives that AUTS.
  lemma AutsOfItsText(auts: Bytes30)
    ensures AutsOf(Hex(auts)) == auts
  {
    hide Hex, Unhex;
    UnhexOfHex(auts);
  }

  // The vectors come in the order of their challenges, and a repaired row holds the new
  // RAND and the USIM's number plus 32.
  lemma VectorsAreInOrder(a: Algorithms, row: Row, auts: Option<Bytes30>, plmn: Bytes3, rands: seq<Bytes16>)
    requires row.Valid()
    ensures |VectorsFor(a, row, auts, plmn, rands)| == |rands|
    ensures forall i :: 0 <= i < |rands| ==> VectorsFor(a, row, auts, plmn, rands)[i].rand == rands[i]
  {
    hide SqnToUse;
  }

  lemma RepairedRow(a: Algorithms, row: Row, sqnMs: Bytes6, rand: Bytes16)
    requires row.Valid()
    ensures var auts := UeAuts(a, SecretsOf(row), RandOf(row), sqnMs);
      && Opens(a, row, auts)
      && var fixed := RowAfterFix(a, row, auts, rand);
         fixed.Valid() && SecretsOf(fixed) == SecretsOf(row) && RandOf(fixed) == rand &&
         fixed.sqn == (SqnValue(sqnMs) + 32) % TWO_48
  {
    hide Hex, Unhex, SqnValue, SqnMs, UeAuts;
    SqnMsOpensExactlyUeAuts(a, SecretsOf(row), RandOf(row), UeAuts(a, SecretsOf(row), RandOf(row), sqnMs), sqnMs);
    UnhexOfHex(rand);
  }
}
