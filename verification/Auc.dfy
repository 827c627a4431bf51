// hsssec/src/kdf.c and sequence_number.c: the program's way to an authentication
// vector and out of a resynchronisation token.
module Auc {
  import opened Wrappers
  import opened ByteField
  import opened Rijndael
  import opened Milenage
  import opened Aka

  // auc_vector_t
  class AuthVector {
    const rand: array<bv8>
    const xres: array<bv8>
    const autn: array<bv8>
    var kasme: seq<bv8>

    ghost predicate Valid() {
      rand.Length == 16 && xres.Length == 8 && autn.Length == 16 && rand != autn
    }

    function Contents(): Vector
      requires Valid()
      reads this, rand, xres, autn
    {
      Vector(rand[..], xres[..], autn[..], kasme)
    }

    constructor ()
      ensures Valid() && fresh(rand) && fresh(xres) && fresh(autn)
    {
      rand := new bv8[16];
      xres := new bv8[8];
      autn := new bv8[16];
      kasme := [];
    }
  }

  method GenerateAutn(sqn: array<bv8>, ak: array<bv8>, amf: array<bv8>, macA: array<bv8>, autn: array<bv8>)
    requires sqn.Length == ak.Length == 6 && amf.Length == 2 && macA.Length == 8 && autn.Length == 16
    modifies autn
    ensures autn[..] == XorSeq(sqn[..], ak[..]) + amf[..] + macA[..]
  {
    hide Xor;
    for i := 0 to 6
      invariant forall j :: 0 <= j < i ==> autn[j] == Xor(sqn[j], ak[j])
    {
      autn[i] := Xor(sqn[i], ak[i]);
    }
    autn[6], autn[7] := amf[0], amf[1];
    for i := 0 to 8
      invariant forall j :: 0 <= j < 6 ==> autn[j] == Xor(sqn[j], ak[j])
      invariant autn[6] == amf[0] && autn[7] == amf[1]
      invariant forall j :: 0 <= j < i ==> autn[8 + j] == macA[j]
    {
      autn[8 + i] := macA[i];
    }
    assert autn[..6] == XorSeq(sqn[..], ak[..]);
    assert autn[6..8] == amf[..];
    assert autn[8..] == macA[..];
  }

  method DeriveKasme(kdf: Kdf, ck: array<bv8>, ik: array<bv8>, plmn: array<bv8>, sqn: array<bv8>, ak: array<bv8>)
    returns (kasme: seq<bv8>)
    requires ck.Length == ik.Length == 16 && plmn.Length >= 3 && sqn.Length == ak.Length == 6
    ensures kasme == kdf(ck[..] + ik[..], KdfText(plmn[..3], XorSeq(sqn[..], ak[..])))
  {
    hide Xor;
    var s := new bv8[14];
    for i := 0 to 6
      invariant forall j :: 0 <= j < i ==> s[6 + j] == Xor(sqn[j], ak[j])
    {
      s[6 + i] := Xor(sqn[i], ak[i]);
    }
    assert s[6..12] == XorSeq(sqn[..], ak[..]);
    ghost var p1 := s[6..12];
    s[0] := 0x10;
    s[1], s[2], s[3] := plmn[0], plmn[1], plmn[2];
    s[4], s[5] := 0x00, 0x03;
    s[12], s[13] := 0x00, 0x06;
    assert s[6..12] == p1;
    assert s[..6] == [0x10] + plmn[..3] + [0x00, 0x03];
    assert s[12..] == [0x00, 0x06];
    assert s[..] == s[..6] + s[6..12] + s[12..];
    kasme := kdf(ck[..] + ik[..], s[..]);
  }

  lemma VectorFromMilenage(kdf: Kdf, x: Secrets, rand: Bytes16, plmn: Bytes3, sqn: Bytes6)
    ensures VectorFor(MilenageWith(kdf), x, rand, plmn, sqn) ==
      Vector(rand, F2(x.k, x.opc, rand),
             XorSeq(sqn, F5(x.k, x.opc, rand)) + NETWORK_AMF + F1(x.k, x.opc, rand, sqn, NETWORK_AMF),
             kdf(F3(x.k, x.opc, rand) + F4(x.k, x.opc, rand),
                 KdfText(plmn, XorSeq(sqn, F5(x.k, x.opc, rand)))))
  {
    hide F1, F2, F3, F4, F5, XorSeq, KdfText;
  }

  const EINVAL := 22

  method GenerateVector(sched: Schedule, kdf: Kdf, opc: array<bv8>, key: array<bv8>, plmn: array<bv8>,
                        sqn: array<bv8>, vector: AuthVector?) returns (code: int)
    requires sched.Valid() && opc.Length == key.Length == 16 && plmn.Length >= 3 && sqn.Length == 6
    requires vector != null ==> vector.Valid() && vector.autn !in {opc, key, plmn} && vector.xres != plmn
    modifies sched.roundKeys, if vector == null then {} else {vector, vector.xres, vector.autn}
    ensures vector == null <==> code == EINVAL
    ensures vector != null ==> code == 0 && vector.rand[..] == old(vector.rand[..])
    ensures vector != null ==> vector.Contents()
                               == VectorFor(MilenageWith(kdf), Secrets(key[..], opc[..]),
                                            vector.rand[..], plmn[..3], sqn[..])
  {
    hide VectorFor, MilenageWith;
    if vector == null {
      return EINVAL;
    }
    FillVector(sched, kdf, opc, key, plmn, sqn, vector);
    return 0;
  }

  // The rest of generate_vector, once there is a vector to fill.
  method FillVector(sched: Schedule, kdf: Kdf, opc: array<bv8>, key: array<bv8>, plmn: array<bv8>,
                    sqn: array<bv8>, vector: AuthVector)
    requires sched.Valid() && opc.Length == key.Length == 16 && plmn.Length >= 3 && sqn.Length == 6
    requires vector.Valid() && vector.autn !in {opc, key, plmn} && vector.xres != plmn
    modifies sched.roundKeys, vector, vector.xres, vector.autn
    ensures vector.Contents() == VectorFor(MilenageWith(kdf), Secrets(key[..], opc[..]),
                                           vector.rand[..], plmn[..3], sqn[..])
  {
    hide F1, F2, F3, F4, F5, XorSeq, KdfText, VectorFor, MilenageWith, Schedule.Holds;
    ghost var x := Secrets(key[..], opc[..]);
    ghost var rand, p, q := vector.rand[..], plmn[..3], sqn[..];
    VectorFromMilenage(kdf, x, rand, p, q);
    var amf := new bv8[2];
    amf[0], amf[1] := 0x80, 0x00;
    assert amf[..] == NETWORK_AMF;
    var macA := new bv8[8];
    var ck := new bv8[16];
    var ik := new bv8[16];
    var ak := new bv8[6];
    ComputeF1(sched, opc, key, vector.rand, sqn, amf, macA);
    assert macA[..] == F1(x.k, x.opc, rand, q, NETWORK_AMF);
    ComputeF2345(sched, opc, key, vector.rand, vector.xres, ck, ik, ak);
    GenerateAutn(sqn, ak, amf, macA, vector.autn);
    vector.kasme := DeriveKasme(kdf, ck, ik, plmn, sqn, ak);
  }

  ghost predicate Opened(sqn: array?<bv8>, s: Option<Bytes6>)
    reads if sqn == null then {} else {sqn}
  {
    if s.None? then sqn == null else sqn != null && sqn[..] == s.value
  }

  // The result is null when MAC-S does not match, as the source frees its buffer.
  method SqnMsDerive(sched: Schedule, ghost kdf: Kdf, opc: array<bv8>, key: array<bv8>, auts: array<bv8>,
                     rand: array<bv8>) returns (sqnMs: array?<bv8>)
    requires sched.Valid() && opc.Length == key.Length == rand.Length == 16 && auts.Length >= 30
    modifies sched.roundKeys
    ensures sqnMs != null ==> fresh(sqnMs) && sqnMs.Length == 6
    ensures Opened(sqnMs, SqnMs(MilenageWith(kdf), Secrets(key[..], opc[..]), rand[..], auts[..30]))
  {
    hide F1Star, F5Star, Xor, Schedule.Holds;
    ghost var a, x, r := auts[..30], Secrets(key[..], opc[..]), rand[..];
    var ak := new bv8[6];
    ComputeF5Star(sched, opc, key, rand, ak);
    sqnMs := new bv8[6];
    for i := 0 to 6
      invariant ak[..] == F5Star(x.k, x.opc, r)
      invariant forall j :: 0 <= j < i ==> sqnMs[j] == Xor(auts[16 + j], ak[j])
    {
      sqnMs[i] := Xor(ak[i], auts[16 + i]);
      XorComm(ak[i], auts[16 + i]);
    }
    ghost var s := sqnMs[..];
    assert s == XorSeq(a[16..22], F5Star(x.k, x.opc, r));
    var amf := new bv8[2];
    amf[0], amf[1] := 0, 0;
    assert amf[..] == RESYNC_AMF;
    var macSComputed := new bv8[8];
    ComputeF1Star(sched, opc, key, rand, sqnMs, amf, macSComputed);
    assert a[22..30] == auts[22..30];
    assert macSComputed[..] == F1Star(x.k, x.opc, r, s, RESYNC_AMF);
    if macSComputed[..] != auts[22..30] {
      sqnMs := null;
    }
  }
}
