// Authentication vectors and resynchronisation tokens (sections 6.3.2, 6.3.3 and
// 6.3.5 of 3GPP TS 33.102), for any algorithm set f1 to f5* an operator may choose,
// with the network's side and the USIM's side of each.
module Aka {
  import opened Wrappers
  import opened ByteField
  import opened Rijndael
  import opened Milenage
  import opened SqnCodec

  type Bytes3 = s: seq<bv8> | |s| == 3 witness seq(3, _ => 0)
  type Bytes14 = s: seq<bv8> | |s| == 14 witness seq(14, _ => 0)
  type Bytes30 = s: seq<bv8> | |s| == 30 witness seq(30, _ => 0)

  // Arguments: K, OPc, RAND, and for the message codes SQN and AMF. The key
  // derivation takes a key and a text; HMAC-SHA-256 itself is not part of this model.
  datatype Algorithms = Algorithms(
    f1: (Bytes16, Bytes16, Bytes16, Bytes6, Bytes2) -> Bytes8,
    f1star: (Bytes16, Bytes16, Bytes16, Bytes6, Bytes2) -> Bytes8,
    f2: (Bytes16, Bytes16, Bytes16) -> Bytes8,
    f3: (Bytes16, Bytes16, Bytes16) -> Bytes16,
    f4: (Bytes16, Bytes16, Bytes16) -> Bytes16,
    f5: (Bytes16, Bytes16, Bytes16) -> Bytes6,
    f5star: (Bytes16, Bytes16, Bytes16) -> Bytes6,
    kdf: Kdf)

  type Kdf = (seq<bv8>, seq<bv8>) -> seq<bv8>

  // The set this program uses.
  ghost function MilenageWith(kdf: Kdf): Algorithms {
    Algorithms(F1, F1Star, F2, F3, F4, F5, F5Star, kdf)
  }

  // A subscriber's secrets, shared by the network and the USIM.
  datatype Secrets = Secrets(k: Bytes16, opc: Bytes16)

  const NETWORK_AMF: Bytes2 := [0x80, 0x00]
  const RESYNC_AMF: Bytes2 := [0x00, 0x00]

  // ---------------------------------------------------------------------------
  // The network's vectors.

  // The contents of an authentication vector.
  datatype Vector = Vector(rand: Bytes16, xres: Bytes8, autn: Bytes16, kasme: seq<bv8>)

  // The concealed sequence number, then the AMF and the code over both.
  function Autn(a: Algorithms, x: Secrets, rand: Bytes16, sqn: Bytes6): Bytes16 {
    XorSeq(sqn, a.f5(x.k, x.opc, rand)) + NETWORK_AMF + a.f1(x.k, x.opc, rand, sqn, NETWORK_AMF)
  }

  // The fourteen bytes of Annex A.2 of 3GPP TS 33.401, from SQN ^ AK.
  function KdfText(plmn: Bytes3, concealed: Bytes6): Bytes14 {
    [0x10] + plmn + [0x00, 0x03] + concealed + [0x00, 0x06]
  }

  function Kasme(a: Algorithms, x: Secrets, rand: Bytes16, plmn: Bytes3, concealed: Bytes6): seq<bv8> {
    a.kdf(a.f3(x.k, x.opc, rand) + a.f4(x.k, x.opc, rand), KdfText(plmn, concealed))
  }

  function VectorFor(a: Algorithms, x: Secrets, rand: Bytes16, plmn: Bytes3, sqn: Bytes6): Vector {
    Vector(rand, a.f2(x.k, x.opc, rand), Autn(a, x, rand, sqn),
           Kasme(a, x, rand, plmn, XorSeq(sqn, a.f5(x.k, x.opc, rand))))
  }

  // Opening AUTS: the sequence number of the USIM, if MAC-S is right.
  function SqnMs(a: Algorithms, x: Secrets, rand: Bytes16, auts: Bytes30): Option<Bytes6> {
    var s: Bytes6 := XorSeq(auts[16..22], a.f5star(x.k, x.opc, rand));
    if a.f1star(x.k, x.opc, rand, s, RESYNC_AMF) == auts[22..30] then Some(s) else None
  }

  // ---------------------------------------------------------------------------
  // The USIM.

  function UeSqn(a: Algorithms, x: Secrets, rand: Bytes16, autn: Bytes16): Bytes6 {
    XorSeq(autn[..6], a.f5(x.k, x.opc, rand))
  }

  predicate UeMacMatches(a: Algorithms, x: Secrets, rand: Bytes16, autn: Bytes16) {
    a.f1(x.k, x.opc, rand, UeSqn(a, x, rand, autn), autn[6..8]) == autn[8..]
  }

  function UeKasme(a: Algorithms, x: Secrets, rand: Bytes16, plmn: Bytes3, autn: Bytes16): seq<bv8> {
    Kasme(a, x, rand, plmn, autn[..6])
  }

  // What a USIM sends back: the challenge, its own number concealed, and the code.
  function UeAuts(a: Algorithms, x: Secrets, rand: Bytes16, sqnMs: Bytes6): Bytes30 {
    rand + XorSeq(sqnMs, a.f5star(x.k, x.opc, rand)) + a.f1star(x.k, x.opc, rand, sqnMs, RESYNC_AMF)
  }

  // The highest sequence number accepted so far is all the state there is.
  datatype Usim = Usim(x: Secrets, sqnMs: Bytes6)

  datatype Reply =
    | MacFailure
    | SyncFailure(auts: Bytes30)
    | Accepted(res: Bytes8, kasme: seq<bv8>)

  // A USIM that accepts exactly the sequence numbers above its own.
  function Answer(a: Algorithms, u: Usim, rand: Bytes16, plmn: Bytes3, autn: Bytes16): (Reply, Usim) {
    var sqn := UeSqn(a, u.x, rand, autn);
    if !UeMacMatches(a, u.x, rand, autn) then (MacFailure, u)
    else if SqnValue(sqn) <= SqnValue(u.sqnMs) then (SyncFailure(UeAuts(a, u.x, rand, u.sqnMs)), u)
    else (Accepted(a.f2(u.x.k, u.x.opc, rand), UeKasme(a, u.x, rand, plmn, autn)), u.(sqnMs := sqn))
  }

  // ---------------------------------------------------------------------------
  // The two sides agree.

  // A USIM with the same secrets opens the network's AUTN and finds its MAC good, and
  // no other token with that AMF passes the check for that sequence number.
  lemma UeAcceptsExactlyAutn(a: Algorithms, x: Secrets, rand: Bytes16, autn: Bytes16, sqn: Bytes6)
    ensures autn == Autn(a, x, rand, sqn) <==>
      UeSqn(a, x, rand, autn) == sqn && UeMacMatches(a, x, rand, autn) && autn[6..8] == NETWORK_AMF
  {
    hide XorSeq;
    XorSeqMoves(sqn, autn[..6], a.f5(x.k, x.opc, rand));
    assert autn == autn[..6] + autn[6..8] + autn[8..];
    var n := Autn(a, x, rand, sqn);
    assert n[..6] == XorSeq(sqn, a.f5(x.k, x.opc, rand)) && n[6..8] == NETWORK_AMF;
    assert n[8..] == a.f1(x.k, x.opc, rand, sqn, NETWORK_AMF);
  }

  // Opening succeeds with s exactly when bytes 16 to 29 are what a USIM in state s
  // builds, so building and opening undo each other.
  lemma SqnMsOpensExactlyUeAuts(a: Algorithms, x: Secrets, rand: Bytes16, auts: Bytes30, s: Bytes6)
    ensures SqnMs(a, x, rand, auts) == Some(s) <==> auts[16..] == UeAuts(a, x, rand, s)[16..]
  {
    hide XorSeq;
    XorSeqMoves(s, auts[16..22], a.f5star(x.k, x.opc, rand));
    var u := UeAuts(a, x, rand, s);
    assert u[16..] == u[16..22] + u[22..30] && auts[16..] == auts[16..22] + auts[22..30];
    assert u[16..22] == XorSeq(s, a.f5star(x.k, x.opc, rand));
    assert u[22..30] == a.f1star(x.k, x.opc, rand, s, RESYNC_AMF);
    assert u[16..][..6] == u[16..22] && u[16..][6..] == u[22..30];
    assert auts[16..][..6] == auts[16..22] && auts[16..][6..] == auts[22..30];
  }

  // From RAND and AUTN alone, a USIM with the same secrets answers the network's
  // vector with the network's XRES and derives the network's KASME, if and only if the
  // sequence number is above its own; otherwise its AUTS tells the network its own.
  lemma UsimAnswersVector(a: Algorithms, u: Usim, rand: Bytes16, plmn: Bytes3, sqn: Bytes6)
    ensures var v := VectorFor(a, u.x, rand, plmn, sqn);
      Answer(a, u, v.rand, plmn, v.autn) ==
        if SqnValue(sqn) > SqnValue(u.sqnMs) then (Accepted(v.xres, v.kasme), u.(sqnMs := sqn))
        else (SyncFailure(UeAuts(a, u.x, rand, u.sqnMs)), u)
  {
    hide XorSeq, UeSqn, UeMacMatches, SqnValue, UeAuts;
    UeAcceptsExactlyAutn(a, u.x, rand, Autn(a, u.x, rand, sqn), sqn);
    assert Autn(a, u.x, rand, sqn)[..6] == XorSeq(sqn, a.f5(u.x.k, u.x.opc, rand));
  }

  // ---------------------------------------------------------------------------
  // The octets on the wire, position by position.

  // Annex A.2 of 3GPP TS 33.401: function code, serving network, its length, the concealed
  // sequence number and its length.
  lemma KdfTextBytes(plmn: Bytes3, concealed: Bytes6)
    ensures KdfText(plmn, concealed) ==
            [0x10, plmn[0], plmn[1], plmn[2], 0x00, 0x03, concealed[0], concealed[1], concealed[2], concealed[3],
             concealed[4], concealed[5], 0x00, 0x06]
  {
    assert plmn == [plmn[0], plmn[1], plmn[2]];
    assert concealed == [concealed[0], concealed[1], concealed[2], concealed[3], concealed[4], concealed[5]];
  }

  // The key is CK and then IK: a key derivation that shows its arguments shows them.
  lemma KasmeArguments(a: Algorithms, x: Secrets, rand: Bytes16, plmn: Bytes3, concealed: Bytes6)
    ensures var shown := Kasme(a.(kdf := (key, text) => key + text), x, rand, plmn, concealed);
      && |shown| == 46
      && shown[..16] == a.f3(x.k, x.opc, rand) && shown[16..32] == a.f4(x.k, x.opc, rand)
      && shown[32..] == KdfText(plmn, concealed)
  {
  }

  // Section 6.3.2 of 3GPP TS 33.102, with the separation bit of the AMF set.
  lemma VectorBytes(a: Algorithms, x: Secrets, rand: Bytes16, plmn: Bytes3, sqn: Bytes6)
    ensures var v, ak := VectorFor(a, x, rand, plmn, sqn), a.f5(x.k, x.opc, rand);
      && v.rand == rand && v.xres == a.f2(x.k, x.opc, rand)
      && (forall i :: 0 <= i < 6 ==> v.autn[i] == Xor(sqn[i], ak[i]))
      && v.autn[6] == 0x80 && v.autn[7] == 0x00
      && v.autn[8..] == a.f1(x.k, x.opc, rand, sqn, [0x80, 0x00])
      && v.kasme == Kasme(a, x, rand, plmn, v.autn[..6])
  {
    hide Xor;
    assert Autn(a, x, rand, sqn)[..6] == XorSeq(sqn, a.f5(x.k, x.opc, rand));
  }

  // Section 6.3.3: RAND in front, then the concealed number, then the code under a zero
  // AMF.
  lemma AutsBytes(a: Algorithms, x: Secrets, rand: Bytes16, sqnMs: Bytes6)
    ensures var t, ak := UeAuts(a, x, rand, sqnMs), a.f5star(x.k, x.opc, rand);
      && t[..16] == rand
      && (forall i :: 0 <= i < 6 ==> t[16 + i] == Xor(sqnMs[i], ak[i]))
      && t[22..] == a.f1star(x.k, x.opc, rand, sqnMs, [0x00, 0x00])
  {
    hide Xor;
  }
}
