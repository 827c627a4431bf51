// hsssec/src/fx.c: the authentication functions f1 to f5* over the block cipher,
// refined to section 4.1 of 3GPP TS 35.206.
module Milenage {
  import opened ByteField
  import opened Rijndael

  function XorSeq(a: seq<bv8>, b: seq<bv8>): (r: seq<bv8>)
    requires |a| == |b|
    ensures |r| == |a|
  {
    seq(|a|, i requires 0 <= i < |a| => Xor(a[i], b[i]))
  }

  lemma XorSeqTwice(a: seq<bv8>, b: seq<bv8>)
    requires |a| == |b|
    ensures XorSeq(XorSeq(a, b), b) == a
  {
    hide Xor;
    forall i | 0 <= i < |a| ensures XorSeq(XorSeq(a, b), b)[i] == a[i] {
      XorTwice(a[i], b[i]);
    }
  }

  // Concealing with a mask is injective, and lifting the mask inverts it.
  lemma XorSeqMoves(a: seq<bv8>, b: seq<bv8>, m: seq<bv8>)
    requires |a| == |b| == |m|
    ensures XorSeq(a, m) == b <==> a == XorSeq(b, m)
  {
    hide XorSeq;
    XorSeqTwice(a, m);
    XorSeqTwice(b, m);
  }

  type Bytes2 = s: seq<bv8> | |s| == 2 witness seq(2, _ => 0)
  type Bytes6 = s: seq<bv8> | |s| == 6 witness seq(6, _ => 0)
  type Bytes8 = s: seq<bv8> | |s| == 8 witness seq(8, _ => 0)

  // A cyclic rotation by n bytes towards the most significant end.
  function Rot(x: Bytes16, n: nat): Bytes16
    requires n <= 16
  {
    x[n..] + x[..n]
  }

  // A constant c1 to c5: all zeroes but for the low bits of the last byte.
  function Constant(v: bv8): Bytes16 {
    seq(15, _ => 0) + [v]
  }

  ghost function Temp(k: Bytes16, opc: Bytes16, rand: Bytes16): Bytes16 {
    Encrypted(k, XorSeq(rand, opc))
  }

  function In1(sqn: Bytes6, amf: Bytes2): Bytes16 {
    sqn + amf + sqn + amf
  }

  // OUT1, with r1 = 64 bits and c1 = 0.
  ghost function Out1(k: Bytes16, opc: Bytes16, rand: Bytes16, sqn: Bytes6, amf: Bytes2): Bytes16 {
    hide Temp, Encrypted;
    XorSeq(Encrypted(k, XorSeq(Rot(XorSeq(In1(sqn, amf), opc), 8), Temp(k, opc, rand))), opc)
  }

  // OUT2 to OUT5: rotate TEMP ^ OPc by r bytes and add the constant c.
  ghost function OutFrom(k: Bytes16, opc: Bytes16, temp: Bytes16, r: nat, c: bv8): Bytes16
    requires r <= 16
  {
    hide Encrypted;
    XorSeq(Encrypted(k, XorSeq(Rot(XorSeq(temp, opc), r), Constant(c))), opc)
  }

  ghost function OutN(k: Bytes16, opc: Bytes16, rand: Bytes16, r: nat, c: bv8): Bytes16
    requires r <= 16
  {
    OutFrom(k, opc, Temp(k, opc, rand), r, c)
  }

  ghost function F1(k: Bytes16, opc: Bytes16, rand: Bytes16, sqn: Bytes6, amf: Bytes2): Bytes8 {
    hide Out1;
    Out1(k, opc, rand, sqn, amf)[..8]
  }

  ghost function F1Star(k: Bytes16, opc: Bytes16, rand: Bytes16, sqn: Bytes6, amf: Bytes2): Bytes8 {
    hide Out1;
    Out1(k, opc, rand, sqn, amf)[8..]
  }

  ghost function F2(k: Bytes16, opc: Bytes16, rand: Bytes16): Bytes8 {
    hide OutN;
    OutN(k, opc, rand, 0, 1)[8..]
  }

  ghost function F3(k: Bytes16, opc: Bytes16, rand: Bytes16): Bytes16 {
    OutN(k, opc, rand, 4, 2)
  }

  ghost function F4(k: Bytes16, opc: Bytes16, rand: Bytes16): Bytes16 {
    OutN(k, opc, rand, 8, 4)
  }

  ghost function F5(k: Bytes16, opc: Bytes16, rand: Bytes16): Bytes6 {
    hide OutN;
    OutN(k, opc, rand, 0, 1)[..6]
  }

  ghost function F5Star(k: Bytes16, opc: Bytes16, rand: Bytes16): Bytes6 {
    hide OutN;
    OutN(k, opc, rand, 12, 8)[..6]
  }

  ghost function OpcOf(k: Bytes16, op: Bytes16): Bytes16 {
    hide Encrypted;
    XorSeq(Encrypted(k, op), op)
  }

  // ---------------------------------------------------------------------------
  // The loops of fx.c.

  // The sum of two buffers; dst may be one of them.
  method XorLoop(dst: array<bv8>, a: array<bv8>, b: array<bv8>)
    requires dst.Length == a.Length == b.Length == 16
    modifies dst
    ensures dst[..] == XorSeq(old(a[..]), old(b[..]))
  {
    hide Xor;
    for i := 0 to 16
      invariant forall j :: 0 <= j < i ==> dst[j] == Xor(old(a[j]), old(b[j]))
      invariant forall j :: i <= j < 16 ==> dst[j] == old(dst[j]) && a[j] == old(a[j]) && b[j] == old(b[j])
    {
      dst[i] := Xor(a[i], b[i]);
    }
  }

  // The same, written at an index that wraps around.
  method XorRotateLoop(dst: array<bv8>, a: array<bv8>, b: array<bv8>, shift: nat)
    requires dst.Length == a.Length == b.Length == 16
    requires dst != a && dst != b && shift < 16
    modifies dst
    ensures dst[..] == Rot(XorSeq(a[..], b[..]), 16 - shift)
  {
    hide Xor;
    for i := 0 to 16
      invariant forall j :: 0 <= j < i ==>
        if j + shift < 16 then dst[j + shift] == Xor(a[j], b[j]) else dst[j + shift - 16] == Xor(a[j], b[j])
    {
      dst[(i + shift) % 16] := Xor(a[i], b[i]);
    }
    forall j | 0 <= j < 16 ensures dst[j] == Rot(XorSeq(a[..], b[..]), 16 - shift)[j] {
      var i := if j < shift then j + 16 - shift else j - shift;
      assert dst[j] == Xor(a[i], b[i]);
    }
  }

  lemma LastByteConstant(x: Bytes16, v: bv8)
    ensures x[15 := Xor(x[15], v)] == XorSeq(x, Constant(v))
  {
    hide Xor;
    forall i | 0 <= i < 15 ensures XorSeq(x, Constant(v))[i] == x[i] {
      XorZero(x[i]);
    }
  }

  lemma RotWhole(x: Bytes16)
    ensures Rot(x, 0) == x && Rot(x, 16) == x
  {
  }

  // Part of one buffer into the front of another.
  method CopyLoop(dst: array<bv8>, n: nat, src: array<bv8>, from: nat)
    requires n <= dst.Length && from + n <= src.Length && dst != src
    modifies dst
    ensures dst[..n] == src[from..from + n] && dst[n..] == old(dst[n..])
  {
    for i := 0 to n
      invariant forall j :: 0 <= j < i ==> dst[j] == src[from + j]
      invariant dst[n..] == old(dst[n..])
    {
      dst[i] := src[from + i];
    }
  }

  // The two loops that lay out SQN || AMF || SQN || AMF.
  method FillIn1(in1: array<bv8>, sqn: array<bv8>, amf: array<bv8>)
    requires in1.Length == 16 && sqn.Length == 6 && amf.Length == 2
    requires in1 != sqn && in1 != amf
    modifies in1
    ensures in1[..] == In1(sqn[..], amf[..])
  {
    for i := 0 to 6
      invariant forall j :: 0 <= j < i ==> in1[j] == sqn[j] && in1[j + 8] == sqn[j]
    {
      in1[i] := sqn[i];
      in1[i + 8] := sqn[i];
    }
    for i := 0 to 2
      invariant forall j :: 0 <= j < 6 ==> in1[j] == sqn[j] && in1[j + 8] == sqn[j]
      invariant forall j :: 0 <= j < i ==> in1[j + 6] == amf[j] && in1[j + 14] == amf[j]
    {
      in1[i + 6] := amf[i];
      in1[i + 14] := amf[i];
    }
    assert in1[..6] == sqn[..] && in1[6..8] == amf[..] && in1[8..14] == sqn[..] && in1[14..] == amf[..];
  }

  // The first statements of all four functions: set the key and compute TEMP.
  method ComputeTemp(sched: Schedule, opc: array<bv8>, k: array<bv8>, rand: array<bv8>)
    returns (rijndaelInput: array<bv8>, temp: array<bv8>)
    requires sched.Valid() && opc.Length == k.Length == rand.Length == 16
    modifies sched.roundKeys
    ensures fresh(rijndaelInput) && fresh(temp) && rijndaelInput != temp
    ensures rijndaelInput.Length == temp.Length == 16
    ensures temp[..] == Temp(k[..], opc[..], rand[..])
    ensures sched.Holds(k[..])
  {
    hide Encrypted, XorSeq;
    sched.KeySchedule(k);
    rijndaelInput := new bv8[16];
    XorLoop(rijndaelInput, rand, opc);
    temp := new bv8[16];
    sched.Encrypt(rijndaelInput, temp, k[..]);
  }

  // The part that f1 and f1star share word for word: both encryptions run under
  // the schedule of the key set at the start.
  method ComputeOut1(sched: Schedule, opc: array<bv8>, k: array<bv8>, rand: array<bv8>,
                     sqn: array<bv8>, amf: array<bv8>) returns (out1: array<bv8>)
    requires sched.Valid() && opc.Length == k.Length == rand.Length == 16
    requires sqn.Length == 6 && amf.Length == 2
    modifies sched.roundKeys
    ensures fresh(out1) && out1.Length == 16
    ensures out1[..] == Out1(k[..], opc[..], rand[..], sqn[..], amf[..])
    ensures sched.Holds(k[..])
  {
    hide Encrypted, XorSeq, Rot, In1, Temp, Schedule.Holds;
    var rijndaelInput, temp := ComputeTemp(sched, opc, k, rand);
    var in1 := new bv8[16];
    FillIn1(in1, sqn, amf);
    XorRotateLoop(rijndaelInput, in1, opc, 8);
    XorLoop(rijndaelInput, rijndaelInput, temp);
    out1 := new bv8[16];
    sched.Encrypt(rijndaelInput, out1, k[..]);
    XorLoop(out1, out1, opc);
  }

  // f1
  method ComputeF1(sched: Schedule, opc: array<bv8>, k: array<bv8>, rand: array<bv8>,
                   sqn: array<bv8>, amf: array<bv8>, macA: array<bv8>)
    requires sched.Valid() && opc.Length == k.Length == rand.Length == 16
    requires sqn.Length == 6 && amf.Length == 2 && macA.Length == 8
    modifies sched.roundKeys, macA
    ensures macA[..] == old(F1(k[..], opc[..], rand[..], sqn[..], amf[..]))
    ensures sched.Holds(old(k[..]))
  {
    hide Out1;
    var out1 := ComputeOut1(sched, opc, k, rand, sqn, amf);
    CopyLoop(macA, 8, out1, 0);
  }

  // f1*
  method ComputeF1Star(sched: Schedule, opc: array<bv8>, k: array<bv8>, rand: array<bv8>,
                       sqn: array<bv8>, amf: array<bv8>, macS: array<bv8>)
    requires sched.Valid() && opc.Length == k.Length == rand.Length == 16
    requires sqn.Length == 6 && amf.Length == 2 && macS.Length == 8
    modifies sched.roundKeys, macS
    ensures macS[..] == old(F1Star(k[..], opc[..], rand[..], sqn[..], amf[..]))
    ensures sched.Holds(old(k[..]))
  {
    hide Out1;
    var out1 := ComputeOut1(sched, opc, k, rand, sqn, amf);
    CopyLoop(macS, 8, out1, 8);
  }

  // One output block: the rotation loop, the constant, the encryption, and OPc.
  method OutputBlock(sched: Schedule, opc: array<bv8>, temp: array<bv8>, rijndaelInput: array<bv8>,
                     out: array<bv8>, shift: nat, c: bv8, ghost k: Bytes16)
    requires sched.Valid() && opc.Length == temp.Length == rijndaelInput.Length == out.Length == 16
    requires shift < 16 && sched.Holds(k)
    requires rijndaelInput != temp && rijndaelInput != opc && out != temp && out != opc && out != rijndaelInput
    modifies rijndaelInput, out
    ensures out[..] == OutFrom(k, opc[..], temp[..], 16 - shift, c)
  {
    hide Encrypted, XorSeq, Rot, Xor, Constant;
    XorRotateLoop(rijndaelInput, temp, opc, shift);
    ghost var x := rijndaelInput[..];
    rijndaelInput[15] := Xor(rijndaelInput[15], c);
    LastByteConstant(x, c);
    assert rijndaelInput[..] == XorSeq(x, Constant(c));
    sched.Encrypt(rijndaelInput, out, k);
    XorLoop(out, out, opc);
  }

  // f2 to f5; res and ak are filled from the same block.
  method ComputeF2345(sched: Schedule, opc: array<bv8>, k: array<bv8>, rand: array<bv8>,
                      res: array<bv8>, ck: array<bv8>, ik: array<bv8>, ak: array<bv8>)
    requires sched.Valid() && opc.Length == k.Length == rand.Length == 16
    requires res.Length == 8 && ck.Length == ik.Length == 16 && ak.Length == 6
    requires ck != ik && ck != opc && ik != opc
    modifies sched.roundKeys, res, ck, ik, ak
    ensures res[..] == old(F2(k[..], opc[..], rand[..]))
    ensures ck[..] == old(F3(k[..], opc[..], rand[..]))
    ensures ik[..] == old(F4(k[..], opc[..], rand[..]))
    ensures ak[..] == old(F5(k[..], opc[..], rand[..]))
    ensures sched.Holds(old(k[..]))
  {
    hide OutFrom, Temp, Schedule.Holds;
    ghost var key := k[..];
    var rijndaelInput, temp := ComputeTemp(sched, opc, k, rand);
    var out := new bv8[16];
    // OUT2, which is not rotated
    OutputBlock(sched, opc, temp, rijndaelInput, out, 0, 1, key);
    OutFromWhole(key, opc[..], temp[..], 1);
    CopyLoop(res, 8, out, 8);
    assert res[..] == out[..][8..];
    CopyLoop(ak, 6, out, 0);
    assert ak[..] == out[..][..6];
    // OUT3: shift 12 is r3
    OutputBlock(sched, opc, temp, rijndaelInput, out, 12, 2, key);
    CopyLoop(ck, 16, out, 0);
    // OUT4: shift 8 is r4
    OutputBlock(sched, opc, temp, rijndaelInput, out, 8, 4, key);
    CopyLoop(ik, 16, out, 0);
  }

  lemma OutFromWhole(k: Bytes16, opc: Bytes16, temp: Bytes16, c: bv8)
    ensures OutFrom(k, opc, temp, 16, c) == OutFrom(k, opc, temp, 0, c)
  {
    hide Encrypted, XorSeq, Rot, Constant;
    RotWhole(XorSeq(temp, opc));
  }

  // f5*
  method ComputeF5Star(sched: Schedule, opc: array<bv8>, k: array<bv8>, rand: array<bv8>, ak: array<bv8>)
    requires sched.Valid() && opc.Length == k.Length == rand.Length == 16 && ak.Length == 6
    modifies sched.roundKeys, ak
    ensures ak[..] == old(F5Star(k[..], opc[..], rand[..]))
    ensures sched.Holds(old(k[..]))
  {
    hide OutFrom, Temp;
    ghost var key := k[..];
    var rijndaelInput, temp := ComputeTemp(sched, opc, k, rand);
    var out := new bv8[16];
    // OUT5: shift 4 is r5
    OutputBlock(sched, opc, temp, rijndaelInput, out, 4, 8, key);
    CopyLoop(ak, 6, out, 0);
  }

  method ComputeOPc(sched: Schedule, k: array<bv8>, op: array<bv8>, opc: array<bv8>)
    requires sched.Valid() && k.Length == op.Length == opc.Length == 16 && opc != op
    modifies sched.roundKeys, opc
    ensures opc[..] == old(OpcOf(k[..], op[..]))
  {
    hide Encrypted, XorSeq;
    ghost var key := k[..];
    sched.KeySchedule(k);
    sched.Encrypt(op, opc, key);
    XorLoop(opc, opc, op);
  }
}
