// What the functions of Milenage are, read backwards: the block that each output is part
// of, decrypted, gives TEMP back, byte by byte, with the rotations and constants of
// section 4.1 of 3GPP TS 35.206 written out.
module MilenageBlocks {
  import opened ByteField
  import opened Rijndael
  import opened Milenage

  // A block that was added to OPc after its encryption.
  ghost function Opened(k: Bytes16, opc: Bytes16, block: Bytes16): Bytes16 {
    Decrypted(k, XorSeq(block, opc))
  }

  lemma OpenedUndoes(k: Bytes16, opc: Bytes16, x: Bytes16)
    ensures Opened(k, opc, XorSeq(Encrypted(k, x), opc)) == x
  {
    hide XorSeq, Encrypted, Decrypted;
    XorSeqTwice(Encrypted(k, x), opc);
    DecryptedUndoesEncrypted(k, x);
  }

  lemma TempOpens(k: Bytes16, opc: Bytes16, rand: Bytes16)
    ensures Decrypted(k, Temp(k, opc, rand)) == XorSeq(rand, opc)
  {
    hide Encrypted, Decrypted, Xor;
    DecryptedUndoesEncrypted(k, XorSeq(rand, opc));
  }

  lemma OpcOpens(k: Bytes16, op: Bytes16)
    ensures Opened(k, op, OpcOf(k, op)) == op
  {
    hide XorSeq, Encrypted, Opened;
    OpenedUndoes(k, op, op);
  }

  // Byte i of x is byte i + r, cyclically, of TEMP and OPc, with c in the last byte.
  ghost predicate IsTempRotated(x: Bytes16, temp: Bytes16, opc: Bytes16, r: nat, c: bv8) {
    forall i :: 0 <= i < 16 ==> x[i] == Xor(Xor(temp[(i + r) % 16], opc[(i + r) % 16]), if i == 15 then c else 0)
  }

  lemma OutOpens(k: Bytes16, opc: Bytes16, rand: Bytes16, r: nat, c: bv8)
    requires r < 16
    ensures IsTempRotated(Opened(k, opc, OutN(k, opc, rand, r, c)), Temp(k, opc, rand), opc, r, c)
  {
    hide Encrypted, Opened, Xor, Temp;
    OpenedUndoes(k, opc, XorSeq(Rot(XorSeq(Temp(k, opc, rand), opc), r), Constant(c)));
    RotatedBytes(Temp(k, opc, rand), opc, r, c);
  }

  lemma RotatedBytes(temp: Bytes16, opc: Bytes16, r: nat, c: bv8)
    requires r < 16
    ensures IsTempRotated(XorSeq(Rot(XorSeq(temp, opc), r), Constant(c)), temp, opc, r, c)
  {
    hide Xor;
  }

  // RES and AK are disjoint parts of one block, with no rotation and c2.
  lemma ResAndAkOpen(k: Bytes16, opc: Bytes16, rand: Bytes16) returns (out2: Bytes16)
    ensures F5(k, opc, rand) == out2[..6] && F2(k, opc, rand) == out2[8..]
    ensures IsTempRotated(Opened(k, opc, out2), Temp(k, opc, rand), opc, 0, 1)
  {
    hide Opened, Temp, OutN;
    out2 := OutN(k, opc, rand, 0, 1);
    OutOpens(k, opc, rand, 0, 1);
  }

  // CK: r3 is four bytes.
  lemma CkOpens(k: Bytes16, opc: Bytes16, rand: Bytes16)
    ensures IsTempRotated(Opened(k, opc, F3(k, opc, rand)), Temp(k, opc, rand), opc, 4, 2)
  {
    OutOpens(k, opc, rand, 4, 2);
  }

  // IK: r4 is eight bytes.
  lemma IkOpens(k: Bytes16, opc: Bytes16, rand: Bytes16)
    ensures IsTempRotated(Opened(k, opc, F4(k, opc, rand)), Temp(k, opc, rand), opc, 8, 4)
  {
    OutOpens(k, opc, rand, 8, 4);
  }

  // AK of a resynchronisation is the front of a block of its own: r5 is twelve bytes.
  lemma AkStarOpens(k: Bytes16, opc: Bytes16, rand: Bytes16) returns (out5: Bytes16)
    ensures F5Star(k, opc, rand) == out5[..6]
    ensures IsTempRotated(Opened(k, opc, out5), Temp(k, opc, rand), opc, 12, 8)
  {
    hide Opened, Temp, OutN;
    out5 := OutN(k, opc, rand, 12, 8);
    OutOpens(k, opc, rand, 12, 8);
  }

  // Byte i of SQN and AMF, written twice.
  function In1Byte(sqn: Bytes6, amf: Bytes2, i: nat): bv8
    requires i < 16
  {
    if i < 6 then sqn[i] else if i < 8 then amf[i - 6] else if i < 14 then sqn[i - 8] else amf[i - 14]
  }

  ghost predicate IsIn1Rotated(x: Bytes16, sqn: Bytes6, amf: Bytes2, temp: Bytes16, opc: Bytes16) {
    forall i :: 0 <= i < 16 ==> x[i] == Xor(Xor(In1Byte(sqn, amf, (i + 8) % 16), opc[(i + 8) % 16]), temp[i])
  }

  // The two message codes are the halves of one block, which holds SQN and AMF rotated by
  // eight bytes and added to TEMP.
  lemma MacsOpen(k: Bytes16, opc: Bytes16, rand: Bytes16, sqn: Bytes6, amf: Bytes2) returns (out1: Bytes16)
    ensures F1(k, opc, rand, sqn, amf) == out1[..8] && F1Star(k, opc, rand, sqn, amf) == out1[8..]
    ensures IsIn1Rotated(Opened(k, opc, out1), sqn, amf, Temp(k, opc, rand), opc)
  {
    hide Encrypted, Opened, Xor, Temp, XorSeq, Rot;
    out1 := Out1(k, opc, rand, sqn, amf);
    OpenedUndoes(k, opc, XorSeq(Rot(XorSeq(In1(sqn, amf), opc), 8), Temp(k, opc, rand)));
    RotatedIn1(sqn, amf, Temp(k, opc, rand), opc);
  }

  lemma RotatedIn1(sqn: Bytes6, amf: Bytes2, temp: Bytes16, opc: Bytes16)
    ensures IsIn1Rotated(XorSeq(Rot(XorSeq(In1(sqn, amf), opc), 8), temp), sqn, amf, temp, opc)
  {
    hide Xor;
  }
}
