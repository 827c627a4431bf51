// The arithmetic of the byte field of FIPS 197 (section 4) and the three byte
// tables of hsssec/src/rijndael.c, related to each other for every byte.
module ByteField {

  // Entry n mod 16 of a sixteen-entry row, selected bit by bit.
  function Pick(n: bv8,
                x0: bv8, x1: bv8, x2: bv8, x3: bv8, x4: bv8, x5: bv8, x6: bv8, x7: bv8,
                x8: bv8, x9: bv8, x10: bv8, x11: bv8, x12: bv8, x13: bv8, x14: bv8, x15: bv8): bv8
  {
    if n & 8 == 0 then
      if n & 4 == 0 then
        if n & 2 == 0 then (if n & 1 == 0 then x0 else x1) else (if n & 1 == 0 then x2 else x3)
      else
        if n & 2 == 0 then (if n & 1 == 0 then x4 else x5) else (if n & 1 == 0 then x6 else x7)
    else
      if n & 4 == 0 then
        if n & 2 == 0 then (if n & 1 == 0 then x8 else x9) else (if n & 1 == 0 then x10 else x11)
      else
        if n & 2 == 0 then (if n & 1 == 0 then x12 else x13) else (if n & 1 == 0 then x14 else x15)
  }

  // The substitution table S, one row of sixteen entries per line.
  function S(b: bv8): bv8 {
    Pick(b >> 4,
      Pick(b, 99, 124, 119, 123, 242, 107, 111, 197, 48, 1, 103, 43, 254, 215, 171, 118),
      Pick(b, 202, 130, 201, 125, 250, 89, 71, 240, 173, 212, 162, 175, 156, 164, 114, 192),
      Pick(b, 183, 253, 147, 38, 54, 63, 247, 204, 52, 165, 229, 241, 113, 216, 49, 21),
      Pick(b, 4, 199, 35, 195, 24, 150, 5, 154, 7, 18, 128, 226, 235, 39, 178, 117),
      Pick(b, 9, 131, 44, 26, 27, 110, 90, 160, 82, 59, 214, 179, 41, 227, 47, 132),
      Pick(b, 83, 209, 0, 237, 32, 252, 177, 91, 106, 203, 190, 57, 74, 76, 88, 207),
      Pick(b, 208, 239, 170, 251, 67, 77, 51, 133, 69, 249, 2, 127, 80, 60, 159, 168),
      Pick(b, 81, 163, 64, 143, 146, 157, 56, 245, 188, 182, 218, 33, 16, 255, 243, 210),
      Pick(b, 205, 12, 19, 236, 95, 151, 68, 23, 196, 167, 126, 61, 100, 93, 25, 115),
      Pick(b, 96, 129, 79, 220, 34, 42, 144, 136, 70, 238, 184, 20, 222, 94, 11, 219),
      Pick(b, 224, 50, 58, 10, 73, 6, 36, 92, 194, 211, 172, 98, 145, 149, 228, 121),
      Pick(b, 231, 200, 55, 109, 141, 213, 78, 169, 108, 86, 244, 234, 101, 122, 174, 8),
      Pick(b, 186, 120, 37, 46, 28, 166, 180, 198, 232, 221, 116, 31, 75, 189, 139, 138),
      Pick(b, 112, 62, 181, 102, 72, 3, 246, 14, 97, 53, 87, 185, 134, 193, 29, 158),
      Pick(b, 225, 248, 152, 17, 105, 217, 142, 148, 155, 30, 135, 233, 206, 85, 40, 223),
      Pick(b, 140, 161, 137, 13, 191, 230, 66, 104, 65, 153, 45, 15, 176, 84, 187, 22))
  }

  // The table Xtime.
  function Xtime(b: bv8): bv8 {
    Pick(b >> 4,
      Pick(b, 0, 2, 4, 6, 8, 10, 12, 14, 16, 18, 20, 22, 24, 26, 28, 30),
      Pick(b, 32, 34, 36, 38, 40, 42, 44, 46, 48, 50, 52, 54, 56, 58, 60, 62),
      Pick(b, 64, 66, 68, 70, 72, 74, 76, 78, 80, 82, 84, 86, 88, 90, 92, 94),
      Pick(b, 96, 98, 100, 102, 104, 106, 108, 110, 112, 114, 116, 118, 120, 122, 124, 126),
      Pick(b, 128, 130, 132, 134, 136, 138, 140, 142, 144, 146, 148, 150, 152, 154, 156, 158),
      Pick(b, 160, 162, 164, 166, 168, 170, 172, 174, 176, 178, 180, 182, 184, 186, 188, 190),
      Pick(b, 192, 194, 196, 198, 200, 202, 204, 206, 208, 210, 212, 214, 216, 218, 220, 222),
      Pick(b, 224, 226, 228, 230, 232, 234, 236, 238, 240, 242, 244, 246, 248, 250, 252, 254),
      Pick(b, 27, 25, 31, 29, 19, 17, 23, 21, 11, 9, 15, 13, 3, 1, 7, 5),
      Pick(b, 59, 57, 63, 61, 51, 49, 55, 53, 43, 41, 47, 45, 35, 33, 39, 37),
      Pick(b, 91, 89, 95, 93, 83, 81, 87, 85, 75, 73, 79, 77, 67, 65, 71, 69),
      Pick(b, 123, 121, 127, 125, 115, 113, 119, 117, 107, 105, 111, 109, 99, 97, 103, 101),
      Pick(b, 155, 153, 159, 157, 147, 145, 151, 149, 139, 137, 143, 141, 131, 129, 135, 133),
      Pick(b, 187, 185, 191, 189, 179, 177, 183, 181, 171, 169, 175, 173, 163, 161, 167, 165),
      Pick(b, 219, 217, 223, 221, 211, 209, 215, 213, 203, 201, 207, 205, 195, 193, 199, 197),
      Pick(b, 251, 249, 255, 253, 243, 241, 247, 245, 235, 233, 239, 237, 227, 225, 231, 229))
  }

  // The inverse substitution table of FIPS 197, section 5.3.2 (not part of the
  // program, which only encrypts).
  function InvS(b: bv8): bv8 {
    Pick(b >> 4,
      Pick(b, 82, 9, 106, 213, 48, 54, 165, 56, 191, 64, 163, 158, 129, 243, 215, 251),
      Pick(b, 124, 227, 57, 130, 155, 47, 255, 135, 52, 142, 67, 68, 196, 222, 233, 203),
      Pick(b, 84, 123, 148, 50, 166, 194, 35, 61, 238, 76, 149, 11, 66, 250, 195, 78),
      Pick(b, 8, 46, 161, 102, 40, 217, 36, 178, 118, 91, 162, 73, 109, 139, 209, 37),
      Pick(b, 114, 248, 246, 100, 134, 104, 152, 22, 212, 164, 92, 204, 93, 101, 182, 146),
      Pick(b, 108, 112, 72, 80, 253, 237, 185, 218, 94, 21, 70, 87, 167, 141, 157, 132),
      Pick(b, 144, 216, 171, 0, 140, 188, 211, 10, 247, 228, 88, 5, 184, 179, 69, 6),
      Pick(b, 208, 44, 30, 143, 202, 63, 15, 2, 193, 175, 189, 3, 1, 19, 138, 107),
      Pick(b, 58, 145, 17, 65, 79, 103, 220, 234, 151, 242, 207, 206, 240, 180, 230, 115),
      Pick(b, 150, 172, 116, 34, 231, 173, 53, 133, 226, 249, 55, 232, 28, 117, 223, 110),
      Pick(b, 71, 241, 26, 113, 29, 41, 197, 137, 111, 183, 98, 14, 170, 24, 190, 27),
      Pick(b, 252, 86, 62, 75, 198, 210, 121, 32, 154, 219, 192, 254, 120, 205, 90, 244),
      Pick(b, 31, 221, 168, 51, 136, 7, 199, 49, 177, 18, 16, 89, 39, 128, 236, 95),
      Pick(b, 96, 81, 127, 169, 25, 181, 74, 13, 45, 229, 122, 159, 147, 201, 156, 239),
      Pick(b, 160, 224, 59, 77, 174, 42, 245, 176, 200, 235, 187, 60, 131, 83, 153, 97),
      Pick(b, 23, 43, 4, 126, 186, 119, 214, 38, 225, 105, 20, 99, 85, 33, 12, 125))
  }

  // Addition of section 4.1: the exclusive or of two bytes.
  function Xor(a: bv8, b: bv8): bv8 {
    a ^ b
  }

  // Multiplication by x modulo x^8 + x^4 + x^3 + x + 1 (FIPS 197, section 4.2.1).
  function TimesX(b: bv8): bv8 {
    (b << 1) ^ (if b & 0x80 == 0 then 0 else 0x1b)
  }

  // The field product: one power of x per bit of b.
  function Mul(a: bv8, b: bv8): bv8 {
    var a1 := TimesX(a);
    var a2 := TimesX(a1);
    var a3 := TimesX(a2);
    var a4 := TimesX(a3);
    var a5 := TimesX(a4);
    var a6 := TimesX(a5);
    var a7 := TimesX(a6);
    (if b & 1 == 0 then 0 else a) ^ (if b & 2 == 0 then 0 else a1) ^
    (if b & 4 == 0 then 0 else a2) ^ (if b & 8 == 0 then 0 else a3) ^
    (if b & 16 == 0 then 0 else a4) ^ (if b & 32 == 0 then 0 else a5) ^
    (if b & 64 == 0 then 0 else a6) ^ (if b & 128 == 0 then 0 else a7)
  }

  // The affine map of FIPS 197, section 5.1.1, equation (5.1).
  function Affine(b: bv8): bv8 {
    b ^ b.RotateLeft(1) ^ b.RotateLeft(2) ^ b.RotateLeft(3) ^ b.RotateLeft(4) ^ 0x63
  }

  // Section 5.1.1 in one predicate: s is the affine image of the field inverse of b,
  // where zero stands for its own inverse.
  ghost predicate IsSubstitution(b: bv8, s: bv8) {
    exists i: bv8 :: IsInverse(b, i) && s == Affine(i)
  }

  predicate IsInverse(b: bv8, i: bv8) {
    if b == 0 then i == 0 else Mul(b, i) == 1
  }

  function UndoAffine(b: bv8): bv8 {
    b.RotateLeft(1) ^ b.RotateLeft(3) ^ b.RotateLeft(6) ^ 0x05
  }

  // ---------------------------------------------------------------------------
  // Addition is an abelian group in which every byte is its own negative.

  lemma XorAssoc(a: bv8, b: bv8, c: bv8)
    ensures Xor(Xor(a, b), c) == Xor(a, Xor(b, c))
  {
  }

  lemma XorComm(a: bv8, b: bv8)
    ensures Xor(a, b) == Xor(b, a)
  {
  }

  lemma XorZero(a: bv8)
    ensures Xor(a, 0) == a && Xor(0, a) == a && Xor(a, a) == 0
  {
  }

  lemma XorTwice(a: bv8, b: bv8)
    ensures Xor(Xor(a, b), b) == a
  {
  }

  // If a ^ m == b then b ^ m == a: the mask of a concealed byte can be lifted.
  lemma XorPairs(a: bv8, b: bv8, c: bv8, d: bv8)
    ensures Xor(Xor(a, b), Xor(c, d)) == Xor(Xor(a, c), Xor(b, d))
  {
    hide Xor;
    calc {
      Xor(Xor(a, b), Xor(c, d));
      { XorAssoc(a, b, Xor(c, d)); }
      Xor(a, Xor(b, Xor(c, d)));
      { XorAssoc(b, c, d); XorComm(b, c); XorAssoc(c, b, d); }
      Xor(a, Xor(c, Xor(b, d)));
      { XorAssoc(a, c, Xor(b, d)); }
      Xor(Xor(a, c), Xor(b, d));
    }
  }

  // ---------------------------------------------------------------------------
  // Multiplication distributes over addition.

  // TimesX with the reduction spread over the shifted top bit.
  function FoldX(b: bv8): bv8 {
    (b << 1) ^ (b >> 7) ^ ((b >> 7) << 1) ^ ((b >> 7) << 3) ^ ((b >> 7) << 4)
  }

  lemma FoldXIsTimesX(b: bv8)
    ensures FoldX(b) == TimesX(b)
  {
  }

  lemma FoldXAdds(a: bv8, b: bv8)
    ensures FoldX(a ^ b) == FoldX(a) ^ FoldX(b)
  {
  }

  lemma TimesXAdds(a: bv8, b: bv8)
    ensures TimesX(Xor(a, b)) == Xor(TimesX(a), TimesX(b))
  {
    hide TimesX;
    FoldXIsTimesX(a);
    FoldXIsTimesX(b);
    FoldXIsTimesX(a ^ b);
    FoldXAdds(a, b);
  }

  // The four coefficients of the inverse mix, as sums of powers of x.
  lemma Times9(a: bv8)
    ensures Mul(a, 9) == Xor(a, TimesX(TimesX(TimesX(a))))
  {
    hide TimesX;
  }

  lemma Times11(a: bv8)
    ensures Mul(a, 11) == Xor(Xor(a, TimesX(a)), TimesX(TimesX(TimesX(a))))
  {
    hide TimesX;
  }

  lemma Times13(a: bv8)
    ensures Mul(a, 13) == Xor(Xor(a, TimesX(TimesX(a))), TimesX(TimesX(TimesX(a))))
  {
    hide TimesX;
  }

  lemma Times14(a: bv8)
    ensures Mul(a, 14) == Xor(Xor(TimesX(a), TimesX(TimesX(a))), TimesX(TimesX(TimesX(a))))
  {
    hide TimesX;
  }

  lemma Coefficients(a: bv8)
    ensures var a1 := TimesX(a); var a2 := TimesX(a1); var a3 := TimesX(a2);
      && Mul(a, 9) == Xor(a, a3)
      && Mul(a, 11) == Xor(Xor(a, a1), a3)
      && Mul(a, 13) == Xor(Xor(a, a2), a3)
      && Mul(a, 14) == Xor(Xor(a1, a2), a3)
  {
    hide TimesX, Mul, Xor;
    Times9(a);
    Times11(a);
    Times13(a);
    Times14(a);
  }

  lemma MulAdds(a: bv8, b: bv8)
    ensures Mul(Xor(a, b), 9) == Xor(Mul(a, 9), Mul(b, 9))
    ensures Mul(Xor(a, b), 11) == Xor(Mul(a, 11), Mul(b, 11))
    ensures Mul(Xor(a, b), 13) == Xor(Mul(a, 13), Mul(b, 13))
    ensures Mul(Xor(a, b), 14) == Xor(Mul(a, 14), Mul(b, 14))
  {
    hide TimesX, Mul, Xor;
    var a1, b1 := TimesX(a), TimesX(b);
    var a2, b2 := TimesX(a1), TimesX(b1);
    var a3, b3 := TimesX(a2), TimesX(b2);
    Coefficients(a);
    Coefficients(b);
    Coefficients(Xor(a, b));
    TimesXAdds(a, b);
    TimesXAdds(a1, b1);
    TimesXAdds(a2, b2);
    XorPairs(a, b, a1, b1);
    XorPairs(a, b, a2, b2);
    XorPairs(a, b, a3, b3);
    XorPairs(a1, b1, a2, b2);
    XorPairs(Xor(a, a1), Xor(b, b1), a3, b3);
    XorPairs(Xor(a, a2), Xor(b, b2), a3, b3);
    XorPairs(Xor(a1, a2), Xor(b1, b2), a3, b3);
  }

  // ---------------------------------------------------------------------------
  // The tables.

  lemma XtimeLowHalf(b: bv8)
    requires b & 0x80 == 0
    ensures Xtime(b) == TimesX(b)
  {
  }

  lemma XtimeHighHalf(b: bv8)
    requires b & 0x80 == 0x80
    ensures Xtime(b) == TimesX(b)
  {
  }

  // The table Xtime is multiplication by x.
  lemma XtimeIsTimesX(b: bv8)
    ensures Xtime(b) == TimesX(b)
  {
    hide Xtime, TimesX;
    if b & 0x80 == 0 { XtimeLowHalf(b); } else { XtimeHighHalf(b); }
  }

  lemma InverseTableQuarter0(b: bv8)
    requires b & 0xC0 == 0x00
    ensures InvS(S(b)) == b
  {
  }

  lemma InverseTableQuarter1(b: bv8)
    requires b & 0xC0 == 0x40
    ensures InvS(S(b)) == b
  {
  }

  lemma InverseTableQuarter2(b: bv8)
    requires b & 0xC0 == 0x80
    ensures InvS(S(b)) == b
  {
  }

  lemma InverseTableQuarter3(b: bv8)
    requires b & 0xC0 == 0xC0
    ensures InvS(S(b)) == b
  {
  }

  lemma FieldInverseQuarter0(b: bv8)
    requires b & 0xC0 == 0x00
    ensures IsInverse(b, UndoAffine(S(b)))
  {
  }

  lemma FieldInverseQuarter1(b: bv8)
    requires b & 0xC0 == 0x40
    ensures IsInverse(b, UndoAffine(S(b)))
  {
  }

  lemma FieldInverseQuarter2(b: bv8)
    requires b & 0xC0 == 0x80
    ensures IsInverse(b, UndoAffine(S(b)))
  {
  }

  lemma FieldInverseQuarter3(b: bv8)
    requires b & 0xC0 == 0xC0
    ensures IsInverse(b, UndoAffine(S(b)))
  {
  }

  // Distinct bytes have distinct substitutes: InvS takes each one back.
  lemma InvSUndoesS(b: bv8)
    ensures InvS(S(b)) == b
  {
    hide S, InvS;
    if b & 0xC0 == 0 {
      InverseTableQuarter0(b);
    } else if b & 0xC0 == 0x40 {
      InverseTableQuarter1(b);
    } else if b & 0xC0 == 0x80 {
      InverseTableQuarter2(b);
    } else {
      InverseTableQuarter3(b);
    }
  }

  lemma UndoAffineUndoes(b: bv8)
    ensures Affine(UndoAffine(b)) == b
  {
  }

  // The table S is the substitution that section 5.1.1 of FIPS 197 defines.
  lemma SIsSubstitution(b: bv8)
    ensures IsSubstitution(b, S(b))
  {
    hide S, Affine, UndoAffine, IsInverse;
    UndoAffineUndoes(S(b));
    if b & 0xC0 == 0 {
      FieldInverseQuarter0(b);
    } else if b & 0xC0 == 0x40 {
      FieldInverseQuarter1(b);
    } else if b & 0xC0 == 0x80 {
      FieldInverseQuarter2(b);
    } else {
      FieldInverseQuarter3(b);
    }
  }
}
