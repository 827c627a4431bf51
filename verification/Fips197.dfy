// The block cipher of FIPS 197 with a 128-bit key, as functions on the four
// columns of the state, and its inverse. Nothing here follows the program's loops:
// it is the standard that rijndael.c is compared with.
module Fips197 {
  import opened ByteField

  // One column of the state, or one word of the key schedule.
  datatype Word = Word(r0: bv8, r1: bv8, r2: bv8, r3: bv8)

  datatype Block = Block(c0: Word, c1: Word, c2: Word, c3: Word)

  function AddWord(a: Word, b: Word): Word {
    Word(Xor(a.r0, b.r0), Xor(a.r1, b.r1), Xor(a.r2, b.r2), Xor(a.r3, b.r3))
  }

  // Section 5.1.4.
  function AddRoundKey(s: Block, k: Block): Block {
    Block(AddWord(s.c0, k.c0), AddWord(s.c1, k.c1), AddWord(s.c2, k.c2), AddWord(s.c3, k.c3))
  }

  function SubWord(w: Word): Word {
    Word(S(w.r0), S(w.r1), S(w.r2), S(w.r3))
  }

  function InvSubWord(w: Word): Word {
    Word(InvS(w.r0), InvS(w.r1), InvS(w.r2), InvS(w.r3))
  }

  // Section 5.1.1.
  function SubBytes(s: Block): Block {
    Block(SubWord(s.c0), SubWord(s.c1), SubWord(s.c2), SubWord(s.c3))
  }

  // Section 5.3.2.
  function InvSubBytes(s: Block): Block {
    Block(InvSubWord(s.c0), InvSubWord(s.c1), InvSubWord(s.c2), InvSubWord(s.c3))
  }

  // Section 5.1.2: row r moves r columns to the left.
  function ShiftRows(s: Block): Block {
    Block(Word(s.c0.r0, s.c1.r1, s.c2.r2, s.c3.r3),
          Word(s.c1.r0, s.c2.r1, s.c3.r2, s.c0.r3),
          Word(s.c2.r0, s.c3.r1, s.c0.r2, s.c1.r3),
          Word(s.c3.r0, s.c0.r1, s.c1.r2, s.c2.r3))
  }

  // Section 5.3.1: row r moves r columns to the right.
  function InvShiftRows(s: Block): Block {
    Block(Word(s.c0.r0, s.c3.r1, s.c2.r2, s.c1.r3),
          Word(s.c1.r0, s.c0.r1, s.c3.r2, s.c2.r3),
          Word(s.c2.r0, s.c1.r1, s.c0.r2, s.c3.r3),
          Word(s.c3.r0, s.c2.r1, s.c1.r2, s.c0.r3))
  }

  function Sum(a: bv8, b: bv8, c: bv8, d: bv8): bv8 {
    Xor(Xor(a, b), Xor(c, d))
  }

  // Section 5.1.3: the product with the circulant matrix 02 03 01 01.
  function MixWord(w: Word): Word {
    Word(Sum(Mul(w.r0, 2), Mul(w.r1, 3), w.r2, w.r3),
         Sum(w.r0, Mul(w.r1, 2), Mul(w.r2, 3), w.r3),
         Sum(w.r0, w.r1, Mul(w.r2, 2), Mul(w.r3, 3)),
         Sum(Mul(w.r0, 3), w.r1, w.r2, Mul(w.r3, 2)))
  }

  // Section 5.3.3: the product with the circulant matrix 0e 0b 0d 09.
  function InvMixWord(w: Word): Word {
    Word(Sum(Mul(w.r0, 14), Mul(w.r1, 11), Mul(w.r2, 13), Mul(w.r3, 9)),
         Sum(Mul(w.r0, 9), Mul(w.r1, 14), Mul(w.r2, 11), Mul(w.r3, 13)),
         Sum(Mul(w.r0, 13), Mul(w.r1, 9), Mul(w.r2, 14), Mul(w.r3, 11)),
         Sum(Mul(w.r0, 11), Mul(w.r1, 13), Mul(w.r2, 9), Mul(w.r3, 14)))
  }

  function MixColumns(s: Block): Block {
    Block(MixWord(s.c0), MixWord(s.c1), MixWord(s.c2), MixWord(s.c3))
  }

  function InvMixColumns(s: Block): Block {
    Block(InvMixWord(s.c0), InvMixWord(s.c1), InvMixWord(s.c2), InvMixWord(s.c3))
  }

  // Section 5.2: Rcon[j] is x to the power j - 1.
  function Rcon(j: nat): bv8
    requires j >= 1
  {
    if j == 1 then 1 else TimesX(Rcon(j - 1))
  }

  function RotWord(w: Word): Word {
    Word(w.r1, w.r2, w.r3, w.r0)
  }

  // Section 5.2: word i of the expanded key.
  function KeyWord(key: Block, i: nat): Word {
    if i == 0 then key.c0
    else if i == 1 then key.c1
    else if i == 2 then key.c2
    else if i == 3 then key.c3
    else
      var temp := KeyWord(key, i - 1);
      AddWord(KeyWord(key, i - 4),
              if i % 4 == 0 then AddWord(SubWord(RotWord(temp)), Word(Rcon(i / 4), 0, 0, 0)) else temp)
  }

  function RoundKey(key: Block, round: nat): Block {
    Block(KeyWord(key, 4 * round), KeyWord(key, 4 * round + 1),
          KeyWord(key, 4 * round + 2), KeyWord(key, 4 * round + 3))
  }

  // Section 5.1: the state after the initial key addition and n full rounds.
  function Rounds(key: Block, s: Block, n: nat): Block
    decreases n
  {
    if n == 0 then AddRoundKey(s, RoundKey(key, 0))
    else AddRoundKey(MixColumns(ShiftRows(SubBytes(Rounds(key, s, n - 1)))), RoundKey(key, n))
  }

  function Cipher(key: Block, s: Block): Block {
    AddRoundKey(ShiftRows(SubBytes(Rounds(key, s, 9))), RoundKey(key, 10))
  }

  // Section 5.3: n inverse rounds, for round keys n down to 1, and the last key addition.
  function InvRounds(key: Block, s: Block, n: nat): Block
    decreases n
  {
    if n == 0 then AddRoundKey(s, RoundKey(key, 0))
    else InvRounds(key, InvSubBytes(InvShiftRows(InvMixColumns(AddRoundKey(s, RoundKey(key, n))))), n - 1)
  }

  function InvCipher(key: Block, s: Block): Block {
    InvRounds(key, InvSubBytes(InvShiftRows(AddRoundKey(s, RoundKey(key, 10)))), 9)
  }

  // ---------------------------------------------------------------------------
  // Each step is undone by its inverse.

  lemma AddWordTwice(w: Word, k: Word)
    ensures AddWord(AddWord(w, k), k) == w
  {
    hide Xor;
    XorTwice(w.r0, k.r0);
    XorTwice(w.r1, k.r1);
    XorTwice(w.r2, k.r2);
    XorTwice(w.r3, k.r3);
  }

  lemma AddRoundKeyTwice(s: Block, k: Block)
    ensures AddRoundKey(AddRoundKey(s, k), k) == s
  {
    hide AddWord;
    AddWordTwice(s.c0, k.c0);
    AddWordTwice(s.c1, k.c1);
    AddWordTwice(s.c2, k.c2);
    AddWordTwice(s.c3, k.c3);
  }

  lemma InvShiftRowsUndoes(s: Block)
    ensures InvShiftRows(ShiftRows(s)) == s
  {
  }

  lemma InvSubWordUndoes(w: Word)
    ensures InvSubWord(SubWord(w)) == w
  {
    hide S, InvS;
    InvSUndoesS(w.r0);
    InvSUndoesS(w.r1);
    InvSUndoesS(w.r2);
    InvSUndoesS(w.r3);
  }

  lemma InvSubBytesUndoes(s: Block)
    ensures InvSubBytes(SubBytes(s)) == s
  {
    hide SubWord, InvSubWord;
    InvSubWordUndoes(s.c0);
    InvSubWordUndoes(s.c1);
    InvSubWordUndoes(s.c2);
    InvSubWordUndoes(s.c3);
  }

  // The product of the two circulant matrices is the identity: one lemma per
  // coefficient of its first row.
  lemma MixProduct0(a: bv8)
    ensures (Mul(Mul(a, 2), 14) ^ Mul(a, 11)) ^ (Mul(a, 13) ^ Mul(Mul(a, 3), 9)) == a
  {
  }

  lemma MixProduct1(a: bv8)
    ensures (Mul(Mul(a, 3), 14) ^ Mul(Mul(a, 2), 11)) ^ (Mul(a, 13) ^ Mul(a, 9)) == 0
  {
  }

  lemma MixProduct2(a: bv8)
    ensures (Mul(a, 14) ^ Mul(Mul(a, 3), 11)) ^ (Mul(Mul(a, 2), 13) ^ Mul(a, 9)) == 0
  {
  }

  lemma MixProduct3(a: bv8)
    ensures (Mul(a, 14) ^ Mul(a, 11)) ^ (Mul(Mul(a, 3), 13) ^ Mul(Mul(a, 2), 9)) == 0
  {
  }

  lemma SumIsXor(a: bv8, b: bv8, c: bv8, d: bv8)
    ensures Sum(a, b, c, d) == (a ^ b) ^ (c ^ d)
  {
  }

  lemma MixProductRow(a: bv8)
    ensures Sum(Mul(Mul(a, 2), 14), Mul(a, 11), Mul(a, 13), Mul(Mul(a, 3), 9)) == a
    ensures Sum(Mul(Mul(a, 3), 14), Mul(Mul(a, 2), 11), Mul(a, 13), Mul(a, 9)) == 0
    ensures Sum(Mul(a, 14), Mul(Mul(a, 3), 11), Mul(Mul(a, 2), 13), Mul(a, 9)) == 0
    ensures Sum(Mul(a, 14), Mul(a, 11), Mul(Mul(a, 3), 13), Mul(Mul(a, 2), 9)) == 0
    ensures Sum(a, 0, 0, 0) == a
  {
    hide Mul, Sum;
    MixProduct0(a);
    SumIsXor(Mul(Mul(a, 2), 14), Mul(a, 11), Mul(a, 13), Mul(Mul(a, 3), 9));
    MixProduct1(a);
    SumIsXor(Mul(Mul(a, 3), 14), Mul(Mul(a, 2), 11), Mul(a, 13), Mul(a, 9));
    MixProduct2(a);
    SumIsXor(Mul(a, 14), Mul(Mul(a, 3), 11), Mul(Mul(a, 2), 13), Mul(a, 9));
    MixProduct3(a);
    SumIsXor(Mul(a, 14), Mul(a, 11), Mul(Mul(a, 3), 13), Mul(Mul(a, 2), 9));
    SumIsXor(a, 0, 0, 0);
  }

  lemma MulSum(a: bv8, b: bv8, c: bv8, d: bv8)
    ensures Mul(Sum(a, b, c, d), 9) == Sum(Mul(a, 9), Mul(b, 9), Mul(c, 9), Mul(d, 9))
    ensures Mul(Sum(a, b, c, d), 11) == Sum(Mul(a, 11), Mul(b, 11), Mul(c, 11), Mul(d, 11))
    ensures Mul(Sum(a, b, c, d), 13) == Sum(Mul(a, 13), Mul(b, 13), Mul(c, 13), Mul(d, 13))
    ensures Mul(Sum(a, b, c, d), 14) == Sum(Mul(a, 14), Mul(b, 14), Mul(c, 14), Mul(d, 14))
  {
    hide Mul, Xor;
    MulAdds(a, b);
    MulAdds(c, d);
    MulAdds(Xor(a, b), Xor(c, d));
  }

  lemma SumOfSums(a: Word, b: Word, c: Word, d: Word)
    ensures Sum(Sum(a.r0, a.r1, a.r2, a.r3), Sum(b.r0, b.r1, b.r2, b.r3),
                Sum(c.r0, c.r1, c.r2, c.r3), Sum(d.r0, d.r1, d.r2, d.r3))
         == Sum(Sum(a.r0, b.r0, c.r0, d.r0), Sum(a.r1, b.r1, c.r1, d.r1),
                Sum(a.r2, b.r2, c.r2, d.r2), Sum(a.r3, b.r3, c.r3, d.r3))
  {
    hide Xor;
    SumPairs(a, b);
    SumPairs(c, d);
    SumPairs(AddWord(a, b), AddWord(c, d));
  }

  lemma SumPairs(a: Word, b: Word)
    ensures var s := AddWord(a, b);
      Xor(Sum(a.r0, a.r1, a.r2, a.r3), Sum(b.r0, b.r1, b.r2, b.r3)) == Sum(s.r0, s.r1, s.r2, s.r3)
  {
    hide Xor;
    XorPairs(a.r0, a.r1, b.r0, b.r1);
    XorPairs(a.r2, a.r3, b.r2, b.r3);
    XorPairs(Xor(a.r0, a.r1), Xor(a.r2, a.r3), Xor(b.r0, b.r1), Xor(b.r2, b.r3));
  }

  // The first row of the inverse mix recovers the first byte.
  lemma InvMixFirstRow(a: bv8, b: bv8, c: bv8, d: bv8)
    ensures InvMixWord(MixWord(Word(a, b, c, d))).r0 == a
  {
    hide Mul, Xor, Sum;
    MulSum(Mul(a, 2), Mul(b, 3), c, d);
    MulSum(a, Mul(b, 2), Mul(c, 3), d);
    MulSum(a, b, Mul(c, 2), Mul(d, 3));
    MulSum(Mul(a, 3), b, c, Mul(d, 2));
    SumOfSums(Word(Mul(Mul(a, 2), 14), Mul(Mul(b, 3), 14), Mul(c, 14), Mul(d, 14)),
              Word(Mul(a, 11), Mul(Mul(b, 2), 11), Mul(Mul(c, 3), 11), Mul(d, 11)),
              Word(Mul(a, 13), Mul(b, 13), Mul(Mul(c, 2), 13), Mul(Mul(d, 3), 13)),
              Word(Mul(Mul(a, 3), 9), Mul(b, 9), Mul(c, 9), Mul(Mul(d, 2), 9)));
    MixProductRow(a);
    MixProductRow(b);
    MixProductRow(c);
    MixProductRow(d);
  }

  lemma SumRotates(a: bv8, b: bv8, c: bv8, d: bv8)
    ensures Sum(a, b, c, d) == Sum(b, c, d, a)
  {
    hide Xor;
    XorAssoc(a, b, Xor(c, d));
    XorAssoc(b, Xor(c, d), a);
    XorComm(a, Xor(b, Xor(c, d)));
    XorAssoc(b, c, Xor(d, a));
    XorAssoc(c, d, a);
  }

  // Both matrices are circulant, so rotating the word rotates the results.
  lemma MixRotates(w: Word)
    ensures MixWord(RotWord(w)) == RotWord(MixWord(w))
    ensures InvMixWord(RotWord(w)) == RotWord(InvMixWord(w))
  {
    hide Mul, Sum;
    SumRotates(Mul(w.r0, 2), Mul(w.r1, 3), w.r2, w.r3);
    SumRotates(w.r0, Mul(w.r1, 2), Mul(w.r2, 3), w.r3);
    SumRotates(w.r0, w.r1, Mul(w.r2, 2), Mul(w.r3, 3));
    SumRotates(Mul(w.r0, 3), w.r1, w.r2, Mul(w.r3, 2));
    SumRotates(Mul(w.r0, 14), Mul(w.r1, 11), Mul(w.r2, 13), Mul(w.r3, 9));
    SumRotates(Mul(w.r0, 9), Mul(w.r1, 14), Mul(w.r2, 11), Mul(w.r3, 13));
    SumRotates(Mul(w.r0, 13), Mul(w.r1, 9), Mul(w.r2, 14), Mul(w.r3, 11));
    SumRotates(Mul(w.r0, 11), Mul(w.r1, 13), Mul(w.r2, 9), Mul(w.r3, 14));
  }

  lemma InvMixWordUndoes(w: Word)
    ensures InvMixWord(MixWord(w)) == w
  {
    hide MixWord, InvMixWord;
    var w1 := RotWord(w);
    var w2 := RotWord(w1);
    var w3 := RotWord(w2);
    InvMixFirstRow(w.r0, w.r1, w.r2, w.r3);
    InvMixFirstRow(w1.r0, w1.r1, w1.r2, w1.r3);
    InvMixFirstRow(w2.r0, w2.r1, w2.r2, w2.r3);
    InvMixFirstRow(w3.r0, w3.r1, w3.r2, w3.r3);
    MixRotates(w);
    MixRotates(w1);
    MixRotates(w2);
    MixRotates(MixWord(w));
    MixRotates(MixWord(w1));
    MixRotates(MixWord(w2));
  }

  lemma InvMixColumnsUndoes(s: Block)
    ensures InvMixColumns(MixColumns(s)) == s
  {
    hide MixWord, InvMixWord;
    InvMixWordUndoes(s.c0);
    InvMixWordUndoes(s.c1);
    InvMixWordUndoes(s.c2);
    InvMixWordUndoes(s.c3);
  }

  lemma {:induction false} InvRoundsUndo(key: Block, s: Block, n: nat)
    ensures InvRounds(key, Rounds(key, s, n), n) == s
  {
    hide AddRoundKey, MixColumns, ShiftRows, SubBytes, InvMixColumns, InvShiftRows, InvSubBytes, RoundKey;
    if n == 0 {
      AddRoundKeyTwice(s, RoundKey(key, 0));
    } else {
      var t := Rounds(key, s, n - 1);
      AddRoundKeyTwice(MixColumns(ShiftRows(SubBytes(t))), RoundKey(key, n));
      InvMixColumnsUndoes(ShiftRows(SubBytes(t)));
      InvShiftRowsUndoes(SubBytes(t));
      InvSubBytesUndoes(t);
      InvRoundsUndo(key, s, n - 1);
    }
  }

  // Decryption recovers every block under every key.
  lemma InvCipherUndoesCipher(key: Block, s: Block)
    ensures InvCipher(key, Cipher(key, s)) == s
  {
    hide AddRoundKey, ShiftRows, SubBytes, InvShiftRows, InvSubBytes, RoundKey, Rounds, InvRounds;
    var t := Rounds(key, s, 9);
    AddRoundKeyTwice(ShiftRows(SubBytes(t)), RoundKey(key, 10));
    InvShiftRowsUndoes(SubBytes(t));
    InvSubBytesUndoes(t);
    InvRoundsUndo(key, s, 9);
  }
}
