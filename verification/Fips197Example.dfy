// The worked example of FIPS 197: the key expansion of Appendix A.1 and the cipher of
// Appendix B. Its published values fix the round constants, the order of the bytes, the
// recursion of the key words and every step of a round.
module Fips197Example {
  import opened ByteField
  import opened Fips197
  import opened Rijndael

  const KEY: Bytes16 :=
    [0x2b, 0x7e, 0x15, 0x16, 0x28, 0xae, 0xd2, 0xa6, 0xab, 0xf7, 0x15, 0x88, 0x09, 0xcf, 0x4f, 0x3c]

  const INPUT: Bytes16 :=
    [0x32, 0x43, 0xf6, 0xa8, 0x88, 0x5a, 0x30, 0x8d, 0x31, 0x31, 0x98, 0xa2, 0xe0, 0x37, 0x07, 0x34]

  const OUTPUT: Bytes16 :=
    [0x39, 0x25, 0x84, 0x1d, 0x02, 0xdc, 0x09, 0xfb, 0xdc, 0x11, 0x85, 0x97, 0x19, 0x6a, 0x0b, 0x32]

  // Appendix A.1: the round keys.
  const K0 := Block(Word(0x2b, 0x7e, 0x15, 0x16), Word(0x28, 0xae, 0xd2, 0xa6), Word(0xab, 0xf7, 0x15, 0x88), Word(0x09, 0xcf, 0x4f, 0x3c))
  const K1 := Block(Word(0xa0, 0xfa, 0xfe, 0x17), Word(0x88, 0x54, 0x2c, 0xb1), Word(0x23, 0xa3, 0x39, 0x39), Word(0x2a, 0x6c, 0x76, 0x05))
  const K2 := Block(Word(0xf2, 0xc2, 0x95, 0xf2), Word(0x7a, 0x96, 0xb9, 0x43), Word(0x59, 0x35, 0x80, 0x7a), Word(0x73, 0x59, 0xf6, 0x7f))
  const K3 := Block(Word(0x3d, 0x80, 0x47, 0x7d), Word(0x47, 0x16, 0xfe, 0x3e), Word(0x1e, 0x23, 0x7e, 0x44), Word(0x6d, 0x7a, 0x88, 0x3b))
  const K4 := Block(Word(0xef, 0x44, 0xa5, 0x41), Word(0xa8, 0x52, 0x5b, 0x7f), Word(0xb6, 0x71, 0x25, 0x3b), Word(0xdb, 0x0b, 0xad, 0x00))
  const K5 := Block(Word(0xd4, 0xd1, 0xc6, 0xf8), Word(0x7c, 0x83, 0x9d, 0x87), Word(0xca, 0xf2, 0xb8, 0xbc), Word(0x11, 0xf9, 0x15, 0xbc))
  const K6 := Block(Word(0x6d, 0x88, 0xa3, 0x7a), Word(0x11, 0x0b, 0x3e, 0xfd), Word(0xdb, 0xf9, 0x86, 0x41), Word(0xca, 0x00, 0x93, 0xfd))
  const K7 := Block(Word(0x4e, 0x54, 0xf7, 0x0e), Word(0x5f, 0x5f, 0xc9, 0xf3), Word(0x84, 0xa6, 0x4f, 0xb2), Word(0x4e, 0xa6, 0xdc, 0x4f))
  const K8 := Block(Word(0xea, 0xd2, 0x73, 0x21), Word(0xb5, 0x8d, 0xba, 0xd2), Word(0x31, 0x2b, 0xf5, 0x60), Word(0x7f, 0x8d, 0x29, 0x2f))
  const K9 := Block(Word(0xac, 0x77, 0x66, 0xf3), Word(0x19, 0xfa, 0xdc, 0x21), Word(0x28, 0xd1, 0x29, 0x41), Word(0x57, 0x5c, 0x00, 0x6e))
  const K10 := Block(Word(0xd0, 0x14, 0xf9, 0xa8), Word(0xc9, 0xee, 0x25, 0x89), Word(0xe1, 0x3f, 0x0c, 0xc8), Word(0xb6, 0x63, 0x0c, 0xa6))

  // Appendix B: the state at the start of each round.
  const T0 := Block(Word(0x19, 0x3d, 0xe3, 0xbe), Word(0xa0, 0xf4, 0xe2, 0x2b), Word(0x9a, 0xc6, 0x8d, 0x2a), Word(0xe9, 0xf8, 0x48, 0x08))
  const T1 := Block(Word(0xa4, 0x9c, 0x7f, 0xf2), Word(0x68, 0x9f, 0x35, 0x2b), Word(0x6b, 0x5b, 0xea, 0x43), Word(0x02, 0x6a, 0x50, 0x49))
  const T2 := Block(Word(0xaa, 0x8f, 0x5f, 0x03), Word(0x61, 0xdd, 0xe3, 0xef), Word(0x82, 0xd2, 0x4a, 0xd2), Word(0x68, 0x32, 0x46, 0x9a))
  const T3 := Block(Word(0x48, 0x6c, 0x4e, 0xee), Word(0x67, 0x1d, 0x9d, 0x0d), Word(0x4d, 0xe3, 0xb1, 0x38), Word(0xd6, 0x5f, 0x58, 0xe7))
  const T4 := Block(Word(0xe0, 0x92, 0x7f, 0xe8), Word(0xc8, 0x63, 0x63, 0xc0), Word(0xd9, 0xb1, 0x35, 0x50), Word(0x85, 0xb8, 0xbe, 0x01))
  const T5 := Block(Word(0xf1, 0x00, 0x6f, 0x55), Word(0xc1, 0x92, 0x4c, 0xef), Word(0x7c, 0xc8, 0x8b, 0x32), Word(0x5d, 0xb5, 0xd5, 0x0c))
  const T6 := Block(Word(0x26, 0x0e, 0x2e, 0x17), Word(0x3d, 0x41, 0xb7, 0x7d), Word(0xe8, 0x64, 0x72, 0xa9), Word(0xfd, 0xd2, 0x8b, 0x25))
  const T7 := Block(Word(0x5a, 0x41, 0x42, 0xb1), Word(0x19, 0x49, 0xdc, 0x1f), Word(0xa3, 0xe0, 0x19, 0x65), Word(0x7a, 0x8c, 0x04, 0x0c))
  const T8 := Block(Word(0xea, 0x83, 0x5c, 0xf0), Word(0x04, 0x45, 0x33, 0x2d), Word(0x65, 0x5d, 0x98, 0xad), Word(0x85, 0x96, 0xb0, 0xc5))
  const T9 := Block(Word(0xeb, 0x40, 0xf2, 0x1e), Word(0x59, 0x2e, 0x38, 0x84), Word(0x8b, 0xa1, 0x13, 0xe7), Word(0x1b, 0xc3, 0x42, 0xd2))

  lemma PublishedRcon()
    ensures Rcon(1) == 0x01 && Rcon(2) == 0x02 && Rcon(3) == 0x04 && Rcon(4) == 0x08 && Rcon(5) == 0x10
    ensures Rcon(6) == 0x20 && Rcon(7) == 0x40 && Rcon(8) == 0x80 && Rcon(9) == 0x1b && Rcon(10) == 0x36
  {
  }

  lemma Key1()
    ensures NextKey(K0, 0x01) == K1
  {
  }

  lemma Key2()
    ensures NextKey(K1, 0x02) == K2
  {
  }

  lemma Key3()
    ensures NextKey(K2, 0x04) == K3
  {
  }

  lemma Key4()
    ensures NextKey(K3, 0x08) == K4
  {
  }

  lemma Key5()
    ensures NextKey(K4, 0x10) == K5
  {
  }

  lemma Key6()
    ensures NextKey(K5, 0x20) == K6
  {
  }

  lemma Key7()
    ensures NextKey(K6, 0x40) == K7
  {
  }

  lemma Key8()
    ensures NextKey(K7, 0x80) == K8
  {
  }

  lemma Key9()
    ensures NextKey(K8, 0x1b) == K9
  {
  }

  lemma Key10()
    ensures NextKey(K9, 0x36) == K10
  {
  }

  lemma Round1()
    ensures AddRoundKey(MixColumns(ShiftRows(SubBytes(T0))), K1) == T1
  {
  }

  lemma Round2()
    ensures AddRoundKey(MixColumns(ShiftRows(SubBytes(T1))), K2) == T2
  {
  }

  lemma Round3()
    ensures AddRoundKey(MixColumns(ShiftRows(SubBytes(T2))), K3) == T3
  {
  }

  lemma Round4()
    ensures AddRoundKey(MixColumns(ShiftRows(SubBytes(T3))), K4) == T4
  {
  }

  lemma Round5()
    ensures AddRoundKey(MixColumns(ShiftRows(SubBytes(T4))), K5) == T5
  {
  }

  lemma Round6()
    ensures AddRoundKey(MixColumns(ShiftRows(SubBytes(T5))), K6) == T6
  {
  }

  lemma Round7()
    ensures AddRoundKey(MixColumns(ShiftRows(SubBytes(T6))), K7) == T7
  {
  }

  lemma Round8()
    ensures AddRoundKey(MixColumns(ShiftRows(SubBytes(T7))), K8) == T8
  {
  }

  lemma Round9()
    ensures AddRoundKey(MixColumns(ShiftRows(SubBytes(T8))), K9) == T9
  {
  }

  lemma FirstAndLast()
    ensures BlockOf(KEY) == K0
    ensures AddRoundKey(BlockOf(INPUT), K0) == T0
    ensures AddRoundKey(ShiftRows(SubBytes(T9)), K10) == BlockOf(OUTPUT)
  {
  }

  // The expansion gives the published round keys.
  lemma RoundKeysAreThePublished()
    ensures RoundKey(K0, 0) == K0
    ensures RoundKey(K0, 1) == K1
    ensures RoundKey(K0, 2) == K2
    ensures RoundKey(K0, 3) == K3
    ensures RoundKey(K0, 4) == K4
    ensures RoundKey(K0, 5) == K5
    ensures RoundKey(K0, 6) == K6
    ensures RoundKey(K0, 7) == K7
    ensures RoundKey(K0, 8) == K8
    ensures RoundKey(K0, 9) == K9
    ensures RoundKey(K0, 10) == K10
  {
    hide RoundKey, NextKey, Rcon;
    FirstRoundKey(K0);
    PublishedRcon();
    Key1();
    NextKeyIsRoundKey(K0, 1);
    Key2();
    NextKeyIsRoundKey(K0, 2);
    Key3();
    NextKeyIsRoundKey(K0, 3);
    Key4();
    NextKeyIsRoundKey(K0, 4);
    Key5();
    NextKeyIsRoundKey(K0, 5);
    Key6();
    NextKeyIsRoundKey(K0, 6);
    Key7();
    NextKeyIsRoundKey(K0, 7);
    Key8();
    NextKeyIsRoundKey(K0, 8);
    Key9();
    NextKeyIsRoundKey(K0, 9);
    Key10();
    NextKeyIsRoundKey(K0, 10);
  }

  // And the cipher the published block.
  lemma CipherIsThePublished()
    ensures Cipher(K0, BlockOf(INPUT)) == BlockOf(OUTPUT)
    ensures Encrypted(KEY, INPUT) == OUTPUT
  {
    hide RoundKey, AddRoundKey, MixColumns, ShiftRows, SubBytes;
    RoundKeysAreThePublished();
    FirstAndLast();
    var s := BlockOf(INPUT);
    assert Rounds(K0, s, 0) == T0;
    Round1();
    assert Rounds(K0, s, 1) == T1;
    Round2();
    assert Rounds(K0, s, 2) == T2;
    Round3();
    assert Rounds(K0, s, 3) == T3;
    Round4();
    assert Rounds(K0, s, 4) == T4;
    Round5();
    assert Rounds(K0, s, 5) == T5;
    Round6();
    assert Rounds(K0, s, 6) == T6;
    Round7();
    assert Rounds(K0, s, 7) == T7;
    Round8();
    assert Rounds(K0, s, 8) == T8;
    Round9();
    assert Rounds(K0, s, 9) == T9;
    SameBlockSameBytes(OUTPUT, Cipher(K0, s));
  }
}
