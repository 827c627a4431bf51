// hsssec/src/rijndael.c: the cipher as the program runs it, in place over a
// 4x4 state and a table of eleven round keys, refined to FIPS 197.
module Rijndael {
  import opened ByteField
  import opened Fips197

  type Bytes16 = s: seq<bv8> | |s| == 16 witness seq(16, _ => 0)

  // Sixteen bytes fill the state column by column.
  function BlockOf(s: Bytes16): Block {
    Block(Word(s[0], s[1], s[2], s[3]), Word(s[4], s[5], s[6], s[7]),
          Word(s[8], s[9], s[10], s[11]), Word(s[12], s[13], s[14], s[15]))
  }

  // The one string that fills the state with b.
  ghost function BytesOf(b: Block): (s: Bytes16)
    ensures BlockOf(s) == b
  {
    assert BlockOf([b.c0.r0, b.c0.r1, b.c0.r2, b.c0.r3, b.c1.r0, b.c1.r1, b.c1.r2, b.c1.r3,
                    b.c2.r0, b.c2.r1, b.c2.r2, b.c2.r3, b.c3.r0, b.c3.r1, b.c3.r2, b.c3.r3]) == b;
    var s: Bytes16 :| BlockOf(s) == b;
    s
  }

  ghost predicate Is4x4(state: array2<bv8>) {
    state.Length0 == 4 && state.Length1 == 4
  }

  ghost function Column(state: array2<bv8>, c: int): Word
    requires Is4x4(state) && 0 <= c < 4
    reads state
  {
    Word(state[0, c], state[1, c], state[2, c], state[3, c])
  }

  ghost function StateOf(state: array2<bv8>): Block
    requires Is4x4(state)
    reads state
  {
    Block(Column(state, 0), Column(state, 1), Column(state, 2), Column(state, 3))
  }

  method LoadState(input: array<bv8>) returns (state: array2<bv8>)
    requires input.Length == 16
    ensures fresh(state) && Is4x4(state) && StateOf(state) == BlockOf(input[..])
  {
    state := new bv8[4, 4];
    for i := 0 to 16
      invariant forall r, c :: 0 <= r < 4 && 0 <= c < 4 && 4 * c + r < i ==> state[r, c] == input[4 * c + r]
    {
      state[i % 4, i / 4] := input[i];
    }
  }

  method StoreState(state: array2<bv8>, output: array<bv8>)
    requires Is4x4(state) && output.Length == 16
    modifies output
    ensures output[..] == BytesOf(StateOf(state))
  {
    for i := 0 to 16
      invariant forall r, c :: 0 <= r < 4 && 0 <= c < 4 && 4 * c + r < i ==> output[4 * c + r] == state[r, c]
    {
      output[i] := state[i % 4, i / 4];
    }
    SameBlockSameBytes(output[..], StateOf(state));
  }

  // Every byte through S.
  method ByteSub(state: array2<bv8>)
    requires Is4x4(state)
    modifies state
    ensures StateOf(state) == SubBytes(old(StateOf(state)))
  {
    hide S;
    for i := 0 to 4
      invariant forall r, c :: 0 <= r < 4 && 0 <= c < 4 ==>
        state[r, c] == if r < i then S(old(state[r, c])) else old(state[r, c])
    {
      for j := 0 to 4
        invariant forall r, c :: 0 <= r < 4 && 0 <= c < 4 ==>
          state[r, c] == if r < i || (r == i && c < j) then S(old(state[r, c])) else old(state[r, c])
      {
        state[i, j] := S(state[i, j]);
      }
    }
  }

  // Rows 1, 2 and 3 move left by 1, 2 and 3 places.
  method ShiftRow(state: array2<bv8>)
    requires Is4x4(state)
    modifies state
    ensures StateOf(state) == ShiftRows(old(StateOf(state)))
  {
    RotateRow1(state);
    RotateRow2(state);
    RotateRow3(state);
  }

  method RotateRow1(state: array2<bv8>)
    requires Is4x4(state)
    modifies state
    ensures var s := old(StateOf(state));
      StateOf(state) == Block(Word(s.c0.r0, s.c1.r1, s.c0.r2, s.c0.r3),
                              Word(s.c1.r0, s.c2.r1, s.c1.r2, s.c1.r3),
                              Word(s.c2.r0, s.c3.r1, s.c2.r2, s.c2.r3),
                              Word(s.c3.r0, s.c0.r1, s.c3.r2, s.c3.r3))
  {
    var temp := state[1, 0];
    state[1, 0] := state[1, 1];
    state[1, 1] := state[1, 2];
    state[1, 2] := state[1, 3];
    state[1, 3] := temp;
  }

  method RotateRow2(state: array2<bv8>)
    requires Is4x4(state)
    modifies state
    ensures var s := old(StateOf(state));
      StateOf(state) == Block(Word(s.c0.r0, s.c0.r1, s.c2.r2, s.c0.r3),
                              Word(s.c1.r0, s.c1.r1, s.c3.r2, s.c1.r3),
                              Word(s.c2.r0, s.c2.r1, s.c0.r2, s.c2.r3),
                              Word(s.c3.r0, s.c3.r1, s.c1.r2, s.c3.r3))
  {
    var temp := state[2, 0];
    state[2, 0] := state[2, 2];
    state[2, 2] := temp;
    temp := state[2, 1];
    state[2, 1] := state[2, 3];
    state[2, 3] := temp;
  }

  method RotateRow3(state: array2<bv8>)
    requires Is4x4(state)
    modifies state
    ensures var s := old(StateOf(state));
      StateOf(state) == Block(Word(s.c0.r0, s.c0.r1, s.c0.r2, s.c3.r3),
                              Word(s.c1.r0, s.c1.r1, s.c1.r2, s.c0.r3),
                              Word(s.c2.r0, s.c2.r1, s.c2.r2, s.c1.r3),
                              Word(s.c3.r0, s.c3.r1, s.c3.r2, s.c2.r3))
  {
    var temp := state[3, 0];
    state[3, 0] := state[3, 3];
    state[3, 3] := state[3, 2];
    state[3, 2] := state[3, 1];
    state[3, 1] := temp;
  }

  // One column of the program's mix: temp is the sum of the column, tmp0 its
  // unchanged first byte.
  function MixByFolding(w: Word): Word {
    var temp := Sum(w.r0, w.r1, w.r2, w.r3);
    Word(Xor(w.r0, Xor(temp, Xtime(Xor(w.r0, w.r1)))),
         Xor(w.r1, Xor(temp, Xtime(Xor(w.r1, w.r2)))),
         Xor(w.r2, Xor(temp, Xtime(Xor(w.r2, w.r3)))),
         Xor(w.r3, Xor(temp, Xtime(Xor(w.r3, w.r0)))))
  }

  lemma MulSmall(a: bv8)
    ensures Mul(a, 2) == TimesX(a) && Mul(a, 3) == Xor(a, TimesX(a))
  {
    hide TimesX;
  }

  // a + (a + b + c + d) + x(a + b) == 2a + 3b + c + d.
  lemma FoldedRow(a: bv8, b: bv8, c: bv8, d: bv8)
    ensures Xor(a, Xor(Sum(a, b, c, d), Xtime(Xor(a, b)))) == Sum(Mul(a, 2), Mul(b, 3), c, d)
  {
    hide Xor, Mul, Xtime, TimesX;
    MulSmall(a);
    MulSmall(b);
    XtimeIsTimesX(Xor(a, b));
    TimesXAdds(a, b);
    FoldedRowSum(a, b, Xor(c, d), TimesX(a), TimesX(b));
  }

  lemma FoldedRowSum(a: bv8, b: bv8, e: bv8, a1: bv8, b1: bv8)
    ensures Xor(a, Xor(Xor(Xor(a, b), e), Xor(a1, b1))) == Xor(Xor(a1, Xor(b, b1)), e)
  {
    assert a ^ (((a ^ b) ^ e) ^ (a1 ^ b1)) == (a1 ^ (b ^ b1)) ^ e;
  }

  lemma MixByFoldingIsMixWord(w: Word)
    ensures MixByFolding(w) == MixWord(w)
  {
    hide Xor, Mul, Xtime, Sum;
    FoldedRow(w.r0, w.r1, w.r2, w.r3);
    SumRotates(w.r0, w.r1, w.r2, w.r3);
    FoldedRow(w.r1, w.r2, w.r3, w.r0);
    SumRotates(w.r1, w.r2, w.r3, w.r0);
    FoldedRow(w.r2, w.r3, w.r0, w.r1);
    SumRotates(w.r2, w.r3, w.r0, w.r1);
    FoldedRow(w.r3, w.r0, w.r1, w.r2);
    SumRotates(w.r0, Mul(w.r1, 2), Mul(w.r2, 3), w.r3);
    SumRotates(w.r0, w.r1, Mul(w.r2, 2), Mul(w.r3, 3));
    SumRotates(w.r1, Mul(w.r2, 2), Mul(w.r3, 3), w.r0);
    SumRotates(Mul(w.r3, 2), Mul(w.r0, 3), w.r1, w.r2);
  }

  method MixColumn(state: array2<bv8>)
    requires Is4x4(state)
    modifies state
    ensures StateOf(state) == MixColumns(old(StateOf(state)))
  {
    hide MixWord, Xor, Sum, Xtime;
    for i := 0 to 4
      invariant forall c :: 0 <= c < 4 ==>
        Column(state, c) == if c < i then MixWord(old(Column(state, c))) else old(Column(state, c))
    {
      MixOneColumn(state, i);
    }
  }

  method MixOneColumn(state: array2<bv8>, i: int)
    requires Is4x4(state) && 0 <= i < 4
    modifies state
    ensures Column(state, i) == MixWord(old(Column(state, i)))
    ensures forall c :: 0 <= c < 4 && c != i ==> Column(state, c) == old(Column(state, c))
  {
    hide MixWord, Xor, Xtime;
    var temp := Xor(Xor(state[0, i], state[1, i]), Xor(state[2, i], state[3, i]));
    var tmp0 := state[0, i];
    var tmp := Xtime(Xor(state[0, i], state[1, i]));
    state[0, i] := Xor(state[0, i], Xor(temp, tmp));
    tmp := Xtime(Xor(state[1, i], state[2, i]));
    state[1, i] := Xor(state[1, i], Xor(temp, tmp));
    tmp := Xtime(Xor(state[2, i], state[3, i]));
    state[2, i] := Xor(state[2, i], Xor(temp, tmp));
    tmp := Xtime(Xor(state[3, i], tmp0));
    state[3, i] := Xor(state[3, i], Xor(temp, tmp));
    MixByFoldingIsMixWord(old(Column(state, i)));
  }

  ghost predicate Is11x4x4(roundKeys: array3<bv8>) {
    roundKeys.Length0 == 11 && roundKeys.Length1 == 4 && roundKeys.Length2 == 4
  }

  ghost function KeyColumn(roundKeys: array3<bv8>, round: int, c: int): Word
    requires Is11x4x4(roundKeys) && 0 <= round < 11 && 0 <= c < 4
    reads roundKeys
  {
    Word(roundKeys[round, 0, c], roundKeys[round, 1, c], roundKeys[round, 2, c], roundKeys[round, 3, c])
  }

  ghost function KeyOf(roundKeys: array3<bv8>, round: int): Block
    requires Is11x4x4(roundKeys) && 0 <= round < 11
    reads roundKeys
  {
    Block(KeyColumn(roundKeys, round, 0), KeyColumn(roundKeys, round, 1),
          KeyColumn(roundKeys, round, 2), KeyColumn(roundKeys, round, 3))
  }

  method KeyAdd(state: array2<bv8>, roundKeys: array3<bv8>, round: int)
    requires Is4x4(state) && Is11x4x4(roundKeys) && 0 <= round < 11
    modifies state
    ensures StateOf(state) == AddRoundKey(old(StateOf(state)), KeyOf(roundKeys, round))
  {
    hide Xor;
    for i := 0 to 4
      invariant forall r, c :: 0 <= r < 4 && 0 <= c < 4 ==>
        state[r, c] == if r < i then Xor(old(state[r, c]), roundKeys[round, r, c]) else old(state[r, c])
    {
      for j := 0 to 4
        invariant forall r, c :: 0 <= r < 4 && 0 <= c < 4 ==>
          state[r, c] == if r < i || (r == i && c < j)
                         then Xor(old(state[r, c]), roundKeys[round, r, c]) else old(state[r, c])
      {
        state[i, j] := Xor(state[i, j], roundKeys[round, i, j]);
      }
    }
  }

  // The next round key, column after column.
  function NextKey(k: Block, roundConst: bv8): Block {
    var c0 := Word(Xor(Xor(S(k.c3.r1), k.c0.r0), roundConst), Xor(S(k.c3.r2), k.c0.r1),
                   Xor(S(k.c3.r3), k.c0.r2), Xor(S(k.c3.r0), k.c0.r3));
    var c1 := AddWord(k.c1, c0);
    var c2 := AddWord(k.c2, c1);
    Block(c0, c1, c2, AddWord(k.c3, c2))
  }

  lemma NextKeyIsRoundKey(key: Block, i: int)
    requires i >= 1
    ensures NextKey(RoundKey(key, i - 1), Rcon(i)) == RoundKey(key, i)
  {
    hide S, AddWord;
    var k := RoundKey(key, i - 1);
    FirstColumn(k, Rcon(i));
    var m := 4 * i;
    assert m % 4 == 0 && m / 4 == i;
    assert (m + 1) % 4 == 1 && (m + 2) % 4 == 2 && (m + 3) % 4 == 3;
    assert RoundKey(key, i).c0 == NextKey(k, Rcon(i)).c0;
    assert RoundKey(key, i).c1 == NextKey(k, Rcon(i)).c1;
    assert RoundKey(key, i).c2 == NextKey(k, Rcon(i)).c2;
  }

  lemma FirstColumn(k: Block, rcon: bv8)
    ensures NextKey(k, rcon).c0 == AddWord(k.c0, AddWord(SubWord(RotWord(k.c3)), Word(rcon, 0, 0, 0)))
  {
    hide S, Xor;
    XorComm(S(k.c3.r1), k.c0.r0);
    XorAssoc(k.c0.r0, S(k.c3.r1), rcon);
    XorZero(S(k.c3.r2));
    XorComm(S(k.c3.r2), k.c0.r1);
    XorZero(S(k.c3.r3));
    XorComm(S(k.c3.r3), k.c0.r2);
    XorZero(S(k.c3.r0));
    XorComm(S(k.c3.r0), k.c0.r3);
  }

  // The table of round keys, a global of the program.
  class Schedule {
    const roundKeys: array3<bv8>

    ghost predicate Valid() {
      Is11x4x4(roundKeys)
    }

    // The table holds the expansion of key.
    ghost predicate Holds(key: Bytes16)
      requires Valid()
      reads roundKeys
    {
      forall i :: 0 <= i < 11 ==> KeyOf(roundKeys, i) == RoundKey(BlockOf(key), i)
    }

    constructor ()
      ensures Valid() && fresh(roundKeys)
    {
      roundKeys := new bv8[11, 4, 4];
    }

    // The first column of round key i, from the last column of the key before it.
    method ExpandFirstColumn(i: int, roundConst: bv8)
      requires Valid() && 1 <= i < 11
      modifies roundKeys
      ensures KeyColumn(roundKeys, i, 0) == NextKey(old(KeyOf(roundKeys, i - 1)), roundConst).c0
      ensures forall k, r, c :: 0 <= k < 11 && 0 <= r < 4 && 0 <= c < 4 && k != i ==>
        roundKeys[k, r, c] == old(roundKeys[k, r, c])
    {
      hide S, Xor;
      roundKeys[i, 0, 0] := Xor(Xor(S(roundKeys[i - 1, 1, 3]), roundKeys[i - 1, 0, 0]), roundConst);
      roundKeys[i, 1, 0] := Xor(S(roundKeys[i - 1, 2, 3]), roundKeys[i - 1, 1, 0]);
      roundKeys[i, 2, 0] := Xor(S(roundKeys[i - 1, 3, 3]), roundKeys[i - 1, 2, 0]);
      roundKeys[i, 3, 0] := Xor(S(roundKeys[i - 1, 0, 3]), roundKeys[i - 1, 3, 0]);
    }

    // The other columns of round key i, one row at a time.
    method ExpandRows(i: int)
      requires Valid() && 1 <= i < 11
      modifies roundKeys
      ensures KeyColumn(roundKeys, i, 0) == old(KeyColumn(roundKeys, i, 0))
      ensures KeyColumn(roundKeys, i, 1) == AddWord(old(KeyColumn(roundKeys, i - 1, 1)), KeyColumn(roundKeys, i, 0))
      ensures KeyColumn(roundKeys, i, 2) == AddWord(old(KeyColumn(roundKeys, i - 1, 2)), KeyColumn(roundKeys, i, 1))
      ensures KeyColumn(roundKeys, i, 3) == AddWord(old(KeyColumn(roundKeys, i - 1, 3)), KeyColumn(roundKeys, i, 2))
      ensures forall k, r, c :: 0 <= k < 11 && 0 <= r < 4 && 0 <= c < 4 && k != i ==>
        roundKeys[k, r, c] == old(roundKeys[k, r, c])
    {
      hide Xor;
      for j := 0 to 4
        invariant forall k, r, c :: 0 <= k < 11 && 0 <= r < 4 && 0 <= c < 4 && (k != i || c == 0) ==>
          roundKeys[k, r, c] == old(roundKeys[k, r, c])
        invariant forall r :: 0 <= r < j ==>
          && roundKeys[i, r, 1] == Xor(roundKeys[i - 1, r, 1], roundKeys[i, r, 0])
          && roundKeys[i, r, 2] == Xor(roundKeys[i - 1, r, 2], roundKeys[i, r, 1])
          && roundKeys[i, r, 3] == Xor(roundKeys[i - 1, r, 3], roundKeys[i, r, 2])
      {
        roundKeys[i, j, 1] := Xor(roundKeys[i - 1, j, 1], roundKeys[i, j, 0]);
        roundKeys[i, j, 2] := Xor(roundKeys[i - 1, j, 2], roundKeys[i, j, 1]);
        roundKeys[i, j, 3] := Xor(roundKeys[i - 1, j, 3], roundKeys[i, j, 2]);
      }
    }

    // The whole table, whatever it held before.
    method KeySchedule(key: array<bv8>)
      requires Valid() && key.Length == 16
      modifies roundKeys
      ensures Holds(key[..])
    {
      hide S, Xor, RoundKey, AddWord, Xtime, TimesX;
      for i := 0 to 16
        invariant forall r, c :: 0 <= r < 4 && 0 <= c < 4 && 4 * c + r < i ==>
          roundKeys[0, r, c] == key[4 * c + r]
      {
        roundKeys[0, i % 4, i / 4] := key[i];
      }
      ghost var k := BlockOf(key[..]);
      FirstRoundKey(k);
      var roundConst: bv8 := 1;
      for i := 1 to 11
        invariant roundConst == Rcon(i)
        invariant forall j :: 0 <= j < i ==> KeyOf(roundKeys, j) == RoundKey(k, j)
      {
        ExpandFirstColumn(i, roundConst);
        ExpandRows(i);
        NextKeyIsRoundKey(k, i);
        XtimeIsTimesX(roundConst);
        roundConst := Xtime(roundConst);
      }
    }

    // The cipher under the key that the table holds; output may be input.
    method Encrypt(input: array<bv8>, output: array<bv8>, ghost key: Bytes16)
      requires Valid() && input.Length == 16 && output.Length == 16 && Holds(key)
      modifies output
      ensures output[..] == Encrypted(key, old(input[..]))
    {
      hide AddRoundKey, SubBytes, ShiftRows, MixColumns, RoundKey;
      ghost var k, s := BlockOf(key), BlockOf(input[..]);
      var state := LoadState(input);
      KeyAdd(state, roundKeys, 0);
      for r := 1 to 10
        invariant StateOf(state) == Rounds(k, s, r - 1)
      {
        ByteSub(state);
        ShiftRow(state);
        MixColumn(state);
        KeyAdd(state, roundKeys, r);
      }
      ByteSub(state);
      ShiftRow(state);
      KeyAdd(state, roundKeys, 10);
      StoreState(state, output);
    }
  }

  lemma FirstRoundKey(key: Block)
    ensures RoundKey(key, 0) == key
  {
  }

  // The block cipher on byte strings, and its inverse.
  ghost function Encrypted(key: Bytes16, input: Bytes16): Bytes16 {
    BytesOf(Cipher(BlockOf(key), BlockOf(input)))
  }

  ghost function Decrypted(key: Bytes16, output: Bytes16): Bytes16 {
    BytesOf(InvCipher(BlockOf(key), BlockOf(output)))
  }

  lemma SameBlockSameBytes(s: Bytes16, b: Block)
    requires BlockOf(s) == b
    ensures s == BytesOf(b)
  {
  }

  // Whatever the program encrypts, the inverse cipher under the same key recovers.
  lemma DecryptedUndoesEncrypted(key: Bytes16, input: Bytes16)
    ensures Decrypted(key, Encrypted(key, input)) == input
  {
    hide Cipher, InvCipher;
    InvCipherUndoesCipher(BlockOf(key), BlockOf(input));
    SameBlockSameBytes(input, BlockOf(input));
  }
}
