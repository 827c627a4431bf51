// The authentication columns of the users_imsi table: src/dataaccess.cpp
// (getImsiSecData, updateRandSqn) and src/util.cpp (bytes2hex).
module SubscriberStore {
  import opened Wrappers
  import opened Milenage
  import opened SqnCodec

  const HEXL := "0123456789abcdef"

  function HexDigit(n: bv8): char
    requires n < 16
  {
    HEXL[n as int]
  }

  // ASCII_TO_BINARY: either case, and zero for any other character.
  function AsciiToBinary(c: char): bv8 {
    if '0' <= c <= '9' then (c as int - '0' as int) as bv8
    else if 'a' <= c <= 'f' then (c as int - 'a' as int + 10) as bv8
    else if 'A' <= c <= 'F' then (c as int - 'A' as int + 10) as bv8
    else 0
  }

  lemma AsciiToBinaryOfHexDigit(n: bv8)
    requires n < 16
    ensures AsciiToBinary(HexDigit(n)) == n && HexDigit(n) != '\0'
  {
  }

  lemma Nibbles(b: bv8)
    ensures b >> 4 < 16 && b & 15 < 16 && ((b >> 4) << 4) | (b & 15) == b
  {
  }

  function HexPair(b: bv8): string {
    Nibbles(b);
    [HexDigit(b >> 4), HexDigit(b & 15)]
  }

  function UnhexPair(hi: char, lo: char): bv8 {
    (AsciiToBinary(hi) << 4) | AsciiToBinary(lo)
  }

  lemma UnhexPairOfHexPair(b: bv8)
    ensures UnhexPair(HexPair(b)[0], HexPair(b)[1]) == b
  {
    hide AsciiToBinary, HexDigit;
    Nibbles(b);
    AsciiToBinaryOfHexDigit(b >> 4);
    AsciiToBinaryOfHexDigit(b & 15);
  }

  function Hex(bytes: seq<bv8>): (text: string)
    ensures |text| == 2 * |bytes|
  {
    if |bytes| == 0 then "" else HexPair(bytes[0]) + Hex(bytes[1..])
  }

  // The first n bytes that a text spells.
  function Unhex(text: string, n: nat): (bytes: seq<bv8>)
    requires |text| >= 2 * n
    ensures |bytes| == n
  {
    if n == 0 then [] else [UnhexPair(text[0], text[1])] + Unhex(text[2..], n - 1)
  }

  // Whatever bytes are written as text are read back.
  lemma {:induction false} UnhexOfHex(bytes: seq<bv8>)
    ensures Unhex(Hex(bytes), |bytes|) == bytes
  {
    hide HexPair, UnhexPair;
    if |bytes| > 0 {
      var p := HexPair(bytes[0]);
      assert |p| == 2 by { assert |HexPair(bytes[0])| == |Hex([bytes[0]])| ; }
      UnhexPairOfHexPair(bytes[0]);
      UnhexOfHex(bytes[1..]);
      assert Hex(bytes)[2..] == Hex(bytes[1..]);
    }
  }

  lemma DigitCharacters(k: nat)
    requires k < 16
    ensures "0123456789abcdef"[k] as int == if k < 10 then '0' as int + k else 'a' as int + k - 10
    ensures "0123456789ABCDEF"[k] as int == if k < 10 then '0' as int + k else 'A' as int + k - 10
  {
  }

  lemma DigitValue(c: char, k: nat)
    requires k < 16
    requires if k < 10 then c as int == '0' as int + k
             else c as int == 'a' as int + k - 10 || c as int == 'A' as int + k - 10
    ensures AsciiToBinary(c) == k as bv8
  {
  }

  // The digits, of either case; any other character counts as zero.
  lemma DigitsAreHexadecimal(k: nat)
    requires k < 16
    ensures AsciiToBinary("0123456789abcdef"[k]) == k as bv8 == AsciiToBinary("0123456789ABCDEF"[k])
  {
    hide AsciiToBinary;
    DigitCharacters(k);
    DigitValue("0123456789abcdef"[k], k);
    DigitValue("0123456789ABCDEF"[k], k);
  }

  lemma OthersAreZero(c: char)
    ensures c in "0123456789abcdef" || c in "0123456789ABCDEF" || AsciiToBinary(c) == 0
  {
    if '0' <= c <= '9' {
      assert c == "0123456789abcdef"[c as int - '0' as int];
    } else if 'a' <= c <= 'f' {
      assert c == "0123456789abcdef"[c as int - 'a' as int + 10];
    } else if 'A' <= c <= 'F' {
      assert c == "0123456789ABCDEF"[c as int - 'A' as int + 10];
    }
  }

  // Octet i is spelled by the characters 2i, its high half, and 2i + 1.
  lemma {:induction false} HexIsHighHalfFirst(bytes: seq<bv8>, i: nat)
    requires i < |bytes|
    ensures Hex(bytes)[2 * i] == "0123456789abcdef"[(bytes[i] as int) / 16]
    ensures Hex(bytes)[2 * i + 1] == "0123456789abcdef"[(bytes[i] as int) % 16]
  {
    if i == 0 {
      Halves(bytes[0]);
    } else {
      HexIsHighHalfFirst(bytes[1..], i - 1);
      assert Hex(bytes) == HexPair(bytes[0]) + Hex(bytes[1..]);
    }
  }

  lemma Halves(b: bv8)
    ensures (b >> 4) as int == (b as int) / 16 && (b & 15) as int == (b as int) % 16
  {
  }

  function Upper(c: char): char {
    if 'a' <= c <= 'f' then (c as int - 'a' as int + 'A' as int) as char else c
  }

  lemma UpperIsTheSameDigit(c: char)
    ensures AsciiToBinary(Upper(c)) == AsciiToBinary(c)
  {
  }

  // A text in either case spells the same octets.
  lemma {:induction false} CaseDoesNotMatter(text: string, upper: string, n: nat)
    requires |text| == |upper| >= 2 * n && forall i :: 0 <= i < 2 * n ==> upper[i] in {text[i], Upper(text[i])}
    ensures Unhex(text, n) == Unhex(upper, n)
  {
    hide AsciiToBinary, Upper;
    if n > 0 {
      UpperIsTheSameDigit(text[0]);
      UpperIsTheSameDigit(text[1]);
      CaseDoesNotMatter(text[2..], upper[2..], n - 1);
    }
  }

  lemma {:induction false} HexExtends(bytes: seq<bv8>, b: bv8)
    ensures Hex(bytes + [b]) == Hex(bytes) + HexPair(b)
  {
    hide HexPair;
    if |bytes| == 0 {
      assert bytes + [b] == [b];
      assert Hex([b]) == HexPair(b) + Hex([b][1..]);
      assert Hex([b][1..]) == "";
    } else {
      HexExtends(bytes[1..], b);
      assert (bytes + [b])[1..] == bytes[1..] + [b];
    }
  }

  lemma {:induction false} UnhexExtends(text: string, n: nat)
    requires |text| >= 2 * n + 2
    ensures Unhex(text, n + 1) == Unhex(text, n) + [UnhexPair(text[2 * n], text[2 * n + 1])]
  {
    hide UnhexPair;
    if n > 0 {
      UnhexExtends(text[2..], n - 1);
    }
  }

  // Utility::bytes2hex without a delimiter, in lower case.
  method Bytes2Hex(bytes: array<bv8>) returns (text: string)
    ensures text == Hex(bytes[..])
  {
    hide HexPair;
    text := "";
    for i := 0 to bytes.Length
      invariant text == Hex(bytes[..i])
    {
      text := text + HexPair(bytes[i]);
      HexExtends(bytes[..i], bytes[i]);
      assert bytes[..i + 1] == bytes[..i] + [bytes[i]];
    }
    assert bytes[..bytes.Length] == bytes[..];
  }

  method ConvertAsciiToBinary(dest: array<bv8>, src: string)
    requires |src| >= 2 * dest.Length
    modifies dest
    ensures dest[..] == Unhex(src, dest.Length)
  {
    hide UnhexPair;
    for i := 0 to dest.Length
      invariant dest[..i] == Unhex(src, i)
    {
      dest[i] := UnhexPair(src[2 * i], src[2 * i + 1]);
      UnhexExtends(src, i);
      assert dest[..i + 1] == dest[..i] + [dest[i]];
    }
    assert dest[..dest.Length] == dest[..];
  }

  // Byte k of an unsigned number: the mask 255 << 8k and the shift back by 8k.
  function ShiftedByte(n: nat, scale: nat): bv8
    requires scale > 0
  {
    LowByte(n / scale)
  }

  // The six mask-and-shift expressions of getImsiSecData read what U64_TO_SQN reads.
  lemma ShiftedBytesAreSqnOf(n: nat)
    ensures [ShiftedByte(n, 0x100_0000_0000), ShiftedByte(n, 0x1_0000_0000), ShiftedByte(n, 0x100_0000),
             ShiftedByte(n, 0x1_0000), ShiftedByte(n, 0x100), ShiftedByte(n, 1)] == SqnOf(n)
  {
    hide LowByte;
    var u8 := Octets(n, 8);
    var n1 := n / 256;
    var n2 := n1 / 256;
    var n3 := n2 / 256;
    var n4 := n3 / 256;
    assert u8 == [LowByte(n)] + Octets(n1, 7);
    assert Octets(n1, 7) == [LowByte(n1)] + Octets(n2, 6);
    assert Octets(n2, 6) == [LowByte(n2)] + Octets(n3, 5);
    assert Octets(n3, 5) == [LowByte(n3)] + Octets(n4, 4);
    assert Octets(n4, 4) == [LowByte(n4)] + Octets(n4 / 256, 3);
    assert Octets(n4 / 256, 3) == [LowByte(n4 / 256)] + Octets(n4 / 256 / 256, 2);
  }

  // The columns a processor reads, as fixed buffers.
  class ImsiSec {
    const key: array<bv8>
    const sqn: array<bv8>
    const rand: array<bv8>
    const opc: array<bv8>

    ghost predicate Valid() {
      && key.Length == rand.Length == opc.Length == 16 && sqn.Length == 6
      && key != rand && key != opc && rand != opc
    }

    constructor ()
      ensures Valid() && fresh(key) && fresh(sqn) && fresh(rand) && fresh(opc)
    {
      key := new bv8[16];
      sqn := new bv8[6];
      rand := new bv8[16];
      opc := new bv8[16];
    }
  }

  // One row of users_imsi; sqn is a 64-bit column.
  datatype Row = Row(key: string, sqn: int, rand: string, opc: string) {
    // What the readers of the row rely on.
    predicate Valid() {
      |key| >= 32 && |rand| >= 32 && |opc| >= 32 && -TWO_64 / 2 <= sqn < TWO_64 / 2
    }
  }

  class DataAccess {
    var usersImsi: map<string, Row>

    method GetImsiSec(imsi: string, sec: ImsiSec) returns (ok: bool)
      requires sec.Valid() && (imsi in usersImsi ==> usersImsi[imsi].Valid())
      modifies sec.key, sec.sqn, sec.rand, sec.opc
      ensures ok <==> imsi in usersImsi
      ensures ok ==> var row := usersImsi[imsi];
        && sec.key[..] == Unhex(row.key, 16)
        && sec.rand[..] == Unhex(row.rand, 16)
        && sec.opc[..] == Unhex(row.opc, 16)
        && sec.sqn[..] == SqnOf(row.sqn % TWO_64)
    {
      hide Unhex, SqnOf;
      if imsi !in usersImsi {
        return false;
      }
      var row := usersImsi[imsi];
      ConvertAsciiToBinary(sec.key, row.key);
      ConvertAsciiToBinary(sec.rand, row.rand);
      ConvertAsciiToBinary(sec.opc, row.opc);
      LoadSqn(row.sqn, sec.sqn);
      return true;
    }

    static method LoadSqn(sqnNumber: int, sqn: array<bv8>)
      requires sqn.Length == 6
      modifies sqn
      ensures sqn[..] == SqnOf(sqnNumber % TWO_64)
    {
      hide ShiftedByte, SqnOf;
      var n := sqnNumber % TWO_64;
      sqn[0] := ShiftedByte(n, 0x100_0000_0000);
      sqn[1] := ShiftedByte(n, 0x1_0000_0000);
      sqn[2] := ShiftedByte(n, 0x100_0000);
      sqn[3] := ShiftedByte(n, 0x1_0000);
      sqn[4] := ShiftedByte(n, 0x100);
      sqn[5] := ShiftedByte(n, 1);
      ShiftedBytesAreSqnOf(n);
    }

    // The database may reject the statement. With a callback the caller only learns
    // whether the callback was set; without one a rejection is an exception.
    method UpdateRandSqn(imsi: string, rand: array<bv8>, sqn: array<bv8>, incSqn: bool, callbackSet: Option<bool>,
                         rejected: bool) returns (outcome: Outcome)
      requires rand.Length == 16 && sqn.Length == 6
      modifies this
      ensures usersImsi == if rejected then old(usersImsi) else
        WithRandSqn(old(usersImsi), imsi, Hex(rand[..]), SqnValue(sqn[..]) + if incSqn then 32 else 0)
      ensures outcome == OutcomeOf(callbackSet, rejected)
    {
      hide Hex, SqnValue;
      var eu := new SqnU64Union();
      eu.FromSqn(sqn);
      SqnOfSqnValue(sqn[..]);
      if incSqn {
        eu.Add(32);
      }
      var hex := Bytes2Hex(rand);
      if !rejected {
        usersImsi := WithRandSqn(usersImsi, imsi, hex, eu.U64());
      }
      if callbackSet.Some? {
        return Returned(callbackSet.value);
      }
      return if rejected then Threw else Returned(true);
    }
  }

  datatype Outcome = Returned(ok: bool) | Threw

  function OutcomeOf(callbackSet: Option<bool>, rejected: bool): Outcome {
    match callbackSet
    case Some(isSet) => Returned(isSet)
    case None => if rejected then Threw else Returned(true)
  }

  // An UPDATE of a row that does not exist makes one without the other columns, which
  // read as empty text.
  function WithRandSqn(users: map<string, Row>, imsi: string, rand: string, sqn: int): map<string, Row> {
    var row := if imsi in users then users[imsi] else Row("", 0, "", "");
    users[imsi := row.(rand := rand, sqn := sqn)]
  }
}
