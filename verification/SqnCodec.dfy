// The sequence numbers of 48 bits, as six bytes and as numbers, and the union of
// include/util.h that converts between the two.
module SqnCodec {
  import opened Milenage

  const TWO_48: int := 0x1_0000_0000_0000
  const TWO_64: int := 0x1_0000_0000_0000_0000

  function ByteValue(b: bv8): (n: nat)
    ensures n < 256
  {
    b as nat
  }

  // A conversion to uint8_t.
  function LowByte(n: nat): bv8 {
    (n % 256) as bv8
  }

  lemma ToByteAndBack(n: nat)
    requires n < 256
    ensures ByteValue(n as bv8) == n
  {
  }

  lemma ByteValueOfLowByte(n: nat)
    ensures ByteValue(LowByte(n)) == n % 256
  {
    hide ByteValue;
    ToByteAndBack(n % 256);
  }

  lemma BackToByte(b: bv8)
    ensures (b as nat) as bv8 == b
  {
  }

  lemma LowByteOfByteValue(b: bv8, n: nat)
    ensures LowByte(ByteValue(b) + 256 * n) == b
  {
    BackToByte(b);
    assert (ByteValue(b) + 256 * n) % 256 == ByteValue(b);
  }

  // The little-endian number in u8[0], u8[1], ...
  function Number(u8: seq<bv8>): nat {
    if |u8| == 0 then 0 else ByteValue(u8[0]) + 256 * Number(u8[1..])
  }

  // Its bytes, as many as asked for.
  function Octets(n: nat, len: nat): (u8: seq<bv8>)
    ensures |u8| == len
  {
    if len == 0 then [] else [LowByte(n)] + Octets(n / 256, len - 1)
  }

  function Power256(len: nat): (p: nat)
    ensures p > 0
  {
    if len == 0 then 1 else 256 * Power256(len - 1)
  }

  lemma {:induction false} OctetsOfNumber(u8: seq<bv8>)
    ensures Octets(Number(u8), |u8|) == u8
    ensures Number(u8) < Power256(|u8|)
  {
    hide LowByte, ByteValue;
    if |u8| > 0 {
      OctetsOfNumber(u8[1..]);
      LowByteOfByteValue(u8[0], Number(u8[1..]));
    }
  }

  lemma {:induction false} NumberOfOctets(n: nat, len: nat)
    ensures Number(Octets(n, len)) == n % Power256(len)
  {
    hide LowByte, ByteValue;
    if len > 0 {
      var p := Power256(len - 1);
      NumberOfOctets(n / 256, len - 1);
      assert Octets(n, len)[1..] == Octets(n / 256, len - 1);
      ByteValueOfLowByte(n);
      ModSplits(n, p);
    }
  }

  lemma ModSplits(n: nat, p: nat)
    requires p > 0
    ensures n % 256 + 256 * ((n / 256) % p) == n % (256 * p)
  {
    var q, r := n / 256 / p, n / 256 % p;
    assert n / 256 == q * p + r;
    assert n == (256 * p) * q + (256 * r + n % 256);
    ModUnique(n, 256 * p, q, 256 * r + n % 256);
  }

  lemma ModUnique(n: nat, d: nat, q: nat, r: nat)
    requires n == d * q + r && r < d
    ensures n % d == r
  {
    var q', r' := n / d, n % d;
    DivMod(n, d);
    if q > q' {
      Gap(d, q, q');
    } else if q < q' {
      Gap(d, q', q);
    }
  }

  lemma DivMod(n: nat, d: nat)
    requires d > 0
    ensures n == d * (n / d) + n % d && n % d < d
  {
  }

  lemma Gap(d: nat, big: nat, small: nat)
    requires big > small
    ensures d * big >= d * small + d
  {
    var k := big - small - 1;
    assert big == small + 1 + k;
    assert d * big == d * small + d + d * k;
  }

  // ---------------------------------------------------------------------------
  // Six-byte sequence numbers, most significant byte first.

  function SqnValue(s: Bytes6): nat {
    Number([s[5], s[4], s[3], s[2], s[1], s[0]])
  }

  // What U64_TO_SQN reads out of the union holding n.
  function SqnOf(n: nat): Bytes6 {
    var u8 := Octets(n, 8);
    [u8[5], u8[4], u8[3], u8[2], u8[1], u8[0]]
  }

  // Most significant byte first.
  lemma SqnValueIsBigEndian(s: Bytes6)
    ensures SqnValue(s) ==
            ByteValue(s[0]) * 0x100_0000_0000 + ByteValue(s[1]) * 0x1_0000_0000 + ByteValue(s[2]) * 0x100_0000 +
            ByteValue(s[3]) * 0x1_0000 + ByteValue(s[4]) * 0x100 + ByteValue(s[5])
  {
    hide ByteValue;
    NumberOfMore(s[0], []);
    NumberOfMore(s[1], [s[0]]);
    NumberOfMore(s[2], [s[1], s[0]]);
    NumberOfMore(s[3], [s[2], s[1], s[0]]);
    NumberOfMore(s[4], [s[3], s[2], s[1], s[0]]);
    NumberOfMore(s[5], [s[4], s[3], s[2], s[1], s[0]]);
    hide Number;
  }

  lemma NumberOfMore(b: bv8, u8: seq<bv8>)
    ensures Number([b] + u8) == ByteValue(b) + 256 * Number(u8)
  {
    assert ([b] + u8)[1..] == u8;
  }

  lemma Power256Of6()
    ensures Power256(6) == TWO_48
  {
    assert Power256(3) == 0x100_0000;
  }

  lemma {:induction false} OctetsPrefix(n: nat, short: nat, len: nat)
    requires short <= len
    ensures Octets(n, len)[..short] == Octets(n, short)
  {
    hide LowByte;
    if short > 0 {
      OctetsPrefix(n / 256, short - 1, len - 1);
      assert Octets(n, len)[..short] == [LowByte(n)] + Octets(n / 256, len - 1)[..short - 1];
    }
  }

  lemma {:induction false} NumberOfZeroes(u8: seq<bv8>, k: nat)
    ensures Number(u8 + seq(k, _ => 0 as bv8)) == Number(u8)
    decreases |u8| + k
  {
    hide ByteValue;
    var z := seq(k, _ => 0 as bv8);
    if |u8| > 0 {
      NumberOfZeroes(u8[1..], k);
      assert (u8 + z)[1..] == u8[1..] + z;
    } else if k > 0 {
      NumberOfZeroes([], k - 1);
      assert z[1..] == seq(k - 1, _ => 0 as bv8);
      assert [] + z == z && [] + z[1..] == z[1..];
      assert ByteValue(0) == 0 by { ByteValueOfLowByte(0); }
    }
  }

  // Reading a written number back keeps its low 48 bits.
  lemma SqnValueOfSqnOf(n: nat)
    ensures SqnValue(SqnOf(n)) == n % TWO_48
  {
    hide LowByte, ByteValue, Number, Power256;
    OctetsPrefix(n, 6, 8);
    var s := SqnOf(n);
    assert [s[5], s[4], s[3], s[2], s[1], s[0]] == Octets(n, 6);
    NumberOfOctets(n, 6);
    Power256Of6();
  }

  // Sequence numbers and numbers below 2^48 are the same thing.
  lemma SqnOfSqnValue(s: Bytes6)
    ensures SqnOf(SqnValue(s)) == s
    ensures SqnValue(s) < TWO_48
  {
    hide LowByte, ByteValue, Number, Power256;
    var r := [s[5], s[4], s[3], s[2], s[1], s[0]];
    OctetsOfNumber(r);
    Power256Of6();
    OctetsPrefix(SqnValue(s), 6, 8);
    var u8 := Octets(SqnValue(s), 8);
    assert u8[..6] == r;
    assert u8[0] == r[0] && u8[1] == r[1] && u8[2] == r[2] && u8[3] == r[3] && u8[4] == r[4] && u8[5] == r[5];
  }

  // SqnU64Union on a little-endian machine: eight bytes that are also a uint64_t.
  class SqnU64Union {
    const u8: array<bv8>

    ghost predicate Valid() {
      u8.Length == 8
    }

    function U64(): nat
      reads u8
    {
      Number(u8[..])
    }

    constructor ()
      ensures Valid() && fresh(u8)
    {
      u8 := new bv8[8];
    }

    // SQN_TO_U64
    method FromSqn(sqn: array<bv8>)
      requires Valid() && sqn.Length == 6
      modifies u8
      ensures U64() == SqnValue(sqn[..])
    {
      hide Number, ByteValue;
      for i := 0 to 8
        invariant forall j :: 0 <= j < i ==> u8[j] == 0
      {
        u8[i] := 0;
      }
      u8[5], u8[4], u8[3] := sqn[0], sqn[1], sqn[2];
      u8[2], u8[1], u8[0] := sqn[3], sqn[4], sqn[5];
      ghost var low := [sqn[5], sqn[4], sqn[3], sqn[2], sqn[1], sqn[0]];
      NumberOfZeroes(low, 2);
      assert u8[..6] == low;
      assert u8[6..] == seq(2, _ => 0 as bv8);
      assert u8[..] == u8[..6] + u8[6..];
    }

    // u64 += n
    method Add(n: nat)
      requires Valid()
      modifies u8
      ensures U64() == (old(U64()) + n) % TWO_64
    {
      var sum := Sum64(u8[..], n);
      for i := 0 to 8
        invariant u8[..i] == sum[..i]
      {
        u8[i] := sum[i];
      }
      assert u8[..] == sum;
    }

    // U64_TO_SQN
    method ToSqn(sqn: array<bv8>)
      requires Valid() && sqn.Length == 6 && sqn != u8
      modifies sqn
      ensures sqn[..] == SqnOf(U64())
    {
      hide Number, Octets;
      sqn[0] := u8[5];
      sqn[1] := u8[4];
      sqn[2] := u8[3];
      sqn[3] := u8[2];
      sqn[4] := u8[1];
      sqn[5] := u8[0];
      OctetsOfNumber(u8[..]);
    }
  }

  // Addition on the union's bytes, modulo 2^64.
  function Sum64(u8: seq<bv8>, n: nat): (r: seq<bv8>)
    requires |u8| == 8
    ensures |r| == 8 && Number(r) == (Number(u8) + n) % TWO_64
  {
    NumberOfOctets(Number(u8) + n, 8);
    assert Power256(8) == TWO_64 by {
      Power256Of6();
    }
    Octets(Number(u8) + n, 8)
  }
}
