/** Bytes and little-endian numbers. */
module Bytes {

  type byte = x: int | 0 <= x < 256

  const TWO_32: nat := 0x1_0000_0000

  function Pow256(k: nat): (p: nat)
    ensures p >= 1
  {
    if k == 0 then 1 else 256 * Pow256(k - 1)
  }

  /** The number a byte sequence denotes, least significant byte first. */
  function Number(bs: seq<byte>): (n: nat)
    ensures n < Pow256(|bs|)
  {
    if bs == [] then 0 else bs[0] + 256 * Number(bs[1..])
  }

  /** The `k` low bytes of a number, least significant byte first. */
  function Encode(n: nat, k: nat): (bs: seq<byte>)
    ensures |bs| == k
  {
    if k == 0 then [] else [n % 256] + Encode(n / 256, k - 1)
  }

  /** The byte order, written out: least significant byte first. */
  function Two(bs: seq<byte>, at: nat): int
    requires at + 2 <= |bs|
  {
    var a: int, b: int := bs[at], bs[at + 1];
    a + 0x100 * b
  }

  function Four(bs: seq<byte>, at: nat): int
    requires at + 4 <= |bs|
  {
    Two(bs, at) + 0x1_0000 * Two(bs, at + 2)
  }

  function Eight(bs: seq<byte>, at: nat): int
    requires at + 8 <= |bs|
  {
    Four(bs, at) + 0x1_0000_0000 * Four(bs, at + 4)
  }

  lemma NumberTwo(bs: seq<byte>)
    requires |bs| >= 2
    ensures Number(bs) == Two(bs, 0) + 0x1_0000 * Number(bs[2..])
  {
    assert bs[1..][1..] == bs[2..];
  }

  lemma NumberFour(bs: seq<byte>)
    requires |bs| >= 4
    ensures Number(bs) == Four(bs, 0) + 0x1_0000_0000 * Number(bs[4..])
  {
    hide Number;
    NumberTwo(bs);
    NumberTwo(bs[2..]);
    assert bs[2..][2..] == bs[4..] && Two(bs[2..], 0) == Two(bs, 2);
  }

  /** A number of two, four or eight bytes is the one written out. */
  lemma NumberIs(bs: seq<byte>)
    ensures |bs| == 2 ==> Number(bs) == Two(bs, 0)
    ensures |bs| == 4 ==> Number(bs) == Four(bs, 0)
    ensures |bs| == 8 ==> Number(bs) == Eight(bs, 0)
  {
    assert Number([]) == 0;
    hide Number;
    if |bs| == 2 {
      NumberTwo(bs);
      assert bs[2..] == [];
    } else if |bs| == 4 {
      NumberFour(bs);
      assert bs[4..] == [];
    } else if |bs| == 8 {
      NumberFour(bs);
      NumberFour(bs[4..]);
      assert bs[4..][4..] == [] && Four(bs[4..], 0) == Four(bs, 4);
    }
  }

  lemma {:induction false} DecodeEncode(n: nat, k: nat)
    requires n < Pow256(k)
    ensures Number(Encode(n, k)) == n
    decreases k
  {
    if k > 0 {
      DecodeEncode(n / 256, k - 1);
    }
  }
}
