/** Little-endian words in byte sequences. */
module Bytes {
  import opened Words

  type u8 = x: int | 0 <= x < 0x100

  function Power(n: nat): nat {
    if n == 0 then 1 else 256 * Power(n - 1)
  }

  // The n low bytes of x, lowest first.
  function Encode(x: nat, n: nat): (s: seq<u8>)
    ensures |s| == n
  {
    if n == 0 then [] else [x % 256] + Encode(x / 256, n - 1)
  }

  function Decode(s: seq<u8>): nat {
    if s == [] then 0 else s[0] + 256 * Decode(s[1..])
  }

  lemma {:induction false} DecodeEncode(x: nat, n: nat)
    requires x < Power(n)
    ensures Decode(Encode(x, n)) == x
  {
    if n > 0 {
      DecodeEncode(x / 256, n - 1);
      assert Encode(x, n)[1..] == Encode(x / 256, n - 1);
    }
  }

  lemma {:induction false} DecodeBound(s: seq<u8>)
    ensures Decode(s) < Power(|s|)
  {
    if s != [] {
      DecodeBound(s[1..]);
    }
  }

  lemma PowerValues()
    ensures Power(4) == 0x1_0000_0000 && Power(8) == MAX_U64 + 1
  {
    assert Power(2) == 0x1_0000;
    assert Power(6) == 0x1_0000_0000_0000;
  }

  function U32(x: u32): (s: seq<u8>)
    ensures |s| == 4
  {
    Encode(x, 4)
  }

  function U64(x: u64): (s: seq<u8>)
    ensures |s| == 8
  {
    Encode(x, 8)
  }

  function ReadU32(data: seq<u8>, p: nat): (x: u32)
    requires p + 4 <= |data|
  {
    DecodeBound(data[p..p + 4]);
    PowerValues();
    Decode(data[p..p + 4])
  }

  function ReadU64(data: seq<u8>, p: nat): (x: u64)
    requires p + 8 <= |data|
  {
    DecodeBound(data[p..p + 8]);
    PowerValues();
    Decode(data[p..p + 8])
  }

  // The bytes of a word are at a position.
  predicate Has32(data: seq<u8>, p: nat, x: u32) {
    p + 4 <= |data| && data[p..p + 4] == U32(x)
  }

  predicate Has64(data: seq<u8>, p: nat, x: u64) {
    p + 8 <= |data| && data[p..p + 8] == U64(x)
  }

  lemma ReadBack32(data: seq<u8>, p: nat, x: u32)
    requires Has32(data, p, x)
    ensures ReadU32(data, p) == x
  {
    PowerValues();
    DecodeEncode(x, 4);
  }

  lemma ReadBack64(data: seq<u8>, p: nat, x: u64)
    requires Has64(data, p, x)
    ensures ReadU64(data, p) == x
  {
    PowerValues();
    DecodeEncode(x, 8);
  }

  lemma SubSlice(data: seq<u8>, a: nat, n: nat, p: nat, k: nat)
    requires a + n <= |data| && p + k <= n
    ensures data[a..a + n][p..p + k] == data[a + p..a + p + k]
  {
    var left, right := data[a..a + n][p..p + k], data[a + p..a + p + k];
    forall i | 0 <= i < k ensures left[i] == right[i] {
      assert data[a..a + n][p + i] == data[a + p + i];
    }
  }

  // A word of a block is a word of the data the block lies in.
  lemma BlockHas32(data: seq<u8>, at: nat, block: seq<u8>, p: nat, x: u32)
    requires at + |block| <= |data| && data[at..at + |block|] == block && Has32(block, p, x)
    ensures Has32(data, at + p, x)
  {
    SubSlice(data, at, |block|, p, 4);
  }

  lemma BlockHas64(data: seq<u8>, at: nat, block: seq<u8>, p: nat, x: u64)
    requires at + |block| <= |data| && data[at..at + |block|] == block && Has64(block, p, x)
    ensures Has64(data, at + p, x)
  {
    SubSlice(data, at, |block|, p, 8);
  }
}
