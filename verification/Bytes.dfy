/** Little-endian unsigned integers as byte sequences. */
module Bytes {
  import opened Wrappers

  type bytes = seq<uint8>

  function Pow256(k: nat): (p: nat)
    ensures p >= 1
  {
    if k == 0 then 1 else 256 * Pow256(k - 1)
  }

  /** The low `k` bytes of `n`, least significant first. */
  function LE(n: nat, k: nat): (r: bytes)
    ensures |r| == k
  {
    if k == 0 then [] else [n % 256] + LE(n / 256, k - 1)
  }

  function FromLE(s: bytes): nat {
    if s == [] then 0 else s[0] + 256 * FromLE(s[1..])
  }

  /** Encoding keeps the value modulo the width. */
  lemma {:induction false} FromLEOfLE(n: nat, k: nat)
    ensures FromLE(LE(n, k)) < Pow256(k)
    ensures n < Pow256(k) ==> FromLE(LE(n, k)) == n
  {
    if k > 0 {
      FromLEOfLE(n / 256, k - 1);
      assert LE(n, k)[1..] == LE(n / 256, k - 1);
    }
  }

  lemma {:induction false} LEOfFromLE(s: bytes)
    ensures FromLE(s) < Pow256(|s|) && LE(FromLE(s), |s|) == s
  {
    if s != [] {
      LEOfFromLE(s[1..]);
      assert FromLE(s) / 256 == FromLE(s[1..]) && FromLE(s) % 256 == s[0];
    }
  }

  lemma Widths()
    ensures Pow256(1) == 0x100 && Pow256(2) == 0x1_0000 && Pow256(3) == 0x100_0000
    ensures Pow256(4) == 0x1_0000_0000 && Pow256(8) == 0x1_0000_0000_0000_0000
  {
    assert Pow256(0) == 1;
    assert Pow256(1) == 0x100;
    assert Pow256(2) == 0x1_0000;
    assert Pow256(3) == 0x100_0000;
    assert Pow256(4) == 0x1_0000_0000;
    assert Pow256(5) == 0x100_0000_0000;
    assert Pow256(6) == 0x1_0000_0000_0000;
    assert Pow256(7) == 0x100_0000_0000_0000;
  }

  /** `piece` stands in `data` from `offset` on. */
  predicate Stands(data: bytes, offset: nat, piece: bytes) {
    offset + |piece| <= |data| && data[offset..offset + |piece|] == piece
  }

  lemma StandsSplit(data: bytes, offset: nat, head: bytes, tail: bytes)
    requires Stands(data, offset, head + tail)
    ensures Stands(data, offset, head) && Stands(data, offset + |head|, tail)
  {
    var whole := data[offset..offset + |head + tail|];
    assert whole[..|head|] == head && whole[|head|..] == tail;
    assert data[offset..offset + |head|] == whole[..|head|];
    assert data[offset + |head|..offset + |head| + |tail|] == whole[|head|..];
  }

  lemma StandsFirst(data: bytes, offset: nat, piece: bytes)
    requires Stands(data, offset, piece) && piece != []
    ensures data[offset] == piece[0]
  {
    assert data[offset..offset + |piece|][0] == data[offset];
  }

  lemma StandsSlice(data: bytes, offset: nat, piece: bytes, i: nat, j: nat)
    requires Stands(data, offset, piece) && i <= j <= |piece|
    ensures offset + j <= |data| && data[offset + i..offset + j] == piece[i..j]
  {
    forall k | 0 <= k < j - i
      ensures data[offset + i..offset + j][k] == piece[i..j][k]
    {
      assert data[offset..offset + |piece|][i + k] == data[offset + i + k];
    }
  }

  lemma StandsWhole(data: bytes)
    ensures Stands(data, 0, data)
  {
  }
}
