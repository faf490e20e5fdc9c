/** The bits of a number, lowest first. */
module Bits {
  predicate BitOf(b: nat, k: nat) {
    if k == 0 then b % 2 == 1 else BitOf(b / 2, k - 1)
  }

  function Pow2(k: nat): nat {
    if k == 0 then 1 else 2 * Pow2(k - 1)
  }

  /** The number whose bits, lowest first, are the flags. */
  function Pack(flags: seq<bool>): (n: nat)
    ensures n < Pow2(|flags|)
  {
    if flags == [] then 0 else (if flags[0] then 1 else 0) + 2 * Pack(flags[1..])
  }

  lemma {:induction false} BitOfPack(flags: seq<bool>, k: nat)
    requires k < |flags|
    ensures BitOf(Pack(flags), k) == flags[k]
  {
    var n := Pack(flags);
    assert n % 2 == (if flags[0] then 1 else 0) && n / 2 == Pack(flags[1..]);
    if k > 0 {
      BitOfPack(flags[1..], k - 1);
    }
  }

  lemma {:induction false} PackEnds(flags: seq<bool>, k: nat)
    requires k >= |flags|
    ensures !BitOf(Pack(flags), k)
    decreases k
  {
    if flags == [] {
      NoBits(k);
    } else {
      assert Pack(flags) / 2 == Pack(flags[1..]);
      PackEnds(flags[1..], k - 1);
    }
  }

  lemma {:induction false} NoBits(k: nat)
    ensures !BitOf(0, k)
  {
    if k > 0 {
      NoBits(k - 1);
    }
  }

  /** The number with bit `k` set: `b | 1 << k`. */
  function SetBit(b: nat, k: nat): nat {
    if BitOf(b, k) then b else b + Pow2(k)
  }

  lemma {:induction false} SetBitAt(b: nat, k: nat, j: nat)
    ensures BitOf(SetBit(b, k), j) == (j == k || BitOf(b, j))
    decreases k
  {
    if !BitOf(b, k) {
      AddedBit(b, k, j);
    }
  }

  lemma {:induction false} AddedBit(b: nat, k: nat, j: nat)
    requires !BitOf(b, k)
    ensures BitOf(b + Pow2(k), j) == (j == k || BitOf(b, j))
    decreases k
  {
    if k == 0 {
      assert (b + 1) / 2 == b / 2;
    } else {
      var half := Pow2(k - 1);
      assert (b + 2 * half) / 2 == b / 2 + half && (b + 2 * half) % 2 == b % 2;
      if j > 0 {
        AddedBit(b / 2, k - 1, j - 1);
      }
    }
  }

  lemma {:induction false} SetBitWithin(b: nat, k: nat, width: nat)
    requires b < Pow2(width) && k < width
    ensures SetBit(b, k) < Pow2(width)
    decreases width
  {
    var half := Pow2(width - 1);
    assert Pow2(width) == 2 * half;
    if k > 0 && !BitOf(b, k) {
      SetBitWithin(b / 2, k - 1, width - 1);
      assert b / 2 + Pow2(k - 1) < half;
      assert b <= 2 * (b / 2) + 1;
    }
  }

  /** Numbers of one width with the same bits are the same. */
  lemma {:induction false} SameBits(a: nat, b: nat, width: nat)
    requires a < Pow2(width) && b < Pow2(width)
    requires forall j: nat | j < width :: BitOf(a, j) == BitOf(b, j)
    ensures a == b
    decreases width
  {
    if width > 0 {
      assert BitOf(a, 0) == BitOf(b, 0);
      forall j: nat | j < width - 1
        ensures BitOf(a / 2, j) == BitOf(b / 2, j)
      {
        assert BitOf(a, j + 1) == BitOf(b, j + 1);
      }
      SameBits(a / 2, b / 2, width - 1);
    }
  }
}
