/** Decimal text as `strconv` and `fmt` read and write it, on ASCII bytes. */
module Decimal {
  import opened Wrappers
  import opened Bytes

  const Minus: uint8 := 45
  const PlusSign: uint8 := 43

  predicate IsDigit(c: uint8) { 48 <= c <= 57 }

  predicate AllDigits(s: bytes) { s != [] && forall i | 0 <= i < |s| :: IsDigit(s[i]) }

  /** The value of a digit string, last digit least significant. */
  function ValueOf(s: bytes): nat
    requires forall i | 0 <= i < |s| :: IsDigit(s[i])
  {
    if s == [] then 0 else
    assert IsDigit(s[|s| - 1]);
    10 * ValueOf(s[..|s| - 1]) + (s[|s| - 1] as int - 48)
  }

  function Digits(n: nat): (s: bytes)
    ensures AllDigits(s) && ValueOf(s) == n
  {
    if n < 10 then
      assert [48 + n][..0] == [];
      [48 + n]
    else
      var s := Digits(n / 10) + [48 + n % 10];
      assert s[..|s| - 1] == Digits(n / 10);
      s
  }

  function Zeros(k: nat): (s: bytes)
    ensures |s| == k && forall i | 0 <= i < k :: s[i] == 48
  {
    seq(k, _ => 48)
  }

  lemma {:induction false} LeadingZeros(k: nat, s: bytes)
    requires forall i | 0 <= i < |s| :: IsDigit(s[i])
    ensures ValueOf(Zeros(k) + s) == ValueOf(s)
    decreases k + |s|
  {
    if s != [] {
      LeadingZeros(k, s[..|s| - 1]);
      assert (Zeros(k) + s)[..|Zeros(k) + s| - 1] == Zeros(k) + s[..|s| - 1];
    } else if k > 0 {
      LeadingZeros(k - 1, []);
      assert (Zeros(k) + [])[..k - 1] == Zeros(k - 1) + [];
    }
  }

  /** `%0kd`: at least `k` digits. */
  function Padded(n: nat, k: nat): (s: bytes)
    ensures AllDigits(s) && ValueOf(s) == n && |s| >= k
  {
    var d := Digits(n);
    if |d| >= k then d else
    LeadingZeros(k - |d|, d);
    Zeros(k - |d|) + d
  }

  /** `strconv.ParseUint` in base ten, for values below `limit`. */
  function ParseUint(s: bytes, limit: nat): (r: Option<nat>)
    ensures r.Some? ==> r.value < limit
  {
    if AllDigits(s) && ValueOf(s) < limit then Some(ValueOf(s)) else None
  }

  /** `strconv.ParseInt` in base ten, for values in [-half, half). */
  function ParseInt(s: bytes, half: nat): (r: Option<int>)
    ensures r.Some? ==> 0 - half <= r.value <= half && (half > 0 ==> r.value < half)
  {
    if s == [] then None else
    var signed := s[0] == Minus || s[0] == PlusSign;
    var digits := if signed then s[1..] else s;
    if !AllDigits(digits) then None else
    var n := ValueOf(digits);
    if s[0] == Minus then if n <= half then Some(0 - n) else None
    else if n < half then Some(n) else None
  }

  /** The decimal text of any integer. */
  function FormatInt(n: int): bytes {
    if n < 0 then [Minus] + Digits(-n) else Digits(n)
  }

  /** Text of an integer parses back exactly on the range, and is refused outside it. */
  lemma ParseIntOfFormat(n: int, half: nat)
    ensures ParseInt(FormatInt(n), half) == if 0 - half <= n < half then Some(n) else None
  {
    if n < 0 {
      assert ([Minus] + Digits(-n))[1..] == Digits(-n);
    } else {
      assert IsDigit(Digits(n)[0]);
    }
  }

  lemma ParseUintOfFormat(n: int, limit: nat)
    ensures ParseUint(FormatInt(n), limit) == if 0 <= n < limit then Some(n) else None
  {
    if n < 0 {
      assert FormatInt(n)[0] == Minus;
    }
  }

  /** Digits with an optional sign. */
  ghost predicate Writes(s: bytes, n: int) {
    exists d :: AllDigits(d) && ((n == ValueOf(d) && (s == d || s == [43] + d)) || (n == 0 - ValueOf(d) && s == [45] + d))
  }

  /** Exactly the signed decimal texts are read, each to the number it writes, and those only within the range. */
  lemma ParseIntIff(s: bytes, half: nat, n: int)
    requires half > 0
    ensures ParseInt(s, half) == Some(n) <==> Writes(s, n) && 0 - half <= n < half
  {
    hide ValueOf;
    if ParseInt(s, half) == Some(n) {
      var d := if s[0] == Minus || s[0] == PlusSign then s[1..] else s;
      assert AllDigits(d);
      assert s == d || s == [s[0]] + d;
    }
    if Writes(s, n) {
      var d :| AllDigits(d) && ((n == ValueOf(d) && (s == d || s == [43] + d)) || (n == 0 - ValueOf(d) && s == [45] + d));
      assert IsDigit(d[0]);
      assert s == d || s[1..] == d;
    }
  }

  lemma TwoDigits(n: nat)
    requires n < 100
    ensures Padded(n, 2) == [48 + n / 10, 48 + n % 10]
  {
    if n < 10 {
      assert Zeros(1) + [48 + n] == [48, 48 + n];
    } else {
      assert Digits(n / 10) == [48 + n / 10];
    }
  }
}
