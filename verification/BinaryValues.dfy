/** Binary protocol values: parameters in, result values out (internal/gateway/prepared.go). */
module BinaryValues {
  import opened Wrappers
  import opened Bytes
  import opened Decimal
  import opened LengthEncoding

  /** A decoded argument. A `Moment` is the argument list of `time.Date`; floats keep their bits. */
  datatype Value =
    | Nil
    | Unsigned(n: nat)
    | Signed(i: int)
    | Float32(bits32: uint32)
    | Float64(bits64: uint64)
    | Blob(bytes: bytes)
    | Moment(year: nat, month: nat, day: nat, hour: nat, minute: nat, second: nat, micros: nat)

  // ---------------------------------------------------------------- integers

  /** Two's complement of a `k`-byte word. */
  function AsSigned(raw: nat, k: nat): int {
    if raw < Pow256(k) / 2 then raw else raw - Pow256(k)
  }

  function IntegerOf(word: bytes, unsigned: bool): Value {
    if unsigned then Unsigned(FromLE(word)) else Signed(AsSigned(FromLE(word), |word|))
  }

  /** The bytes for a decimal text in a `k`-byte column, or None when `strconv` reports an error. */
  function EncodeInteger(text: bytes, k: nat, unsigned: bool): Option<bytes>
    requires k > 0
  {
    if unsigned then
      var n := ParseUint(text, Pow256(k));
      if n.None? then None else Some(LE(n.value, k))
    else
      var i := ParseInt(text, Pow256(k) / 2);
      if i.None? then None else Some(LE(i.value % Pow256(k), k))
  }

  function InRange(n: int, k: nat, unsigned: bool): bool {
    if unsigned then 0 <= n < Pow256(k) else -(Pow256(k) / 2) <= n < Pow256(k) / 2
  }

  lemma WordRoundTrip(i: int, k: nat)
    requires k > 0 && -(Pow256(k) / 2) <= i < Pow256(k) / 2
    ensures AsSigned(i % Pow256(k), k) == i
  {
    var p := Pow256(k);
    assert p == 256 * Pow256(k - 1) && p / 2 == 128 * Pow256(k - 1);
    if i >= 0 {
      Remainder(i, p, 0);
    } else {
      Remainder(i + p, p, -1);
    }
  }

  lemma Remainder(r: int, p: nat, q: int)
    requires 0 <= r < p && (q == 0 || q == -1)
    ensures (r + q * p) % p == r
  {
    if q == -1 {
      assert r - p == (-1) * p + r;
    }
  }

  /** For every width and signedness: an integer's text encodes exactly on the range and decodes to the integer. */
  lemma IntegerRoundTrip(n: int, k: nat, unsigned: bool)
    requires k > 0
    ensures EncodeInteger(FormatInt(n), k, unsigned).Some? <==> InRange(n, k, unsigned)
    ensures InRange(n, k, unsigned) ==>
              IntegerOf(EncodeInteger(FormatInt(n), k, unsigned).value, unsigned) == if unsigned then Unsigned(n) else Signed(n)
  {
    hide FormatInt, ParseInt, ParseUint, LE, FromLE, AsSigned;
    if unsigned {
      ParseUintOfFormat(n, Pow256(k));
      if InRange(n, k, unsigned) { FromLEOfLE(n, k); }
    } else {
      ParseIntOfFormat(n, Pow256(k) / 2);
      if InRange(n, k, unsigned) {
        FromLEOfLE(n % Pow256(k), k);
        WordRoundTrip(n, k);
      }
    }
  }

  // ---------------------------------------------------------------- TIME

  const Colon: uint8 := 58
  const Dot: uint8 := 46

  datatype Clock = Clock(negative: bool, hours: nat, minute: nat, second: nat, micros: nat)

  /** What fits the wire: 32-bit hours, byte minutes and seconds, six digits of fraction. */
  predicate ValidClock(t: Clock) {
    t.hours < Pow256(4) && t.minute < 0x100 && t.second < 0x100 && t.micros < 1_000_000
  }

  /** `strings.Split` at every separator. */
  function Split(s: bytes, separator: uint8): (r: seq<bytes>)
    ensures r != []
  {
    if s == [] then [[]]
    else
      var r := Split(s[1..], separator);
      if s[0] == separator then [[]] + r else [[s[0]] + r[0]] + r[1..]
  }

  /** `strings.SplitN(s, sep, 2)`: the first separator only. */
  function Cut(s: bytes, separator: uint8): (r: (bytes, Option<bytes>)) {
    if s == [] then ([], None)
    else if s[0] == separator then ([], Some(s[1..]))
    else var (a, b) := Cut(s[1..], separator); ([s[0]] + a, b)
  }

  /** The text of a TIME result, or None where `encodePreparedTimeResult` reports an error. */
  function ParseClock(text: bytes): Option<Clock> {
    var negative := text != [] && text[0] == Minus;
    var (clock, fraction) := Cut(if negative then text[1..] else text, Dot);
    var parts := Split(clock, Colon);
    if |parts| != 3 then None else
    var hours, minute, second := ParseUint(parts[0], Pow256(4)), ParseUint(parts[1], Pow256(1)), ParseUint(parts[2], Pow256(1));
    var micros := if fraction.None? then Some(0) else ParseUint((fraction.value + Zeros(6))[..6], Pow256(4));
    if hours.None? || minute.None? || second.None? || micros.None? then None
    else Some(Clock(negative, hours.value, minute.value, second.value, micros.value))
  }

  /** The wire form of a clock, with or without its fraction. */
  function WireClock(t: Clock, fraction: bool): bytes
    requires ValidClock(t)
  {
    [if fraction then 12 else 8, if t.negative then 1 else 0] + LE(t.hours / 24, 4)
      + [t.hours % 24, t.minute, t.second] + if fraction then LE(t.micros, 4) else []
  }

  function EncodeClock(t: Clock): bytes
    requires ValidClock(t)
  {
    WireClock(t, t.micros != 0)
  }

  /** `encodePreparedTimeResult`. */
  function EncodeTimeText(text: bytes): Option<bytes> {
    var t := ParseClock(text);
    if t.None? then None else
    ParsedIsValid(text);
    Some(EncodeClock(t.value))
  }

  /** `%02d:%02d:%02d`, then the fraction, with a sign in front. */
  function FormatClock(negative: bool, hours: nat, minute: nat, second: nat, micros: Option<nat>): bytes {
    (if negative then [Minus] else []) + (Padded(hours, 2) + [Colon] + Padded(minute, 2) + [Colon] + Padded(second, 2)
      + if micros.Some? then [Dot] + Padded(micros.value, 6) else [])
  }

  /** The text without a zero fraction. */
  function Canonical(t: Clock): bytes { ClockText(t, t.micros != 0) }

  /** `decodePreparedTime`. */
  function DecodeTime(payload: bytes, position: nat): (r: Option<At<bytes>>)
    ensures r.Some? ==> position < r.value.next <= |payload|
  {
    if position >= |payload| then None else
    var length := payload[position] as nat;
    var p := position + 1;
    if length == 0 then Some(At([48, 48, 58, 48, 48, 58, 48, 48], p))
    else if (length != 8 && length != 12) || |payload| - p < length then None
    else
      var hours := FromLE(payload[p + 1..p + 5]) * 24 + payload[p + 5] as nat;
      var micros := if length == 12 then Some(FromLE(payload[p + 8..p + 12])) else None;
      Some(At(FormatClock(payload[p] != 0, hours, payload[p + 6], payload[p + 7], micros), p + length))
  }

  lemma {:induction false} SixDigits(s: bytes)
    requires forall i | 0 <= i < |s| :: IsDigit(s[i])
    ensures ValueOf(s) < Pow10(|s|)
  {
    if s != [] { SixDigits(s[..|s| - 1]); }
  }

  function Pow10(k: nat): nat { if k == 0 then 1 else 10 * Pow10(k - 1) }

  lemma Million()
    ensures Pow10(6) == 1_000_000
  {
    assert Pow10(0) == 1 && Pow10(1) == 10 && Pow10(2) == 100;
    assert Pow10(3) == 1000 && Pow10(4) == 10_000 && Pow10(5) == 100_000;
  }

  lemma ParsedIsValid(text: bytes)
    ensures ParseClock(text).Some? ==> ValidClock(ParseClock(text).value)
  {
    hide Cut, Split, ValueOf;
    Widths();
    Million();
    var negative := text != [] && text[0] == Minus;
    var fraction := Cut(if negative then text[1..] else text, Dot).1;
    if ParseClock(text).Some? && fraction.Some? {
      SixDigits((fraction.value + Zeros(6))[..6]);
    }
  }

  function ClockText(t: Clock, fraction: bool): bytes {
    FormatClock(t.negative, t.hours, t.minute, t.second, if fraction then Some(t.micros) else None)
  }

  /** The wire form of a clock reads back to its text, wherever it stands. */
  lemma ClockStands(data: bytes, offset: nat, t: Clock, fraction: bool)
    requires ValidClock(t) && Stands(data, offset, WireClock(t, fraction))
    ensures DecodeTime(data, offset) == Some(At(ClockText(t, fraction), offset + |WireClock(t, fraction)|))
  {
    hide LE, FromLE, FormatClock;
    Widths();
    var e := WireClock(t, fraction);
    assert data[offset..offset + |e|] == e;
    assert forall i | 0 <= i < |e| :: data[offset + i] == e[i];
    FromLEOfLE(t.hours / 24, 4);
    var p := offset + 1;
    StandsSlice(data, offset, e, 2, 6);
    assert e[2..6] == LE(t.hours / 24, 4);
    assert e[6] == t.hours % 24 && e[7] == t.minute && e[8] == t.second;
    if fraction {
      FromLEOfLE(t.micros, 4);
      StandsSlice(data, offset, e, 9, 13);
      assert e[9..13] == LE(t.micros, 4);
    }
  }

  lemma {:induction false} CutAt(a: bytes, separator: uint8, rest: bytes)
    requires separator !in a
    ensures Cut(a + [separator] + rest, separator) == (a, Some(rest)) && Cut(a, separator) == (a, None)
    decreases |a|
  {
    var s := a + [separator] + rest;
    if a == [] {
      assert s[1..] == rest;
    } else {
      CutAt(a[1..], separator, rest);
      assert s[1..] == a[1..] + [separator] + rest;
      assert [a[0]] + a[1..] == a;
    }
  }

  lemma {:induction false} SplitAt(a: bytes, separator: uint8, rest: bytes)
    requires separator !in a
    ensures Split(a + [separator] + rest, separator) == [a] + Split(rest, separator) && Split(a, separator) == [a]
    decreases |a|
  {
    var s := a + [separator] + rest;
    if a == [] {
      assert s[1..] == rest;
    } else {
      SplitAt(a[1..], separator, rest);
      assert s[1..] == a[1..] + [separator] + rest;
      assert [a[0]] + a[1..] == a;
    }
  }

  lemma {:induction false} DigitsLength(n: nat, k: nat)
    requires k > 0 && n < Pow10(k)
    ensures |Digits(n)| <= k
    decreases k
  {
    if n >= 10 { DigitsLength(n / 10, k - 1); }
  }

  lemma NoSeparators(s: bytes)
    requires AllDigits(s)
    ensures Colon !in s && Dot !in s && s[0] != Minus
  {
  }

  /** Three padded fields between colons split into the three. */
  lemma SplitClock(a: bytes, b: bytes, c: bytes)
    requires AllDigits(a) && AllDigits(b) && AllDigits(c)
    ensures var s := a + [Colon] + b + [Colon] + c;
            Split(s, Colon) == [a, b, c] && Dot !in s && s[0] != Minus
  {
    hide Split;
    NoSeparators(a);
    NoSeparators(b);
    NoSeparators(c);
    assert a + [Colon] + b + [Colon] + c == a + [Colon] + (b + [Colon] + c);
    SplitAt(a, Colon, b + [Colon] + c);
    SplitAt(b, Colon, c);
    SplitAt(c, Colon, []);
    assert [b] + [c] == [b, c];
  }

  /** Canonical text parses back to the clock it was written from. */
  lemma ParseCanonical(t: Clock)
    requires ValidClock(t)
    ensures ParseClock(Canonical(t)) == Some(t)
  {
    hide Split, Cut, Padded, ValueOf;
    var h, m, s := Padded(t.hours, 2), Padded(t.minute, 2), Padded(t.second, 2);
    var clock := h + [Colon] + m + [Colon] + s;
    SplitClock(h, m, s);
    Widths();
    var body := clock + if t.micros != 0 then [Dot] + Padded(t.micros, 6) else [];
    var text := Canonical(t);
    assert text == (if t.negative then [Minus] else []) + body;
    assert (if t.negative then text[1..] else text) == body;
    assert body[0] == clock[0];
    if t.micros != 0 {
      SixDigitFraction(t.micros);
      CutAt(clock, Dot, Padded(t.micros, 6));
      assert body == clock + [Dot] + Padded(t.micros, 6);
    } else {
      CutAt(clock, Dot, []);
      assert body == clock;
    }
  }

  lemma SixDigitFraction(micros: nat)
    requires micros < 1_000_000
    ensures var f := Padded(micros, 6);
            |f| == 6 && (f + Zeros(6))[..6] == f
  {
    Million();
    DigitsLength(micros, 6);
  }

  /** TIME: whatever text is accepted, what the wire form decodes to means the same sign, hours, minutes, seconds and microseconds. */
  lemma TimeKeepsMeaning(text: bytes)
    ensures EncodeTimeText(text).Some? <==> ParseClock(text).Some?
    ensures EncodeTimeText(text).Some? ==>
              var wire := EncodeTimeText(text).value;
              && DecodeTime(wire, 0).Some?
              && DecodeTime(wire, 0).value.next == |wire|
              && ParseClock(DecodeTime(wire, 0).value.value) == ParseClock(text)
  {
    hide ParseClock, WireClock, DecodeTime, ClockText;
    if ParseClock(text).Some? {
      ParsedIsValid(text);
      var t := ParseClock(text).value;
      StandsWhole(EncodeClock(t));
      ClockStands(EncodeClock(t), 0, t, t.micros != 0);
      ParseCanonical(t);
    }
  }

  /** The text of a time of day: two digits each between colons, and six of fraction behind a dot. */
  lemma ClockTextExactly(t: Clock, fraction: bool)
    requires t.hours < 100 && t.minute < 100 && t.second < 100 && t.micros < 1_000_000
    ensures exists f: bytes ::
              && ClockText(t, fraction) ==
                   (if t.negative then [45] else [])
                   + [48 + t.hours / 10, 48 + t.hours % 10, 58, 48 + t.minute / 10, 48 + t.minute % 10, 58, 48 + t.second / 10, 48 + t.second % 10]
                   + (if fraction then [46] + f else [])
              && |f| == 6 && AllDigits(f) && ValueOf(f) == t.micros
  {
    hide Padded, ValueOf;
    TwoDigits(t.hours);
    TwoDigits(t.minute);
    TwoDigits(t.second);
    SixDigitFraction(t.micros);
    var f := Padded(t.micros, 6);
    var clock := Padded(t.hours, 2) + [Colon] + Padded(t.minute, 2) + [Colon] + Padded(t.second, 2);
    assert clock == [48 + t.hours / 10, 48 + t.hours % 10, 58, 48 + t.minute / 10, 48 + t.minute % 10, 58, 48 + t.second / 10, 48 + t.second % 10];
    assert ClockText(t, fraction) == (if t.negative then [45] else []) + (clock + (if fraction then [46] + f else []));
    assert (if t.negative then [45] else []) + (clock + (if fraction then [46] + f else []))
           == (if t.negative then [45] else []) + clock + (if fraction then [46] + f else []);
  }

  /** The first six characters behind the dot, filled up with zeros; what follows them is not looked at. */
  function SixOf(fraction: bytes): bytes { (fraction + Zeros(6))[..6] }

  /** `text` writes the clock: digits between two colons, within their widths, a sign and a fraction if there is one. */
  ghost predicate ClockWritten(text: bytes, t: Clock, h: bytes, m: bytes, s: bytes, fraction: Option<bytes>) {
    && text == (if t.negative then [45] else []) + (h + [58] + m + [58] + s + (if fraction.Some? then [46] + fraction.value else []))
    && AllDigits(h) && ValueOf(h) == t.hours < 0x1_0000_0000
    && AllDigits(m) && ValueOf(m) == t.minute < 0x100
    && AllDigits(s) && ValueOf(s) == t.second < 0x100
    && (fraction.None? ==> t.micros == 0)
    && (fraction.Some? ==> AllDigits(SixOf(fraction.value)) && ValueOf(SixOf(fraction.value)) == t.micros)
  }

  lemma {:induction false} CutJoins(s: bytes, separator: uint8)
    ensures var (a, b) := Cut(s, separator); s == a + (if b.Some? then [separator] + b.value else [])
  {
    if s != [] && s[0] != separator {
      CutJoins(s[1..], separator);
      assert s == [s[0]] + s[1..];
    }
  }

  /** What stands behind the first separator. */
  lemma {:induction false} SplitRest(s: bytes, separator: uint8) returns (rest: bytes)
    requires |Split(s, separator)| > 1
    ensures var r := Split(s, separator); s == r[0] + [separator] + rest && Split(rest, separator) == r[1..]
  {
    if s[0] == separator {
      rest := s[1..];
      assert s == [] + [separator] + rest;
    } else {
      rest := SplitRest(s[1..], separator);
      var q := Split(s[1..], separator);
      assert s == [s[0]] + (q[0] + [separator] + rest);
    }
  }

  lemma {:induction false} SplitOne(s: bytes, separator: uint8)
    requires |Split(s, separator)| == 1
    ensures s == Split(s, separator)[0]
  {
    if s != [] { SplitOne(s[1..], separator); }
  }

  lemma SplitThree(s: bytes, separator: uint8)
    requires |Split(s, separator)| == 3
    ensures var r := Split(s, separator); s == r[0] + [separator] + r[1] + [separator] + r[2]
  {
    hide Split;
    var rest := SplitRest(s, separator);
    var last := SplitRest(rest, separator);
    SplitOne(last, separator);
  }

  lemma ParsedIsWritten(text: bytes) returns (h: bytes, m: bytes, s: bytes, fraction: Option<bytes>)
    requires ParseClock(text).Some?
    ensures ClockWritten(text, ParseClock(text).value, h, m, s, fraction)
  {
    hide Split, Cut, ValueOf;
    Widths();
    var negative := text != [] && text[0] == Minus;
    var body := if negative then text[1..] else text;
    var (clock, f) := Cut(body, Dot);
    CutJoins(body, Dot);
    SplitThree(clock, Colon);
    var parts := Split(clock, Colon);
    h, m, s, fraction := parts[0], parts[1], parts[2], f;
    assert text == (if negative then [45] else []) + body;
  }

  lemma WrittenIsParsed(text: bytes, t: Clock, h: bytes, m: bytes, s: bytes, fraction: Option<bytes>)
    requires ClockWritten(text, t, h, m, s, fraction)
    ensures ParseClock(text) == Some(t)
  {
    hide Split, Cut, ValueOf;
    Widths();
    SplitClock(h, m, s);
    var clock := h + [Colon] + m + [Colon] + s;
    var body := clock + if fraction.Some? then [Dot] + fraction.value else [];
    assert text == (if t.negative then [Minus] else []) + body;
    assert (if t.negative then text[1..] else text) == body;
    assert body[0] == clock[0];
    if fraction.Some? {
      Million();
      SixDigits(SixOf(fraction.value));
      CutAt(clock, Dot, fraction.value);
      assert body == clock + [Dot] + fraction.value;
    } else {
      CutAt(clock, Dot, []);
      assert body == clock;
    }
  }

  /** A TIME text is accepted if and only if it writes a clock, and then as that clock. */
  lemma ParseClockIff(text: bytes, t: Clock)
    ensures ParseClock(text) == Some(t) <==> exists h, m, s, fraction :: ClockWritten(text, t, h, m, s, fraction)
  {
    hide ParseClock, ClockWritten;
    if ParseClock(text) == Some(t) {
      var h, m, s, fraction := ParsedIsWritten(text);
    }
    forall h, m, s, fraction | ClockWritten(text, t, h, m, s, fraction)
      ensures ParseClock(text) == Some(t)
    {
      WrittenIsParsed(text, t, h, m, s, fraction);
    }
  }

  // ---------------------------------------------------------------- DATE and DATETIME

  /** A `time.Time` as the driver returns it. */
  datatype Instant = Instant(year: int, month: nat, day: nat, hour: nat, minute: nat, second: nat, nanos: nat)

  /** Calendar fields a `time.Time` can have. */
  predicate ValidInstant(t: Instant) {
    1 <= t.month <= 12 && 1 <= t.day <= 31 && t.hour < 24 && t.minute < 60 && t.second < 60 && t.nanos < 1_000_000_000
  }

  /** `encodePreparedDateTimeResult`: the year is cut to 16 bits; nanoseconds, if any, are sent as microseconds. */
  function EncodeInstant(t: Instant, dateOnly: bool): bytes
    requires ValidInstant(t)
  {
    var date := LE(t.year % 0x1_0000, 2) + [t.month, t.day];
    if dateOnly then [4] + date
    else if t.nanos == 0 then [7] + date + [t.hour, t.minute, t.second]
    else [11] + date + [t.hour, t.minute, t.second] + LE(t.nanos / 1000, 4)
  }

  /** `decodePreparedDateTime`. */
  function DecodeInstant(payload: bytes, position: nat): (r: Option<At<Value>>)
    ensures r.Some? ==> position < r.value.next <= |payload|
  {
    if position >= |payload| then None else
    var length := payload[position] as nat;
    var p := position + 1;
    if length == 0 then Some(At(Blob([48, 48, 48, 48, 45, 48, 48, 45, 48, 48]), p))
    else if (length != 4 && length != 7 && length != 11) || |payload| - p < length then None
    else
      var timed := length >= 7;
      Some(At(Moment(FromLE(payload[p..p + 2]), payload[p + 2], payload[p + 3],
                     if timed then payload[p + 4] else 0, if timed then payload[p + 5] else 0, if timed then payload[p + 6] else 0,
                     if length == 11 then FromLE(payload[p + 7..p + 11]) else 0), p + length))
  }

  /** The fields at microsecond precision, the time of day dropped from a DATE, the year as sixteen bits hold it. */
  function Expected(t: Instant, dateOnly: bool): Value {
    var year := t.year % 0x1_0000;
    if dateOnly then Moment(year, t.month, t.day, 0, 0, 0, 0)
    else Moment(year, t.month, t.day, t.hour, t.minute, t.second, t.nanos / 1000)
  }

  /** DATE and DATETIME keep every field at microsecond precision, the year exactly when it fits sixteen bits. */
  lemma InstantStands(data: bytes, offset: nat, t: Instant, dateOnly: bool)
    requires ValidInstant(t) && Stands(data, offset, EncodeInstant(t, dateOnly))
    ensures DecodeInstant(data, offset) == Some(At(Expected(t, dateOnly), offset + |EncodeInstant(t, dateOnly)|))
    ensures Expected(t, dateOnly).year == t.year <==> 0 <= t.year < 0x1_0000
  {
    hide LE, FromLE;
    Widths();
    var e, p := EncodeInstant(t, dateOnly), offset + 1;
    assert data[offset..offset + |e|] == e;
    assert forall i | 0 <= i < |e| :: data[offset + i] == e[i];
    FromLEOfLE(t.year % 0x1_0000, 2);
    StandsSlice(data, offset, e, 1, 3);
    assert e[1..3] == LE(t.year % 0x1_0000, 2) && data[p..p + 2] == e[1..3];
    assert data[offset] == e[0] && data[p + 2] == e[3] == t.month && data[p + 3] == e[4] == t.day;
    if !dateOnly {
      assert data[p + 4] == e[5] == t.hour && data[p + 5] == e[6] == t.minute && data[p + 6] == e[7] == t.second;
      if t.nanos != 0 {
        assert |e| == 12 && e[0] == 11;
        FromLEOfLE(t.nanos / 1000, 4);
        StandsSlice(data, offset, e, 8, 12);
        assert e[8..12] == LE(t.nanos / 1000, 4) && data[p + 7..p + 11] == e[8..12];
      } else {
        assert |e| == 8 && e[0] == 7;
      }
    } else {
      assert |e| == 5 && e[0] == 4;
    }
  }
}
