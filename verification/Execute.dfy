/** COM_STMT_EXECUTE arguments and long data (the parameter side of `preparedStatement`). */
module Execute {
  import opened Wrappers
  import opened Bytes
  import opened LengthEncoding
  import opened BinaryValues

  datatype ParameterType = ParameterType(fieldType: uint8, unsigned: bool)

  // ---------------------------------------------------------------- one parameter

  /** The width of an integer column type. */
  function IntegerWidth(fieldType: uint8): nat {
    if fieldType == 0x01 then 1
    else if fieldType == 0x02 || fieldType == 0x0d then 2
    else if fieldType == 0x03 || fieldType == 0x09 then 4
    else if fieldType == 0x08 then 8
    else 0
  }

  predicate IsMoment(fieldType: uint8) { fieldType == 0x0a || fieldType == 0x0c || fieldType == 0x07 }

  function FixedWidth(fieldType: uint8): nat {
    if fieldType == 0x04 then 4 else if fieldType == 0x05 then 8 else IntegerWidth(fieldType)
  }

  function FixedValue(word: bytes, t: ParameterType): Value
    requires |word| == FixedWidth(t.fieldType)
  {
    Widths();
    LEOfFromLE(word);
    if t.fieldType == 0x04 then Float32(FromLE(word))
    else if t.fieldType == 0x05 then Float64(FromLE(word))
    else IntegerOf(word, t.unsigned)
  }

  /** `decodePreparedParameter`. */
  function DecodeParameter(payload: bytes, position: nat, t: ParameterType): (r: Option<At<Value>>)
    requires position <= |payload|
    ensures r.Some? ==> position <= r.value.next <= |payload|
  {
    var width := FixedWidth(t.fieldType);
    if t.fieldType == 0x06 then Some(At(Nil, position))
    else if width > 0 then
      if |payload| - position < width then None
      else Some(At(FixedValue(payload[position..position + width], t), position + width))
    else if IsMoment(t.fieldType) then DecodeInstant(payload, position)
    else if t.fieldType == 0x0b then
      var text := DecodeTime(payload, position);
      if text.None? then None else Some(At(Blob(text.value.value), text.value.next))
    else
      var blob := PreparedBytes(payload, position);
      if blob.None? then None else Some(At(Blob(blob.value.value), blob.value.next))
  }

  /** A value as a client puts it on the wire. */
  datatype Sent =
    | SentNothing
    | SentTiny(n: int)        // TINY: one byte
    | SentShort(n: int)       // SHORT and YEAR: two
    | SentLong(n: int)        // LONG and INT24: four
    | SentLongLong(n: int)    // LONGLONG: eight
    | SentFloat(bits32: uint32)
    | SentDouble(bits64: uint64)
    | SentBytes(bytes: bytes)
    | SentMoment(moment: Value, length: nat)
    | SentZeroDate
    | SentClock(clock: Clock, fraction: bool)
    | SentZeroTime

  predicate MomentFits(m: Value, length: nat) {
    && m.Moment? && length in {4, 7, 11}
    && m.year < 0x1_0000 && m.month < 0x100 && m.day < 0x100
    && m.hour < 0x100 && m.minute < 0x100 && m.second < 0x100 && m.micros < 0x1_0000_0000
    && (length < 7 ==> m.hour == 0 && m.minute == 0 && m.second == 0)
    && (length < 11 ==> m.micros == 0)
  }

  /** An integer that a word of twice `half` values holds. */
  predicate Holds(n: int, unsigned: bool, half: int) {
    if unsigned then 0 <= n < 2 * half else -half <= n < half
  }

  /** The value can be sent under the type; the type numbers are those of the protocol. */
  predicate Suits(s: Sent, t: ParameterType) {
    match s
    case SentNothing => t.fieldType == 0x06
    case SentTiny(n) => t.fieldType == 0x01 && Holds(n, t.unsigned, 0x80)
    case SentShort(n) => t.fieldType in {0x02, 0x0d} && Holds(n, t.unsigned, 0x8000)
    case SentLong(n) => t.fieldType in {0x03, 0x09} && Holds(n, t.unsigned, 0x8000_0000)
    case SentLongLong(n) => t.fieldType == 0x08 && Holds(n, t.unsigned, 0x8000_0000_0000_0000)
    case SentFloat(_) => t.fieldType == 0x04
    case SentDouble(_) => t.fieldType == 0x05
    case SentBytes(b) => (t.fieldType == 0x00 || t.fieldType > 0x0d) && |b| <= MaxLength
    case SentMoment(m, length) => t.fieldType in {0x07, 0x0a, 0x0c} && MomentFits(m, length)
    case SentZeroDate => t.fieldType in {0x07, 0x0a, 0x0c}
    case SentClock(clock, _) => t.fieldType == 0x0b && ValidClock(clock)
    case SentZeroTime => t.fieldType == 0x0b
  }

  function MomentWire(m: Value, length: nat): bytes
    requires MomentFits(m, length)
  {
    [length] + LE(m.year, 2) + [m.month, m.day]
      + (if length >= 7 then [m.hour, m.minute, m.second] else [])
      + (if length == 11 then LE(m.micros, 4) else [])
  }

  function WireOf(s: Sent, t: ParameterType): bytes
    requires Suits(s, t)
  {
    match s
    case SentNothing => []
    case SentTiny(n) => [n % 0x100]
    case SentShort(n) => LE(n % 0x1_0000, 2)
    case SentLong(n) => LE(n % 0x1_0000_0000, 4)
    case SentLongLong(n) => LE(n % 0x1_0000_0000_0000_0000, 8)
    case SentFloat(bits) => LE(bits, 4)
    case SentDouble(bits) => LE(bits, 8)
    case SentBytes(b) => EncodeBytes(b)
    case SentMoment(m, length) => MomentWire(m, length)
    case SentZeroDate => [0]
    case SentClock(clock, fraction) => WireClock(clock, fraction)
    case SentZeroTime => [0]
  }

  function Integer(n: int, unsigned: bool): Value
    requires unsigned ==> n >= 0
  {
    if unsigned then Unsigned(n) else Signed(n)
  }

  function MeaningOf(s: Sent, t: ParameterType): Value
    requires Suits(s, t)
  {
    match s
    case SentNothing => Nil
    case SentTiny(n) => Integer(n, t.unsigned)
    case SentShort(n) => Integer(n, t.unsigned)
    case SentLong(n) => Integer(n, t.unsigned)
    case SentLongLong(n) => Integer(n, t.unsigned)
    case SentFloat(bits) => Float32(bits)
    case SentDouble(bits) => Float64(bits)
    case SentBytes(b) => Blob(b)
    case SentMoment(m, _) => m
    case SentZeroDate => Blob([48, 48, 48, 48, 45, 48, 48, 45, 48, 48])
    case SentClock(clock, fraction) => Blob(ClockText(clock, fraction))
    case SentZeroTime => Blob([48, 48, 58, 48, 48, 58, 48, 48])
  }

  lemma IntegerStands(data: bytes, offset: nat, n: int, k: nat, half: int, t: ParameterType)
    requires k > 0 && IntegerWidth(t.fieldType) == k && t.fieldType != 0x04 && t.fieldType != 0x05 && t.fieldType != 0x06
    requires Pow256(k) == 2 * half && Holds(n, t.unsigned, half)
    requires Stands(data, offset, LE(n % Pow256(k), k))
    ensures DecodeParameter(data, offset, t) == Some(At(Integer(n, t.unsigned), offset + k))
  {
    hide LE, FromLE, AsSigned;
    FromLEOfLE(n % Pow256(k), k);
    if t.unsigned {
      Remainder(n, Pow256(k), 0);
    } else {
      WordRoundTrip(n, k);
    }
  }

  lemma OneByte(n: nat)
    requires n < 0x100
    ensures LE(n, 1) == [n]
  {
    assert LE(n / 256, 0) == [];
  }

  lemma MomentStands(data: bytes, offset: nat, m: Value, length: nat)
    requires MomentFits(m, length) && Stands(data, offset, MomentWire(m, length))
    ensures DecodeInstant(data, offset) == Some(At(m, offset + |MomentWire(m, length)|))
  {
    hide LE, FromLE;
    Widths();
    var e := MomentWire(m, length);
    assert data[offset..offset + |e|] == e;
    assert forall i | 0 <= i < |e| :: data[offset + i] == e[i];
    FromLEOfLE(m.year, 2);
    StandsSlice(data, offset, e, 1, 3);
    assert e[1..3] == LE(m.year, 2) && e[3] == m.month && e[4] == m.day;
    if length >= 7 {
      assert e[5] == m.hour && e[6] == m.minute && e[7] == m.second;
    }
    if length == 11 {
      FromLEOfLE(m.micros, 4);
      StandsSlice(data, offset, e, 8, 12);
      assert e[8..12] == LE(m.micros, 4);
    }
  }

  /** Every value sent under its type decodes to its meaning, wherever it stands, and is consumed exactly. */
  lemma SentStands(data: bytes, offset: nat, s: Sent, t: ParameterType)
    requires Suits(s, t) && |data| <= MaxLength && Stands(data, offset, WireOf(s, t))
    ensures DecodeParameter(data, offset, t) == Some(At(MeaningOf(s, t), offset + |WireOf(s, t)|))
  {
    hide LE, FromLE, DecodeInstant, DecodeTime, PreparedBytes, MomentWire, WireClock, IntegerOf, EncodeBytes, CursorBytes;
    Widths();
    match s
    case SentNothing =>
    case SentTiny(n) =>
      OneByte(n % 0x100);
      IntegerStands(data, offset, n, 1, 0x80, t);
    case SentShort(n) => IntegerStands(data, offset, n, 2, 0x8000, t);
    case SentLong(n) => IntegerStands(data, offset, n, 4, 0x8000_0000, t);
    case SentLongLong(n) => IntegerStands(data, offset, n, 8, 0x8000_0000_0000_0000, t);
    case SentFloat(bits) => FromLEOfLE(bits, 4);
    case SentDouble(bits) => FromLEOfLE(bits, 8);
    case SentBytes(b) => BytesStand(data, offset, b);
    case SentMoment(m, length) => MomentStands(data, offset, m, length);
    case SentZeroDate =>
      StandsFirst(data, offset, [0]);
      ZeroDate(data, offset);
    case SentClock(clock, fraction) => ClockStands(data, offset, clock, fraction);
    case SentZeroTime =>
      StandsFirst(data, offset, [0]);
      ZeroTime(data, offset);
  }

  lemma ZeroDate(data: bytes, offset: nat)
    requires offset < |data| && data[offset] == 0
    ensures DecodeInstant(data, offset) == Some(At(Blob([48, 48, 48, 48, 45, 48, 48, 45, 48, 48]), offset + 1))
  {
  }

  lemma ZeroTime(data: bytes, offset: nat)
    requires offset < |data| && data[offset] == 0
    ensures DecodeTime(data, offset) == Some(At([48, 48, 58, 48, 48, 58, 48, 48], offset + 1))
  {
  }
}
