/** Rows of the binary protocol: `binaryPreparedRow` and a client that reads them. */
module BinaryRows {
  import opened Wrappers
  import opened Bits
  import opened Bytes
  import opened Decimal
  import opened LengthEncoding
  import opened BinaryValues
  import opened DateText
  import opened Execute
  import opened Arguments

  /** A column value from the driver: its text, or a time. */
  datatype Cell =
    | Empty
    | Text(text: bytes)
    | Time(instant: Instant)

  /** `strconv.ParseFloat` at both widths: the bits of the number read, or none where it reports an error. */
  datatype Floats = Floats(single: bytes -> Option<uint32>, double: bytes -> Option<uint64>)

  predicate Fits(c: Cell, t: ParameterType) {
    match c
    case Empty => true
    case Time(instant) => IsMoment(t.fieldType) && ValidInstant(instant)
    case Text(text) => t.fieldType != 0x06 && |text| <= MaxLength
  }

  function EncodeFloat(f: Floats, text: bytes, t: ParameterType): Option<bytes> {
    if t.fieldType == 0x04 then if f.single(text).None? then None else Some(LE(f.single(text).value, 4))
    else if f.double(text).None? then None else Some(LE(f.double(text).value, 8))
  }

  /** `encodePreparedResultValue`; no bytes where the text is refused. */
  function EncodeCell(f: Floats, c: Cell, t: ParameterType): Option<bytes>
    requires Fits(c, t) && !c.Empty?
  {
    match c
    case Time(instant) => Some(EncodeInstant(instant, t.fieldType == 0x0a))
    case Text(text) =>
      if t.fieldType == 0x04 || t.fieldType == 0x05 then EncodeFloat(f, text, t)
      else if IntegerWidth(t.fieldType) > 0 then EncodeInteger(text, IntegerWidth(t.fieldType), t.unsigned)
      else if t.fieldType == 0x0b then EncodeTimeText(text)
      else if IsMoment(t.fieldType) then
        var instant := ParseMoment(text);
        if instant.None? then None else Some(EncodeInstant(instant.value, t.fieldType == 0x0a))
      else Some(EncodeBytes(text))
  }

  /** What the client is to read. */
  function CellMeaning(f: Floats, c: Cell, t: ParameterType): Value
    requires Fits(c, t) && (c.Empty? || EncodeCell(f, c, t).Some?)
  {
    match c
    case Empty => Nil
    case Time(instant) => Expected(instant, t.fieldType == 0x0a)
    case Text(text) =>
      var k := IntegerWidth(t.fieldType);
      if t.fieldType == 0x04 then Float32(f.single(text).value)
      else if t.fieldType == 0x05 then Float64(f.double(text).value)
      else if k > 0 then if t.unsigned then Unsigned(ParseUint(text, Pow256(k)).value) else Signed(ParseInt(text, Pow256(k) / 2).value)
      else if t.fieldType == 0x0b then Blob(Canonical(ParseClock(text).value))
      else if IsMoment(t.fieldType) then Expected(ParseMoment(text).value, t.fieldType == 0x0a)
      else Blob(text)
  }

  lemma IntegerCellStands(f: Floats, data: bytes, offset: nat, text: bytes, t: ParameterType)
    requires var k := IntegerWidth(t.fieldType); k > 0 && EncodeInteger(text, k, t.unsigned).Some?
    requires Stands(data, offset, EncodeInteger(text, IntegerWidth(t.fieldType), t.unsigned).value)
    ensures Fits(Text(text), t) ==> DecodeParameter(data, offset, t) == Some(At(CellMeaning(f, Text(text), t), offset + IntegerWidth(t.fieldType)))
  {
    hide LE, FromLE, ParseInt, ParseUint, AsSigned;
    var k := IntegerWidth(t.fieldType);
    Widths();
    if t.unsigned {
      FromLEOfLE(ParseUint(text, Pow256(k)).value, k);
    } else {
      var i := ParseInt(text, Pow256(k) / 2).value;
      FromLEOfLE(i % Pow256(k), k);
      WordRoundTrip(i, k);
    }
  }

  lemma TimeCellStands(data: bytes, offset: nat, text: bytes)
    requires EncodeTimeText(text).Some? && Stands(data, offset, EncodeTimeText(text).value)
    ensures DecodeTime(data, offset) == Some(At(Canonical(ParseClock(text).value), offset + |EncodeTimeText(text).value|))
  {
    hide ParseClock, WireClock, DecodeTime, ClockText;
    ParsedIsValid(text);
    var t := ParseClock(text).value;
    ClockStands(data, offset, t, t.micros != 0);
  }

  lemma CellStands(f: Floats, data: bytes, offset: nat, c: Cell, t: ParameterType)
    requires Fits(c, t) && !c.Empty? && EncodeCell(f, c, t).Some? && |data| <= MaxLength
    requires Stands(data, offset, EncodeCell(f, c, t).value)
    ensures DecodeParameter(data, offset, t) == Some(At(CellMeaning(f, c, t), offset + |EncodeCell(f, c, t).value|))
  {
    hide LE, FromLE, DecodeInstant, DecodeTime, PreparedBytes, CursorBytes, EncodeInstant, EncodeTimeText, EncodeInteger, EncodeBytes, IntegerOf, ParseClock, ParseInt, ParseUint, ParseMoment, Expected;
    Widths();
    match c
    case Time(instant) => InstantStands(data, offset, instant, t.fieldType == 0x0a);
    case Text(text) =>
      if t.fieldType == 0x04 {
        FromLEOfLE(f.single(text).value, 4);
      } else if t.fieldType == 0x05 {
        FromLEOfLE(f.double(text).value, 8);
      } else if IntegerWidth(t.fieldType) > 0 {
        IntegerCellStands(f, data, offset, text, t);
        IntegerLength(text, IntegerWidth(t.fieldType), t.unsigned);
      } else if t.fieldType == 0x0b {
        TimeCellStands(data, offset, text);
      } else if IsMoment(t.fieldType) {
        InstantStands(data, offset, ParseMoment(text).value, t.fieldType == 0x0a);
      } else {
        BytesStand(data, offset, text);
      }
  }

  lemma IntegerLength(text: bytes, k: nat, unsigned: bool)
    requires k > 0 && EncodeInteger(text, k, unsigned).Some?
    ensures |EncodeInteger(text, k, unsigned).value| == k
  {
    hide ParseInt, ParseUint, LE;
  }

  // ---------------------------------------------------------------- rows

  predicate RowFits(cells: seq<Cell>, types: seq<ParameterType>) {
    |cells| == |types| && forall i | 0 <= i < |cells| :: Fits(cells[i], types[i])
  }

  predicate Encodable(f: Floats, cells: seq<Cell>, types: seq<ParameterType>)
    requires RowFits(cells, types)
  {
    forall i | 0 <= i < |cells| :: CellEncodes(f, cells[i], types[i])
  }

  predicate CellEncodes(f: Floats, c: Cell, t: ParameterType)
    requires Fits(c, t)
  {
    c.Empty? || EncodeCell(f, c, t).Some?
  }

  function CellWire(f: Floats, c: Cell, t: ParameterType): bytes
    requires Fits(c, t) && CellEncodes(f, c, t)
  {
    if c.Empty? then [] else EncodeCell(f, c, t).value
  }

  function CellsWire(f: Floats, cells: seq<Cell>, types: seq<ParameterType>, index: nat): bytes
    requires RowFits(cells, types) && Encodable(f, cells, types) && index <= |cells|
    decreases |cells| - index
  {
    if index == |cells| then [] else CellWire(f, cells[index], types[index]) + CellsWire(f, cells, types, index + 1)
  }

  /** The bitmap starts with two reserved bits. */
  function RowFlags(cells: seq<Cell>): seq<bool> {
    seq(|cells| + 2, j requires 0 <= j < |cells| + 2 => j >= 2 && cells[j - 2].Empty?)
  }

  function Row(f: Floats, cells: seq<Cell>, types: seq<ParameterType>): Option<bytes>
    requires RowFits(cells, types)
  {
    if !Encodable(f, cells, types) then None else Some([0] + (Bitmap(RowFlags(cells)) + CellsWire(f, cells, types, 0)))
  }

  function ReadCell(payload: bytes, position: nat, nulls: bytes, types: seq<ParameterType>, index: nat): (r: Option<At<Value>>)
    requires position <= |payload| && index < |types| && |nulls| == (|types| + 9) / 8
    ensures r.Some? ==> r.value.next <= |payload|
  {
    if IsNull(nulls, index + 2) then Some(At(Nil, position)) else DecodeParameter(payload, position, types[index])
  }

  /** The client's reader. */
  function ReadCells(payload: bytes, position: nat, nulls: bytes, types: seq<ParameterType>, index: nat): (r: Option<At<seq<Value>>>)
    requires position <= |payload| && index <= |types| && |nulls| == (|types| + 9) / 8
    ensures r.Some? ==> r.value.next <= |payload|
    decreases |types| - index
  {
    if index == |types| then Some(At([], position))
    else
      var first := ReadCell(payload, position, nulls, types, index);
      if first.None? then None
      else
        var rest := ReadCells(payload, first.value.next, nulls, types, index + 1);
        if rest.None? then None else Some(At([first.value.value] + rest.value.value, rest.value.next))
  }

  function ReadRow(payload: bytes, types: seq<ParameterType>): Option<seq<Value>> {
    var nullBytes := (|types| + 9) / 8;
    if |payload| < 1 + nullBytes || payload[0] != 0 then None
    else
      var r := ReadCells(payload, 1 + nullBytes, payload[1..1 + nullBytes], types, 0);
      if r.None? || r.value.next != |payload| then None else Some(r.value.value)
  }

  function RowMeaning(f: Floats, cells: seq<Cell>, types: seq<ParameterType>, index: nat): seq<Value>
    requires RowFits(cells, types) && Encodable(f, cells, types) && index <= |cells|
    decreases |cells| - index
  {
    if index == |cells| then [] else
    assert CellEncodes(f, cells[index], types[index]);
    [CellMeaning(f, cells[index], types[index])] + RowMeaning(f, cells, types, index + 1)
  }

  lemma ReadCellStands(f: Floats, data: bytes, position: nat, nulls: bytes, cells: seq<Cell>, types: seq<ParameterType>, index: nat)
    requires RowFits(cells, types) && Encodable(f, cells, types) && index < |cells| && |data| <= MaxLength
    requires |nulls| == (|types| + 9) / 8 && IsNull(nulls, index + 2) == cells[index].Empty?
    requires CellEncodes(f, cells[index], types[index]) && Stands(data, position, CellWire(f, cells[index], types[index]))
    ensures ReadCell(data, position, nulls, types, index)
      == Some(At(CellMeaning(f, cells[index], types[index]), position + |CellWire(f, cells[index], types[index])|))
  {
    hide EncodeCell, Fits, DecodeParameter, BitOf, Encodable;
    if !cells[index].Empty? {
      CellStands(f, data, position, cells[index], types[index]);
    } else {
      EmptyMeaning(f, types[index]);
    }
  }

  lemma EmptyMeaning(f: Floats, t: ParameterType)
    ensures Fits(Empty, t) && CellMeaning(f, Empty, t) == Nil
  {
  }

  lemma {:induction false} ReadCellsStand(f: Floats, data: bytes, position: nat, nulls: bytes, cells: seq<Cell>, types: seq<ParameterType>, index: nat)
    requires RowFits(cells, types) && Encodable(f, cells, types) && index <= |cells| && |data| <= MaxLength
    requires |nulls| == (|types| + 9) / 8
    requires forall i | 0 <= i < |cells| :: IsNull(nulls, i + 2) == cells[i].Empty?
    requires Stands(data, position, CellsWire(f, cells, types, index))
    ensures ReadCells(data, position, nulls, types, index)
      == Some(At(RowMeaning(f, cells, types, index), position + |CellsWire(f, cells, types, index)|))
    decreases |cells| - index
  {
    hide CellWire, CellMeaning, ReadCell, IsNull, Fits, CellEncodes;
    if index < |cells| {
      assert IsNull(nulls, index + 2) == cells[index].Empty?;
      var wire := CellWire(f, cells[index], types[index]);
      StandsSplit(data, position, wire, CellsWire(f, cells, types, index + 1));
      ReadCellStands(f, data, position, nulls, cells, types, index);
      ReadCellsStand(f, data, position + |wire|, nulls, cells, types, index + 1);
    }
  }

  lemma RowBits(cells: seq<Cell>)
    ensures var nulls := Bitmap(RowFlags(cells));
            forall i | 0 <= i < |cells| :: IsNull(nulls, i + 2) == cells[i].Empty?
  {
    hide IsNull, Bitmap;
    forall i | 0 <= i < |cells|
      ensures IsNull(Bitmap(RowFlags(cells)), i + 2) == cells[i].Empty?
    {
      BitmapBit(RowFlags(cells), i + 2);
    }
  }

  /** Every encodable row reads back cell for cell, and its first byte is neither that of EOF nor that of ERR. */
  lemma RowInverts(f: Floats, cells: seq<Cell>, types: seq<ParameterType>)
    requires RowFits(cells, types) && Encodable(f, cells, types) && |Row(f, cells, types).value| <= MaxLength
    ensures ReadRow(Row(f, cells, types).value, types) == Some(RowMeaning(f, cells, types, 0))
    ensures Row(f, cells, types).value[0] == 0
  {
    hide Fits, Encodable, CellsWire, RowMeaning, ReadCells, IsNull, Bitmap;
    var nulls, values := Bitmap(RowFlags(cells)), CellsWire(f, cells, types, 0);
    var data := Row(f, cells, types).value;
    StandsWhole(data);
    StandsSplit(data, 0, [0], nulls + values);
    StandsSplit(data, 1, nulls, values);
    StandsFirst(data, 0, [0]);
    RowBits(cells);
    ReadCellsStand(f, data, 1 + |nulls|, nulls, cells, types, 0);
  }

  // ---------------------------------------------------------------- building a row in place

  /** The bits of the cells before `index` are set, and no others. */
  predicate BitsSet(nulls: bytes, cells: seq<Cell>, index: nat)
    requires index <= |cells|
  {
    forall j | 0 <= j < 8 * |nulls| :: IsNull(nulls, j) == (2 <= j < index + 2 && cells[j - 2].Empty?)
  }

  lemma BitSet(nulls: bytes, bit: nat, j: nat)
    requires bit / 8 < |nulls| && j / 8 < |nulls|
    ensures SetBit(nulls[bit / 8], bit % 8) < 0x100
    ensures IsNull(nulls[bit / 8 := SetBit(nulls[bit / 8], bit % 8)], j) == (j == bit || IsNull(nulls, j))
  {
    hide BitOf;
    EightBits();
    SetBitWithin(nulls[bit / 8], bit % 8, 8);
    if j / 8 == bit / 8 {
      SetBitAt(nulls[bit / 8], bit % 8, j % 8);
      assert j == 8 * (j / 8) + j % 8 && bit == 8 * (bit / 8) + bit % 8;
    }
  }

  lemma EightBits()
    ensures Pow2(8) == 0x100
  {
    assert Pow2(4) == 16;
  }

  lemma BitsAreBitmap(nulls: bytes, cells: seq<Cell>)
    requires |nulls| == (|cells| + 9) / 8 && BitsSet(nulls, cells, |cells|)
    ensures nulls == Bitmap(RowFlags(cells))
  {
    hide BitOf, Bitmap;
    var target := Bitmap(RowFlags(cells));
    EightBits();
    forall b | 0 <= b < |nulls|
      ensures nulls[b] == target[b]
    {
      forall k: nat | k < 8
        ensures BitOf(nulls[b], k) == BitOf(target[b], k)
      {
        var j := 8 * b + k;
        assert j / 8 == b && j % 8 == k;
        assert IsNull(nulls, j) == (2 <= j < |cells| + 2 && cells[j - 2].Empty?);
        if j < |cells| + 2 {
          BitmapBit(RowFlags(cells), j);
        } else {
          BitmapEnds(RowFlags(cells), j);
        }
        assert IsNull(target, j) == BitOf(target[b], k);
      }
      SameBits(nulls[b], target[b], 8);
    }
  }

  lemma NullBitStep(nulls: bytes, cells: seq<Cell>, index: nat)
    requires |nulls| == (|cells| + 9) / 8 && index < |cells| && cells[index].Empty? && BitsSet(nulls, cells, index)
    ensures var b := (index + 2) / 8;
            && b < |nulls| && SetBit(nulls[b], (index + 2) % 8) < 0x100
            && BitsSet(nulls[b := SetBit(nulls[b], (index + 2) % 8)], cells, index + 1)
  {
    hide SetBit, IsNull;
    var bit := index + 2;
    BitSet(nulls, bit, bit);
    var after := nulls[bit / 8 := SetBit(nulls[bit / 8], bit % 8)];
    forall j | 0 <= j < 8 * |nulls|
      ensures IsNull(after, j) == (2 <= j < index + 3 && cells[j - 2].Empty?)
    {
      BitSet(nulls, bit, j);
      assert IsNull(nulls, j) == (2 <= j < index + 2 && cells[j - 2].Empty?);
    }
  }

  lemma NothingSet(nulls: bytes, cells: seq<Cell>)
    requires forall i | 0 <= i < |nulls| :: nulls[i] == 0
    ensures BitsSet(nulls, cells, 0)
  {
    forall j | 0 <= j < 8 * |nulls|
      ensures !IsNull(nulls, j)
    {
      NoBits(j % 8);
    }
  }

  /** The row after the cells before `index`: marker, bitmap so far, values so far. */
  predicate Built(f: Floats, payload: bytes, cells: seq<Cell>, types: seq<ParameterType>, index: nat)
    requires RowFits(cells, types) && index <= |cells|
  {
    var at := 1 + (|cells| + 9) / 8;
    && |payload| >= at && payload[0] == 0
    && BitsSet(payload[1..at], cells, index)
    && (forall i | 0 <= i < index :: CellEncodes(f, cells[i], types[i]))
    && (Encodable(f, cells, types) ==> payload[at..] + CellsWire(f, cells, types, index) == CellsWire(f, cells, types, 0))
  }

  lemma BuiltStart(f: Floats, payload: bytes, cells: seq<Cell>, types: seq<ParameterType>)
    requires RowFits(cells, types)
    requires |payload| == 1 + (|cells| + 9) / 8 && forall i | 0 <= i < |payload| :: payload[i] == 0
    ensures Built(f, payload, cells, types, 0)
  {
    hide IsNull, Fits, CellsWire, BitsSet, EncodeCell, CellEncodes, Encodable;
    var at := 1 + (|cells| + 9) / 8;
    NothingSet(payload[1..at], cells);
    assert payload[at..] == [];
    if Encodable(f, cells, types) {
      var wire := CellsWire(f, cells, types, 0);
      assert [] + wire == wire;
    }
  }

  lemma BuiltNull(f: Floats, payload: bytes, cells: seq<Cell>, types: seq<ParameterType>, index: nat)
    requires RowFits(cells, types) && index < |cells| && cells[index].Empty? && Built(f, payload, cells, types, index)
    ensures var b := 1 + (index + 2) / 8;
            && b < |payload| && SetBit(payload[b], (index + 2) % 8) < 0x100
            && Built(f, payload[b := SetBit(payload[b], (index + 2) % 8)], cells, types, index + 1)
  {
    hide IsNull, Fits, BitsSet, SetBit, EncodeCell, CellsWire, Encodable;
    var at, b := 1 + (|cells| + 9) / 8, (index + 2) / 8;
    NullBitStep(payload[1..at], cells, index);
    var v := SetBit(payload[1 + b], (index + 2) % 8);
    UpdateSlice(payload, at, b, v);
    if Encodable(f, cells, types) {
      NullWire(f, cells, types, index);
    }
  }

  lemma UpdateSlice(payload: bytes, at: nat, b: nat, v: uint8)
    requires 1 + b < at <= |payload|
    ensures payload[1..at][b] == payload[1 + b] && payload[1 + b := v][0] == payload[0]
    ensures payload[1 + b := v][1..at] == payload[1..at][b := v]
    ensures payload[1 + b := v][at..] == payload[at..]
  {
  }

  lemma NullWire(f: Floats, cells: seq<Cell>, types: seq<ParameterType>, index: nat)
    requires RowFits(cells, types) && Encodable(f, cells, types) && index < |cells| && cells[index].Empty?
    ensures CellsWire(f, cells, types, index) == CellsWire(f, cells, types, index + 1)
  {
    hide Fits, EncodeCell;
    assert CellsWire(f, cells, types, index) == [] + CellsWire(f, cells, types, index + 1);
  }

  lemma BuiltValue(f: Floats, payload: bytes, cells: seq<Cell>, types: seq<ParameterType>, index: nat, wire: bytes)
    requires RowFits(cells, types) && index < |cells| && !cells[index].Empty? && Built(f, payload, cells, types, index)
    requires Some(wire) == EncodeCell(f, cells[index], types[index])
    ensures Built(f, payload + wire, cells, types, index + 1)
  {
    hide IsNull, Fits, EncodeCell, BitsSet, CellsWire, Encodable;
    var at := 1 + (|cells| + 9) / 8;
    ValueBitStep(payload[1..at], cells, index);
    AppendSlice(payload, at, wire);
    if Encodable(f, cells, types) {
      ValueWire(f, cells, types, index, wire, payload[at..]);
    }
  }

  lemma ValueBitStep(nulls: bytes, cells: seq<Cell>, index: nat)
    requires index < |cells| && !cells[index].Empty? && BitsSet(nulls, cells, index)
    ensures BitsSet(nulls, cells, index + 1)
  {
    hide IsNull;
  }

  lemma AppendSlice(payload: bytes, at: nat, wire: bytes)
    requires 1 <= at <= |payload|
    ensures (payload + wire)[0] == payload[0] && (payload + wire)[1..at] == payload[1..at]
    ensures (payload + wire)[at..] == payload[at..] + wire
  {
  }

  lemma ValueWire(f: Floats, cells: seq<Cell>, types: seq<ParameterType>, index: nat, wire: bytes, values: bytes)
    requires RowFits(cells, types) && Encodable(f, cells, types) && index < |cells| && !cells[index].Empty?
    requires Some(wire) == EncodeCell(f, cells[index], types[index])
    ensures values + CellsWire(f, cells, types, index) == values + wire + CellsWire(f, cells, types, index + 1)
  {
    hide Fits, EncodeCell;
    var rest := CellsWire(f, cells, types, index + 1);
    assert CellsWire(f, cells, types, index) == wire + rest;
    assert values + (wire + rest) == values + wire + rest;
  }

  lemma BuiltEnd(f: Floats, payload: bytes, cells: seq<Cell>, types: seq<ParameterType>)
    requires RowFits(cells, types) && Built(f, payload, cells, types, |cells|)
    ensures Row(f, cells, types) == Some(payload)
  {
    hide IsNull, Fits, BitsSet, Bitmap, CellEncodes, CellsWire, RowFlags;
    var at := 1 + (|cells| + 9) / 8;
    BitsAreBitmap(payload[1..at], cells);
    NoCellsLeft(f, cells, types);
    Assemble(payload, at);
  }

  lemma NoCellsLeft(f: Floats, cells: seq<Cell>, types: seq<ParameterType>)
    requires RowFits(cells, types) && Encodable(f, cells, types)
    ensures CellsWire(f, cells, types, |cells|) == []
  {
  }

  lemma Assemble(payload: bytes, at: nat)
    requires 1 <= at <= |payload| && payload[0] == 0
    ensures payload == [0] + (payload[1..at] + payload[at..]) && payload[at..] + [] == payload[at..]
  {
  }

  method BinaryPreparedRow(f: Floats, cells: seq<Cell>, types: seq<ParameterType>) returns (r: Option<bytes>)
    requires RowFits(cells, types)
    ensures r == Row(f, cells, types)
  {
    hide EncodeCell, Fits, SetBit, Built, Row;
    var nullBytes := (|cells| + 7 + 2) / 8;
    var payload: bytes := seq(1 + nullBytes, i => 0);
    BuiltStart(f, payload, cells, types);
    var index := 0;
    while index < |cells|
      invariant index <= |cells| && Built(f, payload, cells, types, index)
    {
      if cells[index].Empty? {
        BuiltNull(f, payload, cells, types, index);
        var bit := index + 2;
        payload := payload[1 + bit / 8 := SetBit(payload[1 + bit / 8], bit % 8)];
      } else {
        var encoded := EncodeCell(f, cells[index], types[index]);
        if encoded.None? {
          NoRow(f, cells, types, index);
          return None;
        }
        BuiltValue(f, payload, cells, types, index, encoded.value);
        payload := payload + encoded.value;
      }
      index := index + 1;
    }
    BuiltEnd(f, payload, cells, types);
    r := Some(payload);
  }

  lemma NoRow(f: Floats, cells: seq<Cell>, types: seq<ParameterType>, index: nat)
    requires RowFits(cells, types) && index < |cells| && !cells[index].Empty? && EncodeCell(f, cells[index], types[index]).None?
    ensures Row(f, cells, types) == None
  {
    hide EncodeCell, Fits;
    assert !CellEncodes(f, cells[index], types[index]);
  }
}
