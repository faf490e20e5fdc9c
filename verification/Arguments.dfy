/** The COM_STMT_EXECUTE packet: null bitmap, optional type array, values. */
module Arguments {
  import opened Wrappers
  import opened Bits
  import opened Bytes
  import opened LengthEncoding
  import opened BinaryValues
  import opened Execute

  // ---------------------------------------------------------------- the null bitmap

  predicate IsNull(nulls: bytes, index: nat)
    requires index / 8 < |nulls|
  {
    BitOf(nulls[index / 8], index % 8)
  }

  /** The bitmap a client sends: parameter `i` is bit `i % 8` of byte `i / 8`. */
  function Bitmap(flags: seq<bool>): (r: bytes)
    ensures |r| == (|flags| + 7) / 8
  {
    if |flags| == 0 then []
    else if |flags| <= 8 then Octet(flags)
    else Octet(flags[..8]) + Bitmap(flags[8..])
  }

  function Octet(flags: seq<bool>): (r: bytes)
    requires |flags| <= 8
    ensures r == [Pack(flags)]
  {
    Octets(|flags|);
    [Pack(flags)]
  }

  lemma Octets(k: nat)
    requires k <= 8
    ensures Pow2(k) <= 0x100
    decreases 8 - k
  {
    if k == 8 {
      assert Pow2(4) == 16;
    } else {
      Octets(k + 1);
    }
  }

  lemma {:induction false} BitmapBit(flags: seq<bool>, index: nat)
    requires index < |flags|
    ensures IsNull(Bitmap(flags), index) == flags[index]
  {
    if |flags| <= 8 {
      BitOfPack(flags, index);
    } else if index < 8 {
      BitOfPack(flags[..8], index);
    } else {
      BitmapBit(flags[8..], index - 8);
      assert index / 8 == (index - 8) / 8 + 1 && index % 8 == (index - 8) % 8;
      assert Bitmap(flags)[index / 8] == Bitmap(flags[8..])[(index - 8) / 8];
    }
  }

  /** The padding of the last byte is zero. */
  lemma {:induction false} BitmapEnds(flags: seq<bool>, index: nat)
    requires |flags| <= index < 8 * |Bitmap(flags)|
    ensures !IsNull(Bitmap(flags), index)
  {
    if |flags| <= 8 {
      PackEnds(flags, index);
    } else {
      BitmapEnds(flags[8..], index - 8);
      assert index / 8 == (index - 8) / 8 + 1 && index % 8 == (index - 8) % 8;
      assert Bitmap(flags)[index / 8] == Bitmap(flags[8..])[(index - 8) / 8];
    }
  }

  // ---------------------------------------------------------------- the type array

  function TypeAt(payload: bytes, position: nat): ParameterType
    requires position + 2 <= |payload|
  {
    ParameterType(payload[position], payload[position + 1] >= 0x80)
  }

  /** The flag is the top bit of the second byte, whatever the others are. */
  lemma UnsignedIsTopBit(payload: bytes, position: nat)
    requires position + 2 <= |payload|
    ensures TypeAt(payload, position).fieldType == payload[position]
    ensures TypeAt(payload, position).unsigned <==> (payload[position + 1] / 128) % 2 == 1
  {
  }

  function ReadTypes(payload: bytes, position: nat, count: nat): (r: seq<ParameterType>)
    requires position + 2 * count <= |payload|
    ensures |r| == count
    ensures forall i | 0 <= i < count :: r[i] == TypeAt(payload, position + 2 * i)
  {
    if count == 0 then []
    else ReadTypes(payload, position, count - 1) + [TypeAt(payload, position + 2 * (count - 1))]
  }

  function TypeArray(types: seq<ParameterType>): (r: bytes)
    ensures |r| == 2 * |types|
    ensures forall i | 0 <= i < |types| :: r[2 * i] == types[i].fieldType && r[2 * i + 1] == (if types[i].unsigned then 0x80 else 0)
  {
    if types == [] then []
    else
      var last := types[|types| - 1];
      TypeArray(types[..|types| - 1]) + [last.fieldType, if last.unsigned then 0x80 else 0]
  }

  lemma TypesStand(data: bytes, offset: nat, types: seq<ParameterType>)
    requires Stands(data, offset, TypeArray(types))
    ensures ReadTypes(data, offset, |types|) == types
  {
    var e := TypeArray(types);
    assert data[offset..offset + |e|] == e;
    var r := ReadTypes(data, offset, |types|);
    forall i | 0 <= i < |types|
      ensures r[i] == types[i]
    {
      assert e[2 * i] == data[offset + 2 * i] && e[2 * i + 1] == data[offset + 2 * i + 1];
    }
  }

  predicate Announced(types: seq<ParameterType>) {
    forall i | 0 <= i < |types| :: types[i].fieldType != 0
  }

  // ---------------------------------------------------------------- the values

  type LongData = map<nat, bytes>

  /** The values of parameters `index` and up. */
  function DecodeValues(payload: bytes, position: nat, nulls: bytes, types: seq<ParameterType>, long: LongData, index: nat):
      (r: Option<At<seq<Value>>>)
    requires position <= |payload| && index <= |types| && |nulls| == (|types| + 7) / 8
    ensures r.Some? ==> |r.value.value| == |types| - index && r.value.next <= |payload|
    decreases |types| - index
  {
    if index == |types| then Some(At([], position))
    else
      var first := DecodeOne(payload, position, nulls, types, long, index);
      if first.None? then None
      else
        var rest := DecodeValues(payload, first.value.next, nulls, types, long, index + 1);
        if rest.None? then None else Some(At([first.value.value] + rest.value.value, rest.value.next))
  }

  /** A null bit wins over long data, which wins over the inline value. */
  function DecodeOne(payload: bytes, position: nat, nulls: bytes, types: seq<ParameterType>, long: LongData, index: nat):
      (r: Option<At<Value>>)
    requires position <= |payload| && index < |types| && |nulls| == (|types| + 7) / 8
    ensures r.Some? ==> r.value.next <= |payload|
  {
    if IsNull(nulls, index) then Some(At(Nil, position))
    else if index % 0x1_0000 in long then Some(At(Blob(long[index % 0x1_0000]), position))
    else DecodeParameter(payload, position, types[index])
  }

  datatype Decoded = Decoded(types: seq<ParameterType>, arguments: Option<seq<Value>>)

  function AllValues(payload: bytes, position: nat, nulls: bytes, types: seq<ParameterType>, long: LongData): Option<seq<Value>>
    requires position <= |payload| && |nulls| == (|types| + 7) / 8
  {
    var r := DecodeValues(payload, position, nulls, types, long, 0);
    if r.None? || r.value.next != |payload| then None else Some(r.value.value)
  }

  /** `decodeArguments`: the types the statement remembers afterwards and the arguments. */
  function Decode(types: seq<ParameterType>, long: LongData, payload: bytes): (r: Decoded)
    ensures |r.types| == |types|
    ensures r.arguments.Some? ==> |r.arguments.value| == |types|
  {
    var n, nullBytes := |types|, (|types| + 7) / 8;
    if n == 0 then Decoded(types, Some([]))
    else if |payload| < 10 + nullBytes + 1 then Decoded(types, None)
    else
      var nulls, position := payload[10..10 + nullBytes], 10 + nullBytes + 1;
      if payload[10 + nullBytes] != 0 then
        if |payload| < position + 2 * n then Decoded(types, None)
        else
          var sent := ReadTypes(payload, position, n);
          Decoded(sent, AllValues(payload, position + 2 * n, nulls, sent, long))
      else if !Announced(types) then Decoded(types, None)
      else Decoded(types, AllValues(payload, position, nulls, types, long))
  }

  // ---------------------------------------------------------------- the client's packet

  datatype Argument = Null | Streamed | Inline(sent: Sent)

  /** Long data stands for exactly the streamed parameters among those not null. */
  predicate Suit(arguments: seq<Argument>, types: seq<ParameterType>, long: LongData) {
    && |arguments| == |types| <= 0x1_0000
    && forall i | 0 <= i < |arguments| ::
      match arguments[i]
      case Null => true
      case Streamed => i in long
      case Inline(sent) => i !in long && Suits(sent, types[i])
  }

  function Flags(arguments: seq<Argument>): seq<bool> {
    seq(|arguments|, i requires 0 <= i < |arguments| => arguments[i].Null?)
  }

  function ValueWire(argument: Argument, t: ParameterType): bytes
    requires argument.Inline? ==> Suits(argument.sent, t)
  {
    if argument.Inline? then WireOf(argument.sent, t) else []
  }

  function ValuesWire(arguments: seq<Argument>, types: seq<ParameterType>, long: LongData, index: nat): bytes
    requires Suit(arguments, types, long) && index <= |arguments|
    decreases |arguments| - index
  {
    if index == |arguments| then []
    else ValueWire(arguments[index], types[index]) + ValuesWire(arguments, types, long, index + 1)
  }

  function Meaning(arguments: seq<Argument>, types: seq<ParameterType>, long: LongData, index: nat): Value
    requires Suit(arguments, types, long) && index < |arguments|
  {
    match arguments[index]
    case Null => Nil
    case Streamed => Blob(long[index])
    case Inline(sent) => MeaningOf(sent, types[index])
  }

  function Meanings(arguments: seq<Argument>, types: seq<ParameterType>, long: LongData, index: nat): seq<Value>
    requires Suit(arguments, types, long) && index <= |arguments|
    decreases |arguments| - index
  {
    if index == |arguments| then []
    else [Meaning(arguments, types, long, index)] + Meanings(arguments, types, long, index + 1)
  }

  function TypesWire(types: seq<ParameterType>, announce: bool): bytes {
    if announce then [1] + TypeArray(types) else [0]
  }

  function Packet(header: bytes, arguments: seq<Argument>, types: seq<ParameterType>, long: LongData, announce: bool): bytes
    requires Suit(arguments, types, long)
  {
    if types == [] then header
    else header + (Bitmap(Flags(arguments)) + (TypesWire(types, announce) + ValuesWire(arguments, types, long, 0)))
  }

  lemma OneStands(data: bytes, position: nat, nulls: bytes, arguments: seq<Argument>, types: seq<ParameterType>, long: LongData, index: nat)
    requires Suit(arguments, types, long) && index < |arguments| && |data| <= MaxLength
    requires |nulls| == (|types| + 7) / 8 && IsNull(nulls, index) == arguments[index].Null?
    requires Stands(data, position, ValueWire(arguments[index], types[index]))
    ensures DecodeOne(data, position, nulls, types, long, index)
      == Some(At(Meaning(arguments, types, long, index), position + |ValueWire(arguments[index], types[index])|))
  {
    hide WireOf, MeaningOf, DecodeParameter, BitOf, Suits;
    if arguments[index].Inline? {
      SentStands(data, position, arguments[index].sent, types[index]);
    }
  }

  lemma {:induction false} ValuesStand(data: bytes, position: nat, nulls: bytes, arguments: seq<Argument>, types: seq<ParameterType>, long: LongData, index: nat)
    requires Suit(arguments, types, long) && index <= |arguments| && |data| <= MaxLength
    requires |nulls| == (|types| + 7) / 8
    requires forall i | 0 <= i < |arguments| :: IsNull(nulls, i) == arguments[i].Null?
    requires Stands(data, position, ValuesWire(arguments, types, long, index))
    ensures DecodeValues(data, position, nulls, types, long, index)
      == Some(At(Meanings(arguments, types, long, index), position + |ValuesWire(arguments, types, long, index)|))
    decreases |arguments| - index
  {
    hide DecodeOne, Meaning, ValueWire, BitOf, Suits, IsNull;
    if index < |arguments| {
      var first := ValueWire(arguments[index], types[index]);
      StandsSplit(data, position, first, ValuesWire(arguments, types, long, index + 1));
      OneStands(data, position, nulls, arguments, types, long, index);
      ValuesStand(data, position + |first|, nulls, arguments, types, long, index + 1);
    }
  }

  /** Where the pieces of a packet stand. */
  lemma PacketPieces(header: bytes, arguments: seq<Argument>, types: seq<ParameterType>, long: LongData, announce: bool, data: bytes)
    requires |header| == 10 && Suit(arguments, types, long) && types != []
    requires data == Packet(header, arguments, types, long, announce)
    ensures var nullBytes := (|types| + 7) / 8;
            && 10 + nullBytes + |TypesWire(types, announce)| + |ValuesWire(arguments, types, long, 0)| == |data|
            && data[10..10 + nullBytes] == Bitmap(Flags(arguments))
            && Stands(data, 10 + nullBytes, TypesWire(types, announce))
            && Stands(data, 10 + nullBytes + |TypesWire(types, announce)|, ValuesWire(arguments, types, long, 0))
  {
    hide Suits, ValuesWire, Bitmap, TypesWire;
    var nulls, sent, values := Bitmap(Flags(arguments)), TypesWire(types, announce), ValuesWire(arguments, types, long, 0);
    StandsWhole(data);
    StandsSplit(data, 0, header, nulls + (sent + values));
    StandsSplit(data, 10, nulls, sent + values);
    StandsSplit(data, 10 + |nulls|, sent, values);
  }

  lemma BitsStand(arguments: seq<Argument>)
    ensures var nulls := Bitmap(Flags(arguments));
            forall i | 0 <= i < |arguments| :: IsNull(nulls, i) == arguments[i].Null?
  {
    hide IsNull, Bitmap;
    forall i | 0 <= i < |arguments|
      ensures IsNull(Bitmap(Flags(arguments)), i) == arguments[i].Null?
    {
      BitmapBit(Flags(arguments), i);
    }
  }

  lemma PacketValues(header: bytes, arguments: seq<Argument>, types: seq<ParameterType>, long: LongData, announce: bool, data: bytes)
    requires |header| == 10 && Suit(arguments, types, long) && types != []
    requires data == Packet(header, arguments, types, long, announce) && |data| <= MaxLength
    ensures var position := 10 + (|types| + 7) / 8;
            && position + |TypesWire(types, announce)| <= |data|
            && AllValues(data, position + |TypesWire(types, announce)|, data[10..position], types, long)
               == Some(Meanings(arguments, types, long, 0))
  {
    hide Suits, IsNull, DecodeValues, ValuesWire, Bitmap, TypesWire, Packet, Meanings;
    var position, sent := 10 + (|types| + 7) / 8, TypesWire(types, announce);
    PacketPieces(header, arguments, types, long, announce, data);
    BitsStand(arguments);
    ValuesStand(data, position + |sent|, data[10..position], arguments, types, long, 0);
  }

  lemma PacketTypes(header: bytes, arguments: seq<Argument>, types: seq<ParameterType>, long: LongData, announce: bool, data: bytes)
    requires |header| == 10 && Suit(arguments, types, long) && types != []
    requires data == Packet(header, arguments, types, long, announce)
    ensures var position := 10 + (|types| + 7) / 8;
            && position + |TypesWire(types, announce)| <= |data|
            && data[position] == (if announce then 1 else 0)
            && (announce ==> position + 1 + 2 * |types| <= |data| && ReadTypes(data, position + 1, |types|) == types)
  {
    hide Suits, ValuesWire, Bitmap, TypeArray, ReadTypes, Packet;
    var position := 10 + (|types| + 7) / 8;
    PacketPieces(header, arguments, types, long, announce, data);
    StandsFirst(data, position, TypesWire(types, announce));
    if announce {
      StandsSplit(data, position, [1], TypeArray(types));
      TypesStand(data, position + 1, types);
    }
  }

  /**
   * Decoding a packet gives back what every argument means, in order, and consumes the packet exactly;
   * without a type array it does so if and only if no remembered type is 0.
   */
  lemma ArgumentsInvert(header: bytes, arguments: seq<Argument>, types: seq<ParameterType>, long: LongData, announce: bool, known: seq<ParameterType>)
    requires |header| == 10 && Suit(arguments, types, long) && |known| == |types|
    requires announce || known == types
    requires |Packet(header, arguments, types, long, announce)| <= MaxLength
    ensures Decode(known, long, Packet(header, arguments, types, long, announce))
      == Decoded(types, if announce || Announced(types) then Some(Meanings(arguments, types, long, 0)) else None)
  {
    hide Suits, AllValues, TypeArray, ReadTypes, Packet, Announced;
    if types == [] {
      NothingAnnounced(types);
      assert known == types;
    } else {
      hide Meanings;
      var data := Packet(header, arguments, types, long, announce);
      PacketValues(header, arguments, types, long, announce, data);
      PacketTypes(header, arguments, types, long, announce, data);
    }
  }

  lemma NothingAnnounced(types: seq<ParameterType>)
    ensures types == [] ==> Announced(types)
  {
  }

  /** Type 0 is DECIMAL: sent with its type array an argument decodes, and the same execution without one is refused. */
  lemma ZeroTypeIsNotReused(header: bytes, types: seq<ParameterType>, long: LongData)
    requires header == [0x17, 1, 0, 0, 0, 0, 1, 0, 0, 0] && types == [ParameterType(0x00, false)] && long == map[]
    ensures Suit([Null], types, long)
    ensures Decode(types, long, Packet(header, [Null], types, long, true)) == Decoded(types, Some([Nil]))
    ensures Decode(types, long, Packet(header, [Null], types, long, false)) == Decoded(types, None)
  {
    hide Packet, Decode, Bitmap, ValuesWire, TypesWire;
    SmallPacket(header, types, long, true);
    SmallPacket(header, types, long, false);
    ArgumentsInvert(header, [Null], types, long, true, types);
    ArgumentsInvert(header, [Null], types, long, false, types);
    assert types[0].fieldType == 0;
    assert Meanings([Null], types, long, 0) == [Nil] + Meanings([Null], types, long, 1) == [Nil];
  }

  lemma SmallPacket(header: bytes, types: seq<ParameterType>, long: LongData, announce: bool)
    requires |header| == 10 && |types| == 1
    ensures Suit([Null], types, long) && |Packet(header, [Null], types, long, announce)| <= MaxLength
  {
    hide Bitmap, TypeArray;
    assert ValuesWire([Null], types, long, 1) == [];
    assert |ValuesWire([Null], types, long, 0)| == 0;
  }

  // ---------------------------------------------------------------- nothing may follow the values

  lemma TakeExtends(payload: bytes, extra: bytes, position: nat, length: nat)
    requires position <= |payload| && PreparedTake(payload, position, length).Some?
    ensures PreparedTake(payload + extra, position, length) == PreparedTake(payload, position, length)
  {
    assert (payload + extra)[position..position + length] == payload[position..position + length];
  }

  lemma BytesExtend(payload: bytes, extra: bytes, position: nat)
    requires position <= |payload| && PreparedBytes(payload, position).Some?
    ensures PreparedBytes(payload + extra, position) == PreparedBytes(payload, position)
  {
    hide FromLE, PreparedTake, Shifted;
    var longer, at, first := payload + extra, position + 1, payload[position];
    assert longer[position] == first;
    if first == 0xfc {
      assert longer[at..at + 2] == payload[at..at + 2];
      TakeExtends(payload, extra, at + 2, FromLE(payload[at..at + 2]));
    } else if first == 0xfd {
      TakeExtends(payload, extra, at + 3, Shifted(payload[at], payload[at + 1], payload[at + 2]));
    } else if first == 0xfe {
      assert longer[at..at + 8] == payload[at..at + 8];
      TakeExtends(payload, extra, at + 8, FromLE(payload[at..at + 8]));
    } else {
      TakeExtends(payload, extra, at, first);
    }
  }

  lemma MomentExtends(payload: bytes, extra: bytes, position: nat)
    requires DecodeInstant(payload, position).Some?
    ensures DecodeInstant(payload + extra, position) == DecodeInstant(payload, position)
  {
    hide FromLE;
    var longer, p := payload + extra, position + 1;
    assert forall k | 0 <= k < |payload| :: longer[k] == payload[k];
    var length := payload[position];
    if length >= 4 { assert longer[p..p + 2] == payload[p..p + 2]; }
    if length == 11 { assert longer[p + 7..p + 11] == payload[p + 7..p + 11]; }
  }

  lemma TimeExtends(payload: bytes, extra: bytes, position: nat)
    requires DecodeTime(payload, position).Some?
    ensures DecodeTime(payload + extra, position) == DecodeTime(payload, position)
  {
    hide FromLE, FormatClock;
    var longer, p := payload + extra, position + 1;
    assert forall k | 0 <= k < |payload| :: longer[k] == payload[k];
    var length := payload[position];
    if length >= 8 { assert longer[p + 1..p + 5] == payload[p + 1..p + 5]; }
    if length == 12 { assert longer[p + 8..p + 12] == payload[p + 8..p + 12]; }
  }

  /** A value that is there is read the same whatever follows it. */
  lemma ParameterExtends(payload: bytes, extra: bytes, position: nat, t: ParameterType)
    requires position <= |payload| && DecodeParameter(payload, position, t).Some?
    ensures DecodeParameter(payload + extra, position, t) == DecodeParameter(payload, position, t)
  {
    hide DecodeInstant, DecodeTime, PreparedBytes, FixedValue;
    var width := FixedWidth(t.fieldType);
    if t.fieldType == 0x06 {
    } else if width > 0 {
      assert (payload + extra)[position..position + width] == payload[position..position + width];
    } else if IsMoment(t.fieldType) {
      MomentExtends(payload, extra, position);
    } else if t.fieldType == 0x0b {
      TimeExtends(payload, extra, position);
    } else {
      BytesExtend(payload, extra, position);
    }
  }

  lemma {:induction false} ValuesExtend(payload: bytes, extra: bytes, position: nat, nulls: bytes, types: seq<ParameterType>, long: LongData, index: nat)
    requires position <= |payload| && index <= |types| && |nulls| == (|types| + 7) / 8
    requires DecodeValues(payload, position, nulls, types, long, index).Some?
    ensures DecodeValues(payload + extra, position, nulls, types, long, index) == DecodeValues(payload, position, nulls, types, long, index)
    decreases |types| - index
  {
    hide DecodeParameter, IsNull;
    if index < |types| {
      var first := DecodeOne(payload, position, nulls, types, long, index);
      if !IsNull(nulls, index) && index % 0x1_0000 !in long { ParameterExtends(payload, extra, position, types[index]); }
      ValuesExtend(payload, extra, first.value.next, nulls, types, long, index + 1);
    }
  }

  lemma TypesExtend(payload: bytes, extra: bytes, position: nat, count: nat)
    requires position + 2 * count <= |payload|
    ensures ReadTypes(payload + extra, position, count) == ReadTypes(payload, position, count)
  {
    var a, b := ReadTypes(payload + extra, position, count), ReadTypes(payload, position, count);
    assert forall i | 0 <= i < count :: a[i] == b[i];
  }

  /** No proper extension of an accepted packet is accepted, so neither is a proper prefix. */
  lemma AcceptedPacketIsConsumed(types: seq<ParameterType>, long: LongData, payload: bytes, extra: bytes)
    requires types != [] && extra != [] && Decode(types, long, payload).arguments.Some?
    ensures Decode(types, long, payload + extra).arguments.None?
  {
    hide DecodeValues, ReadTypes, Announced;
    var n, nullBytes, longer := |types|, (|types| + 7) / 8, payload + extra;
    var position, nulls := 10 + nullBytes + 1, payload[10..10 + nullBytes];
    assert longer[10..10 + nullBytes] == nulls && longer[10 + nullBytes] == payload[10 + nullBytes];
    if payload[10 + nullBytes] != 0 {
      var sent := ReadTypes(payload, position, n);
      TypesExtend(payload, extra, position, n);
      ValuesExtend(payload, extra, position + 2 * n, nulls, sent, long, 0);
    } else {
      ValuesExtend(payload, extra, position, nulls, types, long, 0);
    }
  }
}
