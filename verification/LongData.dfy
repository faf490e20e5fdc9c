/** The parameter side of a prepared statement over its life: chunks, executions, resets. */
module LongDataRuns {
  import opened Wrappers
  import opened Bits
  import opened Bytes
  import opened LengthEncoding
  import opened BinaryValues
  import opened Execute
  import opened Arguments

  const MaxLongData: nat := 16 * 0x10_0000

  /** `longDataBytes` and whether `longDataError` is set, beside the remembered types and the stored data. */
  datatype Parameters = Parameters(types: seq<ParameterType>, long: LongData, size: nat, overflow: bool)

  datatype Chunk = Chunk(parameter: uint16, data: bytes)

  datatype Event =
    | SendChunk(chunk: Chunk)
    | Run(payload: bytes)
    | Reset

  /** What an execution came to: refused, or run with these arguments. */
  datatype Outcome = Refused | Ran(arguments: seq<Value>)

  function Cleared(p: Parameters): Parameters {
    Parameters(p.types, map[], 0, false)
  }

  function Stored(long: LongData, parameter: nat): bytes {
    if parameter in long then long[parameter] else []
  }

  function AfterChunk(p: Parameters, c: Chunk): Parameters {
    if c.parameter >= |p.types| then p
    else if p.size + |c.data| > MaxLongData then p.(overflow := true)
    else p.(long := p.long[c.parameter := Stored(p.long, c.parameter) + c.data], size := p.size + |c.data|)
  }

  /** `executePrepared` up to the call of the statement, once the handle is found. */
  function Execution(p: Parameters, payload: bytes): (Parameters, Outcome) {
    if |payload| < 10 || payload[5] != 0 then (p, Refused)
    else if p.overflow then (Cleared(p), Refused)
    else
      var d := Decode(p.types, p.long, payload);
      (Cleared(p.(types := d.types)), if d.arguments.Some? then Ran(d.arguments.value) else Refused)
  }

  function After(p: Parameters, e: Event): Parameters {
    match e
    case SendChunk(c) => AfterChunk(p, c)
    case Run(payload) => Execution(p, payload).0
    case Reset => Cleared(p)
  }

  function AfterAll(p: Parameters, events: seq<Event>): Parameters {
    if events == [] then p else After(AfterAll(p, events[..|events| - 1]), events[|events| - 1])
  }

  function Prepared(count: nat): Parameters {
    Parameters(seq(count, i => ParameterType(0, false)), map[], 0, false)
  }

  // ---------------------------------------------------------------- what the client sent

  /** An execution reaches the statement's parameters, and so clears the long data. */
  predicate Reaches(payload: bytes) { |payload| >= 10 && payload[5] == 0 }

  /** The chunks for existing parameters since long data was last cleared. */
  function Since(count: nat, events: seq<Event>): seq<Chunk> {
    if events == [] then []
    else
      var before := Since(count, events[..|events| - 1]);
      match events[|events| - 1]
      case SendChunk(c) => if c.parameter < count then before + [c] else before
      case Run(payload) => if Reaches(payload) then [] else before
      case Reset => []
  }

  function Total(chunks: seq<Chunk>): nat {
    if chunks == [] then 0 else Total(chunks[..|chunks| - 1]) + |chunks[|chunks| - 1].data|
  }

  /** Each parameter's chunks joined in the order sent; a parameter is there once a chunk named it. */
  function Gathered(chunks: seq<Chunk>): LongData {
    if chunks == [] then map[]
    else
      var before, c := Gathered(chunks[..|chunks| - 1]), chunks[|chunks| - 1];
      before[c.parameter := Stored(before, c.parameter) + c.data]
  }

  /** The bytes stored for parameters below `count`. */
  function StoredSize(long: LongData, count: nat): nat {
    if count == 0 then 0 else StoredSize(long, count - 1) + |Stored(long, count - 1)|
  }

  predicate Inv(p: Parameters, count: nat, chunks: seq<Chunk>) {
    && |p.types| == count
    && p.size == StoredSize(p.long, count) <= 0x100_0000
    && (p.overflow <==> Total(chunks) > 0x100_0000)
    && (!p.overflow ==> p.long == Gathered(chunks) && p.size == Total(chunks))
  }

  lemma {:induction false} StoredSizeAppend(long: LongData, k: nat, data: bytes, count: nat)
    ensures var after := long[k := Stored(long, k) + data];
            StoredSize(after, count) == StoredSize(long, count) + (if k < count then |data| else 0)
  {
    if count > 0 {
      StoredSizeAppend(long, k, data, count - 1);
    }
  }

  lemma {:induction false} StoredSizeEmpty(count: nat)
    ensures StoredSize(map[], count) == 0
  {
    if count > 0 {
      StoredSizeEmpty(count - 1);
    }
  }

  lemma ChunkKeeps(p: Parameters, count: nat, chunks: seq<Chunk>, c: Chunk)
    requires Inv(p, count, chunks) && c.parameter < count
    ensures Inv(AfterChunk(p, c), count, chunks + [c])
  {
    hide StoredSize;
    assert (chunks + [c])[..|chunks|] == chunks;
    StoredSizeAppend(p.long, c.parameter, c.data, count);
  }

  lemma EmptyKeeps(p: Parameters, count: nat)
    requires |p.types| == count
    ensures Inv(Cleared(p), count, [])
  {
    StoredSizeEmpty(count);
  }

  /** What holds of the stored long data after every sequence of chunks, executions and resets. */
  lemma {:induction false} InvOverEveryRun(count: nat, events: seq<Event>)
    ensures Inv(AfterAll(Prepared(count), events), count, Since(count, events))
  {
    hide Inv, Decode;
    if events == [] {
      EmptyKeeps(Prepared(count), count);
    } else {
      var before, e := events[..|events| - 1], events[|events| - 1];
      InvOverEveryRun(count, before);
      var p, chunks := AfterAll(Prepared(count), before), Since(count, before);
      InvLength(p, count, chunks);
      match e
      case SendChunk(c) =>
        if c.parameter < count {
          ChunkKeeps(p, count, chunks, c);
        }
      case Run(payload) =>
        if Reaches(payload) {
          EmptyKeeps(Execution(p, payload).0, count);
        }
      case Reset => EmptyKeeps(p, count);
    }
  }

  lemma InvLength(p: Parameters, count: nat, chunks: seq<Chunk>)
    requires Inv(p, count, chunks)
    ensures |p.types| == count
  {
  }

  // ---------------------------------------------------------------- the types remembered

  predicate CarriesTypes(count: nat, payload: bytes) {
    && count > 0
    && |payload| >= 11 + (count + 7) / 8 + 2 * count
    && payload[10 + (count + 7) / 8] != 0
  }

  /** The last type array of an execution that was not refused for a cursor or for too much long data. */
  function Remembered(count: nat, events: seq<Event>): seq<ParameterType> {
    if events == [] then Prepared(count).types
    else
      var before, e := events[..|events| - 1], events[|events| - 1];
      if e.Run? && Reaches(e.payload) && Total(Since(count, before)) <= 0x100_0000 && CarriesTypes(count, e.payload)
      then ReadTypes(e.payload, 11 + (count + 7) / 8, count)
      else Remembered(count, before)
  }

  lemma {:induction false} RememberedTypes(count: nat, events: seq<Event>)
    ensures AfterAll(Prepared(count), events).types == Remembered(count, events)
  {
    hide ReadTypes, AllValues, Total, Since, Gathered, StoredSize;
    if events != [] {
      var before := events[..|events| - 1];
      RememberedTypes(count, before);
      InvOverEveryRun(count, before);
    }
  }

  /**
   * A packet's type array is what later executions use if and only if the packet asked for no cursor
   * and its long data kept to the limit (or the types were the same already).
   */
  lemma AnnouncementSticksIff(count: nat, events: seq<Event>, header: bytes, arguments: seq<Argument>, types: seq<ParameterType>)
    requires |header| == 10 && |types| == count
    requires Suit(arguments, types, Gathered(Since(count, events)))
    ensures var packet := Packet(header, arguments, types, Gathered(Since(count, events)), true);
            Remembered(count, events + [Run(packet)]) == types
            <==> Remembered(count, events) == types || (header[5] == 0 && Total(Since(count, events)) <= 0x100_0000)
  {
    hide Suit, ReadTypes, Total, Since, Gathered, Packet, TypesWire;
    var long := Gathered(Since(count, events));
    var packet := Packet(header, arguments, types, long, true);
    assert (events + [Run(packet)])[..|events|] == events;
    HeaderStands(header, arguments, types, long, true);
    if count > 0 {
      PacketTypes(header, arguments, types, long, true, packet);
    } else {
      RememberedLength(count, events);
      assert Remembered(count, events) == types;
    }
  }

  /** A refused cursor request loses its type array: the types stay the initial ones. */
  lemma CursorLosesTypes()
    ensures var header: bytes := [0x17, 1, 0, 0, 0, 1, 1, 0, 0, 0];
            var types := [ParameterType(0x03, false)];
            && Suit([Null], types, Gathered(Since(1, [])))
            && Remembered(1, [] + [Run(Packet(header, [Null], types, Gathered(Since(1, [])), true))]) != types
  {
    hide Packet, Gathered, Since, Total, ReadTypes, CarriesTypes;
    var header: bytes := [0x17, 1, 0, 0, 0, 1, 1, 0, 0, 0];
    assert Remembered(1, [])[0] == ParameterType(0, false);
    hide Remembered;
    AnnouncementSticksIff(1, [], header, [Null], [ParameterType(0x03, false)]);
  }

  lemma {:induction false} RememberedLength(count: nat, events: seq<Event>)
    ensures |Remembered(count, events)| == count
  {
    if events != [] {
      RememberedLength(count, events[..|events| - 1]);
    }
  }

  /**
   * After every run, a well-formed execution hands the statement exactly the meanings of its arguments,
   * with each streamed one the join of all chunks sent for it since long data was last cleared,
   * if and only if those chunks kept to the limit and the types needed are known;
   * otherwise the statement does not run.
   */
  lemma ExecutionAfterEveryRun(count: nat, events: seq<Event>, header: bytes, arguments: seq<Argument>, types: seq<ParameterType>, announce: bool)
    requires |header| == 10 && header[5] == 0 && |types| == count
    requires Suit(arguments, types, Gathered(Since(count, events)))
    requires announce || Remembered(count, events) == types
    requires |Packet(header, arguments, types, Gathered(Since(count, events)), announce)| <= MaxLength
    ensures var long := Gathered(Since(count, events));
            Execution(AfterAll(Prepared(count), events), Packet(header, arguments, types, long, announce)).1
            == if Total(Since(count, events)) <= 0x100_0000 && (announce || Announced(types))
               then Ran(Meanings(arguments, types, long, 0)) else Refused
  {
    hide Decode, Meanings, Suit, Announced, Gathered, Total, Since, AfterAll, StoredSize, Remembered, Packet;
    InvOverEveryRun(count, events);
    RememberedTypes(count, events);
    var p, chunks := AfterAll(Prepared(count), events), Since(count, events);
    var long := Gathered(chunks);
    HeaderStands(header, arguments, types, long, announce);
    ArgumentsInvert(header, arguments, types, long, announce, p.types);
  }

  lemma HeaderStands(header: bytes, arguments: seq<Argument>, types: seq<ParameterType>, long: LongData, announce: bool)
    requires |header| == 10 && Suit(arguments, types, long)
    ensures var data := Packet(header, arguments, types, long, announce); |data| >= 10 && data[5] == header[5]
  {
    hide Suit, ValuesWire, Bitmap, TypesWire;
  }

  // ---------------------------------------------------------------- the statement itself

  function Behind(done: seq<Value>, rest: Option<At<seq<Value>>>): Option<At<seq<Value>>> {
    if rest.None? then None else Some(At(done + rest.value.value, rest.value.next))
  }

  lemma BehindOne(done: seq<Value>, v: Value, rest: Option<At<seq<Value>>>)
    ensures Behind(done, Behind([v], rest)) == Behind(done + [v], rest)
    ensures Behind([], rest) == rest
  {
    if rest.Some? {
      assert done + ([v] + rest.value.value) == done + [v] + rest.value.value;
      assert [] + rest.value.value == rest.value.value;
    }
  }

  class PreparedStatement {
    var parameterCount: nat
    var parameterTypes: seq<ParameterType>
    var longData: LongData
    var longDataBytes: nat
    var longDataError: bool

    ghost predicate Valid()
      reads this
    {
      |parameterTypes| == parameterCount
    }

    function View(): Parameters
      reads this
    {
      Parameters(parameterTypes, longData, longDataBytes, longDataError)
    }

    constructor (count: nat)
      ensures Valid() && View() == Prepared(count)
    {
      parameterCount := count;
      parameterTypes := seq(count, i => ParameterType(0, false));
      longData, longDataBytes, longDataError := map[], 0, false;
    }

    method ClearLongData()
      requires Valid()
      modifies this
      ensures Valid() && View() == Cleared(old(View()))
      ensures parameterCount == old(parameterCount)
    {
      longData := map[];
      longDataBytes := 0;
      longDataError := false;
    }

    method SendLongData(c: Chunk)
      requires Valid()
      modifies this
      ensures Valid() && View() == AfterChunk(old(View()), c)
      ensures parameterCount == old(parameterCount)
    {
      if c.parameter >= parameterCount {
        return;
      }
      if longDataBytes + |c.data| > MaxLongData {
        longDataError := true;
        return;
      }
      longData := longData[c.parameter := (if c.parameter in longData then longData[c.parameter] else []) + c.data];
      longDataBytes := longDataBytes + |c.data|;
    }

    method ReadTypeArray(payload: bytes, start: nat) returns (position: nat)
      requires Valid() && start + 2 * parameterCount <= |payload|
      modifies this`parameterTypes
      ensures Valid() && position == start + 2 * parameterCount
      ensures parameterTypes == ReadTypes(payload, start, parameterCount)
    {
      position := start;
      var index := 0;
      while index < parameterCount
        invariant index <= parameterCount && Valid() && position == start + 2 * index
        invariant forall i | 0 <= i < index :: parameterTypes[i] == TypeAt(payload, start + 2 * i)
      {
        parameterTypes := parameterTypes[index := ParameterType(payload[position], payload[position + 1] >= 0x80)];
        position := position + 2;
        index := index + 1;
      }
    }

    method ReadValues(payload: bytes, start: nat, nulls: bytes) returns (r: Option<seq<Value>>)
      requires Valid() && start <= |payload| && |nulls| == (parameterCount + 7) / 8
      ensures r == AllValues(payload, start, nulls, parameterTypes, longData)
    {
      hide DecodeParameter, BitOf, IsNull;
      var arguments: seq<Value> := [];
      BehindOne([], Nil, DecodeValues(payload, start, nulls, parameterTypes, longData, 0));
      var index: nat, position: nat := 0, start;
      while index < parameterCount
        invariant index <= parameterCount && |arguments| == index && position <= |payload|
        invariant var rest := DecodeValues(payload, position, nulls, parameterTypes, longData, index);
                  DecodeValues(payload, start, nulls, parameterTypes, longData, 0)
                  == Behind(arguments, rest)
      {
        ghost var before := arguments;
        if IsNull(nulls, index) {
          arguments := arguments + [Nil];
        } else if index % 0x1_0000 in longData {
          arguments := arguments + [Blob(longData[index % 0x1_0000])];
        } else {
          var value := DecodeParameter(payload, position, parameterTypes[index]);
          if value.None? {
            return None;
          }
          arguments := arguments + [value.value.value];
          position := value.value.next;
        }
        index := index + 1;
        BehindOne(before, arguments[|before|], DecodeValues(payload, position, nulls, parameterTypes, longData, index));
      }
      assert arguments + [] == arguments;
      return if position != |payload| then None else Some(arguments);
    }

    method DecodeArguments(payload: bytes) returns (r: Option<seq<Value>>)
      requires Valid()
      modifies this`parameterTypes
      ensures Valid() && Decoded(parameterTypes, r) == Decode(old(parameterTypes), longData, payload)
    {
      hide ReadTypes, AllValues;
      if parameterCount == 0 {
        return Some([]);
      }
      var position, nullBytes := 10, (parameterCount + 7) / 8;
      if |payload| < position + nullBytes + 1 {
        return None;
      }
      var nulls := payload[position..position + nullBytes];
      position := position + nullBytes;
      var newTypes := payload[position];
      position := position + 1;
      if newTypes != 0 {
        if |payload| < position + 2 * parameterCount {
          return None;
        }
        position := ReadTypeArray(payload, position);
      } else {
        var index := 0;
        while index < parameterCount
          invariant index <= parameterCount && parameterTypes == old(parameterTypes)
          invariant forall i | 0 <= i < index :: parameterTypes[i].fieldType != 0
        {
          if parameterTypes[index].fieldType == 0 {
            return None;
          }
          index := index + 1;
        }
      }
      r := ReadValues(payload, position, nulls);
    }

    method Execute(payload: bytes) returns (r: Outcome)
      requires Valid()
      modifies this
      ensures Valid() && (View(), r) == Execution(old(View()), payload)
      ensures parameterCount == old(parameterCount)
    {
      hide Decode;
      if |payload| < 10 || payload[5] != 0 {
        return Refused;
      }
      if longDataError {
        ClearLongData();
        return Refused;
      }
      var arguments := DecodeArguments(payload);
      ClearLongData();
      return if arguments.None? then Refused else Ran(arguments.value);
    }
  }
}
