/**
 * Text result sets on the wire: the payloads of internal/protocol/mysql/response.go and the stream
 * that `rows` writes, against a client that reads it back.
 */
module ResultSet {
  import opened Wrappers
  import opened Bytes
  import opened LengthEncoding
  import opened Framing

  // ---------------------------------------------------------------- payloads

  const DefaultCharset: uint16 := 45

  datatype Column = Column(
    schema: bytes, table: bytes, originalTable: bytes, name: bytes, originalName: bytes,
    charset: uint16, length: uint32, kind: uint8, flags: uint16, decimals: uint8)

  /** Zero charset and length stand for the defaults. */
  function Defaulted(c: Column): Column {
    c.(charset := if c.charset == 0 then DefaultCharset else c.charset, length := if c.length == 0 then 1024 else c.length)
  }

  predicate Sized(c: Column) {
    |c.schema| <= MaxLength && |c.table| <= MaxLength && |c.originalTable| <= MaxLength && |c.name| <= MaxLength && |c.originalName| <= MaxLength
  }

  /** The fixed tail of a column definition. */
  function ColumnTail(c: Column): bytes {
    [0x0c] + LE(c.charset, 2) + LE(c.length, 4) + [c.kind] + LE(c.flags, 2) + [c.decimals, 0, 0]
  }

  function Def(): bytes { ['d' as int, 'e' as int, 'f' as int] }

  function Texts(c: Column): seq<bytes> {
    [Def(), c.schema, c.table, c.originalTable, c.name, c.originalName]
  }

  function Strings(texts: seq<bytes>): bytes
    requires forall t | t in texts :: |t| <= MaxLength
  {
    if texts == [] then [] else EncodeBytes(texts[0]) + Strings(texts[1..])
  }

  function ColumnPayload(c: Column): bytes
    requires Sized(c)
  {
    Strings(Texts(c)) + ColumnTail(Defaulted(c))
  }

  function EofPayload(status: uint16, warnings: uint16): bytes { [0xfe] + LE(warnings, 2) + LE(status, 2) }

  /** `ErrorPayload`: a state that is not five characters long becomes HY000. */
  function ErrorPayload(code: uint16, state: bytes, message: bytes): bytes {
    var sqlState := if |state| == 5 then state else ['H' as int, 'Y' as int, 48, 48, 48];
    [0xff] + LE(code, 2) + ['#' as int] + sqlState + message
  }

  /** A cell is NULL or bytes. */
  type Cell = Option<bytes>

  type Row = seq<Cell>

  predicate RowSized(row: Row) { forall c | c in row :: c.Some? ==> |c.value| <= MaxLength }

  function CellPayload(c: Cell): bytes
    requires c.Some? ==> |c.value| <= MaxLength
  {
    if c.None? then [0xfb] else EncodeBytes(c.value)
  }

  function RowPayload(row: Row): bytes
    requires RowSized(row)
  {
    if row == [] then [] else CellPayload(row[0]) + RowPayload(row[1..])
  }

  // ---------------------------------------------------------------- reading payloads back

  /** `n` length-encoded strings from `offset` on. */
  function ReadStrings(data: bytes, offset: nat, n: nat): (r: Option<At<seq<bytes>>>)
    requires offset <= |data|
    ensures r.Some? ==> |r.value.value| == n && offset <= r.value.next <= |data|
    decreases n
  {
    if n == 0 then Some(At([], offset)) else
    var one := CursorBytes(data, offset);
    if one.None? then None else
    var more := ReadStrings(data, one.value.next, n - 1);
    if more.None? then None else Some(At([one.value.value] + more.value.value, more.value.next))
  }

  function ReadColumn(data: bytes): Option<Column> {
    var texts := ReadStrings(data, 0, 6);
    if texts.None? then None else
    var t, s := data[texts.value.next..], texts.value.value;
    if s[0] != Def() || |t| != 13 || t[0] != 0x0c then None else
    Widths();
    LEOfFromLE(t[1..3]);
    LEOfFromLE(t[3..7]);
    LEOfFromLE(t[8..10]);
    Some(Column(s[1], s[2], s[3], s[4], s[5], FromLE(t[1..3]), FromLE(t[3..7]), t[7], FromLE(t[8..10]), t[10]))
  }

  function ReadCell(data: bytes, offset: nat): (r: Option<At<Cell>>)
    requires offset <= |data|
    ensures r.Some? ==> offset < r.value.next <= |data|
  {
    if offset < |data| && data[offset] == 0xfb then Some(At(None, offset + 1)) else
    var one := CursorBytes(data, offset);
    if one.None? then None else Some(At(Some(one.value.value), one.value.next))
  }

  function ReadCells(data: bytes, offset: nat, n: nat): (r: Option<At<Row>>)
    requires offset <= |data|
    decreases n
  {
    if n == 0 then Some(At([], offset)) else
    var one := ReadCell(data, offset);
    if one.None? then None else
    var more := ReadCells(data, one.value.next, n - 1);
    if more.None? then None else Some(At([one.value.value] + more.value.value, more.value.next))
  }

  predicate IsEof(p: bytes) { p != [] && p[0] == 0xfe && |p| < 9 }

  predicate IsError(p: bytes) { p != [] && p[0] == 0xff }

  // ---------------------------------------------------------------- payload round trips

  lemma {:induction false} ReadStringsStand(data: bytes, offset: nat, texts: seq<bytes>)
    requires (forall t | t in texts :: |t| <= MaxLength) && |data| <= MaxLength && Stands(data, offset, Strings(texts))
    ensures ReadStrings(data, offset, |texts|) == Some(At(texts, offset + |Strings(texts)|))
    decreases |texts|
  {
    hide CursorBytes, PreparedBytes, EncodeBytes, Stands;
    if texts != [] {
      StandsSplit(data, offset, EncodeBytes(texts[0]), Strings(texts[1..]));
      BytesStand(data, offset, texts[0]);
      ReadStringsStand(data, offset + |EncodeBytes(texts[0])|, texts[1..]);
      assert [texts[0]] + texts[1..] == texts;
    }
  }

  lemma TailParts(c: Column)
    ensures var t := ColumnTail(c);
            && |t| == 13 && t[0] == 0x0c && FromLE(t[1..3]) == c.charset && FromLE(t[3..7]) == c.length
            && t[7] == c.kind && FromLE(t[8..10]) == c.flags && t[10] == c.decimals
  {
    hide LE, FromLE;
    Widths();
    FromLEOfLE(c.charset, 2);
    FromLEOfLE(c.length, 4);
    FromLEOfLE(c.flags, 2);
    var t := ColumnTail(c);
    assert t[1..3] == LE(c.charset, 2) && t[3..7] == LE(c.length, 4) && t[8..10] == LE(c.flags, 2);
  }

  /** The column a client is to see: every field as it was given, but charset 45 and length 1024 where they were zero. */
  predicate ShownAs(c: Column, shown: Column) {
    && shown.schema == c.schema && shown.table == c.table && shown.originalTable == c.originalTable
    && shown.name == c.name && shown.originalName == c.originalName
    && shown.charset == (if c.charset == 0 then 45 else c.charset)
    && shown.length == (if c.length == 0 then 1024 else c.length)
    && shown.kind == c.kind && shown.flags == c.flags && shown.decimals == c.decimals
  }

  /** A column definition reads back field by field. */
  lemma ColumnInverts(c: Column)
    requires Sized(c) && |ColumnPayload(c)| <= MaxLength
    ensures ReadColumn(ColumnPayload(c)) == Some(Defaulted(c)) && ShownAs(c, Defaulted(c))
  {
    hide Strings, ReadStrings, ColumnTail, FromLE, LE;
    var data, tail := ColumnPayload(c), ColumnTail(Defaulted(c));
    StandsWhole(data);
    StandsSplit(data, 0, Strings(Texts(c)), tail);
    ReadStringsStand(data, 0, Texts(c));
    assert data[|Strings(Texts(c))|..] == tail;
    TailParts(Defaulted(c));
  }

  lemma ReadCellStands(data: bytes, offset: nat, c: Cell)
    requires (c.Some? ==> |c.value| <= MaxLength) && |data| <= MaxLength && Stands(data, offset, CellPayload(c))
    ensures ReadCell(data, offset) == Some(At(c, offset + |CellPayload(c)|))
  {
    hide CursorBytes, PreparedBytes, EncodeBytes;
    CellIsNotEmpty(c);
    StandsFirst(data, offset, CellPayload(c));
    if c.Some? {
      BytesStand(data, offset, c.value);
      LengthIsNotNull(c.value);
    }
  }

  lemma {:induction false} ReadCellsStand(data: bytes, offset: nat, row: Row)
    requires RowSized(row) && |data| <= MaxLength && Stands(data, offset, RowPayload(row))
    ensures ReadCells(data, offset, |row|) == Some(At(row, offset + |RowPayload(row)|))
    decreases |row|
  {
    hide ReadCell, CellPayload, Stands;
    if row != [] {
      StandsSplit(data, offset, CellPayload(row[0]), RowPayload(row[1..]));
      ReadCellStands(data, offset, row[0]);
      ReadCellsStand(data, offset + |CellPayload(row[0])|, row[1..]);
      assert [row[0]] + row[1..] == row;
    }
  }

  lemma CellIsNotEmpty(c: Cell)
    requires c.Some? ==> |c.value| <= MaxLength
    ensures CellPayload(c) != []
  {
  }

  /** No length prefix is the NULL marker or the error marker; 0xfe announces at least 2^24 bytes. */
  lemma LengthIsNotNull(v: bytes)
    requires |v| <= MaxLength
    ensures var e := EncodeBytes(v);
            e[0] != 0xfb && e[0] != 0xff && (e[0] == 0xfe ==> |e| > 0xff_ffff)
  {
  }

  /** A row of at least one column is neither an EOF nor an error packet, and only a leading NULL begins with 0xfb. */
  lemma RowIsNoEof(row: Row)
    requires RowSized(row) && row != []
    ensures var p := RowPayload(row);
            p != [] && !IsEof(p) && !IsError(p) && (p[0] == 0xfb <==> row[0].None?)
  {
    if row[0].Some? { LengthIsNotNull(row[0].value); }
  }

  // ---------------------------------------------------------------- the stream

  /** How the rows end: with the warning count, or with the error that a scan, the cursor or the warning count met. */
  datatype Ending =
    | Complete(warnings: uint16)
    | Broken(code: uint16, state: bytes, message: bytes)

  datatype Table = Table(columns: seq<Column>, rows: seq<Row>, status: uint16, ending: Ending)

  predicate WellFormed(t: Table) {
    && 0 < |t.columns| <= MaxLength
    && (forall c | c in t.columns :: Sized(c))
    && (forall r | r in t.rows :: |r| == |t.columns| && RowSized(r))
    && (t.ending.Broken? ==> |t.ending.state| == 5)
  }

  function ColumnPayloads(columns: seq<Column>): seq<bytes>
    requires forall c | c in columns :: Sized(c)
  {
    if columns == [] then [] else [ColumnPayload(columns[0])] + ColumnPayloads(columns[1..])
  }

  function RowPayloads(rows: seq<Row>): seq<bytes>
    requires forall r | r in rows :: RowSized(r)
  {
    if rows == [] then [] else [RowPayload(rows[0])] + RowPayloads(rows[1..])
  }

  function EndPayload(t: Table): bytes {
    match t.ending
    case Complete(warnings) => EofPayload(t.status, warnings)
    case Broken(code, state, message) => ErrorPayload(code, state, message)
  }

  /** Rows and the closing EOF or error. */
  function BodyPayloads(t: Table): seq<bytes>
    requires WellFormed(t)
  {
    RowPayloads(t.rows) + [EndPayload(t)]
  }

  /** Everything after the column count. */
  function DetailPayloads(t: Table): seq<bytes>
    requires WellFormed(t)
  {
    ColumnPayloads(t.columns) + ([EofPayload(t.status, 0)] + BodyPayloads(t))
  }

  /** Everything `rows` sends, message by message. */
  function Payloads(t: Table): seq<bytes>
    requires WellFormed(t)
  {
    [EncodeInt(|t.columns|)] + DetailPayloads(t)
  }

  function AfterOne(c: Codec, q: uint8, payload: bytes): uint8
    requires c.Valid()
  {
    Plus(q, |payload| / c.frame + 1)
  }

  /** The messages on the wire, each starting where the one before left the sequence. */
  function Wire(c: Codec, q: uint8, payloads: seq<bytes>): bytes
    requires c.Valid()
    decreases |payloads|
  {
    if payloads == [] then [] else Encode(c, q, payloads[0]) + Wire(c, AfterOne(c, q, payloads[0]), payloads[1..])
  }

  function After(c: Codec, q: uint8, payloads: seq<bytes>): uint8
    requires c.Valid()
    decreases |payloads|
  {
    if payloads == [] then q else After(c, AfterOne(c, q, payloads[0]), payloads[1..])
  }

  predicate Fits(c: Codec, payloads: seq<bytes>) {
    c.maxMessage <= MaxLength && forall p | p in payloads :: |p| <= c.maxMessage
  }

  lemma {:induction false} WireAppend(c: Codec, q: uint8, a: seq<bytes>, b: seq<bytes>)
    requires c.Valid()
    ensures Wire(c, q, a + b) == Wire(c, q, a) + Wire(c, After(c, q, a), b)
    ensures After(c, q, a + b) == After(c, After(c, q, a), b)
    decreases |a|
  {
    hide Encode, AfterOne;
    if a == [] {
      assert a + b == b;
    } else {
      WireAppend(c, AfterOne(c, q, a[0]), a[1..], b);
      assert (a + b)[1..] == a[1..] + b;
    }
  }

  lemma WireNone(c: Codec, q: uint8)
    requires c.Valid()
    ensures Wire(c, q, []) == [] && After(c, q, []) == q
  {
  }

  lemma WireOne(c: Codec, q: uint8, p: bytes)
    requires c.Valid()
    ensures Wire(c, q, [p]) == Encode(c, q, p) && After(c, q, [p]) == AfterOne(c, q, p)
  {
    assert [p][1..] == [];
  }

  // ---------------------------------------------------------------- writing the stream

  /** One `write`: the message is appended, or the stream stops because it is too large. */
  method Send(c: Codec, output: bytes, q: uint8, payload: bytes) returns (ok: bool, out: bytes, next: uint8)
    requires c.Valid()
    ensures ok <==> |payload| <= c.maxMessage
    ensures ok ==> out == output + Encode(c, q, payload) && next == AfterOne(c, q, payload)
  {
    var r := WriteMessage(c, q, payload);
    match r
    case Failure(_) => ok, out, next := false, output, q;
    case Success(sent) => ok, out, next := true, output + sent.0, sent.1;
  }

  /** The messages of one loop of `rows`, appended to what was sent. */
  method SendAll(c: Codec, output: bytes, q: uint8, payloads: seq<bytes>) returns (ok: bool, out: bytes, next: uint8)
    requires c.Valid() && c.maxMessage <= MaxLength
    ensures ok <==> Fits(c, payloads)
    ensures ok ==> out == output + Wire(c, q, payloads) && next == After(c, q, payloads)
  {
    hide Wire, After, AfterOne, Encode;
    ok, out, next := true, output, q;
    WireNone(c, q);
    assert payloads[..0] == [];
    for i := 0 to |payloads|
      invariant out == output + Wire(c, q, payloads[..i]) && next == After(c, q, payloads[..i])
      invariant ok && Fits(c, payloads[..i])
    {
      WireAppend(c, q, payloads[..i], [payloads[i]]);
      WireOne(c, next, payloads[i]);
      assert payloads[..i + 1] == payloads[..i] + [payloads[i]];
      ok, out, next := Send(c, out, next, payloads[i]);
      if !ok {
        assert payloads[i] in payloads;
        return;
      }
    }
    assert payloads[..|payloads|] == payloads;
  }

  // ---------------------------------------------------------------- a client reading the stream

  /** What was read, the sequence due next, and the bytes left. */
  datatype Got<+T> = Got(value: T, sequence: uint8, rest: bytes)

  /** The next message, refused unless it carries the sequence due. */
  function NextPayload(c: Codec, q: uint8, input: bytes): (r: Option<Got<bytes>>)
    requires c.Valid()
    ensures r.Some? ==> |r.value.rest| < |input|
  {
    DecodeConsumes(c, input);
    match Decode(c, input)
    case Failure(_) => None
    case Success(read) =>
      if read.message.sequence != q then None
      else Some(Got(read.message.payload, read.message.nextSequence, read.rest))
  }

  lemma DecodeConsumes(c: Codec, input: bytes)
    requires c.Valid()
    ensures Decode(c, input).Success? ==> |Decode(c, input).value.rest| < |input|
  {
    FramesConsume(c, input, 0, 0, 0, []);
  }

  lemma {:induction false} FramesConsume(c: Codec, input: bytes, first: uint8, expected: uint8, frames: nat, payload: bytes)
    requires c.Valid()
    ensures var r := ReadFrames(c, input, first, expected, frames, payload);
            r.Success? ==> |r.value.rest| < |input|
    decreases |input|
  {
    if |input| >= 4 {
      var length := FromLE(input[..3]);
      var q := input[3];
      if length <= |input| - 4 {
        FramesConsume(c, input[4 + length..], if frames == 0 then q else first,
                      Next(if frames == 0 then q else expected), frames + 1, payload + input[4..4 + length]);
      }
    }
  }

  function ReadColumns(c: Codec, q: uint8, input: bytes, n: nat): (r: Option<Got<seq<Column>>>)
    requires c.Valid()
    decreases n
  {
    if n == 0 then Some(Got([], q, input)) else
    var m := NextPayload(c, q, input);
    if m.None? then None else
    var column := ReadColumn(m.value.value);
    if column.None? then None else
    var more := ReadColumns(c, m.value.sequence, m.value.rest, n - 1);
    if more.None? then None else Some(more.value.(value := [column.value] + more.value.value))
  }

  /** Rows until an EOF or error packet, which is kept. */
  function ReadRows(c: Codec, q: uint8, input: bytes, n: nat): (r: Option<Got<(seq<Row>, bytes)>>)
    requires c.Valid()
    decreases |input|
  {
    var m := NextPayload(c, q, input);
    if m.None? then None
    else if IsEof(m.value.value) || IsError(m.value.value) then Some(Got(([], m.value.value), m.value.sequence, m.value.rest))
    else
      var cells := ReadCells(m.value.value, 0, n);
      if cells.None? || cells.value.next != |m.value.value| then None else
      var more := ReadRows(c, m.value.sequence, m.value.rest, n);
      if more.None? then None
      else Some(more.value.(value := ([cells.value.value] + more.value.value.0, more.value.value.1)))
  }

  function ReadStatus(p: bytes): Option<uint16> {
    if |p| != 5 then None else
    Widths();
    LEOfFromLE(p[3..5]);
    Some(FromLE(p[3..5]))
  }

  /** What an EOF or error packet says of the rows before it. */
  function ReadEnding(p: bytes): Option<Ending> {
    Widths();
    if IsError(p) then
      if |p| < 9 || p[3] != '#' as int then None else
      LEOfFromLE(p[1..3]);
      Some(Broken(FromLE(p[1..3]), p[4..9], p[9..]))
    else if |p| != 5 then None else
    LEOfFromLE(p[1..3]);
    Some(Complete(FromLE(p[1..3])))
  }

  /** The EOF after the columns, the rows and what ends them. */
  function ReadBody(c: Codec, q: uint8, input: bytes, columns: seq<Column>, n: nat): Option<Got<Table>>
    requires c.Valid()
  {
    var eof := NextPayload(c, q, input);
    if eof.None? || !IsEof(eof.value.value) then None else
    var rows := ReadRows(c, eof.value.sequence, eof.value.rest, n);
    if rows.None? then None else
    var ending := ReadEnding(rows.value.value.1);
    var status := ReadStatus(eof.value.value);
    if ending.None? || status.None? then None
    else Some(Got(Table(columns, rows.value.value.0, status.value, ending.value), rows.value.sequence, rows.value.rest))
  }

  /** A whole result set: count, columns, EOF, rows, EOF or error. */
  function ReadTable(c: Codec, q: uint8, input: bytes): Option<Got<Table>>
    requires c.Valid()
  {
    var head := NextPayload(c, q, input);
    // an empty payload, OK, LOCAL INFILE and error packets are no result sets
    if head.None? || head.value.value == [] || head.value.value[0] in [0x00, 0xfb, 0xff] then None else
    var count := CursorInt(head.value.value, 0);
    if count.None? || count.value.next != |head.value.value| then None else
    var columns := ReadColumns(c, head.value.sequence, head.value.rest, count.value.value);
    if columns.None? then None
    else ReadBody(c, columns.value.sequence, columns.value.rest, columns.value.value, count.value.value)
  }

  function AllDefaulted(columns: seq<Column>): (r: seq<Column>)
    ensures |r| == |columns| && forall i | 0 <= i < |columns| :: r[i] == Defaulted(columns[i])
  {
    seq(|columns|, i requires 0 <= i < |columns| => Defaulted(columns[i]))
  }

  lemma NextEncoded(c: Codec, q: uint8, p: bytes, rest: bytes)
    requires c.Valid() && |p| <= c.maxMessage
    ensures NextPayload(c, q, Encode(c, q, p) + rest) == Some(Got(p, AfterOne(c, q, p), rest))
  {
    hide Encode, Decode;
    DecodeInvertsEncode(c, q, p, rest);
  }

  /** The head of a wire is its first message. */
  lemma NextOnWire(c: Codec, q: uint8, p: bytes, tail: seq<bytes>, rest: bytes)
    requires c.Valid() && Fits(c, [p] + tail)
    ensures Fits(c, tail) && |p| <= c.maxMessage <= MaxLength
    ensures var q' := AfterOne(c, q, p);
            && NextPayload(c, q, Wire(c, q, [p] + tail) + rest) == Some(Got(p, q', Wire(c, q', tail) + rest))
            && After(c, q, [p] + tail) == After(c, q', tail)
  {
    hide Encode, NextPayload, AfterOne, Wire, After;
    FitsSplit(c, [p], tail);
    assert p in [p];
    WireSplitOne(c, q, p, tail);
    var more := Wire(c, AfterOne(c, q, p), tail) + rest;
    assert Wire(c, q, [p] + tail) + rest == Encode(c, q, p) + more;
    NextEncoded(c, q, p, more);
  }

  lemma ColumnsStep(c: Codec, q: uint8, input: bytes, n: nat, m: Got<bytes>, column: Column, more: Got<seq<Column>>)
    requires c.Valid() && n > 0 && NextPayload(c, q, input) == Some(m)
    requires ReadColumn(m.value) == Some(column) && ReadColumns(c, m.sequence, m.rest, n - 1) == Some(more)
    ensures ReadColumns(c, q, input, n) == Some(more.(value := [column] + more.value))
  {
    hide NextPayload, ReadColumn;
  }

  lemma {:induction false} ColumnsOnWire(c: Codec, q: uint8, columns: seq<Column>, rest: bytes)
    requires c.Valid() && (forall k | k in columns :: Sized(k)) && Fits(c, ColumnPayloads(columns))
    ensures var ps := ColumnPayloads(columns);
            ReadColumns(c, q, Wire(c, q, ps) + rest, |columns|) == Some(Got(AllDefaulted(columns), After(c, q, ps), rest))
    decreases |columns|
  {
    hide NextPayload, AfterOne, ReadColumn, ReadColumns, ColumnPayload, Wire, After, Fits, Defaulted;
    if columns == [] {
      WireNone(c, q);
      NoColumns(c, q, rest);
      assert [] + rest == rest;
    } else {
      var p, tail := ColumnPayload(columns[0]), ColumnPayloads(columns[1..]);
      NextOnWire(c, q, p, tail, rest);
      ColumnInverts(columns[0]);
      var q' := AfterOne(c, q, p);
      ColumnsOnWire(c, q', columns[1..], rest);
      ColumnsStep(c, q, Wire(c, q, [p] + tail) + rest, |columns|, Got(p, q', Wire(c, q', tail) + rest),
                  Defaulted(columns[0]), Got(AllDefaulted(columns[1..]), After(c, q', tail), rest));
      assert [Defaulted(columns[0])] + AllDefaulted(columns[1..]) == AllDefaulted(columns);
    }
  }

  lemma NoColumns(c: Codec, q: uint8, rest: bytes)
    requires c.Valid()
    ensures ReadColumns(c, q, rest, 0) == Some(Got([], q, rest))
  {
  }

  lemma RowsEnd(c: Codec, q: uint8, input: bytes, n: nat, m: Got<bytes>)
    requires c.Valid() && NextPayload(c, q, input) == Some(m) && (IsEof(m.value) || IsError(m.value))
    ensures ReadRows(c, q, input, n) == Some(Got(([], m.value), m.sequence, m.rest))
  {
    hide NextPayload;
  }

  lemma RowsStep(c: Codec, q: uint8, input: bytes, n: nat, m: Got<bytes>, row: Row, more: Got<(seq<Row>, bytes)>)
    requires c.Valid() && NextPayload(c, q, input) == Some(m) && !IsEof(m.value) && !IsError(m.value)
    requires ReadCells(m.value, 0, n) == Some(At(row, |m.value|)) && ReadRows(c, m.sequence, m.rest, n) == Some(more)
    ensures ReadRows(c, q, input, n) == Some(Got(([row] + more.value.0, more.value.1), more.sequence, more.rest))
  {
    hide NextPayload, ReadCells;
  }

  lemma {:induction false} RowsOnWire(c: Codec, q: uint8, rows: seq<Row>, n: nat, end: bytes, rest: bytes)
    requires c.Valid() && n > 0 && (forall r | r in rows :: |r| == n && RowSized(r)) && (IsEof(end) || IsError(end))
    requires Fits(c, RowPayloads(rows) + [end])
    ensures var ps := RowPayloads(rows) + [end];
            ReadRows(c, q, Wire(c, q, ps) + rest, n) == Some(Got((rows, end), After(c, q, ps), rest))
    decreases |rows|
  {
    hide NextPayload, AfterOne, ReadCells, RowPayload, ReadRows, Wire, After, Fits, IsEof, IsError;
    if rows == [] {
      assert RowPayloads(rows) + [end] == [end] + [];
      NextOnWire(c, q, end, [], rest);
      var q' := AfterOne(c, q, end);
      WireNone(c, q');
      assert [] + rest == rest;
      RowsEnd(c, q, Wire(c, q, [end] + []) + rest, n, Got(end, q', rest));
    } else {
      var p, tail := RowPayload(rows[0]), RowPayloads(rows[1..]) + [end];
      assert RowPayloads(rows) + [end] == [p] + tail;
      NextOnWire(c, q, p, tail, rest);
      var q' := AfterOne(c, q, p);
      RowReads(rows[0]);
      RowsOnWire(c, q', rows[1..], n, end, rest);
      RowsStep(c, q, Wire(c, q, [p] + tail) + rest, n, Got(p, q', Wire(c, q', tail) + rest), rows[0],
               Got((rows[1..], end), After(c, q', tail), rest));
      assert [rows[0]] + rows[1..] == rows;
    }
  }

  lemma RowReads(row: Row)
    requires RowSized(row) && row != [] && |RowPayload(row)| <= MaxLength
    ensures var p := RowPayload(row);
            !IsEof(p) && !IsError(p) && ReadCells(p, 0, |row|) == Some(At(row, |p|))
  {
    hide ReadCells;
    RowIsNoEof(row);
    StandsWhole(RowPayload(row));
    ReadCellsStand(RowPayload(row), 0, row);
  }

  lemma EofParts(status: uint16, warnings: uint16)
    ensures var p := EofPayload(status, warnings);
            IsEof(p) && !IsError(p) && ReadEnding(p) == Some(Complete(warnings)) && ReadStatus(p) == Some(status)
  {
    hide LE, FromLE;
    Widths();
    FromLEOfLE(warnings, 2);
    FromLEOfLE(status, 2);
    var p := EofPayload(status, warnings);
    assert p[1..3] == LE(warnings, 2) && p[3..5] == LE(status, 2);
  }

  lemma ErrorParts(code: uint16, state: bytes, message: bytes)
    requires |state| == 5
    ensures var p := ErrorPayload(code, state, message);
            IsError(p) && ReadEnding(p) == Some(Broken(code, state, message))
  {
    hide LE, FromLE;
    Widths();
    FromLEOfLE(code, 2);
    var p := ErrorPayload(code, state, message);
    assert p[1..3] == LE(code, 2) && p[3] == '#' as int && p[4..9] == state && p[9..] == message;
  }

  lemma EndParts(t: Table)
    requires t.ending.Broken? ==> |t.ending.state| == 5
    ensures var p := EndPayload(t); (IsEof(p) || IsError(p)) && ReadEnding(p) == Some(t.ending)
  {
    hide EofPayload, ErrorPayload, ReadEnding;
    match t.ending
    case Complete(warnings) => EofParts(t.status, warnings);
    case Broken(code, state, message) => ErrorParts(code, state, message);
  }

  lemma CountReads(n: uint64)
    requires n > 0
    ensures var p := EncodeInt(n);
            p != [] && p[0] !in [0x00, 0xfb, 0xff] && CursorInt(p, 0) == Some(At(n, |p|))
  {
    hide CursorInt;
    StandsWhole(EncodeInt(n));
    IntStands(EncodeInt(n), 0, n);
  }

  lemma BodyInverts(c: Codec, q: uint8, t: Table, columns: seq<Column>, rest: bytes)
    requires c.Valid() && WellFormed(t) && Fits(c, [EofPayload(t.status, 0)] + BodyPayloads(t))
    ensures var ps := [EofPayload(t.status, 0)] + BodyPayloads(t);
            ReadBody(c, q, Wire(c, q, ps) + rest, columns, |t.columns|)
            == Some(Got(t.(columns := columns), After(c, q, ps), rest))
  {
    hide NextPayload, AfterOne, Encode, Wire, After, ReadRows, EofPayload, FromLE, RowPayloads, EndPayload, ReadEnding, ReadStatus, IsError;
    var middle, end := EofPayload(t.status, 0), EndPayload(t);
    FitsSplit(c, [middle], BodyPayloads(t));
    assert middle in [middle];
    EofParts(t.status, 0);
    EndParts(t);
    WireSplitOne(c, q, middle, BodyPayloads(t));
    var q' := AfterOne(c, q, middle);
    var more := Wire(c, q', BodyPayloads(t)) + rest;
    assert Wire(c, q, [middle] + BodyPayloads(t)) + rest == Encode(c, q, middle) + more;
    NextEncoded(c, q, middle, more);
    RowsOnWire(c, q', t.rows, |t.columns|, end, rest);
  }

  /**
   * Any result set with at least one column, complete or cut short by an error: the stream reads back
   * to the same columns, rows, status, and warnings or error, every message starting at the sequence the one before left, and nothing
   * after it is touched.
   */
  lemma TableInverts(c: Codec, q: uint8, t: Table, rest: bytes)
    requires c.Valid() && WellFormed(t) && Fits(c, Payloads(t))
    ensures var r := ReadTable(c, q, Wire(c, q, Payloads(t)) + rest);
            && r.Some? && r.value.sequence == After(c, q, Payloads(t)) && r.value.rest == rest
            && r.value.value.rows == t.rows && r.value.value.status == t.status && r.value.value.ending == t.ending
            && |r.value.value.columns| == |t.columns|
            && forall i | 0 <= i < |t.columns| :: ShownAs(t.columns[i], r.value.value.columns[i])
  {
    hide NextPayload, AfterOne, Encode, Wire, After, ReadColumns, ReadBody, EncodeInt, CursorInt, ColumnPayloads, BodyPayloads, EofPayload;
    var count, columns := EncodeInt(|t.columns|), ColumnPayloads(t.columns);
    var body := [EofPayload(t.status, 0)] + BodyPayloads(t);
    FitsSplit(c, [count], DetailPayloads(t));
    FitsSplit(c, columns, body);
    CountReads(|t.columns|);
    WireSplitOne(c, q, count, DetailPayloads(t));
    var q1 := AfterOne(c, q, count);
    var rest1 := Wire(c, q1, DetailPayloads(t)) + rest;
    assert Wire(c, q, Payloads(t)) + rest == Encode(c, q, count) + rest1;
    assert count in [count];
    NextEncoded(c, q, count, rest1);
    WireAppend(c, q1, columns, body);
    var q2 := After(c, q1, columns);
    var rest2 := Wire(c, q2, body) + rest;
    assert rest1 == Wire(c, q1, columns) + rest2;
    ColumnsOnWire(c, q1, t.columns, rest2);
    BodyInverts(c, q2, t, AllDefaulted(t.columns), rest);
  }

  lemma FitsSplit(c: Codec, a: seq<bytes>, b: seq<bytes>)
    requires Fits(c, a + b)
    ensures Fits(c, a) && Fits(c, b)
  {
    assert forall p | p in a :: p in a + b;
    assert forall p | p in b :: p in a + b;
  }

  lemma WireSplitOne(c: Codec, q: uint8, p: bytes, more: seq<bytes>)
    requires c.Valid()
    ensures Wire(c, q, [p] + more) == Encode(c, q, p) + Wire(c, AfterOne(c, q, p), more)
    ensures After(c, q, [p] + more) == After(c, AfterOne(c, q, p), more)
  {
    assert ([p] + more)[1..] == more;
  }

  // ---------------------------------------------------------------- `rows`

  /** A prefix of the stream has been sent and the rest fits or not on its own. */
  lemma SentSoFar(c: Codec, q: uint8, a: seq<bytes>, b: seq<bytes>)
    requires c.Valid()
    ensures Wire(c, q, a + b) == Wire(c, q, a) + Wire(c, After(c, q, a), b)
    ensures After(c, q, a + b) == After(c, After(c, q, a), b)
    ensures c.maxMessage <= MaxLength ==> (Fits(c, a + b) <==> Fits(c, a) && Fits(c, b))
  {
    hide Wire, After;
    WireAppend(c, q, a, b);
    if c.maxMessage <= MaxLength {
      if Fits(c, a + b) { FitsSplit(c, a, b); }
    }
  }

  /** The second loop of `rows`: the rows, then EOF, or the error that cut them short. */
  method WriteBody(c: Codec, output: bytes, q: uint8, t: Table) returns (ok: bool, out: bytes, next: uint8)
    requires c.Valid() && c.maxMessage <= MaxLength && WellFormed(t)
    ensures ok <==> Fits(c, BodyPayloads(t))
    ensures ok ==> out == output + Wire(c, q, BodyPayloads(t)) && next == After(c, q, BodyPayloads(t))
  {
    hide Wire, After, Encode, AfterOne, EofPayload, ErrorPayload, RowPayloads;
    var end := EndPayload(t);
    SentSoFar(c, q, RowPayloads(t.rows), [end]);
    ok, out, next := SendAll(c, output, q, RowPayloads(t.rows));
    if !ok {
      return;
    }
    WireOne(c, next, end);
    assert Fits(c, [end]) <==> |end| <= c.maxMessage by { assert end in [end]; }
    ok, out, next := Send(c, out, next, end);
  }

  /** The first loop of `rows`: the columns, then EOF, then the body. */
  method WriteDetail(c: Codec, output: bytes, q: uint8, t: Table) returns (ok: bool, out: bytes, next: uint8)
    requires c.Valid() && c.maxMessage <= MaxLength && WellFormed(t)
    ensures ok <==> Fits(c, DetailPayloads(t))
    ensures ok ==> out == output + Wire(c, q, DetailPayloads(t)) && next == After(c, q, DetailPayloads(t))
  {
    hide Wire, After, Encode, AfterOne, EofPayload, ColumnPayloads, BodyPayloads;
    var middle := EofPayload(t.status, 0);
    SentSoFar(c, q, ColumnPayloads(t.columns), [middle] + BodyPayloads(t));
    ok, out, next := SendAll(c, output, q, ColumnPayloads(t.columns));
    if !ok {
      return;
    }
    SentSoFar(c, next, [middle], BodyPayloads(t));
    WireOne(c, next, middle);
    assert Fits(c, [middle]) <==> |middle| <= c.maxMessage by { assert middle in [middle]; }
    ok, out, next := Send(c, out, next, middle);
    if !ok {
      return;
    }
    ok, out, next := WriteBody(c, out, next, t);
  }

  /** `rows` once upstream has named the columns: the column count, then everything else. */
  method WriteTable(c: Codec, q: uint8, t: Table) returns (ok: bool, out: bytes, next: uint8)
    requires c.Valid() && c.maxMessage <= MaxLength && WellFormed(t)
    ensures ok <==> Fits(c, Payloads(t))
    ensures ok ==> out == Wire(c, q, Payloads(t)) && next == After(c, q, Payloads(t))
  {
    hide Wire, After, Encode, AfterOne, EncodeInt, DetailPayloads;
    var count := EncodeInt(|t.columns|);
    SentSoFar(c, q, [count], DetailPayloads(t));
    WireOne(c, q, count);
    assert Fits(c, [count]) <==> |count| <= c.maxMessage by { assert count in [count]; }
    ok, out, next := Send(c, [], q, count);
    if !ok {
      return;
    }
    ok, out, next := WriteDetail(c, out, next, t);
  }
}
