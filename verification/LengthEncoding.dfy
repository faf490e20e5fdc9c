/**
 * Length-encoded integers and strings: the encoder of internal/protocol/mysql/response.go and the
 * two readers, one in the handshake cursor and one on the prepared path.
 */
module LengthEncoding {
  import opened Wrappers
  import opened Bytes

  /** Go slices are shorter than 2^63. */
  const MaxLength: nat := 0x7fff_ffff_ffff_ffff

  function EncodeInt(n: uint64): bytes {
    if n < 0xfb then [n]
    else if n <= 0xffff then [0xfc] + LE(n, 2)
    else if n <= 0xff_ffff then [0xfd] + LE(n, 3)
    else [0xfe] + LE(n, 8)
  }

  function EncodeBytes(v: bytes): bytes
    requires |v| <= MaxLength
  {
    EncodeInt(|v|) + v
  }

  /** A value and the offset after it. */
  datatype At<+T> = At(value: T, next: nat)

  // ---------------------------------------------------------------- the handshake cursor

  function CursorTake(data: bytes, offset: nat, length: nat): (r: Option<At<bytes>>)
    requires offset <= |data|
    ensures r.Some? ==> offset <= r.value.next <= |data|
  {
    if length > |data| - offset then None else Some(At(data[offset..offset + length], offset + length))
  }

  /** `lenEncodedInt`: on failure the cursor is of no further use. */
  function CursorInt(data: bytes, offset: nat): (r: Option<At<nat>>)
    requires offset <= |data|
    ensures r.Some? ==> offset < r.value.next <= |data|
  {
    if offset == |data| then None else
    var first := data[offset];
    if first == 0xfc || first == 0xfd || first == 0xfe then
      var width := if first == 0xfc then 2 else if first == 0xfd then 3 else 8;
      var taken := CursorTake(data, offset + 1, width);
      if taken.None? then None else Some(At(FromLE(taken.value.value), taken.value.next))
    else if first == 0xfb || first == 0xff then None
    else Some(At(first as nat, offset + 1))
  }

  function CursorBytes(data: bytes, offset: nat): (r: Option<At<bytes>>)
    requires offset <= |data|
    ensures r.Some? ==> offset < r.value.next <= |data|
  {
    var length := CursorInt(data, offset);
    if length.None? then None
    else if length.value.value > |data| - length.value.next || length.value.value > MaxLength then None
    else CursorTake(data, length.value.next, length.value.value)
  }

  // ---------------------------------------------------------------- the prepared path

  /** `readPreparedLengthEncoded`. */
  function PreparedBytes(payload: bytes, position: nat): (r: Option<At<bytes>>)
    requires position <= |payload|
    ensures r.Some? ==> position < r.value.next <= |payload|
  {
    if position >= |payload| then None else
    var first := payload[position];
    var at := position + 1;
    var left := |payload| - at;
    if first == 0xfc then
      if left < 2 then None else PreparedTake(payload, at + 2, FromLE(payload[at..at + 2]))
    else if first == 0xfd then
      if left < 3 then None
      else PreparedTake(payload, at + 3, Shifted(payload[at], payload[at + 1], payload[at + 2]))
    else if first == 0xfe then
      if left < 8 then None else PreparedTake(payload, at + 8, FromLE(payload[at..at + 8]))
    else if first >= 0xfb then None
    else PreparedTake(payload, at, first as nat)
  }

  function PreparedTake(payload: bytes, position: nat, length: nat): (r: Option<At<bytes>>)
    requires position <= |payload|
    ensures r.Some? ==> position <= r.value.next <= |payload|
  {
    if length > |payload| - position then None else Some(At(payload[position..position + length], position + length))
  }

  /** Three bytes shifted together. */
  function Shifted(a: nat, b: nat, c: nat): nat { a + b * 0x100 + c * 0x1_0000 }

  lemma ThreeBytes(s: bytes)
    requires |s| == 3
    ensures FromLE(s) == Shifted(s[0], s[1], s[2])
  {
    assert s[1..][1..][1..] == [];
    assert FromLE(s[1..][1..]) == s[2];
    assert FromLE(s[1..]) == s[1] as int + 256 * s[2] as int;
  }

  lemma CursorIntWide(data: bytes, offset: nat, width: nat)
    requires offset < |data|
    requires (data[offset] == 0xfc && width == 2) || (data[offset] == 0xfd && width == 3) || (data[offset] == 0xfe && width == 8)
    ensures CursorInt(data, offset)
      == if |data| - offset - 1 < width then None
         else Some(At(FromLE(data[offset + 1..offset + 1 + width]), offset + 1 + width))
  {
    hide FromLE;
  }

  lemma CursorSized(data: bytes, offset: nat)
    requires offset <= |data| <= MaxLength && CursorInt(data, offset).Some?
    ensures var length := CursorInt(data, offset).value;
            CursorBytes(data, offset) == PreparedTake(data, length.next, length.value)
  {
    hide CursorInt;
  }

  /** The two readers accept the same inputs with the same value and position. */
  lemma ReadersAgree(data: bytes, offset: nat)
    requires offset <= |data| <= MaxLength
    ensures CursorBytes(data, offset) == PreparedBytes(data, offset)
  {
    hide FromLE, CursorTake, PreparedTake, Shifted;
    if offset < |data| {
      var first := data[offset];
      if first == 0xfc || first == 0xfd || first == 0xfe {
        hide CursorInt;
        CursorIntWide(data, offset, if first == 0xfc then 2 else if first == 0xfd then 3 else 8);
        if first == 0xfd && offset + 4 <= |data| {
          ThreeBytes(data[offset + 1..offset + 4]);
        }
        if CursorInt(data, offset).Some? {
          CursorSized(data, offset);
        }
      } else if first != 0xfb && first != 0xff {
        CursorSized(data, offset);
      }
    }
  }

  // ---------------------------------------------------------------- inverse

  /** An encoded integer reads back wherever it stands. */
  lemma IntStands(data: bytes, offset: nat, n: uint64)
    requires Stands(data, offset, EncodeInt(n))
    ensures CursorInt(data, offset) == Some(At(n, offset + |EncodeInt(n)|))
  {
    hide FromLE, LE;
    Widths();
    StandsFirst(data, offset, EncodeInt(n));
    var width := |EncodeInt(n)| - 1;
    if width > 0 {
      FromLEOfLE(n, width);
      assert EncodeInt(n) == [EncodeInt(n)[0]] + LE(n, width);
      StandsSplit(data, offset, [EncodeInt(n)[0]], LE(n, width));
    }
  }

  /** Both readers invert the encoder, wherever the value stands. */
  lemma BytesStand(data: bytes, offset: nat, v: bytes)
    requires |v| <= MaxLength && |data| <= MaxLength && Stands(data, offset, EncodeBytes(v))
    ensures CursorBytes(data, offset) == PreparedBytes(data, offset) == Some(At(v, offset + |EncodeBytes(v)|))
  {
    hide FromLE, LE, PreparedBytes, CursorInt, EncodeInt;
    StandsSplit(data, offset, EncodeInt(|v|), v);
    IntStands(data, offset, |v|);
    ReadersAgree(data, offset);
  }
}
