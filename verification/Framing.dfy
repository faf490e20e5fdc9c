/** MySQL packet framing with fragmentation and 8-bit sequence wrap (internal/protocol/mysql/codec.go). */
module Framing {
  import opened Wrappers
  import opened Bytes

  const MaxFramePayload: nat := 0xff_ffff

  datatype Codec = Codec(maxMessage: nat, frame: nat) {
    /** What `newCodec` accepts. */
    predicate Valid() { 0 < maxMessage && 0 < frame <= MaxFramePayload }
  }

  datatype Message = Message(sequence: uint8, nextSequence: uint8, frames: nat, payload: bytes)

  datatype ReadError = UnexpectedEof | SequenceMismatch | MessageTooLarge

  /** A message and the bytes left unread. */
  datatype Read = Read(message: Message, rest: bytes)

  function Next(q: uint8): uint8 { (q + 1) % 256 }

  /** The sequence after `n` more frames. */
  function Plus(q: uint8, n: nat): uint8 { (q + n) % 256 }

  /** How many full frames `n` bytes fill. */
  function Full(n: nat, frame: nat): nat
    requires frame > 0
    decreases n
  {
    if n < frame then 0 else 1 + Full(n - frame, frame)
  }

  lemma {:induction false} FullIsQuotient(n: nat, frame: nat)
    requires frame > 0
    ensures Full(n, frame) == n / frame
    decreases n
  {
    if n >= frame {
      FullIsQuotient(n - frame, frame);
      QuotientOfMore(n - frame, frame);
    }
  }

  lemma QuotientOfMore(m: nat, d: nat)
    requires d > 0
    ensures (m + d) / d == m / d + 1
  {
    var q, r := m / d, m % d;
    Distribute(d, q);
    Quotient(m + d, d, q + 1, r);
  }

  lemma Distribute(d: int, q: int)
    ensures d * (q + 1) == d * q + d
  {
  }

  lemma Quotient(n: nat, d: nat, q: nat, r: nat)
    requires d > 0 && n == d * q + r && r < d
    ensures n / d == q
  {
    var x, y := n / d, n % d;
    assert d * x + y == d * q + r;
    if x < q {
      Farther(d, x, q);
    } else if q < x {
      Farther(d, q, x);
    }
  }

  /** Distinct multiples are at least `d` apart. */
  lemma Farther(d: nat, x: nat, q: nat)
    requires x < q
    ensures d * q >= d * x + d
  {
    var k := q - x - 1;
    assert d * q == d * x + d + d * k;
  }

  lemma {:induction false} FullGrows(n: nat, m: nat, frame: nat)
    requires frame > 0 && n <= m
    ensures Full(n, frame) <= Full(m, frame)
    ensures n + frame <= m ==> Full(n, frame) + 1 <= Full(m, frame)
    decreases m
  {
    if n + frame <= m {
      FullGrows(n, m - frame, frame);
    } else if n >= frame {
      FullGrows(n - frame, m - frame, frame);
    }
  }

  // ---------------------------------------------------------------- writing

  function Frame(q: uint8, payload: bytes): bytes { LE(|payload|, 3) + [q] + payload }

  /** The bytes of one logical message. */
  function Encode(c: Codec, q: uint8, payload: bytes): bytes
    requires c.Valid()
    decreases |payload|
  {
    if |payload| >= c.frame then Frame(q, payload[..c.frame]) + Encode(c, Next(q), payload[c.frame..])
    else Frame(q, payload)
  }

  method WriteMessage(c: Codec, sequence: uint8, payload: bytes) returns (r: Result<(bytes, uint8), ReadError>)
    requires c.Valid()
    ensures |payload| > c.maxMessage ==> r == Failure(MessageTooLarge)
    ensures |payload| <= c.maxMessage ==>
              r == Success((Encode(c, sequence, payload), Plus(sequence, |payload| / c.frame + 1)))
  {
    if |payload| > c.maxMessage {
      return Failure(MessageTooLarge);
    }
    var remaining, q, output := payload, sequence, [];
    ghost var n := 0;
    while |remaining| >= c.frame
      invariant output + Encode(c, q, remaining) == Encode(c, sequence, payload)
      invariant q == Plus(sequence, n)
      invariant n + Full(|remaining|, c.frame) == Full(|payload|, c.frame)
      decreases |remaining|
    {
      PlusNext(sequence, n);
      output := output + Frame(q, remaining[..c.frame]);
      q := Next(q);
      remaining := remaining[c.frame..];
      n := n + 1;
    }
    FullIsQuotient(|payload|, c.frame);
    PlusNext(sequence, n);
    output := output + Frame(q, remaining);
    r := Success((output, Next(q)));
  }

  lemma PlusNext(q: uint8, n: nat)
    ensures Next(Plus(q, n)) == Plus(q, n + 1) && Plus(Next(q), n) == Plus(q, n + 1) && Plus(q, 0) == q
  {
    Wrapped(q + n);
    if q == 255 {
      assert q + (n + 1) == n + 256;
    }
  }

  lemma Wrapped(s: nat)
    ensures (s % 256 + 1) % 256 == (s + 1) % 256 && (s + 256) % 256 == s % 256
  {
  }

  // ---------------------------------------------------------------- reading

  /** The reader's loop: `frames` frames seen, their payloads in `payload`, the next one expected to carry `expected`. */
  function ReadFrames(c: Codec, input: bytes, first: uint8, expected: uint8, frames: nat, payload: bytes): Result<Read, ReadError>
    requires c.Valid()
    decreases |input|
  {
    if |input| < 4 then Failure(UnexpectedEof) else
    var length := FromLE(input[..3]);
    var sequence := input[3];
    var start := if frames == 0 then sequence else first;
    var due := if frames == 0 then sequence else expected;
    if sequence != due then Failure(SequenceMismatch)
    else if length > c.maxMessage - |payload| then Failure(MessageTooLarge)
    else if |input| - 4 < length then Failure(UnexpectedEof)
    else
      var grown := payload + input[4..4 + length];
      var rest := input[4 + length..];
      if length < c.frame then Success(Read(Message(start, Next(due), frames + 1, grown), rest))
      else ReadFrames(c, rest, start, Next(due), frames + 1, grown)
  }

  function Decode(c: Codec, input: bytes): Result<Read, ReadError>
    requires c.Valid()
  {
    ReadFrames(c, input, 0, 0, 0, [])
  }

  /** How many complete headers the reader takes from an input, accepted or not. */
  function HeadersFrom(c: Codec, input: bytes, expected: uint8, frames: nat, payload: bytes): nat
    requires c.Valid()
    decreases |input|
  {
    if |input| < 4 then 0 else
    var length := FromLE(input[..3]);
    var due := if frames == 0 then input[3] else expected;
    if input[3] != due || length > c.maxMessage - |payload| || |input| - 4 < length || length < c.frame then 1
    else 1 + HeadersFrom(c, input[4 + length..], Next(due), frames + 1, payload + input[4..4 + length])
  }

  function Headers(c: Codec, input: bytes): nat
    requires c.Valid()
  {
    HeadersFrom(c, input, 0, 0, [])
  }

  /** On any input the reader takes at most max/frame + 1 headers. */
  lemma HeadersBounded(c: Codec, input: bytes)
    requires c.Valid()
    ensures Headers(c, input) <= c.maxMessage / c.frame + 1
  {
    FullIsQuotient(c.maxMessage, c.frame);
    HeadersBoundedFrom(c, input, 0, 0, []);
  }

  lemma {:induction false} HeadersBoundedFrom(c: Codec, input: bytes, expected: uint8, frames: nat, payload: bytes)
    requires c.Valid() && |payload| <= c.maxMessage && frames <= Full(|payload|, c.frame)
    ensures frames + HeadersFrom(c, input, expected, frames, payload) <= Full(c.maxMessage, c.frame) + 1
    decreases |input|
  {
    FullGrows(|payload|, c.maxMessage, c.frame);
    if |input| >= 4 {
      var length := FromLE(input[..3]);
      var due := if frames == 0 then input[3] else expected;
      if input[3] == due && c.frame <= length <= c.maxMessage - |payload| && length <= |input| - 4 {
        FullGrows(|payload|, |payload| + length, c.frame);
        HeadersBoundedFrom(c, input[4 + length..], Next(due), frames + 1, payload + input[4..4 + length]);
      }
    }
  }

  method ReadMessage(c: Codec, input: bytes) returns (r: Result<Read, ReadError>, headers: nat)
    requires c.Valid()
    ensures r == Decode(c, input)
    ensures headers == Headers(c, input)
  {
    var rest, first, expected, frames, payload := input, 0, 0, 0, [];
    headers := 0;
    while true
      invariant ReadFrames(c, rest, first, expected, frames, payload) == Decode(c, input)
      invariant headers == frames && frames + HeadersFrom(c, rest, expected, frames, payload) == Headers(c, input)
      decreases |rest|
    {
      if |rest| < 4 {
        return Failure(UnexpectedEof), headers;
      }
      headers := headers + 1;
      var length := FromLE(rest[..3]);
      var sequence := rest[3];
      if frames == 0 {
        first := sequence;
        expected := sequence;
      }
      if sequence != expected {
        return Failure(SequenceMismatch), headers;
      }
      if length > c.maxMessage - |payload| {
        return Failure(MessageTooLarge), headers;
      }
      if |rest| - 4 < length {
        return Failure(UnexpectedEof), headers;
      }
      payload := payload + rest[4..4 + length];
      rest := rest[4 + length..];
      frames := frames + 1;
      expected := Next(expected);
      if length < c.frame {
        return Success(Read(Message(first, expected, frames, payload), rest)), headers;
      }
    }
  }

  // ---------------------------------------------------------------- round trips

  lemma FrameParts(q: uint8, payload: bytes, rest: bytes)
    requires |payload| <= MaxFramePayload
    ensures var s := Frame(q, payload) + rest;
            && |s| >= 4 + |payload| && FromLE(s[..3]) == |payload| && s[3] == q
            && s[4..4 + |payload|] == payload && s[4 + |payload|..] == rest
  {
    Widths();
    FromLEOfLE(|payload|, 3);
    var s := Frame(q, payload) + rest;
    assert s[..3] == LE(|payload|, 3);
  }

  /** The reader takes one frame off the front. */
  lemma ReadOne(c: Codec, q: uint8, head: bytes, more: bytes, first: uint8, frames: nat, before: bytes)
    requires c.Valid() && |head| <= MaxFramePayload && |before| + |head| <= c.maxMessage
    ensures var start := if frames == 0 then q else first;
            ReadFrames(c, Frame(q, head) + more, first, q, frames, before)
            == if |head| < c.frame then Success(Read(Message(start, Next(q), frames + 1, before + head), more))
               else ReadFrames(c, more, start, Next(q), frames + 1, before + head)
  {
    hide Next, FromLE, Frame;
    FrameParts(q, head, more);
  }

  /** Reading continues over encoded frames whatever came before and whatever follows. */
  lemma {:induction false} ReadEncoded(c: Codec, q: uint8, payload: bytes, rest: bytes, first: uint8, frames: nat, before: bytes)
    requires c.Valid() && |before| + |payload| <= c.maxMessage
    ensures var n := Full(|payload|, c.frame) + 1;
            ReadFrames(c, Encode(c, q, payload) + rest, first, q, frames, before)
            == Success(Read(Message(if frames == 0 then q else first, Plus(q, n), frames + n, before + payload), rest))
    decreases |payload|
  {
    hide ReadFrames, Next, Plus, Frame;
    if |payload| >= c.frame {
      var head, tail := payload[..c.frame], payload[c.frame..];
      var more := Encode(c, Next(q), tail) + rest;
      assert Encode(c, q, payload) + rest == Frame(q, head) + more;
      ReadOne(c, q, head, more, first, frames, before);
      ReadEncoded(c, Next(q), tail, rest, if frames == 0 then q else first, frames + 1, before + head);
      PlusNext(q, Full(|tail|, c.frame) + 1);
      assert before + head + tail == before + payload;
    } else {
      ReadOne(c, q, payload, rest, first, frames, before);
      PlusNext(q, 0);
    }
  }

  /** For every frame size, start sequence, payload within the limit and trailing bytes. */
  lemma DecodeInvertsEncode(c: Codec, q: uint8, payload: bytes, rest: bytes)
    requires c.Valid() && |payload| <= c.maxMessage
    ensures Decode(c, Encode(c, q, payload) + rest)
            == Success(Read(Message(q, Plus(q, |payload| / c.frame + 1), |payload| / c.frame + 1, payload), rest))
  {
    hide ReadFrames;
    FullIsQuotient(|payload|, c.frame);
    ReadEncoded(c, q, payload, rest, 0, 0, []);
    assert [] + payload == payload;
    FirstSequenceIsFree(c, Encode(c, q, payload) + rest, q);
  }

  lemma FirstSequenceIsFree(c: Codec, input: bytes, q: uint8)
    requires c.Valid()
    ensures ReadFrames(c, input, 0, 0, 0, []) == ReadFrames(c, input, 0, q, 0, [])
  {
  }

  // ---------------------------------------------------------------- re-encoding what was read

  /** Every frame that is continued carries exactly a full frame. */
  predicate FullFrames(c: Codec, input: bytes)
    requires c.Valid()
    decreases |input|
  {
    |input| >= 4 ==>
      var length := FromLE(input[..3]);
      c.frame <= length <= |input| - 4 ==> length == c.frame && FullFrames(c, input[4 + length..])
  }

  /** Any four bytes with the body they announce are a frame. */
  lemma FrameOf(input: bytes)
    requires |input| >= 4 && FromLE(input[..3]) <= |input| - 4
    ensures var n := FromLE(input[..3]);
            n <= MaxFramePayload && input == Frame(input[3], input[4..4 + n]) + input[4 + n..]
  {
    Widths();
    LEOfFromLE(input[..3]);
    var n := FromLE(input[..3]);
    assert input == input[..3] + [input[3]] + input[4..4 + n] + input[4 + n..];
  }

  /** Frames of different lengths differ in their headers. */
  lemma FramesDiffer(q: uint8, a: bytes, p: uint8, b: bytes, s: bytes, t: bytes)
    requires |a| <= MaxFramePayload && |b| <= MaxFramePayload && |a| != |b|
    ensures Frame(q, a) + s != Frame(p, b) + t
  {
    FrameParts(q, a, s);
    FrameParts(p, b, t);
  }

  /** One frame that is continued, encoded again. */
  lemma ReencodeStep(c: Codec, q: uint8, body: bytes, payload: bytes, more: bytes, rest: bytes)
    requires c.Valid() && c.frame <= |body| <= MaxFramePayload
    ensures Encode(c, q, body + payload) + rest == Frame(q, body) + more
      <==> |body| == c.frame && Encode(c, Next(q), payload) + rest == more
  {
    hide FromLE, LE, Next, Frame, Full;
    var whole := body + payload;
    var coded := Encode(c, Next(q), whole[c.frame..]) + rest;
    assert Encode(c, q, whole) + rest == Frame(q, whole[..c.frame]) + coded;
    if |body| == c.frame {
      assert whole[..c.frame] == body && whole[c.frame..] == payload;
      FrameParts(q, body, coded);
      FrameParts(q, body, more);
    } else {
      FramesDiffer(q, whole[..c.frame], q, body, coded, more);
    }
  }

  lemma ReencodeLast(c: Codec, q: uint8, body: bytes, rest: bytes)
    requires c.Valid() && |body| < c.frame
    ensures Encode(c, q, body) + rest == Frame(q, body) + rest
  {
  }

  lemma {:induction false} ReencodeFrames(c: Codec, input: bytes, first: uint8, expected: uint8, frames: nat, before: bytes)
    requires c.Valid() && ReadFrames(c, input, first, expected, frames, before).Success?
    ensures var r := ReadFrames(c, input, first, expected, frames, before).value;
            && |input| >= 4 && before <= r.message.payload
            && r.message.sequence == (if frames == 0 then input[3] else first)
            && (frames > 0 ==> input[3] == expected)
            && (Encode(c, input[3], r.message.payload[|before|..]) + r.rest == input <==> FullFrames(c, input))
    decreases |input|
  {
    hide FromLE, Next, Encode, Frame;
    var r := ReadFrames(c, input, first, expected, frames, before).value;
    var n, q := FromLE(input[..3]), input[3];
    var body, more := input[4..4 + n], input[4 + n..];
    FrameOf(input);
    if n < c.frame {
      assert r.message.payload[|before|..] == body;
      ReencodeLast(c, q, body, more);
    } else {
      ReencodeFrames(c, more, if frames == 0 then q else first, Next(q), frames + 1, before + body);
      var payload := r.message.payload[|before + body|..];
      assert r.message.payload[|before|..] == body + payload;
      ReencodeStep(c, q, body, payload, more, r.rest);
    }
  }

  /** Re-encoding an accepted message reproduces the bytes it was read from exactly when its continued frames are full. */
  lemma EncodeInvertsDecodeIff(c: Codec, input: bytes)
    requires c.Valid() && Decode(c, input).Success?
    ensures var r := Decode(c, input).value;
            Encode(c, r.message.sequence, r.message.payload) + r.rest == input <==> FullFrames(c, input)
  {
    hide ReadFrames, FullFrames, Encode;
    ReencodeFrames(c, input, 0, 0, 0, []);
    var r := Decode(c, input).value;
    assert r.message.payload[0..] == r.message.payload;
  }

  /** With the production frame size every accepted message re-encodes to the exact bytes consumed. */
  lemma ProductionReencodes(c: Codec, input: bytes)
    requires c.Valid() && c.frame == MaxFramePayload && Decode(c, input).Success?
    ensures var r := Decode(c, input).value;
            Encode(c, r.message.sequence, r.message.payload) + r.rest == input
  {
    EncodeInvertsDecodeIff(c, input);
    AlwaysFull(c, input);
  }

  lemma {:induction false} AlwaysFull(c: Codec, input: bytes)
    requires c.Valid() && c.frame == MaxFramePayload
    ensures FullFrames(c, input)
    decreases |input|
  {
    if |input| >= 4 && c.frame <= FromLE(input[..3]) <= |input| - 4 {
      FrameOf(input);
      AlwaysFull(c, input[4 + FromLE(input[..3])..]);
    }
  }
}
