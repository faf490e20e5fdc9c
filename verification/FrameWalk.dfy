/**
 * The reader of module Framing against the headers of its input: which frames are reached, and what
 * the first header that is not simply continued decides.
 */
module FrameWalk {
  import opened Wrappers
  import opened Bytes
  import opened Framing

  /** The length that the header at `p` announces. */
  function Announced(input: bytes, p: nat): nat
    requires p + 4 <= |input|
  {
    input[p] as nat + 0x100 * (input[p + 1] as nat) + 0x1_0000 * (input[p + 2] as nat)
  }

  /** Header and body of the frame at `p` are there. */
  predicate Whole(input: bytes, p: nat) {
    p + 4 <= |input| && p + 4 + Announced(input, p) <= |input|
  }

  predicate AllWhole(input: bytes, headers: seq<nat>) {
    forall i | 0 <= i < |headers| :: Whole(input, headers[i])
  }

  /** The lengths announced by the headers at `headers`, together. */
  function Total(input: bytes, headers: seq<nat>): nat
    requires AllWhole(input, headers)
  {
    if headers == [] then 0
    else Total(input, headers[..|headers| - 1]) + Announced(input, headers[|headers| - 1])
  }

  /** The bodies behind the headers at `headers`, joined. */
  function Bodies(input: bytes, headers: seq<nat>): bytes
    requires AllWhole(input, headers)
  {
    if headers == [] then [] else
    var p := headers[|headers| - 1];
    Bodies(input, headers[..|headers| - 1]) + input[p + 4..p + 4 + Announced(input, p)]
  }

  /** The sequence number of frame `n` of a message that starts at `first`: eight bits, wrapping. */
  function Due(first: uint8, n: nat): uint8 { (first + n) % 256 }

  /** The frame at `p` carries the sequence number due for frame `n` of the message. */
  predicate InSequence(input: bytes, p: nat, n: nat)
    requires p + 4 <= |input|
  {
    input[p + 3] == Due(input[3], n)
  }

  /** The frames at `headers` follow each other from the start to `p`, each whole, in sequence, continued and within the limit. */
  predicate Reached(c: Codec, input: bytes, headers: seq<nat>, p: nat) {
    && AllWhole(input, headers)
    && if headers == [] then p == 0 else
       var q := headers[|headers| - 1];
       && Reached(c, input, headers[..|headers| - 1], q)
       && InSequence(input, q, |headers| - 1)
       && Total(input, headers) <= c.maxMessage
       && c.frame <= Announced(input, q)
       && p == q + 4 + Announced(input, q)
  }

  datatype Ending = CutShort | OutOfSequence | TooLarge | Complete | Continued

  /** What the header at `p` decides once the frames at `headers` were read. */
  function EndingAt(c: Codec, input: bytes, headers: seq<nat>, p: nat): Ending
    requires Reached(c, input, headers, p)
  {
    if p + 4 > |input| then CutShort
    else if !InSequence(input, p, |headers|) then OutOfSequence
    else if Total(input, headers) + Announced(input, p) > c.maxMessage then TooLarge
    else if !Whole(input, p) then CutShort
    else if Announced(input, p) < c.frame then Complete
    else Continued
  }

  /** The input ends its message in this way, behind these frames. */
  ghost predicate EndsBy(c: Codec, input: bytes, headers: seq<nat>, p: nat, ending: Ending) {
    Reached(c, input, headers, p) && EndingAt(c, input, headers, p) == ending
  }

  lemma HeaderLength(input: bytes, p: nat)
    requires p + 4 <= |input|
    ensures FromLE(input[p..][..3]) == Announced(input, p)
  {
    var h := input[p..][..3];
    assert h == [input[p], input[p + 1], input[p + 2]];
    assert h[1..] == [input[p + 1], input[p + 2]];
    assert h[1..][1..] == [input[p + 2]];
    assert FromLE([input[p + 2]]) == input[p + 2];
    assert FromLE(h[1..]) == input[p + 1] as nat + 0x100 * (input[p + 2] as nat);
  }

  /** The reader's loop stands at `p`. */
  predicate ReadingAt(c: Codec, input: bytes, headers: seq<nat>, p: nat)
    requires c.Valid() && Reached(c, input, headers, p)
  {
    && p <= |input| && |Bodies(input, headers)| == Total(input, headers)
    && var n := |headers|;
    var first, due := if n == 0 then 0 else input[3], if n == 0 then 0 else Due(input[3], n);
    && Decode(c, input) == ReadFrames(c, input[p..], first, due, n, Bodies(input, headers))
    && Headers(c, input) == n + HeadersFrom(c, input[p..], due, n, Bodies(input, headers))
  }

  /** One turn of the loop, at a header that is there. */
  lemma ReadTurn(c: Codec, input: bytes, p: nat, first: uint8, due: uint8, n: nat, payload: bytes)
    requires c.Valid() && p + 4 <= |input|
    ensures var length, sequence := Announced(input, p), input[p + 3];
            var start, expected := if n == 0 then sequence else first, if n == 0 then sequence else due;
            var r, h := ReadFrames(c, input[p..], first, due, n, payload), HeadersFrom(c, input[p..], due, n, payload);
            if sequence != expected then r == Failure(SequenceMismatch) && h == 1
            else if length > c.maxMessage - |payload| then r == Failure(MessageTooLarge) && h == 1
            else if !Whole(input, p) then r == Failure(UnexpectedEof) && h == 1
            else
              var grown := payload + input[p + 4..p + 4 + length];
              var rest := input[p + 4 + length..];
              if length < c.frame then r == Success(Read(Message(start, Next(expected), n + 1, grown), rest)) && h == 1
              else r == ReadFrames(c, rest, start, Next(expected), n + 1, grown)
                   && h == 1 + HeadersFrom(c, rest, Next(expected), n + 1, grown)
  {
    hide FromLE, Next;
    HeaderLength(input, p);
    var s, length := input[p..], Announced(input, p);
    assert s[3] == input[p + 3];
    if Whole(input, p) {
      assert s[4..4 + length] == input[p + 4..p + 4 + length] && s[4 + length..] == input[p + 4 + length..];
    }
  }

  lemma SequenceNext(q: uint8, n: nat)
    ensures Next(Due(q, n)) == Due(q, n + 1) && Due(q, 0) == q
  {
    PlusNext(q, n);
  }

  lemma {:induction false} ReadsOn(c: Codec, input: bytes, headers: seq<nat>, p: nat)
    requires c.Valid() && Reached(c, input, headers, p)
    ensures ReadingAt(c, input, headers, p)
    decreases |headers|
  {
    hide ReadFrames, HeadersFrom, Next, Announced, Due;
    if headers == [] {
      assert input[0..] == input;
    } else {
      var q, before := headers[|headers| - 1], headers[..|headers| - 1];
      ReadsOn(c, input, before, q);
      var n := |before|;
      var first, due := if n == 0 then 0 else input[3], if n == 0 then 0 else Due(input[3], n);
      ReadTurn(c, input, q, first, due, n, Bodies(input, before));
      SequenceNext(input[3], n);
    }
  }

  /** The answer at the header that ends the reading. */
  lemma EndingDecides(c: Codec, input: bytes, headers: seq<nat>, p: nat)
    requires c.Valid() && Reached(c, input, headers, p)
    ensures match EndingAt(c, input, headers, p)
            case CutShort => Decode(c, input) == Failure(UnexpectedEof)
            case OutOfSequence => Decode(c, input) == Failure(SequenceMismatch)
            case TooLarge => Decode(c, input) == Failure(MessageTooLarge)
            case Complete =>
              var end, n := p + 4 + Announced(input, p), |headers| + 1;
              Decode(c, input) ==
                Success(Read(Message(input[3], Due(input[3], n), n, Bodies(input, headers) + input[p + 4..end]), input[end..]))
            case Continued => true
    ensures EndingAt(c, input, headers, p).Complete? ==>
              |Bodies(input, headers)| + Announced(input, p) <= c.maxMessage
    ensures !EndingAt(c, input, headers, p).Continued? ==> Headers(c, input) == |headers| + if p + 4 <= |input| then 1 else 0
  {
    hide ReadFrames, HeadersFrom, Next, Announced, Due;
    ReadsOn(c, input, headers, p);
    var n := |headers|;
    var first, due := if n == 0 then 0 else input[3], if n == 0 then 0 else Due(input[3], n);
    if p + 4 <= |input| {
      ReadTurn(c, input, p, first, due, n, Bodies(input, headers));
      SequenceNext(input[3], n);
    } else {
      NoHeader(c, input[p..], first, due, n, Bodies(input, headers));
    }
  }

  lemma NoHeader(c: Codec, input: bytes, first: uint8, due: uint8, n: nat, payload: bytes)
    requires c.Valid() && |input| < 4
    ensures ReadFrames(c, input, first, due, n, payload) == Failure(UnexpectedEof) && HeadersFrom(c, input, due, n, payload) == 0
  {
  }

  /** From any header that is reached, reading comes to one that ends it. */
  lemma {:induction false} WalkFrom(c: Codec, input: bytes, headers: seq<nat>, p: nat) returns (all: seq<nat>, last: nat)
    requires c.Valid() && Reached(c, input, headers, p)
    ensures Reached(c, input, all, last) && !EndingAt(c, input, all, last).Continued?
    decreases |input| + 4 - p
  {
    all, last := headers, p;
    if EndingAt(c, input, headers, p).Continued? {
      var more := headers + [p];
      assert more[..|more| - 1] == headers;
      all, last := WalkFrom(c, input, more, p + 4 + Announced(input, p));
    }
  }

  /**
   * The reader's answer on every input, by the headers it announces: too large if and only if some
   * header reached in sequence takes the announced total over the limit, out of sequence if and only
   * if some header reached has another number than the one due, and accepted if and only if a frame
   * shorter than a full one is reached, whole and within the limit.
   */
  lemma ReadExactly(c: Codec, input: bytes)
    requires c.Valid()
    ensures Decode(c, input) == Failure(MessageTooLarge) <==> exists headers, p :: EndsBy(c, input, headers, p, TooLarge)
    ensures Decode(c, input) == Failure(SequenceMismatch) <==> exists headers, p :: EndsBy(c, input, headers, p, OutOfSequence)
    ensures Decode(c, input) == Failure(UnexpectedEof) <==> exists headers, p :: EndsBy(c, input, headers, p, CutShort)
    ensures Decode(c, input).Success? <==> exists headers, p :: EndsBy(c, input, headers, p, Complete)
  {
    hide Decode, EndingAt, Reached;
    forall headers, p, ending | EndsBy(c, input, headers, p, ending)
      ensures ending.TooLarge? ==> Decode(c, input) == Failure(MessageTooLarge)
      ensures ending.OutOfSequence? ==> Decode(c, input) == Failure(SequenceMismatch)
      ensures ending.CutShort? ==> Decode(c, input) == Failure(UnexpectedEof)
      ensures ending.Complete? ==> Decode(c, input).Success?
    {
      EndingDecides(c, input, headers, p);
    }
    Start(c, input);
    var headers, p := WalkFrom(c, input, [], 0);
    EndingDecides(c, input, headers, p);
    assert EndsBy(c, input, headers, p, EndingAt(c, input, headers, p));
  }

  lemma Start(c: Codec, input: bytes)
    ensures Reached(c, input, [], 0)
  {
  }

  /** What an accepted message is: the bodies of its frames, in order, never more than the limit. */
  lemma AcceptedExactly(c: Codec, input: bytes) returns (headers: seq<nat>, p: nat)
    requires c.Valid() && Decode(c, input).Success?
    ensures EndsBy(c, input, headers, p, Complete)
    ensures var r, end := Decode(c, input).value, p + 4 + Announced(input, p);
            && end <= |input| && r.rest == input[end..]
            && r.message.payload == Bodies(input, headers) + input[p + 4..end]
            && |r.message.payload| <= c.maxMessage
            && r.message.frames == |headers| + 1
            && r.message.sequence == input[3] && r.message.nextSequence == Due(input[3], |headers| + 1)
  {
    hide Decode, Reached;
    Start(c, input);
    headers, p := WalkFrom(c, input, [], 0);
    EndingDecides(c, input, headers, p);
  }
}
