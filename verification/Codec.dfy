/**
 The newline-delimited codec of a JSON-RPC stream.

 The text of a message is a parameter, `Format`; module Message supplies the JSON one.
 */
module Codec {
  import opened Bytes

  /** How long an open line may get, and from which size on the encoder refuses: 64 MiB. */
  const MAX_FRAME_LENGTH: nat := 64 * 1024 * 1024

  datatype Parsed<+M> = Success(message: M) | Failure(reason: Bytes)

  /** How messages become text, and how text becomes messages. */
  datatype Format<!M> = Format(render: M -> Bytes, parse: Bytes -> Parsed<M>)

  datatype Frame<+M> = Message(message: M) | Malformed(reason: Bytes)

  datatype Decoded<+M> = Yield(frame: Frame<M>) | Wait | TooLong(observed: nat)

  datatype Encoded = Accepted | Refused(length: nat)

  // ----- the reference decoder -----

  function ToFrame<M>(format: Format<M>, line: Bytes): Frame<M> {
    match format.parse(line)
    case Success(m) => Message(m)
    case Failure(reason) => Malformed("Invalid JSON: " + reason)
  }

  /** The frames of some lines: one for each line that is not empty. */
  function FramesOf<M>(format: Format<M>, lines: seq<Bytes>): seq<Frame<M>> {
    if lines == [] then []
    else if lines[0] == [] then FramesOf(format, lines[1..])
    else [ToFrame(format, lines[0])] + FramesOf(format, lines[1..])
  }

  /** The reference decoder: split the whole stream, drop the empty lines, parse the others. */
  function Frames<M>(format: Format<M>, stream: Bytes): seq<Frame<M>> {
    FramesOf(format, Lines(stream))
  }

  // ----- one call of the decoder -----

  /** What one call yields from a buffer, and what it leaves there. */
  function DecodeOnce<M>(format: Format<M>, buffer: Bytes): (r: (Decoded<M>, Bytes))
    ensures r.0.Yield? ==> |r.1| < |buffer|
    decreases |buffer|
  {
    var n := FirstNewline(buffer);
    if n == |buffer| then
      (if |buffer| > MAX_FRAME_LENGTH then TooLong(|buffer|) else Wait, buffer)
    else if n == 0 then DecodeOnce(format, buffer[1..])
    else (Yield(ToFrame(format, buffer[..n])), buffer[n + 1..])
  }

  class BytesMut {
    var bytes: Bytes

    constructor ()
      ensures bytes == []
    {
      bytes := [];
    }

    method ExtendFromSlice(more: Bytes)
      modifies this
      ensures bytes == old(bytes) + more
    {
      bytes := bytes + more;
    }

    /** Take the first `at` bytes out of the buffer. */
    method SplitTo(at: nat) returns (head: Bytes)
      requires at <= |bytes|
      modifies this
      ensures head == old(bytes)[..at] && bytes == old(bytes)[at..]
    {
      head := bytes[..at];
      bytes := bytes[at..];
    }
  }

  class JsonRpcCodec<M> {
    const format: Format<M>
    var nextScanIndex: nat
    /** Bytes that the newline search has looked at, over the life of the codec. */
    ghost var examined: nat
    /** Bytes that decoding has taken out of the buffer. */
    ghost var consumed: nat

    constructor (format: Format<M>)
      ensures this.format == format && nextScanIndex == 0 && examined == 0 && consumed == 0
    {
      this.format := format;
      nextScanIndex := 0;
      examined, consumed := 0, 0;
    }

    /** The codec resumes inside `src`, and no newline lies before that place. */
    ghost predicate Ready(src: BytesMut)
      reads this, src
    {
      nextScanIndex <= |src.bytes| && NoNewline(src.bytes[..nextScanIndex])
    }

    /** Each byte was looked at once: it is consumed, or lies before the resume index. */
    ghost predicate Linear()
      reads this
    {
      examined == consumed + nextScanIndex
    }

    /** Find the next newline at or after the resume index, one byte at a time. */
    method Position(src: BytesMut) returns (newline: Option<nat>)
      requires Ready(src)
      modifies this`examined
      ensures newline == if FirstNewline(src.bytes) < |src.bytes| then Some(FirstNewline(src.bytes)) else None
      ensures examined == old(examined) - nextScanIndex + match newline case Some(n) => n + 1 case None => |src.bytes|
    {
      var i := nextScanIndex;
      while i < |src.bytes|
        invariant nextScanIndex <= i <= |src.bytes|
        invariant NoNewline(src.bytes[..i])
        invariant examined == old(examined) + i - nextScanIndex
      {
        examined := examined + 1;
        if src.bytes[i] == NEWLINE {
          FirstNewlineAt(src.bytes, i);
          return Some(i);
        }
        i := i + 1;
      }
      assert src.bytes[..i] == src.bytes;
      NoFirstNewline(src.bytes);
      return None;
    }

    method Decode(src: BytesMut) returns (r: Decoded<M>)
      requires Ready(src) && Linear()
      modifies this, src
      ensures (r, src.bytes) == DecodeOnce(format, old(src.bytes))
      ensures Ready(src) && (!r.TooLong? ==> Linear())
      ensures r.Yield? ==> nextScanIndex == 0
      ensures r.Wait? ==> nextScanIndex == |src.bytes|
      ensures consumed - old(consumed) == |old(src.bytes)| - |src.bytes|
    {
      while true
        invariant Ready(src) && Linear()
        invariant DecodeOnce(format, src.bytes) == DecodeOnce(format, old(src.bytes))
        invariant consumed - old(consumed) == |old(src.bytes)| - |src.bytes|
        decreases |src.bytes|
      {
        ghost var buffer := src.bytes;
        var found := Position(src);
        if found == None {
          if |src.bytes| > MAX_FRAME_LENGTH {
            return TooLong(|src.bytes|);
          }
          nextScanIndex := |src.bytes|;
          return Wait;
        }
        var newline := found.value;
        nextScanIndex := 0;
        var line := src.SplitTo(newline + 1);
        consumed := consumed + newline + 1;
        if |line| <= 1 {
          continue;
        }
        var json := line[..|line| - 1];
        assert json == buffer[..newline];
        match format.parse(json) {
          case Success(message) => return Yield(Message(message));
          case Failure(reason) => return Yield(Malformed("Invalid JSON: " + reason));
        }
      }
    }

    method Encode(item: M, dst: BytesMut) returns (r: Encoded)
      modifies dst
      ensures var json := format.render(item);
              if |json| < MAX_FRAME_LENGTH then r == Accepted && dst.bytes == old(dst.bytes) + json + [NEWLINE]
              else r == Refused(|json|) && dst.bytes == old(dst.bytes)
    {
      var json := format.render(item);
      if |json| >= MAX_FRAME_LENGTH {
        return Refused(|json|);
      }
      dst.ExtendFromSlice(json);
      dst.ExtendFromSlice([NEWLINE]);
      return Accepted;
    }
  }

  // ----- a whole session -----

  /** What a session has yielded, what its buffer holds, and whether an error ended it. */
  datatype Session<+M> = Session(frames: seq<Frame<M>>, buffer: Bytes, dead: bool)

  /** Call the decoder until it waits for input or fails. */
  function Drain<M>(format: Format<M>, buffer: Bytes): Session<M>
    decreases |buffer|
  {
    var (r, rest) := DecodeOnce(format, buffer);
    match r
    case Wait => Session([], rest, false)
    case TooLong(_) => Session([], rest, true)
    case Yield(frame) => Ahead([frame], Drain(format, rest))
  }

  /** The same session with `frames` yielded before its own. */
  function Ahead<M>(frames: seq<Frame<M>>, s: Session<M>): Session<M> {
    s.(frames := frames + s.frames)
  }

  /** Receive one chunk. An error ends the stream for good. */
  function Receive<M>(format: Format<M>, s: Session<M>, chunk: Bytes): Session<M> {
    if s.dead then s
    else Ahead(s.frames, Drain(format, s.buffer + chunk))
  }

  function Run<M>(format: Format<M>, chunks: seq<Bytes>): Session<M> {
    if chunks == [] then Session([], [], false)
    else Receive(format, Run(format, chunks[..|chunks| - 1]), chunks[|chunks| - 1])
  }

  /** The driver of a framed stream: it owns the codec and the buffer of one connection. */
  class FramedRead<M> {
    const codec: JsonRpcCodec<M>
    const buffer: BytesMut
    var frames: seq<Frame<M>>
    var dead: bool

    constructor (format: Format<M>)
      ensures fresh(codec) && fresh(buffer) && codec.format == format
      ensures View() == Run(format, []) && Sound(0)
    {
      codec := new JsonRpcCodec(format);
      buffer := new BytesMut();
      frames := [];
      dead := false;
    }

    ghost function View(): Session<M>
      reads this, buffer
    {
      Session(frames, buffer.bytes, dead)
    }

    /** After `received` bytes, a live stream has looked at each of them exactly once. */
    ghost predicate Sound(received: nat)
      reads this, codec, buffer
    {
      && codec.Ready(buffer)
      && codec.consumed + |buffer.bytes| == received
      && (!dead ==> codec.Linear() && codec.nextScanIndex == |buffer.bytes| && codec.examined == received)
    }

    method Feed(chunk: Bytes, ghost received: nat)
      requires Sound(received) && !dead
      modifies this, codec, buffer
      ensures View() == Receive(codec.format, old(View()), chunk)
      ensures Sound(received + |chunk|)
    {
      hide DecodeOnce, Drain;
      buffer.ExtendFromSlice(chunk);
      ghost var start, before, yielded := buffer.bytes, frames, [];
      assert start[..codec.nextScanIndex] == old(buffer.bytes)[..codec.nextScanIndex];
      while true
        invariant codec.Ready(buffer) && codec.Linear() && !dead
        invariant codec.consumed + |buffer.bytes| == received + |chunk|
        invariant frames == before + yielded
        invariant Drain(codec.format, start) == Ahead(yielded, Drain(codec.format, buffer.bytes))
        decreases |buffer.bytes|
      {
        DrainStep(codec.format, buffer.bytes);
        var r := codec.Decode(buffer);
        match r {
          case Wait =>
            return;
          case TooLong(_) =>
            dead := true;
            return;
          case Yield(frame) =>
            frames := frames + [frame];
            yielded := yielded + [frame];
        }
      }
    }
  }

  lemma DrainStep<M>(format: Format<M>, buffer: Bytes)
    ensures var (r, rest) := DecodeOnce(format, buffer);
      && (r.Wait? ==> Drain(format, buffer) == Session([], rest, false))
      && (r.TooLong? ==> Drain(format, buffer) == Session([], rest, true))
      && (r.Yield? ==> |rest| < |buffer| && Drain(format, buffer) == Ahead([r.frame], Drain(format, rest)))
  {
    hide DecodeOnce;
  }

  // ----- decoding refines splitting -----

  lemma {:induction false} FramesAppend<M>(format: Format<M>, a: seq<Bytes>, b: seq<Bytes>)
    ensures FramesOf(format, a + b) == FramesOf(format, a) + FramesOf(format, b)
  {
    if a == [] {
      assert a + b == b;
    } else {
      assert (a + b)[1..] == a[1..] + b;
      FramesAppend(format, a[1..], b);
    }
  }

  /** One call takes lines off the front of the stream until one of them is not empty. */
  lemma {:induction false} DecodeOnceSplits<M>(format: Format<M>, buffer: Bytes)
    ensures var (r, rest) := DecodeOnce(format, buffer);
      && Tail(rest) == Tail(buffer)
      && match r
         case Yield(frame) => Frames(format, buffer) == [frame] + Frames(format, rest)
         case Wait => Frames(format, buffer) == [] && rest == Tail(buffer) && |rest| <= MAX_FRAME_LENGTH
         case TooLong(n) => Frames(format, buffer) == [] && rest == Tail(buffer) && n == |rest| > MAX_FRAME_LENGTH
    decreases |buffer|
  {
    hide FirstNewline;
    var n := FirstNewline(buffer);
    if n < |buffer| {
      var lines := Lines(buffer[n + 1..]);
      assert Lines(buffer)[1..] == lines;
      if n == 0 {
        DecodeOnceSplits(format, buffer[1..]);
      }
    }
  }

  lemma {:induction false} DrainSplits<M>(format: Format<M>, buffer: Bytes)
    ensures Drain(format, buffer) == Session(Frames(format, buffer), Tail(buffer), |Tail(buffer)| > MAX_FRAME_LENGTH)
    decreases |buffer|
  {
    DecodeOnceSplits(format, buffer);
    var (r, rest) := DecodeOnce(format, buffer);
    if r.Yield? {
      DrainSplits(format, rest);
    }
  }

  /** More input first completes the line that was left open. */
  lemma {:induction false} SplitsAppend(a: Bytes, b: Bytes)
    ensures Lines(a + b) == Lines(a) + Lines(Tail(a) + b)
    ensures Tail(a + b) == Tail(Tail(a) + b)
    decreases |a|
  {
    hide *;
    var n := FirstNewline(a);
    if n == |a| {
      SplitNone(a);
    } else {
      var rest := a[n + 1..];
      SplitFirst(a);
      assert (a + b)[..n] == a[..n];
      FirstNewlineAt(a + b, n);
      SplitFirst(a + b);
      assert (a + b)[n + 1..] == rest + b;
      SplitsAppend(rest, b);
    }
  }

  predicate Overflows(chunks: seq<Bytes>, k: nat)
    requires k <= |chunks|
  {
    |Tail(Concat(chunks[..k]))| > MAX_FRAME_LENGTH
  }

  /** The first place at which the open line is over the maximum, or the end. */
  predicate FirstOverflow(chunks: seq<Bytes>, used: nat) {
    && used <= |chunks|
    && (forall k :: 0 <= k < used ==> !Overflows(chunks, k))
    && (used < |chunks| ==> Overflows(chunks, used))
  }

  lemma ReceiveSplits<M>(format: Format<M>, s: Session<M>, received: Bytes, chunk: Bytes)
    requires s == Session(Frames(format, received), Tail(received), false)
    ensures Receive(format, s, chunk)
         == Session(Frames(format, received + chunk), Tail(received + chunk), |Tail(received + chunk)| > MAX_FRAME_LENGTH)
  {
    SplitsAppend(received, chunk);
    FramesAppend(format, Lines(received), Lines(Tail(received) + chunk));
    DrainSplits(format, s.buffer + chunk);
  }

  lemma ConcatSnoc(chunks: seq<Bytes>, last: Bytes)
    ensures Concat(chunks + [last]) == Concat(chunks) + last
  {
    ConcatAppends(chunks, [last]);
    assert Concat([last]) == last + [];
  }

  lemma OverflowPrefix(before: seq<Bytes>, last: Bytes, used: nat)
    requires FirstOverflow(before, used)
    ensures if Overflows(before, used)
            then FirstOverflow(before + [last], used) && Overflows(before + [last], used)
            else used == |before| && FirstOverflow(before + [last], |before| + 1)
    ensures (before + [last])[..used] == before[..used]
  {
    hide Tail, Concat;
    var chunks := before + [last];
    forall k | 0 <= k <= |before| ensures Overflows(before, k) <==> Overflows(chunks, k) {
      assert before[..k] == chunks[..k];
    }
  }

  /**
   For every cutting of every stream: the frames are those of the reference decoder, the
   buffer holds the open line, and the stream dies exactly at the first chunk that leaves an
   open line over the maximum.
   */
  lemma {:induction false} RunSplits<M>(format: Format<M>, chunks: seq<Bytes>) returns (used: nat)
    ensures FirstOverflow(chunks, used)
    ensures Run(format, chunks)
         == Session(Frames(format, Concat(chunks[..used])), Tail(Concat(chunks[..used])), Overflows(chunks, used))
  {
    if chunks == [] {
      return 0;
    }
    hide Frames, Tail, Concat, FirstOverflow, Drain;
    var before, last := chunks[..|chunks| - 1], chunks[|chunks| - 1];
    assert chunks == before + [last];
    used := RunSplits(format, before);
    OverflowPrefix(before, last, used);
    if !Overflows(before, used) {
      ReceiveSplits(format, Run(format, before), Concat(before[..used]), last);
      assert before[..|before|] == before;
      ConcatSnoc(before, last);
      used := |chunks|;
      assert chunks[..used] == chunks;
    }
  }
}
