/** Laws of whole sessions: which streams survive, and what a matching encoder's stream yields. */
module CodecLaws {
  import opened Bytes
  import opened Codec

  // ----- which streams survive -----

  predicate AllFit(lines: seq<Bytes>) {
    forall i :: 0 <= i < |lines| ==> |lines[i]| <= MAX_FRAME_LENGTH
  }

  /** No line of the stream is over the maximum, and neither is the open line at its end. */
  predicate LinesFit(stream: Bytes) {
    AllFit(Lines(stream)) && |Tail(stream)| <= MAX_FRAME_LENGTH
  }

  /** No cutting of the stream into chunks ends the session. */
  ghost predicate SurvivesEveryCutting<M>(format: Format<M>, stream: Bytes) {
    forall chunks :: Concat(chunks) == stream ==> !Run(format, chunks).dead
  }

  lemma AllFitFirst(first: Bytes, more: seq<Bytes>)
    ensures AllFit([first] + more) <==> |first| <= MAX_FRAME_LENGTH && AllFit(more)
  {
    var lines := [first] + more;
    assert lines[0] == first && forall i :: 0 <= i < |more| ==> more[i] == lines[i + 1];
  }

  lemma LinesFitTail(stream: Bytes)
    requires FirstNewline(stream) < |stream|
    ensures var n := FirstNewline(stream); LinesFit(stream) <==> n <= MAX_FRAME_LENGTH && LinesFit(stream[n + 1..])
  {
    var n := FirstNewline(stream);
    hide FirstNewline, AllFit, Lines, Tail;
    SplitFirst(stream);
    AllFitFirst(stream[..n], Lines(stream[n + 1..]));
  }

  lemma {:induction false} OpenLineFits(a: Bytes, b: Bytes)
    requires LinesFit(a + b)
    ensures |Tail(a)| <= MAX_FRAME_LENGTH
    decreases |a|
  {
    var n := FirstNewline(a);
    if n < |a| {
      assert (a + b)[..n] == a[..n];
      FirstNewlineAt(a + b, n);
      LinesFitTail(a + b);
      assert (a + b)[n + 1..] == a[n + 1..] + b;
      OpenLineFits(a[n + 1..], b);
    } else {
      var m := FirstNewline(a + b);
      if m < |a + b| {
        LinesFitTail(a + b);
      }
    }
  }

  /** A line over the maximum can be cut so that the open line is over it. */
  lemma {:induction false} OverlongLineCanBeCut(stream: Bytes) returns (a: Bytes, b: Bytes)
    requires !LinesFit(stream)
    ensures a + b == stream && |Tail(a)| > MAX_FRAME_LENGTH
    decreases |stream|
  {
    hide FirstNewline;
    var n := FirstNewline(stream);
    if n == |stream| {
      return stream, [];
    }
    LinesFitTail(stream);
    if n > MAX_FRAME_LENGTH {
      a, b := stream[..n], stream[n..];
      NoFirstNewline(a);
    } else {
      var head := stream[..n + 1];
      var a', b' := OverlongLineCanBeCut(stream[n + 1..]);
      a, b := head + a', b';
      FirstNewlineAt(a, n);
      assert a[n + 1..] == a';
      assert a + b == head + stream[n + 1..];
    }
  }

  lemma {:induction false} PrefixOfConcat(chunks: seq<Bytes>, k: nat)
    requires k <= |chunks|
    ensures Concat(chunks) == Concat(chunks[..k]) + Concat(chunks[k..])
  {
    ConcatAppends(chunks[..k], chunks[k..]);
    assert chunks[..k] + chunks[k..] == chunks;
  }

  lemma FittingStreamSurvives<M>(format: Format<M>, chunks: seq<Bytes>)
    requires LinesFit(Concat(chunks))
    ensures Run(format, chunks) == Session(Frames(format, Concat(chunks)), Tail(Concat(chunks)), false)
  {
    var used := RunSplits(format, chunks);
    PrefixOfConcat(chunks, used);
    OpenLineFits(Concat(chunks[..used]), Concat(chunks[used..]));
    assert chunks[..|chunks|] == chunks;
  }

  /** A stream survives every cutting if and only if each of its lines is within the maximum. */
  lemma SurvivalIsLinesFit<M>(format: Format<M>, stream: Bytes)
    ensures SurvivesEveryCutting(format, stream) <==> LinesFit(stream)
  {
    if LinesFit(stream) {
      forall chunks | Concat(chunks) == stream ensures !Run(format, chunks).dead {
        FittingStreamSurvives(format, chunks);
      }
    } else {
      var a, b := OverlongLineCanBeCut(stream);
      var chunks := [a, b];
      assert Concat(chunks) == a + b by {
        assert chunks[1..] == [b] && [b][1..] == [];
        assert Concat([b]) == b + [];
      }
      assert Concat(chunks[..1]) == a by {
        assert chunks[..1] == [a] && [a][1..] == [];
        assert Concat([a]) == a + [];
      }
      var used := RunSplits(format, chunks);
      assert Overflows(chunks, 1);
      assert Run(format, chunks).dead;
    }
  }

  lemma OneLine(line: Bytes)
    requires NoNewline(line)
    ensures Lines(line + [NEWLINE]) == [line] && Tail(line + [NEWLINE]) == []
  {
    var stream := line + [NEWLINE];
    assert stream[..|line|] == line;
    FirstNewlineAt(stream, |line|);
    assert stream[|line| + 1..] == [];
  }

  /**
   A line over the maximum is not always refused: it is a frame when its newline comes with it,
   and ends the session when its newline comes later.
   */
  lemma OverlongLineDependsOnCutting<M>(format: Format<M>, line: Bytes)
    requires NoNewline(line) && |line| > MAX_FRAME_LENGTH
    ensures Run(format, [line + [NEWLINE]]) == Session([ToFrame(format, line)], [], false)
    ensures Run(format, [line, [NEWLINE]]) == Session([], line, true)
  {
    OneLine(line);
    var whole := line + [NEWLINE];
    assert [] + whole == whole;
    assert [whole][..0] == [];
    DrainSplits(format, whole);
    assert [line, [NEWLINE]][..1] == [line] && [line][..0] == [];
    assert [] + line == line;
    NoFirstNewline(line);
    DrainSplits(format, line);
  }

  // ----- the stream of a matching encoder -----

  /** The lines that the encoder writes for some messages. */
  function Wire<M>(format: Format<M>, messages: seq<M>): Bytes {
    if messages == [] then []
    else format.render(messages[0]) + [NEWLINE] + Wire(format, messages[1..])
  }

  /** The messages that the encoder does not refuse. */
  function Sendable<M>(format: Format<M>, messages: seq<M>): seq<M> {
    if messages == [] then []
    else if |format.render(messages[0])| < MAX_FRAME_LENGTH then [messages[0]] + Sendable(format, messages[1..])
    else Sendable(format, messages[1..])
  }

  /** What a format must give for one message: its text is one line that is not empty. */
  predicate IsLine<M>(format: Format<M>, m: M) {
    format.render(m) != [] && NoNewline(format.render(m))
  }

  /** The frame that each message becomes on the other side. */
  function Received<M>(format: Format<M>, messages: seq<M>): seq<Frame<M>> {
    seq(|messages|, i requires 0 <= i < |messages| => ToFrame(format, format.render(messages[i])))
  }

  function Texts<M>(format: Format<M>, messages: seq<M>): seq<Bytes> {
    seq(|messages|, i requires 0 <= i < |messages| => format.render(messages[i]))
  }

  lemma ReceivedCount<M>(format: Format<M>, messages: seq<M>)
    ensures |Received(format, messages)| == |messages|
  {
  }

  lemma {:induction false} WireAppends<M>(format: Format<M>, a: seq<M>, b: seq<M>)
    ensures Wire(format, a + b) == Wire(format, a) + Wire(format, b)
  {
    if a == [] {
      assert a + b == b;
    } else {
      assert (a + b)[1..] == a[1..] + b;
      WireAppends(format, a[1..], b);
    }
  }

  lemma {:induction false} SendableAppends<M>(format: Format<M>, a: seq<M>, b: seq<M>)
    ensures Sendable(format, a + b) == Sendable(format, a) + Sendable(format, b)
  {
    if a == [] {
      assert a + b == b;
    } else {
      assert (a + b)[1..] == a[1..] + b;
      SendableAppends(format, a[1..], b);
    }
  }

  lemma SendOneMore<M>(format: Format<M>, messages: seq<M>, m: M)
    ensures Sendable(format, messages + [m])
         == Sendable(format, messages) + if |format.render(m)| < MAX_FRAME_LENGTH then [m] else []
    ensures Wire(format, Sendable(format, messages + [m]))
         == Wire(format, Sendable(format, messages))
          + if |format.render(m)| < MAX_FRAME_LENGTH then format.render(m) + [NEWLINE] else []
  {
    SendableAppends(format, messages, [m]);
    assert [m][1..] == [];
    WireOfOne(format, m);
    hide Wire;
    if |format.render(m)| < MAX_FRAME_LENGTH {
      WireAppends(format, Sendable(format, messages), [m]);
    } else {
      assert Sendable(format, messages + [m]) == Sendable(format, messages);
    }
  }

  /** Encode messages one after another. A refused message leaves the buffer as it was. */
  method SendAll<M>(codec: JsonRpcCodec<M>, messages: seq<M>, dst: BytesMut) returns (refused: nat)
    modifies dst
    ensures dst.bytes == old(dst.bytes) + Wire(codec.format, Sendable(codec.format, messages))
    ensures refused + |Sendable(codec.format, messages)| == |messages|
  {
    hide Wire, Sendable;
    refused := 0;
    EmptyWire(codec.format);
    for i := 0 to |messages|
      invariant dst.bytes == old(dst.bytes) + Wire(codec.format, Sendable(codec.format, messages[..i]))
      invariant refused + |Sendable(codec.format, messages[..i])| == i
    {
      var m := messages[i];
      var r := codec.Encode(m, dst);
      assert messages[..i + 1] == messages[..i] + [m];
      SendOneMore(codec.format, messages[..i], m);
      if r.Refused? {
        refused := refused + 1;
      }
    }
    assert messages[..|messages|] == messages;
  }

  lemma EmptyWire<M>(format: Format<M>)
    ensures Sendable(format, []) == [] && Wire(format, []) == []
  {
  }

  lemma WireOfOne<M>(format: Format<M>, m: M)
    ensures Wire(format, [m]) == format.render(m) + [NEWLINE]
  {
    assert [m][1..] == [];
  }

  lemma TextsFirst<M>(format: Format<M>, messages: seq<M>)
    ensures messages == [] ==> Texts(format, messages) == []
    ensures messages != [] ==> Texts(format, messages) == [format.render(messages[0])] + Texts(format, messages[1..])
  {
  }

  lemma {:induction false} WireSplits<M>(format: Format<M>, messages: seq<M>)
    requires forall i :: 0 <= i < |messages| ==> NoNewline(format.render(messages[i]))
    ensures Lines(Wire(format, messages)) == Texts(format, messages)
    ensures Tail(Wire(format, messages)) == []
  {
    TextsFirst(format, messages);
    hide Lines, Tail, NoNewline, Texts;
    if messages == [] {
      EmptySplits();
    } else {
      var line, more := format.render(messages[0]), Wire(format, messages[1..]);
      OneLine(line);
      SplitsAppend(line + [NEWLINE], more);
      assert [] + more == more;
      WireSplits(format, messages[1..]);
    }
  }

  lemma EmptySplits()
    ensures Lines([]) == [] && Tail([]) == []
  {
  }

  lemma {:induction false} TextsAreFrames<M>(format: Format<M>, messages: seq<M>)
    requires forall i :: 0 <= i < |messages| ==> IsLine(format, messages[i])
    ensures FramesOf(format, Texts(format, messages)) == Received(format, messages)
  {
    if messages != [] {
      var more := messages[1..];
      TextsAreFrames(format, more);
      assert Texts(format, messages)[1..] == Texts(format, more);
      assert IsLine(format, messages[0]);
      assert Received(format, messages) == [ToFrame(format, format.render(messages[0]))] + Received(format, more);
    }
  }

  /** An empty line anywhere in a stream changes nothing, and any other line is one frame. */
  lemma EmptyLinesAreSkipped<M>(format: Format<M>, a: seq<Bytes>, line: Bytes, b: seq<Bytes>)
    ensures FramesOf(format, a + [line] + b)
         == FramesOf(format, a) + (if line == [] then [] else [ToFrame(format, line)]) + FramesOf(format, b)
  {
    FramesAppend(format, a, [line] + b);
    assert a + [line] + b == a + ([line] + b);
    assert ([line] + b)[1..] == b;
  }

  predicate Carried<M>(format: Format<M>, messages: seq<M>) {
    forall i :: 0 <= i < |messages| ==>
      IsLine(format, messages[i]) && |format.render(messages[i])| < MAX_FRAME_LENGTH
  }

  /**
   The messages that an encoder accepted come back in order at every moment of every delivery:
   whatever part of the wire has arrived, in whatever chunks, the session is alive, has yielded
   the first messages, and holds the part of the next one that has arrived.
   */
  lemma DeliveryIsInOrder<M>(format: Format<M>, messages: seq<M>, chunks: seq<Bytes>, pending: Bytes)
    requires Carried(format, messages)
    requires Concat(chunks) + pending == Wire(format, messages)
    ensures var s := Run(format, chunks);
      && !s.dead
      && |s.frames| <= |messages|
      && s.frames == Received(format, messages[..|s.frames|])
      && Concat(chunks) == Wire(format, messages[..|s.frames|]) + s.buffer
      && (pending == [] ==> |s.frames| == |messages| && s.buffer == [])
  {
    var arrived := Concat(chunks);
    hide Lines, Tail, Run, Frames, Wire, Received, Texts, Concat;
    WireFits(format, messages);
    LinesFitPrefix(arrived, pending);
    FittingStreamSurvives(format, chunks);
    var k := ArrivedMessages(format, messages, arrived, pending);
    ReceivedCount(format, messages[..k]);
    if pending == [] {
      assert arrived + pending == arrived;
    }
  }

  /** A prefix of the wire splits into the first messages and a part of the next. */
  lemma ArrivedMessages<M>(format: Format<M>, messages: seq<M>, arrived: Bytes, pending: Bytes) returns (k: nat)
    requires Carried(format, messages)
    requires arrived + pending == Wire(format, messages)
    ensures k <= |messages| && Frames(format, arrived) == Received(format, messages[..k])
    ensures arrived == Wire(format, messages[..k]) + Tail(arrived)
    ensures pending == [] ==> k == |messages| && Tail(arrived) == []
  {
    WireSplits(format, messages);
    SplitsAppend(arrived, pending);
    k := |Lines(arrived)|;
    hide Lines, Tail, Wire;
    var first := messages[..k];
    assert Lines(arrived) == Texts(format, messages)[..k] == Texts(format, first);
    TextsAreFrames(format, first);
    LinesRejoin(arrived);
    WireRejoins(format, first);
    if pending == [] {
      assert arrived + pending == arrived;
      assert Lines(arrived) == Texts(format, messages);
    }
  }

  lemma WireFits<M>(format: Format<M>, messages: seq<M>)
    requires Carried(format, messages)
    ensures LinesFit(Wire(format, messages))
  {
    WireSplits(format, messages);
  }

  lemma {:induction false} LinesFitPrefix(a: Bytes, b: Bytes)
    requires LinesFit(a + b)
    ensures LinesFit(a)
  {
    SplitsAppend(a, b);
    OpenLineFits(a, b);
    forall i | 0 <= i < |Lines(a)| ensures |Lines(a)[i]| <= MAX_FRAME_LENGTH {
      assert Lines(a + b)[i] == Lines(a)[i];
    }
  }

  /** Lines with their newlines. */
  function Rejoin(lines: seq<Bytes>): Bytes {
    if lines == [] then [] else lines[0] + [NEWLINE] + Rejoin(lines[1..])
  }

  lemma {:induction false} LinesRejoin(stream: Bytes)
    ensures stream == Rejoin(Lines(stream)) + Tail(stream)
    decreases |stream|
  {
    hide *;
    var n := FirstNewline(stream);
    if n == |stream| {
      SplitNone(stream);
      RejoinNone();
    } else {
      var line, rest := stream[..n], stream[n + 1..];
      SplitFirst(stream);
      LinesRejoin(rest);
      RejoinFirst(line, Lines(rest));
      assert stream == line + [NEWLINE] + rest;
    }
  }

  lemma RejoinNone()
    ensures Rejoin([]) == []
  {
  }

  lemma RejoinFirst(line: Bytes, more: seq<Bytes>)
    ensures Rejoin([line] + more) == line + [NEWLINE] + Rejoin(more)
  {
    assert ([line] + more)[1..] == more;
  }

  /** Lines with their newlines split into the same lines. */
  lemma {:induction false} RejoinSplits(lines: seq<Bytes>)
    requires forall i :: 0 <= i < |lines| ==> NoNewline(lines[i])
    ensures Lines(Rejoin(lines)) == lines && Tail(Rejoin(lines)) == []
  {
    hide Lines, Tail, NoNewline;
    if lines == [] {
      EmptySplits();
    } else {
      OneLine(lines[0]);
      SplitsAppend(lines[0] + [NEWLINE], Rejoin(lines[1..]));
      assert [] + Rejoin(lines[1..]) == Rejoin(lines[1..]);
      RejoinSplits(lines[1..]);
    }
  }

  lemma {:induction false} WireRejoins<M>(format: Format<M>, messages: seq<M>)
    ensures Rejoin(Texts(format, messages)) == Wire(format, messages)
  {
    if messages != [] {
      assert Texts(format, messages)[1..] == Texts(format, messages[1..]);
      WireRejoins(format, messages[1..]);
    }
  }

  /**
   The bound of the encoder is safe and stricter than it must be: the text of a message
   survives every cutting exactly up to the maximum, and the encoder refuses the maximum itself.
   */
  lemma EncoderBoundIsSafe<M>(format: Format<M>, m: M)
    requires NoNewline(format.render(m))
    ensures SurvivesEveryCutting(format, Wire(format, [m])) <==> |format.render(m)| <= MAX_FRAME_LENGTH
    ensures Sendable(format, [m]) == [m] <==> |format.render(m)| < MAX_FRAME_LENGTH
  {
    WireOfOne(format, m);
    OneLine(format.render(m));
    SurvivalIsLinesFit(format, Wire(format, [m]));
    assert Lines(Wire(format, [m]))[0] == format.render(m);
    assert [m][1..] == [];
  }
}
