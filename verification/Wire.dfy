/** The codec with the JSON format: what one peer sends is what the other receives. */
module Wire {
  import opened Bytes
  import opened Json
  import opened JsonGrammar
  import opened JsonReader
  import opened JsonLaws
  import opened Message
  import opened Codec
  import opened CodecLaws
  import opened Responses

  /** The frame that a sent message becomes: what a reader makes of it, unless it cannot be read. */
  predicate Arrives(m: JSONRPCMessage, frame: Frame<JSONRPCMessage>) {
    if Depth(MessageJson(m)) < DEPTH_LIMIT && AsRead(m).Some? then frame == Frame.Message(AsRead(m).value)
    else frame.Malformed?
  }

  /**
   For every sequence of messages that the encoder accepts, and every delivery of a part of its
   output: the session is alive, each message that has arrived in full is one frame, in order,
   and the buffer holds the part of the next one that has arrived.
   */
  lemma JsonDelivery(messages: seq<JSONRPCMessage>, chunks: seq<Bytes>, pending: Bytes)
    requires forall i :: 0 <= i < |messages| ==> Typed(messages[i])
    requires Concat(chunks) + pending == CodecLaws.Wire(JSON_RPC, Sendable(JSON_RPC, messages))
    ensures var s, sent := Run(JSON_RPC, chunks), Sendable(JSON_RPC, messages);
      && !s.dead
      && |s.frames| <= |sent|
      && (forall i :: 0 <= i < |s.frames| ==> Arrives(sent[i], s.frames[i]))
      && Concat(chunks) == CodecLaws.Wire(JSON_RPC, sent[..|s.frames|]) + s.buffer
      && (pending == [] ==> |s.frames| == |sent| && s.buffer == [])
  {
    var sent := Sendable(JSON_RPC, messages);
    SendableIsCarried(messages);
    DeliveryIsInOrder(JSON_RPC, sent, chunks, pending);
    var s := Run(JSON_RPC, chunks);
    forall i | 0 <= i < |s.frames| ensures Arrives(sent[i], s.frames[i]) {
      SentArrives(sent[i]);
    }
  }

  lemma SentArrives(m: JSONRPCMessage)
    requires Typed(m)
    ensures Arrives(m, ToFrame(JSON_RPC, Render(m)))
  {
    ParseInvertsRender(m);
    hide AsRead, Typed, Depth, MessageJson, Render, Parse;
  }

  lemma {:induction false} SendableIsCarried(messages: seq<JSONRPCMessage>)
    requires forall i :: 0 <= i < |messages| ==> Typed(messages[i])
    ensures Carried(JSON_RPC, Sendable(JSON_RPC, messages))
    ensures forall i :: 0 <= i < |Sendable(JSON_RPC, messages)| ==> Typed(Sendable(JSON_RPC, messages)[i])
  {
    if messages != [] {
      ParseInvertsRender(messages[0]);
      SendableIsCarried(messages[1..]);
    }
  }

  /** What arrives of a response: its identifier and its outcome, or a malformed frame if it cannot be read. */
  lemma ResponseArrives(id: RequestId, outcome: Outcome, frame: Frame<JSONRPCMessage>)
    requires IdentTyped(id) && OutcomeTyped(outcome)
    requires Arrives(JsonrpcResponse(id, outcome), frame)
    ensures if Readable(id, outcome) then frame.Message? && Carries(id, outcome, frame.message) else frame.Malformed?
  {
    ResponseAsRead(id, outcome);
    hide AsRead, Carries, JsonrpcResponse, MetaReadable, MessageJson, Depth;
  }

  /** The frame of a line that is the text of `j`. */
  predicate Denotes(j: Json, frame: Frame<JSONRPCMessage>) {
    match frame
    case Message(m) => Depth(j) < DEPTH_LIMIT && ReadMessage(Normalize(j)) == Some(m)
    case Malformed(_) => Depth(j) >= DEPTH_LIMIT || ReadMessage(Normalize(j)) == None
  }

  lemma LineArrives(j: Json, line: Bytes)
    requires SpacedText(j, line)
    ensures Denotes(j, ToFrame(JSON_RPC, line))
  {
    SpacedLineParses(j, line);
    hide SpacedText, Parse, Depth, Normalize, ReadMessage;
  }

  lemma {:induction false} LinesArrive(values: seq<Json>, lines: seq<Bytes>)
    requires |values| == |lines|
    requires forall i :: 0 <= i < |lines| ==> lines[i] != [] && SpacedText(values[i], lines[i])
    ensures var frames := FramesOf(JSON_RPC, lines);
      |frames| == |lines| && forall i :: 0 <= i < |lines| ==> Denotes(values[i], frames[i])
  {
    hide SpacedText, Denotes, ToFrame;
    if lines != [] {
      LineArrives(values[0], lines[0]);
      LinesArrive(values[1..], lines[1..]);
    }
  }

  /**
   The lines of any other program: values written with any white space between their tokens, and
   ended by a newline with or without a carriage return. In every cutting each line is one frame, in
   order, and it is what the value reads as.
   */
  lemma PeerLinesArrive(values: seq<Json>, lines: seq<Bytes>, chunks: seq<Bytes>)
    requires |values| == |lines| && Concat(chunks) == Rejoin(lines)
    requires forall i :: 0 <= i < |lines| ==>
      NoNewline(lines[i]) && |lines[i]| <= MAX_FRAME_LENGTH && SpacedText(values[i], lines[i])
    ensures var s := Run(JSON_RPC, chunks);
      && !s.dead && s.buffer == [] && |s.frames| == |lines|
      && forall i :: 0 <= i < |lines| ==> Denotes(values[i], s.frames[i])
  {
    RejoinSplits(lines);
    FittingStreamSurvives(JSON_RPC, chunks);
    forall i | 0 <= i < |lines| ensures lines[i] != [] {
      SpacedIsNotEmpty(values[i], lines[i]);
    }
    LinesArrive(values, lines);
    hide Run, Lines, Tail, Denotes, SpacedText;
  }
}
