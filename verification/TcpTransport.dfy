/** Reassembly of length-prefixed messages from the chunks of a TCP stream. */
module TcpTransports {
  import opened BigEndian
  import Frames

  /** The bytes since the last message boundary, the messages so far, and whether the socket was destroyed. */
  datatype Stream = Stream(partial: seq<Byte>, messages: seq<seq<Byte>>, destroyed: bool)

  const START := Stream([], [], false)

  function Prefixed(message: seq<Byte>): seq<Byte> {
    ToBytes(|message|, 4) + message
  }

  // ---------- One byte at a time ----------

  /** What the next byte of the stream does: an oversized length destroys, a completed message is delivered. */
  function FeedByte(s: Stream, b: Byte, maxFrameSize: nat): Stream {
    var p := s.partial + [b];
    if |p| < 4 then s.(partial := p)
    else
      var length := FromBytes(p[..4]);
      if |p| == 4 && length > maxFrameSize then s.(partial := [], destroyed := true)
      else if |p| == 4 + length then s.(partial := [], messages := s.messages + [p[4..]])
      else s.(partial := p)
  }

  /** The bytes of one chunk in turn; what follows the end of the socket is dropped. */
  function Feed(s: Stream, bytes: seq<Byte>, maxFrameSize: nat): Stream
    decreases |bytes|
  {
    if bytes == [] || s.destroyed then s
    else Feed(FeedByte(s, bytes[0], maxFrameSize), bytes[1..], maxFrameSize)
  }

  lemma {:induction false} FeedSplit(s: Stream, a: seq<Byte>, b: seq<Byte>, maxFrameSize: nat)
    ensures Feed(s, a + b, maxFrameSize) == Feed(Feed(s, a, maxFrameSize), b, maxFrameSize)
    decreases |a|
  {
    if a == [] {
      assert a + b == b;
    } else if s.destroyed {
    } else {
      assert (a + b)[0] == a[0] && (a + b)[1..] == a[1..] + b;
      FeedSplit(FeedByte(s, a[0], maxFrameSize), a[1..], b, maxFrameSize);
    }
  }

  /** The position in the stream is inside a length prefix, or inside a message of acceptable length. */
  predicate Inside(s: Stream, maxFrameSize: nat) {
    && !s.destroyed
    && (|s.partial| >= 4 ==>
          FromBytes(s.partial[..4]) <= maxFrameSize && |s.partial| < 4 + FromBytes(s.partial[..4]))
  }

  /** Bytes that do not complete the prefix, or the message, are kept. */
  lemma {:induction false} FeedKeeps(s: Stream, bytes: seq<Byte>, maxFrameSize: nat)
    requires Inside(s, maxFrameSize)
    requires if |s.partial| < 4 then |s.partial| + |bytes| < 4
             else |s.partial| + |bytes| < 4 + FromBytes(s.partial[..4])
    ensures Feed(s, bytes, maxFrameSize) == s.(partial := s.partial + bytes)
    decreases |bytes|
  {
    if bytes == [] {
      assert s.partial + bytes == s.partial;
    } else {
      var next := FeedByte(s, bytes[0], maxFrameSize);
      assert |s.partial| >= 4 ==> (s.partial + [bytes[0]])[..4] == s.partial[..4];
      FeedKeeps(next, bytes[1..], maxFrameSize);
      assert s.partial + bytes == (s.partial + [bytes[0]]) + bytes[1..];
    }
  }

  /** The bytes that complete the prefix decide: destroy, deliver an empty message, or go on inside it. */
  lemma FeedPrefixEnd(s: Stream, bytes: seq<Byte>, maxFrameSize: nat)
    requires Inside(s, maxFrameSize) && |s.partial| < 4 && |s.partial| + |bytes| == 4
    ensures var length := FromBytes(s.partial + bytes);
            Feed(s, bytes, maxFrameSize) ==
            if length > maxFrameSize then s.(partial := [], destroyed := true)
            else if length == 0 then s.(partial := [], messages := s.messages + [[]])
            else s.(partial := s.partial + bytes)
  {
    var last := |bytes| - 1;
    FeedKeeps(s, bytes[..last], maxFrameSize);
    FeedSplit(s, bytes[..last], [bytes[last]], maxFrameSize);
    assert bytes == bytes[..last] + [bytes[last]];
    var p := (s.partial + bytes[..last]) + [bytes[last]];
    assert p == s.partial + bytes && p[..4] == p && p[4..] == [];
  }

  /** The bytes that complete a message deliver it. */
  lemma FeedMessageEnd(s: Stream, bytes: seq<Byte>, maxFrameSize: nat)
    requires Inside(s, maxFrameSize) && |s.partial| >= 4 && |s.partial| + |bytes| == 4 + FromBytes(s.partial[..4])
    ensures Feed(s, bytes, maxFrameSize) == s.(partial := [], messages := s.messages + [s.partial[4..] + bytes])
  {
    var last := |bytes| - 1;
    FeedKeeps(s, bytes[..last], maxFrameSize);
    FeedSplit(s, bytes[..last], [bytes[last]], maxFrameSize);
    assert bytes == bytes[..last] + [bytes[last]];
    var p := (s.partial + bytes[..last]) + [bytes[last]];
    assert p == s.partial + bytes && p[..4] == s.partial[..4] && p[4..] == s.partial[4..] + bytes;
  }

  // ---------- Any chunking ----------

  function FeedChunks(s: Stream, chunks: seq<seq<Byte>>, maxFrameSize: nat): Stream
    decreases |chunks|
  {
    if chunks == [] then s else FeedChunks(Feed(s, chunks[0], maxFrameSize), chunks[1..], maxFrameSize)
  }

  /** How the stream is cut into chunks makes no difference. */
  lemma {:induction false} ChunkingIsIrrelevant(s: Stream, chunks: seq<seq<Byte>>, maxFrameSize: nat)
    ensures FeedChunks(s, chunks, maxFrameSize) == Feed(s, Frames.Concat(chunks), maxFrameSize)
    decreases |chunks|
  {
    if chunks != [] {
      FeedSplit(s, chunks[0], Frames.Concat(chunks[1..]), maxFrameSize);
      ChunkingIsIrrelevant(Feed(s, chunks[0], maxFrameSize), chunks[1..], maxFrameSize);
    }
  }

  function Wire(messages: seq<seq<Byte>>): seq<Byte> {
    if messages == [] then [] else Wire(messages[..|messages| - 1]) + Prefixed(messages[|messages| - 1])
  }

  lemma PrefixedDelivers(s: Stream, message: seq<Byte>, maxFrameSize: nat)
    requires !s.destroyed && s.partial == [] && |message| <= maxFrameSize && |message| < Pow256(4)
    ensures Feed(s, Prefixed(message), maxFrameSize) == s.(messages := s.messages + [message])
  {
    var prefix := ToBytes(|message|, 4);
    ToFrom(|message|, 4);
    FeedSplit(s, prefix, message, maxFrameSize);
    assert s.partial + prefix == prefix;
    FeedPrefixEnd(s, prefix, maxFrameSize);
    if message != [] {
      var inside := s.(partial := prefix);
      assert prefix[..4] == prefix;
      FeedMessageEnd(inside, message, maxFrameSize);
      assert prefix[4..] + message == message;
    } else {
      assert message == [];
    }
  }

  /** Messages within the limit, prefixed and sent, come out as they were, whatever the chunks. */
  lemma {:induction false} MessagesArrive(messages: seq<seq<Byte>>, maxFrameSize: nat)
    requires forall m :: m in messages ==> |m| <= maxFrameSize && |m| < Pow256(4)
    ensures Feed(START, Wire(messages), maxFrameSize) == Stream([], messages, false)
  {
    if messages != [] {
      var last := |messages| - 1;
      MessagesArrive(messages[..last], maxFrameSize);
      FeedSplit(START, Wire(messages[..last]), Prefixed(messages[last]), maxFrameSize);
      PrefixedDelivers(Stream([], messages[..last], false), messages[last], maxFrameSize);
      assert messages == messages[..last] + [messages[last]];
    }
  }

  /**
   The wire round trip: frames within the limits, encoded, labelled, cut into any messages, prefixed and
   sent through a stream cut into any chunks, come out of reassembly and parsing exactly as they were.
   */
  lemma {:induction false} FramesSurviveAnyChunking(frames: seq<Frames.Frame>, cuts: seq<seq<seq<Byte>>>, chunks: seq<seq<Byte>>,
                                 maxFrameSize: nat, maxMessageBytes: nat)
    requires Frames.Cuts(frames, cuts, maxMessageBytes)
    requires forall m :: m in Frames.Flatten(cuts) ==> |m| <= maxFrameSize
    requires Frames.Concat(chunks) == Wire(Frames.Flatten(cuts))
    ensures var received := FeedChunks(START, chunks, maxFrameSize);
            && received.partial == [] && !received.destroyed
            && Frames.ParseAll([], received.messages, maxMessageBytes) == Frames.Parsed([], Frames.Ok(frames))
  {
    ChunkingIsIrrelevant(START, chunks, maxFrameSize);
    Frames.MessagesAreShort(frames, cuts, maxMessageBytes);
    Widths();
    MessagesArrive(Frames.Flatten(cuts), maxFrameSize);
    Frames.FramesParsed(frames, cuts, maxMessageBytes);
  }

  function Uncut(messages: seq<seq<Byte>>): (cuts: seq<seq<seq<Byte>>>)
    ensures |cuts| == |messages| && forall i :: 0 <= i < |cuts| ==> cuts[i] == [messages[i]]
  {
    seq(|messages|, i requires 0 <= i < |messages| => [messages[i]])
  }

  lemma {:induction false} UncutIsFlat(messages: seq<seq<Byte>>)
    ensures Frames.Flatten(Uncut(messages)) == messages
  {
    if messages != [] {
      var last := |messages| - 1;
      UncutIsFlat(messages[..last]);
      assert Uncut(messages)[..last] == Uncut(messages[..last]);
      assert messages == messages[..last] + [messages[last]];
    }
  }

  /** As the client sends them: each frame encoded, labelled and sent as one message. */
  lemma {:induction false} WholeFramesSurvive(frames: seq<Frames.Frame>, messages: seq<seq<Byte>>, chunks: seq<seq<Byte>>,
                                              maxFrameSize: nat, maxMessageBytes: nat)
    requires |messages| == |frames|
    requires forall i :: 0 <= i < |frames| ==>
               Frames.Writes(frames[i], messages[i]) && |messages[i]| <= maxFrameSize && |messages[i]| <= maxMessageBytes
    requires Frames.Concat(chunks) == Wire(messages)
    ensures var received := FeedChunks(START, chunks, maxFrameSize);
            && received.messages == messages && received.partial == [] && !received.destroyed
            && Frames.ParseAll([], messages, maxMessageBytes) == Frames.Parsed([], Frames.Ok(frames))
  {
    UncutIsFlat(messages);
    forall i | 0 <= i < |frames| ensures Frames.Concat(Uncut(messages)[i]) == messages[i] {
      var none: seq<seq<Byte>> := [];
      assert [messages[i]][1..] == none && messages[i] + Frames.Concat(none) == messages[i];
    }
    Frames.MessagesAreShort(frames, Uncut(messages), maxMessageBytes);
    Widths();
    MessagesArrive(messages, maxFrameSize);
    FramesSurviveAnyChunking(frames, Uncut(messages), chunks, maxFrameSize, maxMessageBytes);
    ChunkingIsIrrelevant(START, chunks, maxFrameSize);
  }

  /** A length over the limit destroys the socket, and nothing after it is delivered. */
  lemma OversizedDestroys(messages: seq<seq<Byte>>, length: nat, rest: seq<Byte>, maxFrameSize: nat)
    requires forall m :: m in messages ==> |m| <= maxFrameSize && |m| < Pow256(4)
    requires maxFrameSize < length < Pow256(4)
    ensures Feed(START, Wire(messages) + (ToBytes(length, 4) + rest), maxFrameSize) == Stream([], messages, true)
  {
    MessagesArrive(messages, maxFrameSize);
    FeedSplit(START, Wire(messages), ToBytes(length, 4) + rest, maxFrameSize);
    var s := Stream([], messages, false);
    FeedSplit(s, ToBytes(length, 4), rest, maxFrameSize);
    ToFrom(length, 4);
    assert s.partial + ToBytes(length, 4) == ToBytes(length, 4);
    FeedPrefixEnd(s, ToBytes(length, 4), maxFrameSize);
  }

  // ---------- The transport's buffers ----------

  datatype MessageLength = NotRead | Length(bytes: nat)

  /** The connection closed, an error of the socket, or its receive timeout. */
  datatype SocketError = ConnectionClosed | SocketFailed | TimedOut

  datatype Terminal = NoError | Because(error: SocketError)

  datatype Received = Message(message: seq<Byte>) | Fails(error: SocketError) | Waits

  class TcpReassembler {
    const maxFrameSize: nat
    const lengthBuffer: array<Byte>
    var lengthOffset: nat
    var currentMessageLength: MessageLength
    var messageBuffer: array<Byte>
    var messageOffset: nat
    var receiveQueue: seq<seq<Byte>>
    var receiverWaits: bool
    var destroyed: bool
    var connected: bool
    var terminalError: Terminal
    ghost var handedOut: seq<seq<Byte>>

    constructor (maxFrameSize: nat)
      ensures Valid() && Model() == START && fresh(lengthBuffer) && fresh(messageBuffer)
      ensures this.maxFrameSize == maxFrameSize
    {
      this.maxFrameSize := maxFrameSize;
      lengthBuffer := new Byte[4](_ => 0);
      messageBuffer := new Byte[0];
      lengthOffset, messageOffset, currentMessageLength := 0, 0, NotRead;
      receiveQueue, receiverWaits, destroyed, handedOut := [], false, false, [];
      connected, terminalError := false, NoError;
    }

    /** The buffers are consistent; a message whose length was read still lacks bytes. */
    ghost predicate Valid()
      reads this, lengthBuffer, messageBuffer
    {
      && lengthBuffer != messageBuffer && lengthBuffer.Length == 4
      && (receiverWaits ==> receiveQueue == [])
      && match currentMessageLength
         case NotRead => lengthOffset < 4
         case Length(bytes) =>
           && lengthOffset == 4 && messageBuffer.Length == bytes && messageOffset < bytes <= maxFrameSize
           && FromBytes(lengthBuffer[..]) == bytes && !destroyed
    }

    ghost function Partial(): seq<Byte>
      requires Valid()
      reads this, lengthBuffer, messageBuffer
    {
      match currentMessageLength
      case NotRead => lengthBuffer[..lengthOffset]
      case Length(_) => lengthBuffer[..] + messageBuffer[..messageOffset]
    }

    ghost function Model(): Stream
      requires Valid()
      reads this, lengthBuffer, messageBuffer
    {
      Stream(Partial(), handedOut + receiveQueue, destroyed)
    }

    method EnqueueMessage(data: seq<Byte>)
      requires receiverWaits ==> receiveQueue == []
      modifies `receiveQueue, `receiverWaits, `handedOut
      ensures handedOut + receiveQueue == old(handedOut + receiveQueue) + [data]
      ensures receiverWaits ==> receiveQueue == []
    {
      if receiverWaits {
        receiverWaits := false;
        handedOut := handedOut + [data];
      } else {
        receiveQueue := receiveQueue + [data];
      }
    }

    /** Copies into the length buffer what the chunk has of the prefix; returns the new offset in the chunk. */
    method ReadLength(chunk: seq<Byte>, offset: nat) returns (next: nat)
      requires Valid() && !destroyed && currentMessageLength == NotRead && offset < |chunk|
      modifies this, lengthBuffer
      ensures lengthBuffer != messageBuffer && (messageBuffer == old(messageBuffer) || fresh(messageBuffer))
      ensures offset < next <= |chunk| && handedOut == old(handedOut) && receiveQueue == old(receiveQueue)
      ensures receiverWaits == old(receiverWaits)
      ensures currentMessageLength == Length(0) ==>
                messageBuffer.Length == 0 && messageOffset == 0 && lengthOffset == 4 && !destroyed &&
                Feed(old(Model()), chunk[offset..next], maxFrameSize) ==
                Stream([], handedOut + receiveQueue + [[]], false)
      ensures currentMessageLength != Length(0) ==>
                Valid() && Model() == Feed(old(Model()), chunk[offset..next], maxFrameSize)
                && (destroyed || next == |chunk| || currentMessageLength.Length?)
    {
      var toCopy := if 4 - lengthOffset < |chunk| - offset then 4 - lengthOffset else |chunk| - offset;
      next := offset + toCopy;
      ghost var s, copied := Model(), chunk[offset..next];
      PutBytes(lengthBuffer, lengthOffset, chunk[offset..next]);
      lengthOffset := lengthOffset + toCopy;
      if lengthOffset < 4 {
        FeedKeeps(s, copied, maxFrameSize);
        return;
      }
      FeedPrefixEnd(s, copied, maxFrameSize);
      assert lengthBuffer[..] == s.partial + copied;
      LengthRead();
    }

    /** The prefix is complete: its length destroys the socket or sizes the message buffer. */
    method LengthRead()
      requires lengthBuffer != messageBuffer && lengthBuffer.Length == 4 && lengthOffset == 4
      requires !destroyed && currentMessageLength == NotRead && (receiverWaits ==> receiveQueue == [])
      modifies `destroyed, `currentMessageLength, `lengthOffset, `messageBuffer, `messageOffset
      ensures lengthBuffer != messageBuffer && (messageBuffer == old(messageBuffer) || fresh(messageBuffer))
      ensures var length := FromBytes(lengthBuffer[..]);
              if length > maxFrameSize then destroyed && currentMessageLength == NotRead && lengthOffset == 0
              else
                && !destroyed && currentMessageLength == Length(length) && lengthOffset == 4
                && messageBuffer.Length == length && messageOffset == 0
    {
      var length := FromBytes(lengthBuffer[..]);
      if length > maxFrameSize {
        destroyed := true;
        currentMessageLength := NotRead;
        lengthOffset := 0;
        return;
      }
      currentMessageLength := Length(length);
      messageBuffer := new Byte[length];
      messageOffset := 0;
    }

    method CopyMessage(chunk: seq<Byte>, offset: nat) returns (next: nat)
      requires Valid() && currentMessageLength.Length? && offset <= |chunk|
      modifies `messageOffset, messageBuffer
      ensures offset <= next <= |chunk| && (offset < |chunk| ==> offset < next)
      ensures messageOffset <= messageBuffer.Length && (messageOffset < messageBuffer.Length ==> next == |chunk|)
      ensures |old(Model().partial)| >= 4 && lengthBuffer[..] == old(Model().partial)[..4]
      ensures lengthBuffer[..] + messageBuffer[..messageOffset] == old(Model().partial) + chunk[offset..next]
    {
      var needed := messageBuffer.Length - messageOffset;
      var toCopy := if needed < |chunk| - offset then needed else |chunk| - offset;
      next := offset + toCopy;
      PutBytes(messageBuffer, messageOffset, chunk[offset..next]);
      messageOffset := messageOffset + toCopy;
    }

    /** Copies into the message buffer what the chunk has of the message, and delivers it once complete. */
    method ReadMessage(chunk: seq<Byte>, offset: nat) returns (next: nat)
      requires Valid() && currentMessageLength.Length? && offset <= |chunk|
      modifies this, messageBuffer
      ensures Valid() && messageBuffer == old(messageBuffer) && destroyed == old(destroyed)
      ensures offset <= next <= |chunk| && (offset < |chunk| ==> offset < next)
      ensures Model() == Feed(old(Model()), chunk[offset..next], maxFrameSize)
      ensures currentMessageLength == NotRead || next == |chunk|
    {
      ghost var s := Model();
      next := CopyMessage(chunk, offset);
      ghost var copied := chunk[offset..next];
      if messageOffset < messageBuffer.Length {
        FeedKeeps(s, copied, maxFrameSize);
        return;
      }
      FeedMessageEnd(s, copied, maxFrameSize);
      assert messageBuffer[..] == (lengthBuffer[..] + messageBuffer[..messageOffset])[4..];
      assert messageBuffer[..] == s.partial[4..] + copied;
      Deliver();
    }

    /** The message buffer is full: its content is delivered and a new prefix begins. */
    method Deliver()
      requires receiverWaits ==> receiveQueue == []
      requires lengthBuffer != messageBuffer && lengthBuffer.Length == 4
      modifies this
      ensures Valid() && messageBuffer == old(messageBuffer) && destroyed == old(destroyed)
      ensures currentMessageLength == NotRead && lengthOffset == 0
      ensures handedOut + receiveQueue == old(handedOut + receiveQueue) + [old(messageBuffer[..])]
    {
      EnqueueMessage(messageBuffer[..]);
      currentMessageLength := NotRead;
      lengthOffset := 0;
      messageOffset := 0;
    }

    /** A chunk from the socket, which sends none once it was destroyed. */
    method HandleData(chunk: seq<Byte>)
      requires Valid() && !destroyed
      modifies this, lengthBuffer, messageBuffer
      ensures Valid() && Model() == Feed(old(Model()), chunk, maxFrameSize)
    {
      var offset := 0;
      ghost var before := Model();
      assert chunk[0..] == chunk;
      while offset < |chunk|
        invariant 0 <= offset <= |chunk| && Valid() && !destroyed
        invariant messageBuffer == old(messageBuffer) || fresh(messageBuffer)
        invariant Feed(before, chunk, maxFrameSize) == Feed(Model(), chunk[offset..], maxFrameSize)
        decreases |chunk| - offset
      {
        if currentMessageLength == NotRead {
          ghost var s, start := Model(), offset;
          offset := ReadLength(chunk, offset);
          Advance(s, chunk, start, offset);
          if destroyed {
            return;
          }
        }
        if currentMessageLength == Length(0) {
          ghost var delivered := handedOut + receiveQueue + [[]];
          assert messageBuffer[..] == [];
          Deliver();
          assert Model() == Stream([], delivered, false);
        } else if currentMessageLength.Length? {
          ghost var s, start := Model(), offset;
          offset := ReadMessage(chunk, offset);
          Advance(s, chunk, start, offset);
        }
      }
      assert chunk[offset..] == [];
    }

    lemma Advance(s: Stream, chunk: seq<Byte>, start: nat, next: nat)
      requires start <= next <= |chunk|
      ensures Feed(s, chunk[start..], maxFrameSize) == Feed(Feed(s, chunk[start..next], maxFrameSize), chunk[next..], maxFrameSize)
    {
      assert chunk[start..] == chunk[start..next] + chunk[next..];
      FeedSplit(s, chunk[start..next], chunk[next..], maxFrameSize);
    }

    /**
     Hands out the oldest message; only once none is left does it tell the error that ended the connection,
     and only while connected does it wait for the next one.
     */
    method Receive() returns (r: Received)
      requires Valid()
      modifies `receiveQueue, `receiverWaits, `handedOut
      ensures Valid() && Model() == old(Model())
      ensures handedOut == old(handedOut) + (if r.Message? then [r.message] else [])
      ensures r.Message? <==> old(receiveQueue) != []
      ensures old(receiveQueue) == [] ==>
                r == if terminalError.Because? then Fails(terminalError.error)
                     else if !connected then Fails(ConnectionClosed) else Waits
      ensures receiverWaits == (old(receiverWaits) || r.Waits?)
    {
      if receiveQueue != [] {
        r := Message(receiveQueue[0]);
        receiveQueue := receiveQueue[1..];
        handedOut := handedOut + [r.message];
        return;
      }
      if terminalError.Because? {
        return Fails(terminalError.error);
      }
      if !connected {
        return Fails(ConnectionClosed);
      }
      receiverWaits := true;
      return Waits;
    }

    /** The first error wins, and rejects the receiver that waits; what was received stays to be handed out. */
    method FailReceive(error: SocketError) returns (rejected: bool)
      requires Valid()
      modifies `terminalError, `receiverWaits
      ensures Valid() && Model() == old(Model()) && !receiverWaits && rejected == old(receiverWaits)
      ensures terminalError == if old(terminalError).Because? then old(terminalError) else Because(error)
    {
      if terminalError == NoError {
        terminalError := Because(error);
      }
      rejected := receiverWaits;
      receiverWaits := false;
    }

    method SocketConnected()
      requires Valid()
      modifies `connected
      ensures Valid() && Model() == old(Model()) && connected
    {
      connected := true;
    }

    /** An error or the receive timeout of the socket. */
    method SocketEnded(error: SocketError) returns (rejected: bool)
      requires Valid()
      modifies `connected, `terminalError, `receiverWaits
      ensures Valid() && Model() == old(Model()) && !connected && !receiverWaits && rejected == old(receiverWaits)
      ensures terminalError == if old(terminalError).Because? then old(terminalError) else Because(error)
    {
      connected := false;
      rejected := FailReceive(error);
    }

    /** The socket closed; after an earlier error nothing is told again. */
    method SocketClosed() returns (rejected: bool)
      requires Valid()
      modifies `connected, `terminalError, `receiverWaits
      ensures Valid() && Model() == old(Model()) && !connected && terminalError.Because?
      ensures old(terminalError) == NoError ==> terminalError == Because(ConnectionClosed) && rejected == old(receiverWaits)
      ensures old(terminalError).Because? ==> terminalError == old(terminalError) && !rejected
    {
      connected := false;
      rejected := false;
      if terminalError == NoError {
        rejected := FailReceive(ConnectionClosed);
      }
    }
  }
}
