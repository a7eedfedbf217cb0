/** Wire frames: the 15-byte header, the correlation label, decoding, and the parser that joins pieces. */
module Frames {
  import opened BigEndian

  const HEADER_LENGTH := 15
  const DEFAULT_MAX_MESSAGE_BYTES := 1024 * 1024
  const MAX_U16 := 0xffff
  const MAX_U64 := 0xffff_ffff_ffff_ffff

  datatype Frame = Frame(messageType: int, flags: int, correlation: int, payload: seq<Byte>)

  datatype CodecError =
    | InvalidType | InvalidFlags | InvalidCorrelation | TooLong | Truncated | ReservedFlags | LengthMismatch | SeveralMessages

  datatype Result<+T> = Ok(value: T) | Error(why: CodecError)

  /** What may be sent: the fields fit their places, no reserved flag is set, and the whole is not too long. */
  predicate Sendable(f: Frame) {
    && 0 <= f.messageType <= MAX_U16
    && 0 <= f.flags < 8
    && 0 <= f.correlation <= MAX_U64
    && |f.payload| + HEADER_LENGTH <= DEFAULT_MAX_MESSAGE_BYTES
  }

  function Header(f: Frame): (h: seq<Byte>)
    requires Sendable(f)
    ensures |h| == HEADER_LENGTH
  {
    ToBytes(f.messageType, 2) + [f.flags] + ToBytes(f.correlation, 8) + ToBytes(|f.payload|, 4)
  }

  function FrameBytes(f: Frame): seq<Byte>
    requires Sendable(f)
  {
    Header(f) + f.payload
  }

  /** Writes a frame, or says which field cannot be written. */
  function EncodeFrame(f: Frame): (r: Result<seq<Byte>>)
    ensures r.Ok? <==> Sendable(f)
  {
    if f.messageType < 0 || f.messageType > MAX_U16 then Error(InvalidType)
    else if f.flags < 0 || f.flags >= 8 then Error(InvalidFlags)
    else if f.correlation < 0 || f.correlation > MAX_U64 then Error(InvalidCorrelation)
    else if |f.payload| + HEADER_LENGTH > DEFAULT_MAX_MESSAGE_BYTES then Error(TooLong)
    else Ok(FrameBytes(f))
  }

  /** Labels a written frame with the correlation of its request. */
  function WithCorrelation(frame: seq<Byte>, correlation: int): Result<seq<Byte>> {
    if correlation <= 0 || correlation > MAX_U64 then Error(InvalidCorrelation)
    else if |frame| < HEADER_LENGTH then Error(Truncated)
    else Ok(frame[..3] + ToBytes(correlation, 8) + frame[11..])
  }

  function DecodeFrame(frame: seq<Byte>, maxMessageBytes: nat): Result<Frame> {
    if |frame| < HEADER_LENGTH then Error(Truncated)
    else if frame[2] >= 8 then Error(ReservedFlags)
    else
      var payloadLength := FromBytes(frame[11..15]);
      if payloadLength + HEADER_LENGTH > maxMessageBytes then Error(TooLong)
      else if |frame| - HEADER_LENGTH != payloadLength then Error(LengthMismatch)
      else Ok(Frame(FromBytes(frame[..2]), frame[2], FromBytes(frame[3..11]), frame[HEADER_LENGTH..]))
  }

  // ---------- Encoding and decoding ----------

  lemma HeaderFields(f: Frame)
    requires Sendable(f)
    ensures var b := FrameBytes(f);
            && b[..2] == ToBytes(f.messageType, 2) && b[2] == f.flags
            && b[3..11] == ToBytes(f.correlation, 8) && b[11..15] == ToBytes(|f.payload|, 4)
            && b[15..] == f.payload && |b| == HEADER_LENGTH + |f.payload|
  {
  }

  /** Where each field of a frame stands on the wire, most significant byte first. */
  lemma WireLayout(f: Frame)
    requires Sendable(f)
    ensures var b := FrameBytes(f);
            && |b| == 15 + |f.payload| && b[15..] == f.payload
            && Value(b[0]) * 0x100 + Value(b[1]) == f.messageType && b[2] == f.flags
            && Value(b[3]) * Pow256(7) + FromBytes(b[4..11]) == f.correlation
            && Value(b[11]) * 0x100_0000 + Value(b[12]) * 0x1_0000 + Value(b[13]) * 0x100 + Value(b[14]) == |f.payload|
  {
    var b := FrameBytes(f);
    HeaderFields(f);
    Widths();
    ToFrom(f.messageType, 2);
    ToFrom(f.correlation, 8);
    ToFrom(|f.payload|, 4);
    HighByteFirst(b[3..11]);
    assert b[3..11][0] == b[3] && b[3..11][1..] == b[4..11];
    Two(b[..2]);
    Two(b[11..13]);
    Two(b[13..15]);
    assert b[11..15][..2] == b[11..13] && b[11..15][2..] == b[13..15];
    Four(b[11..15]);
  }

  lemma Two(b: seq<Byte>)
    requires |b| == 2
    ensures FromBytes(b) == Value(b[0]) * 0x100 + Value(b[1])
  {
    assert b[..1] == [b[0]] && FromBytes([b[0]]) == b[0];
  }

  lemma Four(b: seq<Byte>)
    requires |b| == 4
    ensures FromBytes(b) == FromBytes(b[..2]) * 0x1_0000 + FromBytes(b[2..])
  {
    Two(b[2..]);
    assert b[..3][..2] == b[..2];
    assert FromBytes(b[..3]) == 256 * FromBytes(b[..2]) + b[2];
  }

  /** The payload length in the header of an encoded frame. */
  lemma DeclaredLength(f: Frame)
    requires Sendable(f)
    ensures FromBytes(FrameBytes(f)[11..15]) == |f.payload|
  {
    HeaderFields(f);
    Widths();
    ToFrom(|f.payload|, 4);
  }

  /** What was encoded is decoded again, within any limit it respects. */
  lemma DecodeEncoded(f: Frame, maxMessageBytes: nat)
    requires Sendable(f) && |f.payload| + HEADER_LENGTH <= maxMessageBytes
    ensures DecodeFrame(FrameBytes(f), maxMessageBytes) == Ok(f)
  {
    HeaderFields(f);
    DeclaredLength(f);
    Widths();
    ToFrom(f.messageType, 2);
    ToFrom(f.correlation, 8);
  }

  /** Decoding succeeds on nothing else: what it accepts is the encoding of the frame it returns. */
  lemma DecodedIsEncoded(frame: seq<Byte>, maxMessageBytes: nat)
    requires maxMessageBytes <= DEFAULT_MAX_MESSAGE_BYTES && DecodeFrame(frame, maxMessageBytes).Ok?
    ensures var f := DecodeFrame(frame, maxMessageBytes).value;
            Sendable(f) && FrameBytes(f) == frame && |frame| <= maxMessageBytes
  {
    FromTo(frame[..2]);
    FromTo(frame[3..11]);
    FromTo(frame[11..15]);
    Widths();
    var f := DecodeFrame(frame, maxMessageBytes).value;
    assert frame[11..15] == ToBytes(|f.payload|, 4);
    assert frame == frame[..2] + [frame[2]] + frame[3..11] + frame[11..15] + frame[15..];
  }

  /** Labelling changes the correlation of a frame and nothing else. */
  lemma LabelledFrame(f: Frame, correlation: int)
    requires Sendable(f) && 0 < correlation <= MAX_U64
    ensures WithCorrelation(FrameBytes(f), correlation) == Ok(FrameBytes(f.(correlation := correlation)))
  {
    var kind, rest := ToBytes(f.messageType, 2) + [f.flags], ToBytes(|f.payload|, 4);
    var b := FrameBytes(f);
    assert b[..3] == kind;
    assert b[11..] == rest + f.payload;
    Regroup(kind + ToBytes(correlation, 8), rest, f.payload);
  }

  /** Labelling succeeds exactly for a correlation that is not zero and fits, on a frame with a whole header. */
  lemma LabelledIff(frame: seq<Byte>, correlation: int)
    ensures WithCorrelation(frame, correlation).Ok? <==> 0 < correlation <= MAX_U64 && |frame| >= 15
    ensures WithCorrelation(frame, correlation).Ok? ==>
              var labelled := WithCorrelation(frame, correlation).value;
              && |labelled| == |frame| && FromBytes(labelled[3..11]) == correlation
              && labelled[..3] == frame[..3] && labelled[11..] == frame[11..]
  {
    if WithCorrelation(frame, correlation).Ok? {
      var labelled := WithCorrelation(frame, correlation).value;
      Widths();
      ToFrom(correlation, 8);
      assert labelled[3..11] == ToBytes(correlation, 8);
    }
  }

  // ---------- The parser ----------

  /** What one call of the parser leaves in its buffer, and what it returns. */
  datatype Parsed = Parsed(buffer: seq<Byte>, frames: Result<seq<Frame>>)

  function Parse(buffer: seq<Byte>, data: seq<Byte>, maxMessageBytes: nat): Parsed {
    if |data| > 0 && |buffer| + |data| > maxMessageBytes then Parsed(buffer, Error(TooLong))
    else
      var combined := buffer + data;
      if |combined| < HEADER_LENGTH then Parsed(combined, Ok([]))
      else
        var frameLength := HEADER_LENGTH + FromBytes(combined[11..15]);
        if frameLength > maxMessageBytes then Parsed(combined, Error(TooLong))
        else if |combined| < frameLength then Parsed(combined, Ok([]))
        else if |combined| > frameLength then Parsed(combined, Error(SeveralMessages))
        else match DecodeFrame(combined, maxMessageBytes)
          case Ok(frame) => Parsed([], Ok([frame]))
          case Error(why) => Parsed([], Error(why))
  }

  /**
   The parser returns a frame if and only if the bytes so far are its encoding and within the limit, and waits for
   more if and only if the new ones keep within the limit and they are too few for a header, or for the acceptable
   length it declares. It keeps the bytes it waits with, and none of a frame it returns or refuses to decode; a message
   that is too long, or runs on past its declared length, is kept as it was.
   */
  lemma ParsedIff(buffer: seq<Byte>, data: seq<Byte>, maxMessageBytes: nat, f: Frame)
    requires maxMessageBytes <= DEFAULT_MAX_MESSAGE_BYTES
    ensures var b, parsed := buffer + data, Parse(buffer, data, maxMessageBytes);
            && (parsed.frames == Ok([f]) <==> Sendable(f) && FrameBytes(f) == b && |b| <= maxMessageBytes)
            && (parsed.frames == Ok([]) <==>
                  (data == [] || |b| <= maxMessageBytes) && (|b| < 15 || |b| < 15 + FromBytes(b[11..15]) <= maxMessageBytes))
            && (parsed.frames == Ok([]) ==> parsed.buffer == b)
            && (parsed.frames == Ok([f]) ==> parsed.buffer == [])
            && (parsed.frames.Error? ==>
                  parsed.buffer == if data != [] && |b| > maxMessageBytes then buffer
                                   else if |b| == 15 + FromBytes(b[11..15]) <= maxMessageBytes then [] else b)
  {
    var b := buffer + data;
    if Parse(buffer, data, maxMessageBytes).frames == Ok([f]) {
      DecodedIsEncoded(b, maxMessageBytes);
    }
    if Sendable(f) && FrameBytes(f) == b && |b| <= maxMessageBytes {
      DecodeEncoded(f, maxMessageBytes);
      DeclaredLength(f);
    }
  }

  class FrameParser {
    var buffer: seq<Byte>
    var maxMessageBytes: nat

    constructor (initialMaxMessageBytes: nat)
      ensures buffer == [] && maxMessageBytes == initialMaxMessageBytes
    {
      buffer, maxMessageBytes := [], initialMaxMessageBytes;
    }

    method ParseFrames(data: seq<Byte>) returns (frames: Result<seq<Frame>>)
      modifies `buffer
      ensures Parsed(buffer, frames) == Parse(old(buffer), data, maxMessageBytes)
    {
      if |data| > 0 {
        if |buffer| + |data| > maxMessageBytes {
          return Error(TooLong);
        }
        buffer := buffer + data;
      }
      assert buffer == old(buffer) + data;
      if |buffer| < HEADER_LENGTH {
        return Ok([]);
      }
      var payloadLength := FromBytes(buffer[11..15]);
      var frameLength := HEADER_LENGTH + payloadLength;
      if frameLength > maxMessageBytes {
        return Error(TooLong);
      }
      if |buffer| < frameLength {
        return Ok([]);
      }
      if |buffer| > frameLength {
        return Error(SeveralMessages);
      }
      var complete := buffer;
      buffer := [];
      var decoded := DecodeFrame(complete, maxMessageBytes);
      match decoded {
        case Ok(frame) => return Ok([frame]);
        case Error(why) => return Error(why);
      }
    }
  }

  /** Everything the parser returns for these pieces in turn, up to the first error. */
  function ParseAll(buffer: seq<Byte>, pieces: seq<seq<Byte>>, maxMessageBytes: nat): Parsed
    decreases |pieces|
  {
    if pieces == [] then Parsed(buffer, Ok([]))
    else
      var first := Parse(buffer, pieces[0], maxMessageBytes);
      if first.frames.Error? then first
      else
        var rest := ParseAll(first.buffer, pieces[1..], maxMessageBytes);
        if rest.frames.Error? then rest else Parsed(rest.buffer, Ok(first.frames.value + rest.frames.value))
  }

  function Concat(pieces: seq<seq<Byte>>): seq<Byte> {
    if pieces == [] then [] else pieces[0] + Concat(pieces[1..])
  }

  /** With part of a frame buffered, a further piece completes it or is kept. */
  lemma ParseContinues(f: Frame, buffer: seq<Byte>, data: seq<Byte>, maxMessageBytes: nat)
    requires Sendable(f) && |FrameBytes(f)| <= maxMessageBytes
    requires buffer + data <= FrameBytes(f)
    ensures Parse(buffer, data, maxMessageBytes) ==
            if buffer + data == FrameBytes(f) then Parsed([], Ok([f])) else Parsed(buffer + data, Ok([]))
  {
    var combined, whole := buffer + data, FrameBytes(f);
    HeaderFields(f);
    DeclaredLength(f);
    if |combined| >= HEADER_LENGTH {
      assert combined[11..15] == whole[11..15];
      if |combined| == |whole| {
        assert combined == whole;
        DecodeEncoded(f, maxMessageBytes);
      }
    }
  }

  lemma {:induction false} ParseNothing(pieces: seq<seq<Byte>>, maxMessageBytes: nat)
    requires Concat(pieces) == []
    ensures ParseAll([], pieces, maxMessageBytes) == Parsed([], Ok([]))
  {
    if pieces != [] {
      assert |pieces[0]| == 0 && |Concat(pieces[1..])| == 0;
      ParseNothing(pieces[1..], maxMessageBytes);
      var none: seq<Frame> := [];
      assert pieces[0] == [] && [] + pieces[0] == [] && none + none == none;
    }
  }

  /** However one encoded frame is cut into pieces, the parser returns that frame once. */
  lemma {:induction false} ParserJoinsPieces(f: Frame, buffer: seq<Byte>, pieces: seq<seq<Byte>>, maxMessageBytes: nat)
    requires Sendable(f) && |FrameBytes(f)| <= maxMessageBytes
    requires buffer + Concat(pieces) == FrameBytes(f) && |buffer| < |FrameBytes(f)|
    ensures ParseAll(buffer, pieces, maxMessageBytes) == Parsed([], Ok([f]))
    decreases |pieces|
  {
    if pieces != [] {
      var rest := pieces[1..];
      assert (buffer + pieces[0]) + Concat(rest) == FrameBytes(f);
      assert buffer + pieces[0] <= FrameBytes(f);
      ParseContinues(f, buffer, pieces[0], maxMessageBytes);
      var none: seq<Frame> := [];
      assert [f] + none == [f] && none + [f] == [f];
      if buffer + pieces[0] == FrameBytes(f) {
        assert |Concat(rest)| == 0;
        ParseNothing(rest, maxMessageBytes);
      } else {
        ParserJoinsPieces(f, buffer + pieces[0], rest, maxMessageBytes);
      }
    }
  }

  lemma {:induction false} ParseAllSplit(buffer: seq<Byte>, a: seq<seq<Byte>>, b: seq<seq<Byte>>, frames: seq<Frame>, maxMessageBytes: nat)
    requires ParseAll(buffer, a, maxMessageBytes).frames == Ok(frames)
    requires ParseAll(ParseAll(buffer, a, maxMessageBytes).buffer, b, maxMessageBytes).frames.Ok?
    ensures var rest := ParseAll(ParseAll(buffer, a, maxMessageBytes).buffer, b, maxMessageBytes);
            ParseAll(buffer, a + b, maxMessageBytes) == Parsed(rest.buffer, Ok(frames + rest.frames.value))
    decreases |a|
  {
    var rest := ParseAll(ParseAll(buffer, a, maxMessageBytes).buffer, b, maxMessageBytes);
    if a == [] {
      assert a + b == b && frames + rest.frames.value == rest.frames.value;
    } else {
      var first := Parse(buffer, a[0], maxMessageBytes);
      var later := ParseAll(first.buffer, a[1..], maxMessageBytes).frames.value;
      assert (a + b)[0] == a[0] && (a + b)[1..] == a[1..] + b;
      ParseAllSplit(first.buffer, a[1..], b, later, maxMessageBytes);
      Regroup(first.frames.value, later, rest.frames.value);
    }
  }

  /** The messages that carry the frames, each cut into its pieces. */
  function Flatten(cuts: seq<seq<seq<Byte>>>): seq<seq<Byte>> {
    if cuts == [] then [] else Flatten(cuts[..|cuts| - 1]) + cuts[|cuts| - 1]
  }

  /** How a frame is written: encoded, and labelled when it has a correlation. */
  ghost predicate Writes(f: Frame, bytes: seq<Byte>) {
    Sendable(f) &&
    if f.correlation == 0 then EncodeFrame(f) == Ok(bytes)
    else
      var unlabelled := EncodeFrame(f.(correlation := 0));
      unlabelled.Ok? && WithCorrelation(unlabelled.value, f.correlation) == Ok(bytes)
  }

  lemma WritesFrameBytes(f: Frame, bytes: seq<Byte>)
    requires Writes(f, bytes)
    ensures bytes == FrameBytes(f)
  {
    if f.correlation != 0 {
      LabelledFrame(f.(correlation := 0), f.correlation);
      assert f.(correlation := 0).(correlation := f.correlation) == f;
    }
  }

  /** The pieces are those of the frames, in order, and every frame is within the limit. */
  ghost predicate Cuts(frames: seq<Frame>, cuts: seq<seq<seq<Byte>>>, maxMessageBytes: nat) {
    && |cuts| == |frames|
    && forall i :: 0 <= i < |frames| ==> Writes(frames[i], Concat(cuts[i])) && |Concat(cuts[i])| <= maxMessageBytes
  }

  lemma WrittenFrameParsed(f: Frame, pieces: seq<seq<Byte>>, maxMessageBytes: nat)
    requires Writes(f, Concat(pieces)) && |Concat(pieces)| <= maxMessageBytes
    ensures ParseAll([], pieces, maxMessageBytes) == Parsed([], Ok([f]))
  {
    WritesFrameBytes(f, Concat(pieces));
    HeaderFields(f);
    assert [] + Concat(pieces) == Concat(pieces);
    ParserJoinsPieces(f, [], pieces, maxMessageBytes);
  }

  ghost predicate Parses(f: Frame, pieces: seq<seq<Byte>>, maxMessageBytes: nat) {
    ParseAll([], pieces, maxMessageBytes) == Parsed([], Ok([f]))
  }

  lemma NextPieceParsed(frames: seq<Frame>, before: seq<seq<Byte>>, f: Frame, pieces: seq<seq<Byte>>, maxMessageBytes: nat)
    requires ParseAll([], before, maxMessageBytes) == Parsed([], Ok(frames)) && Parses(f, pieces, maxMessageBytes)
    ensures ParseAll([], before + pieces, maxMessageBytes) == Parsed([], Ok(frames + [f]))
  {
    ParseAllSplit([], before, pieces, frames, maxMessageBytes);
  }

  lemma {:induction false} PiecesParsed(frames: seq<Frame>, cuts: seq<seq<seq<Byte>>>, maxMessageBytes: nat)
    requires |cuts| == |frames| && forall i :: 0 <= i < |frames| ==> Parses(frames[i], cuts[i], maxMessageBytes)
    ensures ParseAll([], Flatten(cuts), maxMessageBytes) == Parsed([], Ok(frames))
  {
    if frames != [] {
      var n := |frames| - 1;
      PiecesParsed(frames[..n], cuts[..n], maxMessageBytes);
      NextPieceParsed(frames[..n], Flatten(cuts[..n]), frames[n], cuts[n], maxMessageBytes);
      assert frames == frames[..n] + [frames[n]];
    }
  }

  /** However the frames are cut into messages, the parser returns them in order and keeps nothing. */
  lemma FramesParsed(frames: seq<Frame>, cuts: seq<seq<seq<Byte>>>, maxMessageBytes: nat)
    requires Cuts(frames, cuts, maxMessageBytes)
    ensures ParseAll([], Flatten(cuts), maxMessageBytes) == Parsed([], Ok(frames))
  {
    forall i | 0 <= i < |frames| ensures Parses(frames[i], cuts[i], maxMessageBytes) {
      WrittenFrameParsed(frames[i], cuts[i], maxMessageBytes);
    }
    PiecesParsed(frames, cuts, maxMessageBytes);
  }

  lemma {:induction false} PieceIsShort(pieces: seq<seq<Byte>>, piece: seq<Byte>)
    requires piece in pieces
    ensures |piece| <= |Concat(pieces)|
    decreases |pieces|
  {
    if piece != pieces[0] {
      PieceIsShort(pieces[1..], piece);
    }
  }

  /** No message that carries frames is longer than the longest frame. */
  lemma {:induction false} MessagesAreShort(frames: seq<Frame>, cuts: seq<seq<seq<Byte>>>, maxMessageBytes: nat)
    requires Cuts(frames, cuts, maxMessageBytes)
    ensures forall m :: m in Flatten(cuts) ==> |m| <= DEFAULT_MAX_MESSAGE_BYTES
    decreases |frames|
  {
    if frames != [] {
      var last := |frames| - 1;
      MessagesAreShort(frames[..last], cuts[..last], maxMessageBytes);
      WritesFrameBytes(frames[last], Concat(cuts[last]));
      HeaderFields(frames[last]);
      forall m | m in cuts[last] ensures |m| <= DEFAULT_MAX_MESSAGE_BYTES {
        PieceIsShort(cuts[last], m);
      }
    }
  }
}
