/** Native-messaging framing: a 32-bit little-endian length before every JSON body. */
module NativeFraming {
  import opened Wrappers
  import opened Bytes

  const RECEIVE_BUFFER_BYTES: nat := MAX_MESSAGE_BYTES * 2 + 8

  /** The largest chunk that can never trip the receive-buffer check. */
  const SAFE_CHUNK_BYTES: nat := MAX_MESSAGE_BYTES + 5

  function Header(length: nat): (header: seq<byte>)
    requires length < 0x1_0000_0000
    ensures |header| == 4 && ReadUInt32LE(header) == length
  {
    [length % 0x100, length / 0x100 % 0x100, length / 0x1_0000 % 0x100, length / 0x100_0000]
  }

  function ReadUInt32LE(buffer: seq<byte>): nat
    requires |buffer| >= 4
  {
    var b0: int, b1: int, b2: int, b3: int := buffer[0], buffer[1], buffer[2], buffer[3];
    b0 + 0x100 * b1 + 0x1_0000 * b2 + 0x100_0000 * b3
  }

  function EncodeNativeMessage<V>(codec: Codec<V>, value: V): (frame: Result<seq<byte>, FrameError>)
    ensures frame.Ok? <==> |codec.text(value)| <= MAX_MESSAGE_BYTES
    ensures frame.Ok? ==> 4 <= |frame.value| <= MAX_MESSAGE_BYTES + 4
  {
    var body := codec.text(value);
    if |body| > MAX_MESSAGE_BYTES then Err(MessageTooLarge) else Ok(Header(|body|) + body)
  }

  /** The decoding loop of one push, as a function of the whole receive buffer. */
  function Drain<V>(codec: Codec<V>, buffer: seq<byte>): Drained<V>
    decreases |buffer|
  {
    if |buffer| < 4 then Drained([], buffer, None)
    else
      var length := ReadUInt32LE(buffer);
      if length > MAX_MESSAGE_BYTES then Drained([], buffer, Some(MessageTooLarge))
      else if |buffer| < length + 4 then Drained([], buffer, None)
      else
        match codec.parse(buffer[4..length + 4])
        case None => Drained([], buffer[length + 4..], Some(MalformedJson))
        case Some(message) => Then([message], Drain(codec, buffer[length + 4..]))
  }

  function Push<V>(codec: Codec<V>, buffer: seq<byte>, chunk: seq<byte>): Drained<V> {
    if |buffer + chunk| > RECEIVE_BUFFER_BYTES then Drained([], buffer + chunk, Some(MessageTooLarge))
    else Drain(codec, buffer + chunk)
  }

  /**
   * Pushes the chunks in order and collects what the callers of `push` received. The first error
   * ends the stream, and the push that throws delivers nothing.
   */
  function Feed<V>(codec: Codec<V>, buffer: seq<byte>, chunks: seq<seq<byte>>): Drained<V>
    decreases |chunks|
  {
    if chunks == [] then Drained([], buffer, None)
    else
      var first := Push(codec, buffer, chunks[0]);
      if first.error.Some? then first.(messages := [])
      else Then(first.messages, Feed(codec, first.rest, chunks[1..]))
  }

  /** A buffer in which the decoder is waiting for more bytes. */
  ghost predicate Waiting<V>(codec: Codec<V>, buffer: seq<byte>) {
    && |buffer| < MAX_MESSAGE_BYTES + 4
    && Drain(codec, buffer) == Drained([], buffer, None)
  }

  /** Draining without error always stops at an incomplete frame. */
  lemma {:induction false} DrainStops<V>(codec: Codec<V>, buffer: seq<byte>)
    ensures Drain(codec, buffer).error == None ==> Waiting(codec, Drain(codec, buffer).rest)
    decreases |buffer|
  {
    if |buffer| >= 4 {
      var length := ReadUInt32LE(buffer);
      if length <= MAX_MESSAGE_BYTES && |buffer| >= length + 4 {
        DrainStops(codec, buffer[length + 4..]);
      }
    }
  }

  /** Bytes that arrive later never change what was already decoded. */
  lemma {:induction false} DrainExtends<V>(codec: Codec<V>, buffer: seq<byte>, more: seq<byte>)
    ensures var early := Drain(codec, buffer);
            var whole := Drain(codec, buffer + more);
            if early.error == None then whole == Then(early.messages, Drain(codec, early.rest + more))
            else whole.error == early.error && whole.messages == early.messages
    decreases |buffer|
  {
    if |buffer| >= 4 {
      var length := ReadUInt32LE(buffer);
      assert ReadUInt32LE(buffer + more) == length;
      if length <= MAX_MESSAGE_BYTES && |buffer| >= length + 4 {
        assert (buffer + more)[4..length + 4] == buffer[4..length + 4];
        assert (buffer + more)[length + 4..] == buffer[length + 4..] + more;
        DrainExtends(codec, buffer[length + 4..], more);
      }
    }
  }

  /**
   * Any split of a byte stream into chunks of at most `SAFE_CHUNK_BYTES` decodes exactly like the
   * undivided stream: same messages, same error, same leftover.
   */
  lemma {:induction false} ChunkingIsInvisible<V>(codec: Codec<V>, buffer: seq<byte>, chunks: seq<seq<byte>>)
    requires Waiting(codec, buffer)
    requires forall i | 0 <= i < |chunks| :: |chunks[i]| <= SAFE_CHUNK_BYTES
    ensures var fed := Feed(codec, buffer, chunks);
            var whole := Drain(codec, buffer + Concat(chunks));
            && fed.error == whole.error
            && fed.messages <= whole.messages
            && (fed.error == None ==> fed.messages == whole.messages && fed.rest == whole.rest && Waiting(codec, fed.rest))
    decreases |chunks|
  {
    if chunks == [] {
      assert buffer + Concat(chunks) == buffer;
    } else {
      var first := Push(codec, buffer, chunks[0]);
      assert buffer + Concat(chunks) == (buffer + chunks[0]) + Concat(chunks[1..]);
      DrainExtends(codec, buffer + chunks[0], Concat(chunks[1..]));
      DrainStops(codec, buffer + chunks[0]);
      if first.error == None {
        ChunkingIsInvisible(codec, first.rest, chunks[1..]);
      }
    }
  }

  /** The bytes on the wire for a list of messages that all fit the limit. */
  function Stream<V>(codec: Codec<V>, messages: seq<V>): seq<byte>
    requires forall i | 0 <= i < |messages| :: EncodeNativeMessage(codec, messages[i]).Ok?
  {
    if messages == [] then []
    else EncodeNativeMessage(codec, messages[0]).value + Stream(codec, messages[1..])
  }

  lemma {:induction false} DrainStream<V(!new)>(codec: Codec<V>, messages: seq<V>)
    requires RoundTrips(codec)
    requires forall i | 0 <= i < |messages| :: EncodeNativeMessage(codec, messages[i]).Ok?
    ensures Drain(codec, Stream(codec, messages)) == Drained(messages, [], None)
  {
    if messages != [] {
      var body := codec.text(messages[0]);
      var stream := Stream(codec, messages);
      assert ReadUInt32LE(stream) == ReadUInt32LE(Header(|body|));
      assert stream[4..|body| + 4] == body;
      assert stream[|body| + 4..] == Stream(codec, messages[1..]);
      DrainStream(codec, messages[1..]);
    }
  }

  /** Encoded messages come back exactly, in order, however the transport splits the bytes. */
  lemma NativeRoundTrip<V(!new)>(codec: Codec<V>, messages: seq<V>, chunks: seq<seq<byte>>)
    requires RoundTrips(codec)
    requires forall i | 0 <= i < |messages| :: EncodeNativeMessage(codec, messages[i]).Ok?
    requires forall i | 0 <= i < |chunks| :: |chunks[i]| <= SAFE_CHUNK_BYTES
    requires Concat(chunks) == Stream(codec, messages)
    ensures Feed(codec, [], chunks) == Drained(messages, [], None)
  {
    assert [] + Concat(chunks) == Concat(chunks);
    DrainStream(codec, messages);
    ChunkingIsInvisible(codec, [], chunks);
  }

  /** Frames of the largest size: all but one byte of the first leave the decoder waiting for that byte. */
  lemma LargestFrameWaits<V>(codec: Codec<V>, messages: seq<V>, buffer: seq<byte>)
    requires messages != [] && forall i | 0 <= i < |messages| :: |codec.text(messages[i])| == MAX_MESSAGE_BYTES
    requires |buffer| == MAX_MESSAGE_BYTES + 3 && buffer <= Stream(codec, messages)
    ensures Drain(codec, buffer) == Drained([], buffer, None)
  {
    var stream := Stream(codec, messages);
    var header := Header(MAX_MESSAGE_BYTES);
    assert stream[..4] == header;
    assert buffer[0] == header[0] && buffer[1] == header[1] && buffer[2] == header[2] && buffer[3] == header[3];
    assert ReadUInt32LE(buffer) == ReadUInt32LE(header);
  }

  /**
   * The chunk bound is exact. A stream of messages of the largest size decodes in full when no chunk is
   * longer than `SAFE_CHUNK_BYTES`, and is refused when a chunk longer than that follows a first chunk
   * that lacks only the last byte of the first frame.
   */
  lemma LargerChunkIsRefused<V(!new)>(codec: Codec<V>, messages: seq<V>, chunks: seq<seq<byte>>, safe: seq<seq<byte>>)
    requires RoundTrips(codec)
    requires forall i | 0 <= i < |messages| :: |codec.text(messages[i])| == MAX_MESSAGE_BYTES
    requires Concat(chunks) == Stream(codec, messages) == Concat(safe)
    requires |chunks| >= 2 && |chunks[0]| == MAX_MESSAGE_BYTES + 3 && |chunks[1]| > SAFE_CHUNK_BYTES
    requires forall i | 0 <= i < |safe| :: |safe[i]| <= SAFE_CHUNK_BYTES
    ensures Feed(codec, [], chunks).error == Some(MessageTooLarge)
    ensures Feed(codec, [], safe) == Drained(messages, [], None)
  {
    NativeRoundTrip(codec, messages, safe);
    assert [] + chunks[0] == chunks[0];
    assert Concat(chunks) == chunks[0] + Concat(chunks[1..]);
    assert Stream(codec, messages)[..|chunks[0]|] == chunks[0];
    LargestFrameWaits(codec, messages, chunks[0]);
    assert Push(codec, [], chunks[0]) == Drained([], chunks[0], None);
    assert Push(codec, chunks[0], chunks[1..][0]).error == Some(MessageTooLarge);
  }

  /**
   * Every incomplete prefix of a valid stream leaves the decoder waiting with a leftover below the
   * limit, so neither size check can fire part-way through.
   */
  lemma NativePrefixNeverFails<V(!new)>(codec: Codec<V>, messages: seq<V>, chunks: seq<seq<byte>>, more: seq<byte>)
    requires RoundTrips(codec)
    requires forall i | 0 <= i < |messages| :: EncodeNativeMessage(codec, messages[i]).Ok?
    requires forall i | 0 <= i < |chunks| :: |chunks[i]| <= SAFE_CHUNK_BYTES
    requires Concat(chunks) + more == Stream(codec, messages)
    ensures var fed := Feed(codec, [], chunks);
            && fed.error == None
            && fed.messages <= messages
            && |fed.rest| < MAX_MESSAGE_BYTES + 4
  {
    assert [] + Concat(chunks) == Concat(chunks);
    DrainStream(codec, messages);
    ChunkingIsInvisible(codec, [], chunks);
    DrainExtends(codec, Concat(chunks), more);
  }

  /** A frame within the limit that the codec cannot parse, or a header above the limit, is an error at once. */
  lemma BadFrame<V>(codec: Codec<V>, body: seq<byte>, later: seq<byte>)
    requires |body| <= MAX_MESSAGE_BYTES && codec.parse(body) == None
    ensures Drain(codec, Header(|body|) + body + later) == Drained([], later, Some(MalformedJson))
  {
    var stream := Header(|body|) + body + later;
    assert ReadUInt32LE(stream) == ReadUInt32LE(Header(|body|));
    assert stream[4..|body| + 4] == body && stream[|body| + 4..] == later;
  }

  /**
   * After valid messages, the first frame whose body does not parse ends the stream with that error, however
   * the bytes arrive: no message after it is ever delivered, and none before it is changed.
   */
  lemma BadFrameEndsStream<V(!new)>(codec: Codec<V>, messages: seq<V>, body: seq<byte>, later: seq<byte>, chunks: seq<seq<byte>>)
    requires RoundTrips(codec)
    requires forall i | 0 <= i < |messages| :: EncodeNativeMessage(codec, messages[i]).Ok?
    requires |body| <= MAX_MESSAGE_BYTES && codec.parse(body) == None
    requires forall i | 0 <= i < |chunks| :: |chunks[i]| <= SAFE_CHUNK_BYTES
    requires Concat(chunks) == Stream(codec, messages) + (Header(|body|) + body + later)
    ensures Feed(codec, [], chunks).error == Some(MalformedJson) && Feed(codec, [], chunks).messages <= messages
  {
    var bad := Header(|body|) + body + later;
    DrainStream(codec, messages);
    DrainExtends(codec, Stream(codec, messages), bad);
    BadFrame(codec, body, later);
    assert [] + bad == bad && [] + Concat(chunks) == Concat(chunks) && messages + [] == messages;
    ChunkingIsInvisible(codec, [], chunks);
  }

  /** And so does a header that announces more than the limit, before any of its body arrives. */
  lemma LargeHeaderEndsStream<V(!new)>(codec: Codec<V>, messages: seq<V>, length: nat, later: seq<byte>, chunks: seq<seq<byte>>)
    requires RoundTrips(codec)
    requires forall i | 0 <= i < |messages| :: EncodeNativeMessage(codec, messages[i]).Ok?
    requires MAX_MESSAGE_BYTES < length < 0x1_0000_0000
    requires forall i | 0 <= i < |chunks| :: |chunks[i]| <= SAFE_CHUNK_BYTES
    requires Concat(chunks) == Stream(codec, messages) + (Header(length) + later)
    ensures Feed(codec, [], chunks).error == Some(MessageTooLarge) && Feed(codec, [], chunks).messages <= messages
  {
    var bad := Header(length) + later;
    DrainStream(codec, messages);
    DrainExtends(codec, Stream(codec, messages), bad);
    assert ReadUInt32LE(bad) == ReadUInt32LE(Header(length));
    assert [] + bad == bad && [] + Concat(chunks) == Concat(chunks) && messages + [] == messages;
    ChunkingIsInvisible(codec, [], chunks);
  }

  /** The decoder object: its only state is the receive buffer. */
  class NativeMessageDecoder<V(!new)> {
    const codec: Codec<V>
    var buffer: seq<byte>

    constructor (codec: Codec<V>)
      ensures this.codec == codec && buffer == []
      ensures Waiting(codec, buffer)
    {
      this.codec := codec;
      buffer := [];
    }

    /** Consumes every complete frame, or stops at the first bad one. */
    method PushChunk(chunk: seq<byte>) returns (result: Result<seq<V>, FrameError>)
      modifies this
      ensures var pushed := Push(codec, old(buffer), chunk);
              && buffer == pushed.rest
              && result == (if pushed.error.Some? then Err(pushed.error.value) else Ok(pushed.messages))
    {
      buffer := buffer + chunk;
      if |buffer| > RECEIVE_BUFFER_BYTES {
        return Err(MessageTooLarge);
      }
      var messages: seq<V> := [];
      ghost var whole := buffer;
      while |buffer| >= 4
        invariant Drain(codec, whole) == Then(messages, Drain(codec, buffer))
        decreases |buffer|
      {
        var length := ReadUInt32LE(buffer);
        if length > MAX_MESSAGE_BYTES {
          return Err(MessageTooLarge);
        }
        if |buffer| < length + 4 {
          break;
        }
        var body := buffer[4..length + 4];
        buffer := buffer[length + 4..];
        var parsed := codec.parse(body);
        if parsed == None {
          return Err(MalformedJson);
        }
        messages := messages + [parsed.value];
      }
      assert messages + [] == messages;
      return Ok(messages);
    }
  }
}
