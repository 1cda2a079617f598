/** Byte strings, the abstract JSON codec and the shared vocabulary of the two stream decoders. */
module Bytes {
  import opened Wrappers

  type byte = x: int | 0 <= x < 256

  const MAX_MESSAGE_BYTES: nat := 1_048_576

  datatype FrameError = MessageTooLarge | MalformedJson

  /**
   * JSON text is abstract: `text` stands for `JSON.stringify` followed by UTF-8 encoding and
   * `parse` for UTF-8 decoding followed by `JSON.parse` (`None` when that throws).
   */
  datatype Codec<!V> = Codec(text: V -> seq<byte>, parse: seq<byte> -> Option<V>)

  ghost predicate RoundTrips<V(!new)>(codec: Codec<V>) {
    forall v: V :: codec.parse(codec.text(v)) == Some(v)
  }

  /**
   * What one push leaves behind: the messages decoded, the bytes still buffered, and the error it
   * throws, if any. A throwing push returns no messages to its caller.
   */
  datatype Drained<V> = Drained(messages: seq<V>, rest: seq<byte>, error: Option<FrameError>)

  /** The outcome of decoding `first` and then continuing with `second`. */
  function Then<V>(first: seq<V>, second: Drained<V>): Drained<V> {
    second.(messages := first + second.messages)
  }

  lemma ThenAssociates<V>(first: seq<V>, second: seq<V>, third: Drained<V>)
    ensures Then(first, Then(second, third)) == Then(first + second, third)
    ensures Then([], third) == third
  {
    assert first + (second + third.messages) == (first + second) + third.messages;
    assert [] + third.messages == third.messages;
  }

  function Concat(chunks: seq<seq<byte>>): seq<byte> {
    if chunks == [] then [] else chunks[0] + Concat(chunks[1..])
  }
}
