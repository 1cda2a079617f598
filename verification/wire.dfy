/** Newline-delimited JSON framing and the inbound admission window of an RPC peer. */
module Wire {
  import opened Wrappers
  import opened Bytes
  import opened FixedWindow

  const NEWLINE: byte := 0x0a
  const INBOUND_REQUEST_WINDOW_MS: nat := 60_000
  const MAX_INBOUND_REQUESTS_PER_WINDOW: nat := 240

  /** The position of the first newline, or the length of the buffer when there is none. */
  function IndexOfNewline(buffer: seq<byte>): (index: nat)
    ensures index <= |buffer|
    ensures forall i | 0 <= i < index :: buffer[i] != NEWLINE
    ensures index < |buffer| ==> buffer[index] == NEWLINE
  {
    if buffer == [] || buffer[0] == NEWLINE then 0 else 1 + IndexOfNewline(buffer[1..])
  }

  /** The decoding loop of one push, including the size check that follows it. */
  function DrainLines<V>(codec: Codec<V>, buffer: seq<byte>): Drained<V>
    decreases |buffer|
  {
    var newline := IndexOfNewline(buffer);
    if newline == |buffer| then
      Drained([], buffer, if |buffer| > MAX_MESSAGE_BYTES then Some(MessageTooLarge) else None)
    else
      var line, rest := buffer[..newline], buffer[newline + 1..];
      if |line| > MAX_MESSAGE_BYTES then Drained([], rest, Some(MessageTooLarge))
      else if line == [] then DrainLines(codec, rest)
      else
        match codec.parse(line)
        case None => Drained([], rest, Some(MalformedJson))
        case Some(message) => Then([message], DrainLines(codec, rest))
  }

  /**
   * Pushes the chunks in order and collects what the callers of `push` received. The first error
   * ends the stream, and the push that throws delivers nothing.
   */
  function FeedLines<V>(codec: Codec<V>, buffer: seq<byte>, chunks: seq<seq<byte>>): Drained<V>
    decreases |chunks|
  {
    if chunks == [] then Drained([], buffer, None)
    else
      var first := DrainLines(codec, buffer + chunks[0]);
      if first.error.Some? then first.(messages := [])
      else Then(first.messages, FeedLines(codec, first.rest, chunks[1..]))
  }

  ghost predicate WaitingForLine(buffer: seq<byte>) {
    IndexOfNewline(buffer) == |buffer| <= MAX_MESSAGE_BYTES
  }

  lemma {:induction false} DrainLinesStops<V>(codec: Codec<V>, buffer: seq<byte>)
    ensures DrainLines(codec, buffer).error == None ==> WaitingForLine(DrainLines(codec, buffer).rest)
    decreases |buffer|
  {
    var newline := IndexOfNewline(buffer);
    if newline < |buffer| {
      DrainLinesStops(codec, buffer[newline + 1..]);
    }
  }

  /** The first newline of a longer buffer is the old one, or lies wholly in the new bytes. */
  lemma {:induction false} IndexExtends(buffer: seq<byte>, more: seq<byte>)
    ensures var newline := IndexOfNewline(buffer);
            IndexOfNewline(buffer + more) == if newline < |buffer| then newline else |buffer| + IndexOfNewline(more)
  {
    var index := IndexOfNewline(buffer + more);
    if buffer == [] {
      assert buffer + more == more;
    } else if buffer[0] != NEWLINE {
      assert (buffer + more)[1..] == buffer[1..] + more;
      IndexExtends(buffer[1..], more);
    }
  }

  /**
   * Bytes that arrive later change neither the messages already decoded nor an error already due.
   * In particular a leftover that is already too long stays an error whatever follows it.
   */
  lemma {:induction false} DrainLinesExtends<V>(codec: Codec<V>, buffer: seq<byte>, more: seq<byte>)
    ensures var early := DrainLines(codec, buffer);
            var whole := DrainLines(codec, buffer + more);
            if early.error == None then whole == Then(early.messages, DrainLines(codec, early.rest + more))
            else whole.error == early.error && whole.messages == early.messages
    decreases |buffer|
  {
    hide IndexOfNewline;
    var newline := IndexOfNewline(buffer);
    IndexExtends(buffer, more);
    if newline < |buffer| {
      var line, rest := buffer[..newline], buffer[newline + 1..];
      assert (buffer + more)[..newline] == line;
      assert (buffer + more)[newline + 1..] == rest + more;
      DrainLinesExtends(codec, rest, more);
      FirstLine(codec, buffer, newline);
      FirstLine(codec, buffer + more, newline);
      if newline > 0 && codec.parse(line).Some? {
        var early := DrainLines(codec, rest);
        ThenAssociates([codec.parse(line).value], early.messages, DrainLines(codec, early.rest + more));
      }
    } else {
      NoLineExtends(codec, buffer, more);
    }
  }

  /** A buffer without a newline decodes to nothing yet; one that is too long stays refused. */
  lemma NoLineExtends<V>(codec: Codec<V>, buffer: seq<byte>, more: seq<byte>)
    requires IndexOfNewline(buffer) == |buffer|
    ensures var early := DrainLines(codec, buffer);
            var whole := DrainLines(codec, buffer + more);
            if early.error == None then whole == Then(early.messages, DrainLines(codec, early.rest + more))
            else whole.error == early.error && whole.messages == early.messages
  {
    IndexExtends(buffer, more);
    hide IndexOfNewline;
    var later := IndexOfNewline(buffer + more);
    if |buffer| > MAX_MESSAGE_BYTES && later < |buffer + more| {
      FirstLine(codec, buffer + more, later);
    }
  }

  /** One turn of the decoding loop: the first line is consumed and the rest is decoded. */
  lemma FirstLine<V>(codec: Codec<V>, buffer: seq<byte>, newline: nat)
    requires IndexOfNewline(buffer) == newline < |buffer|
    ensures var line, rest := buffer[..newline], buffer[newline + 1..];
            DrainLines(codec, buffer) ==
            if newline > MAX_MESSAGE_BYTES then Drained([], rest, Some(MessageTooLarge))
            else if newline == 0 then DrainLines(codec, rest)
            else if codec.parse(line) == None then Drained([], rest, Some(MalformedJson))
            else Then([codec.parse(line).value], DrainLines(codec, rest))
  {
  }

  lemma {:induction false} FeedIsDrain<V>(codec: Codec<V>, buffer: seq<byte>, chunks: seq<seq<byte>>)
    requires WaitingForLine(buffer)
    ensures var fed := FeedLines(codec, buffer, chunks);
            var whole := DrainLines(codec, buffer + Concat(chunks));
            && fed.error == whole.error
            && fed.messages <= whole.messages
            && (fed.error == None ==> fed == whole)
    decreases |chunks|
  {
    if chunks == [] {
      assert buffer + Concat(chunks) == buffer;
    } else {
      var first := DrainLines(codec, buffer + chunks[0]);
      assert buffer + Concat(chunks) == (buffer + chunks[0]) + Concat(chunks[1..]);
      DrainLinesExtends(codec, buffer + chunks[0], Concat(chunks[1..]));
      DrainLinesStops(codec, buffer + chunks[0]);
      if first.error == None {
        FeedIsDrain(codec, first.rest, chunks[1..]);
      }
    }
  }

  /** Two ways to split one byte stream fail together, or agree on every message and the leftover. */
  lemma LineChunkingIsInvisible<V>(codec: Codec<V>, left: seq<seq<byte>>, right: seq<seq<byte>>)
    requires Concat(left) == Concat(right)
    ensures var fedLeft, fedRight := FeedLines(codec, [], left), FeedLines(codec, [], right);
            && fedLeft.error == fedRight.error
            && (fedLeft.error == None ==> fedLeft == fedRight)
  {
    FeedIsDrain(codec, [], left);
    FeedIsDrain(codec, [], right);
  }

  /** JSON text produced by the encoder is never empty and escapes every newline. */
  ghost predicate SingleLine<V(!new)>(codec: Codec<V>) {
    forall v: V :: codec.text(v) != [] && NEWLINE !in codec.text(v)
  }

  /** The bytes `send` writes, or the error it throws. The limit counts the trailing newline. */
  function Send<V>(codec: Codec<V>, envelope: V): (sent: Result<seq<byte>, FrameError>)
    ensures sent.Ok? <==> |codec.text(envelope)| < MAX_MESSAGE_BYTES
    ensures sent == Err(MessageTooLarge) || sent == Ok(codec.text(envelope) + [NEWLINE])
  {
    var serialized := codec.text(envelope) + [NEWLINE];
    if |serialized| > MAX_MESSAGE_BYTES then Err(MessageTooLarge) else Ok(serialized)
  }

  /** The socket contents after sending a list of envelopes, skipping those that throw. */
  function SendAll<V>(codec: Codec<V>, envelopes: seq<V>): seq<byte> {
    if envelopes == [] then []
    else
      var first := Send(codec, envelopes[0]);
      (if first.Ok? then first.value else []) + SendAll(codec, envelopes[1..])
  }

  /** The envelopes small enough to be sent. */
  function Sendable<V>(codec: Codec<V>, envelopes: seq<V>): seq<V> {
    if envelopes == [] then []
    else (if Send(codec, envelopes[0]).Ok? then [envelopes[0]] else []) + Sendable(codec, envelopes[1..])
  }

  lemma DrainFrame<V(!new)>(codec: Codec<V>, envelope: V, later: seq<byte>)
    requires RoundTrips(codec) && SingleLine(codec)
    requires Send(codec, envelope).Ok?
    ensures DrainLines(codec, Send(codec, envelope).value + later) == Then([envelope], DrainLines(codec, later))
  {
    var text := codec.text(envelope);
    var stream := Send(codec, envelope).value + later;
    assert stream == text + ([NEWLINE] + later);
    assert IndexOfNewline(text) == |text|;
    IndexExtends(text, [NEWLINE] + later);
    assert stream[..|text|] == text;
    assert stream[|text| + 1..] == later;
    FirstLine(codec, stream, |text|);
    assert codec.parse(text) == Some(envelope);
  }

  lemma {:induction false} DrainSent<V(!new)>(codec: Codec<V>, envelopes: seq<V>)
    requires RoundTrips(codec) && SingleLine(codec)
    ensures DrainLines(codec, SendAll(codec, envelopes)) == Drained(Sendable(codec, envelopes), [], None)
  {
    if envelopes != [] {
      DrainSent(codec, envelopes[1..]);
      if Send(codec, envelopes[0]).Ok? {
        DrainFrame(codec, envelopes[0], SendAll(codec, envelopes[1..]));
      } else {
        assert SendAll(codec, envelopes) == SendAll(codec, envelopes[1..]);
      }
    }
  }

  /** Everything a peer manages to send is decoded by the other side, however the bytes arrive. */
  lemma SentIsReceived<V(!new)>(codec: Codec<V>, envelopes: seq<V>, chunks: seq<seq<byte>>)
    requires RoundTrips(codec) && SingleLine(codec)
    requires Concat(chunks) == SendAll(codec, envelopes)
    ensures FeedLines(codec, [], chunks) == Drained(Sendable(codec, envelopes), [], None)
  {
    assert [] + Concat(chunks) == Concat(chunks);
    DrainSent(codec, envelopes);
    FeedIsDrain(codec, [], chunks);
  }

  /** What is wrong with a line, if anything; the empty line is skipped. */
  function LineError<V>(codec: Codec<V>, line: seq<byte>): Option<FrameError> {
    if |line| > MAX_MESSAGE_BYTES then Some(MessageTooLarge)
    else if line != [] && codec.parse(line) == None then Some(MalformedJson)
    else None
  }

  /**
   * After everything a peer sent and any number of empty lines, the first line that is too long or does not
   * parse ends the stream with that error, however the bytes arrive: no message after it is ever delivered.
   */
  lemma BadLineEndsStream<V(!new)>(codec: Codec<V>, envelopes: seq<V>, blanks: nat, line: seq<byte>, later: seq<byte>, chunks: seq<seq<byte>>)
    requires RoundTrips(codec) && SingleLine(codec)
    requires NEWLINE !in line && LineError(codec, line).Some?
    requires Concat(chunks) == SendAll(codec, envelopes) + (seq(blanks, i => NEWLINE) + (line + ([NEWLINE] + later)))
    ensures FeedLines(codec, [], chunks).error == LineError(codec, line)
    ensures FeedLines(codec, [], chunks).messages <= Sendable(codec, envelopes)
  {
    var bad := line + ([NEWLINE] + later);
    var rest := seq(blanks, i => NEWLINE) + bad;
    DrainSent(codec, envelopes);
    DrainLinesExtends(codec, SendAll(codec, envelopes), rest);
    BlanksSkipped(codec, blanks, bad);
    BadLine(codec, line, later);
    assert [] + rest == rest && [] + Concat(chunks) == Concat(chunks);
    FeedIsDrain(codec, [], chunks);
  }

  lemma {:induction false} BlanksSkipped<V>(codec: Codec<V>, blanks: nat, rest: seq<byte>)
    ensures DrainLines(codec, seq(blanks, i => NEWLINE) + rest) == DrainLines(codec, rest)
  {
    var buffer := seq(blanks, i => NEWLINE) + rest;
    if blanks == 0 {
      assert buffer == rest;
    } else {
      assert buffer[0] == NEWLINE;
      assert buffer[1..] == seq(blanks - 1, i => NEWLINE) + rest;
      FirstLine(codec, buffer, 0);
      BlanksSkipped(codec, blanks - 1, rest);
    }
  }

  lemma BadLine<V>(codec: Codec<V>, line: seq<byte>, later: seq<byte>)
    requires NEWLINE !in line && LineError(codec, line).Some?
    ensures var drained := DrainLines(codec, line + ([NEWLINE] + later));
            drained.error == LineError(codec, line) && drained.messages == []
  {
    var buffer := line + ([NEWLINE] + later);
    assert IndexOfNewline(line) == |line|;
    IndexExtends(line, [NEWLINE] + later);
    assert buffer[..|line|] == line;
    FirstLine(codec, buffer, |line|);
  }

  class JsonLineDecoder<V(!new)> {
    const codec: Codec<V>
    var buffer: seq<byte>

    constructor (codec: Codec<V>)
      ensures this.codec == codec && buffer == []
      ensures WaitingForLine(buffer)
    {
      this.codec := codec;
      buffer := [];
    }

    method PushChunk(chunk: seq<byte>) returns (result: Result<seq<V>, FrameError>)
      modifies this
      ensures var pushed := DrainLines(codec, old(buffer) + chunk);
              && buffer == pushed.rest
              && result == (if pushed.error.Some? then Err(pushed.error.value) else Ok(pushed.messages))
    {
      buffer := buffer + chunk;
      ghost var whole := buffer;
      var messages: seq<V> := [];
      var newline := IndexOfNewline(buffer);
      while newline != |buffer|
        invariant newline == IndexOfNewline(buffer)
        invariant DrainLines(codec, whole) == Then(messages, DrainLines(codec, buffer))
        decreases |buffer|
      {
        var line := buffer[..newline];
        buffer := buffer[newline + 1..];
        if |line| > MAX_MESSAGE_BYTES {
          return Err(MessageTooLarge);
        }
        if |line| > 0 {
          var parsed := codec.parse(line);
          if parsed == None {
            return Err(MalformedJson);
          }
          messages := messages + [parsed.value];
        }
        newline := IndexOfNewline(buffer);
      }
      if |buffer| > MAX_MESSAGE_BYTES {
        return Err(MessageTooLarge);
      }
      assert messages + [] == messages;
      return Ok(messages);
    }
  }

  /** The inbound admission counter; `startedAt` is undefined until the first request. */
  datatype Inbound = Inbound(startedAt: Option<int>, count: nat)

  function AdmitInbound(inbound: Inbound, now: int): (Inbound, bool) {
    var current := match inbound.startedAt
      case None => Inbound(Some(now), 0)
      case Some(start) =>
        if now < start || now - start >= INBOUND_REQUEST_WINDOW_MS then Inbound(Some(now), 0) else inbound;
    if current.count >= MAX_INBOUND_REQUESTS_PER_WINDOW then (current, false)
    else (current.(count := current.count + 1), true)
  }

  /** The counter after requests arriving at `times`, and the times of those admitted. */
  function AdmitRun(times: seq<int>): (Inbound, seq<int>) {
    if times == [] then (Inbound(None, 0), [])
    else
      var (before, log) := AdmitRun(times[..|times| - 1]);
      var now := times[|times| - 1];
      var (after, admitted) := AdmitInbound(before, now);
      (after, if admitted then log + [now] else log)
  }

  /**
   * What the counter knows of its history. A window only ever opens on a request that it then admits, so
   * its first event is at its start, and it leaves one place less than two full windows in one width.
   */
  ghost predicate InboundAccounts(inbound: Inbound, log: seq<int>, clock: int) {
    && inbound.startedAt.Some? && 0 < inbound.count <= |log|
    && var start, limit, width := inbound.startedAt.value, MAX_INBOUND_REQUESTS_PER_WINDOW, INBOUND_REQUEST_WINDOW_MS;
       && Accounts(log, start, inbound.count, limit, width, clock)
       && log[|log| - inbound.count] == start
       && Spread(log, 2 * limit - 1, width)
       && (forall i | 0 <= i <= |log| - inbound.count - limit :: log[i] + width <= start)
  }

  /** One more request at a time not before the last one. */
  lemma AdmitKeepsAccounts(before: Inbound, log: seq<int>, clock: int, now: int)
    requires InboundAccounts(before, log, clock) && clock <= now
    ensures var (after, admitted) := AdmitInbound(before, now);
            && InboundAccounts(after, if admitted then log + [now] else log, now)
            && (after.startedAt == before.startedAt || (after.startedAt == Some(now) && now >= before.startedAt.value + INBOUND_REQUEST_WINDOW_MS))
  {
    var limit, width := MAX_INBOUND_REQUESTS_PER_WINDOW, INBOUND_REQUEST_WINDOW_MS;
    var start, count := before.startedAt.value, before.count;
    var (after, admitted) := AdmitInbound(before, now);
    Idle(log, start, count, limit, width, clock, count, now);
    if admitted {
      if now - start >= width {
        Reopen(log, start, count, limit, width, clock, now);
        Admit(log, now, 0, limit, width, now, now);
        forall i | 0 <= i <= |log| - limit ensures log[i] + width <= now {
          assert log[i] <= log[|log| - count];
        }
      } else {
        Admit(log, start, count, limit, width, clock, now);
      }
    }
  }

  lemma AdmitSnoc(times: seq<int>, now: int)
    ensures var (before, log) := AdmitRun(times);
            AdmitRun(times + [now]) == (AdmitInbound(before, now).0, log + if AdmitInbound(before, now).1 then [now] else [])
  {
    assert (times + [now])[..|times|] == times;
    assert AdmitRun(times).1 + [] == AdmitRun(times).1;
  }

  lemma {:induction false} AdmitRunAccounts(times: seq<int>)
    requires Sorted(times) && times != []
    ensures InboundAccounts(AdmitRun(times).0, AdmitRun(times).1, times[|times| - 1])
  {
    var last := |times| - 1;
    var now := times[last];
    if last == 0 {
      assert times[..last] == [] && AdmitRun(times) == (Inbound(Some(now), 1), [now]) by {
        assert AdmitRun([]) == (Inbound(None, 0), []);
        assert [] + [now] == [now];
      }
    } else {
      AdmitRunAccounts(times[..last]);
      hide InboundAccounts, AdmitInbound;
      AdmitKeepsAccounts(AdmitRun(times[..last]).0, AdmitRun(times[..last]).1, times[last - 1], now);
    }
  }

  /** At most 479 requests of one connection are admitted in any half-open minute. */
  lemma InboundRateBound(times: seq<int>, lo: int)
    requires Sorted(times)
    ensures CountIn(AdmitRun(times).1, lo, lo + INBOUND_REQUEST_WINDOW_MS) <= 2 * MAX_INBOUND_REQUESTS_PER_WINDOW - 1
  {
    if times != [] {
      AdmitRunAccounts(times);
      SpreadBounds(AdmitRun(times).1, 2 * MAX_INBOUND_REQUESTS_PER_WINDOW - 1, INBOUND_REQUEST_WINDOW_MS, lo);
    }
  }

  /** A minute that starts where any window of the counter started holds at most 240 of them. */
  lemma {:induction false} InboundWindowHolds(times: seq<int>, n: nat)
    requires Sorted(times) && 0 < n <= |times|
    ensures AdmitRun(times[..n]).0.startedAt.Some? && AdmitRun(times).0.startedAt.Some?
    ensures var w := AdmitRun(times[..n]).0.startedAt.value;
            Kept(AdmitRun(times).1, AdmitRun(times).0.startedAt.value, w, MAX_INBOUND_REQUESTS_PER_WINDOW, INBOUND_REQUEST_WINDOW_MS)
    decreases |times|
  {
    AdmitRunAccounts(times);
    hide AdmitRun, AdmitInbound, Kept, CountIn;
    var limit, width, last := MAX_INBOUND_REQUESTS_PER_WINDOW, INBOUND_REQUEST_WINDOW_MS, |times| - 1;
    if n == |times| {
      assert times[..n] == times;
      CurrentHolds(AdmitRun(times).0, AdmitRun(times).1, times[last]);
    } else {
      var (before, earlier) := AdmitRun(times[..last]);
      assert times[..last][..n] == times[..n];
      assert times == times[..last] + [times[last]];
      InboundWindowHolds(times[..last], n);
      AdmitRunAccounts(times[..last]);
      AdmitSnoc(times[..last], times[last]);
      AdmitKeepsAccounts(before, earlier, times[last - 1], times[last]);
      assert earlier + [] == earlier;
      KeptOn(earlier, before.startedAt.value, AdmitRun(times[..n]).0.startedAt.value, limit, width, times[last],
             if AdmitInbound(before, times[last]).1 then [times[last]] else [], AdmitRun(times).0.startedAt.value, AdmitRun(times).0.count);
    }
  }

  lemma CurrentHolds(inbound: Inbound, log: seq<int>, clock: int)
    requires InboundAccounts(inbound, log, clock)
    ensures Kept(log, inbound.startedAt.value, inbound.startedAt.value, MAX_INBOUND_REQUESTS_PER_WINDOW, INBOUND_REQUEST_WINDOW_MS)
  {
    WindowHolds(log, inbound.startedAt.value, inbound.count, MAX_INBOUND_REQUESTS_PER_WINDOW, INBOUND_REQUEST_WINDOW_MS, clock);
  }

  /** One request, 239 more just before its minute is over, and 240 at the next one. */
  function Crowd(early: nat, late: nat): seq<int> {
    [0] + seq(early, i => INBOUND_REQUEST_WINDOW_MS - 1) + seq(late, i => INBOUND_REQUEST_WINDOW_MS)
  }

  lemma {:induction false} CrowdAdmitted(early: nat, late: nat)
    requires early < MAX_INBOUND_REQUESTS_PER_WINDOW && late <= MAX_INBOUND_REQUESTS_PER_WINDOW
    ensures AdmitRun(Crowd(early, late)) ==
            (if late > 0 then Inbound(Some(INBOUND_REQUEST_WINDOW_MS), late) else Inbound(Some(0), early + 1), Crowd(early, late))
    decreases late, early
  {
    hide AdmitRun;
    if late > 0 {
      CrowdAdmitted(early, late - 1);
      assert Crowd(early, late) == Crowd(early, late - 1) + [INBOUND_REQUEST_WINDOW_MS];
      AdmitSnoc(Crowd(early, late - 1), INBOUND_REQUEST_WINDOW_MS);
    } else if early > 0 {
      CrowdAdmitted(early - 1, 0);
      assert Crowd(early, 0) == Crowd(early - 1, 0) + [INBOUND_REQUEST_WINDOW_MS - 1];
      AdmitSnoc(Crowd(early - 1, 0), INBOUND_REQUEST_WINDOW_MS - 1);
    } else {
      assert Crowd(0, 0) == [] + [0] == [0];
      AdmitNothing();
      AdmitSnoc([], 0);
    }
  }

  lemma AdmitNothing()
    ensures AdmitRun([]) == (Inbound(None, 0), [])
  {
  }

  /** The bound is reached: 479 requests of this run are admitted within the minute that starts at 1. */
  lemma InboundRateReached()
    ensures var times := Crowd(MAX_INBOUND_REQUESTS_PER_WINDOW - 1, MAX_INBOUND_REQUESTS_PER_WINDOW);
            && Sorted(times)
            && CountIn(AdmitRun(times).1, 1, 1 + INBOUND_REQUEST_WINDOW_MS) == 2 * MAX_INBOUND_REQUESTS_PER_WINDOW - 1
  {
    var limit, width := MAX_INBOUND_REQUESTS_PER_WINDOW, INBOUND_REQUEST_WINDOW_MS;
    CrowdAdmitted(limit - 1, limit);
    hide AdmitRun;
    var rest := seq(limit - 1, i => width - 1) + seq(limit, i => width);
    assert Crowd(limit - 1, limit) == [0] + rest;
    CountConcat([0], rest, 1, 1 + width);
    CountNone([0], 1, 1 + width);
    CountAll(rest, 1, 1 + width);
  }

  class RpcPeer {
    var inboundWindowStartedAt: Option<int>
    var inboundRequestsInWindow: nat

    constructor ()
      ensures Window() == AdmitRun([]).0
    {
      inboundWindowStartedAt := None;
      inboundRequestsInWindow := 0;
    }

    ghost function Window(): Inbound
      reads this
    {
      Inbound(inboundWindowStartedAt, inboundRequestsInWindow)
    }

    method AdmitInboundRequest(now: int) returns (admitted: bool)
      modifies this
      ensures (Window(), admitted) == AdmitInbound(old(Window()), now)
    {
      if
        inboundWindowStartedAt == None
        || now < inboundWindowStartedAt.value
        || now - inboundWindowStartedAt.value >= INBOUND_REQUEST_WINDOW_MS
      {
        inboundWindowStartedAt := Some(now);
        inboundRequestsInWindow := 0;
      }
      if inboundRequestsInWindow >= MAX_INBOUND_REQUESTS_PER_WINDOW {
        return false;
      }
      inboundRequestsInWindow := inboundRequestsInWindow + 1;
      return true;
    }
  }
}
