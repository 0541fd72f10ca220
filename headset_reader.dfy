/**
 * `HeadsetReader`: the handshake that waits for the bridge to switch to JSON, the
 * subscriber registry, and the read loop that hands every decoded packet to every
 * registered subscriber. The socket and the coroutines are replaced by a sequence
 * of input lines read one at a time.
 */
module HeadsetReading {
  import opened Wrappers
  import opened Headset
  import opened SeqLemmas

  /** Kotlin's `Any()` token: a fresh object, modelled as a number never handed out before. */
  type Token = nat

  /** How the reader ends. */
  datatype Stop =
    | HandshakeFailed(error: DecodeError)  // an exception other than JsonParseException escaped `init`
    | HandshakeInputEnded                  // `readLine()` returned null during the handshake
    | StreamFailed(error: DecodeError)     // an exception ended the read loop; `socket.use` closed the socket
    | StreamEnded                          // `useLines` reached the end of the input

  datatype ReaderState = Streaming | Stopped(reason: Stop)

  /** Every line from index i up to j fails to decode with a JSON parse error. */
  ghost predicate Unparsable(lines: seq<string>, decode: Decoder, i: nat, j: nat)
    requires i <= j <= |lines|
  {
    forall k :: i <= k < j ==> decode(lines[k]) == Failure(JsonParseError)
  }

  /**
   * The outcome of the handshake loop started at line i: the index of the line after
   * the first line that decodes, or the way the loop is left without one.
   */
  function HandshakeFrom(lines: seq<string>, decode: Decoder, i: nat): (r: Result<nat, Stop>)
    requires i <= |lines|
    ensures r.Success? ==>
      i < r.value <= |lines| && Unparsable(lines, decode, i, r.value - 1) &&
      decode(lines[r.value - 1]).Success?
    ensures r == Failure(HandshakeInputEnded) <==> Unparsable(lines, decode, i, |lines|)
    ensures r.Failure? ==> r.error.HandshakeFailed? || r.error.HandshakeInputEnded?
    ensures r.Failure? && r.error.HandshakeFailed? ==> r.error.error != JsonParseError
    decreases |lines| - i
  {
    if i == |lines| then
      Failure(HandshakeInputEnded)
    else
      match decode(lines[i])
      case Success(_) => Success(i + 1)
      case Failure(JsonParseError) => HandshakeFrom(lines, decode, i + 1)
      case Failure(e) => Failure(HandshakeFailed(e))
  }

  /**
   * The handshake loop of `init`: read lines, skip those Jackson cannot parse, stop at
   * the first line that decodes and discard its packet.
   */
  method Handshake(lines: seq<string>, decode: Decoder) returns (r: Result<nat, Stop>)
    ensures r == HandshakeFrom(lines, decode, 0)
  {
    var i := 0;
    while true
      invariant i <= |lines|
      invariant HandshakeFrom(lines, decode, i) == HandshakeFrom(lines, decode, 0)
      decreases |lines| - i
    {
      if i == |lines| {
        return Failure(HandshakeInputEnded);
      }
      var decoded := decode(lines[i]);
      i := i + 1;
      match decoded
      case Success(_) =>
        return Success(i);
      case Failure(JsonParseError) =>
      case Failure(e) =>
        return Failure(HandshakeFailed(e));
    }
  }

  /**
   * The handshake ends at the first line that is not a JSON parse error: just after
   * it when it decodes, with the exception it raised otherwise.
   */
  lemma {:induction false} HandshakeStopsAtFirstParsable(lines: seq<string>, decode: Decoder, i: nat, k: nat)
    requires i <= k < |lines|
    requires Unparsable(lines, decode, i, k) && decode(lines[k]) != Failure(JsonParseError)
    ensures HandshakeFrom(lines, decode, i) ==
      if decode(lines[k]).Success? then Success(k + 1) else Failure(HandshakeFailed(decode(lines[k]).error))
    decreases k - i
  {
    if i < k {
      assert decode(lines[i]) == Failure(JsonParseError);
      HandshakeStopsAtFirstParsable(lines, decode, i + 1, k);
    }
  }

  /**
   * A line that matches none of the packet keys, met before any line decodes, ends the
   * handshake with the `IllegalArgumentException` of `HeadsetData::from`, which `init`
   * does not catch.
   */
  lemma UnrecognizedLineFailsHandshake(lines: seq<string>, readValue: Mapper, k: nat)
    requires k < |lines| && Unparsable(lines, Decode(readValue), 0, k)
    requires Classify(lines[k]).None?
    ensures HandshakeFrom(lines, Decode(readValue), 0) == Failure(HandshakeFailed(Unrecognized))
  {
    HandshakeStopsAtFirstParsable(lines, Decode(readValue), 0, k);
  }

  /** The packets the read loop decodes from line i on, and how the loop ends. */
  datatype StreamOutcome = StreamOutcome(packets: seq<HeadsetData>, stop: Stop)

  function StreamFrom(lines: seq<string>, decode: Decoder, i: nat): (r: StreamOutcome)
    requires i <= |lines|
    ensures i + |r.packets| <= |lines|
    ensures forall k :: 0 <= k < |r.packets| ==> decode(lines[i + k]) == Success(r.packets[k])
    ensures r.stop == StreamEnded <==> i + |r.packets| == |lines|
    ensures r.stop != StreamEnded ==>
      decode(lines[i + |r.packets|]).Failure? &&
      r.stop == StreamFailed(decode(lines[i + |r.packets|]).error)
    decreases |lines| - i
  {
    if i == |lines| then
      StreamOutcome([], StreamEnded)
    else
      match decode(lines[i])
      case Success(p) =>
        var rest := StreamFrom(lines, decode, i + 1);
        var r := StreamOutcome([p] + rest.packets, rest.stop);
        assert i + |r.packets| == (i + 1) + |rest.packets|;
        assert forall k :: 1 <= k < |r.packets| ==>
          r.packets[k] == rest.packets[k - 1] && i + k == (i + 1) + (k - 1);
        r
      case Failure(e) => StreamOutcome([], StreamFailed(e))
  }

  /** One step of the read loop's outcome: a decoded line adds its packet in front, a failed one stops. */
  lemma StreamFromStep(lines: seq<string>, decode: Decoder, c: nat)
    requires c < |lines|
    ensures decode(lines[c]).Success? ==>
      StreamFrom(lines, decode, c) ==
        StreamOutcome([decode(lines[c]).value] + StreamFrom(lines, decode, c + 1).packets, StreamFrom(lines, decode, c + 1).stop)
    ensures decode(lines[c]).Failure? ==>
      StreamFrom(lines, decode, c) == StreamOutcome([], StreamFailed(decode(lines[c]).error))
  {
  }

  /** A line that fails to decode ends the read loop: no packet after it is delivered. */
  lemma {:induction false} FailedLineEndsStream(lines: seq<string>, decode: Decoder, i: nat, k: nat)
    requires i <= k < |lines| && decode(lines[k]).Failure?
    ensures |StreamFrom(lines, decode, i).packets| <= k - i
    ensures |StreamFrom(lines, decode, i).packets| == k - i ==> StreamFrom(lines, decode, i).stop == StreamFailed(decode(lines[k]).error)
    decreases k - i
  {
    if i < k && decode(lines[i]).Success? {
      FailedLineEndsStream(lines, decode, i + 1, k);
    }
  }

  /** Every token in `tokens` gets p appended to its log; the other logs are unchanged. */
  function Delivered(log: map<Token, seq<HeadsetData>>, tokens: set<Token>, p: HeadsetData)
    : (r: map<Token, seq<HeadsetData>>)
    requires tokens <= log.Keys
    ensures r.Keys == log.Keys
  {
    map t | t in log :: if t in tokens then log[t] + [p] else log[t]
  }

  class HeadsetReader<H> {
    const input: seq<string>
    /** How each line is decoded: `HeadsetData::from` with the reader's mapper (see `Open`). */
    const decode: Decoder
    /** Index of the line the next `readLine` returns. */
    var cursor: nat
    var state: ReaderState
    /** The `subscribers` map: token to handler. */
    var subscribers: map<Token, H>
    var nextToken: Token
    /** The packets each token's handler has been called with, in order. */
    var received: map<Token, seq<HeadsetData>>
    /** Every packet the read loop has decoded so far. */
    ghost var streamed: seq<HeadsetData>
    /** How many packets had been decoded when each token subscribed. */
    ghost var joined: map<Token, nat>

    ghost predicate Valid()
      reads this
    {
      && cursor <= |input|
      && subscribers.Keys <= received.Keys
      && received.Keys == joined.Keys
      && (forall t :: t in received ==> t < nextToken)
      && (forall t :: t in subscribers ==> joined[t] <= |streamed| && received[t] == streamed[joined[t]..])
    }

    /** `init`: the handshake; on success the read loop starts at the line after the one that decoded. */
    constructor (input: seq<string>, decode: Decoder)
      ensures Valid()
      ensures this.input == input && this.decode == decode
      ensures subscribers == map[] && received == map[] && streamed == []
      ensures HandshakeFrom(input, decode, 0).Success? ==>
        state == Streaming && cursor == HandshakeFrom(input, decode, 0).value
      ensures HandshakeFrom(input, decode, 0).Failure? ==>
        state == Stopped(HandshakeFrom(input, decode, 0).error)
    {
      this.input := input;
      this.decode := decode;
      subscribers := map[];
      nextToken := 0;
      received := map[];
      streamed := [];
      joined := map[];
      var r := Handshake(input, decode);
      match r
      case Success(next) =>
        cursor := next;
        state := Streaming;
      case Failure(stop) =>
        cursor := |input|;
        state := Stopped(stop);
    }

    /** `subscribe`: register a handler under a token that is not in use. */
    method Subscribe(handler: H) returns (token: Token)
      requires Valid()
      modifies this`subscribers, this`nextToken, this`received, this`joined
      ensures Valid()
      ensures token !in old(subscribers) && token !in old(received)
      ensures subscribers == old(subscribers)[token := handler]
      ensures received == old(received)[token := []]
    {
      token := nextToken;
      nextToken := nextToken + 1;
      subscribers := subscribers[token := handler];
      received := received[token := []];
      joined := joined[token := |streamed|];
    }

    /** `unsubscribe`: remove the token; absent tokens are ignored. */
    method Unsubscribe(token: Token)
      requires Valid()
      modifies this`subscribers
      ensures Valid()
      ensures subscribers == old(subscribers) - {token}
      ensures token !in old(subscribers) ==> subscribers == old(subscribers)
    {
      subscribers := subscribers - {token};
    }

    /** `subscribers.values.forEach { it(packet) }`: call every registered handler once. */
    method FanOut(p: HeadsetData)
      requires subscribers.Keys <= received.Keys
      modifies this`received
      ensures received == Delivered(old(received), subscribers.Keys, p)
    {
      var pending := subscribers.Keys;
      while pending != {}
        invariant pending <= subscribers.Keys
        invariant received.Keys == old(received).Keys
        invariant forall t :: t in received ==>
          received[t] == if t in subscribers && t !in pending then old(received)[t] + [p] else old(received)[t]
        decreases pending
      {
        var t :| t in pending;
        received := received[t := received[t] + [p]];
        pending := pending - {t};
      }
    }

    /** One step of the read loop: decode the next line and fan it out, or stop. */
    method ReadNext()
      requires Valid() && state == Streaming
      modifies this`cursor, this`state, this`received, this`streamed
      ensures Valid()
      ensures old(cursor) == |input| ==>
        state == Stopped(StreamEnded) && cursor == old(cursor) &&
        received == old(received) && streamed == old(streamed)
      ensures old(cursor) < |input| && decode(input[old(cursor)]).Success? ==>
        var p := decode(input[old(cursor)]).value;
        state == Streaming && cursor == old(cursor) + 1 && streamed == old(streamed) + [p] &&
        received == Delivered(old(received), subscribers.Keys, p)
      ensures old(cursor) < |input| && decode(input[old(cursor)]).Failure? ==>
        state == Stopped(StreamFailed(decode(input[old(cursor)]).error)) &&
        cursor == old(cursor) + 1 && received == old(received) && streamed == old(streamed)
    {
      if cursor == |input| {
        state := Stopped(StreamEnded);
        return;
      }
      var decoded := decode(input[cursor]);
      cursor := cursor + 1;
      match decoded
      case Success(p) =>
        FanOut(p);
        forall t | t in subscribers
          ensures received[t] == (streamed + [p])[joined[t]..]
        {
          SuffixOfAppend(streamed, [p], joined[t]);
        }
        streamed := streamed + [p];
      case Failure(e) =>
        state := Stopped(StreamFailed(e));
    }

    /** The read loop: run until the input ends or a line fails to decode. */
    method Run()
      requires Valid() && state == Streaming
      modifies this`cursor, this`state, this`received, this`streamed
      ensures Valid()
      ensures state == Stopped(StreamFrom(input, decode, old(cursor)).stop)
      ensures streamed == old(streamed) + StreamFrom(input, decode, old(cursor)).packets
      ensures forall t :: t in subscribers ==>
        received[t] == old(received)[t] + StreamFrom(input, decode, old(cursor)).packets
    {
      ghost var start := cursor;
      ghost var before := streamed;
      ghost var fed: seq<HeadsetData> := [];
      while state == Streaming
        invariant Valid()
        invariant start <= cursor
        invariant streamed == before + fed
        invariant state == Streaming ==>
          StreamFrom(input, decode, start) ==
            StreamOutcome(fed + StreamFrom(input, decode, cursor).packets, StreamFrom(input, decode, cursor).stop)
        invariant state.Stopped? ==> StreamFrom(input, decode, start) == StreamOutcome(fed, state.reason)
        decreases |input| - cursor + (if state == Streaming then 1 else 0)
      {
        ghost var c := cursor;
        if c < |input| {
          StreamFromStep(input, decode, c);
        }
        ReadNext();
        if c < |input| && decode(input[c]).Success? {
          ghost var p := decode(input[c]).value;
          AppendAssociates(fed, [p], StreamFrom(input, decode, cursor).packets);
          fed := fed + [p];
        }
      }
      forall t | t in subscribers
        ensures received[t] == old(received)[t] + fed
      {
        SuffixOfAppend(before, fed, joined[t]);
      }
    }
  }

  /** A reader over `input` whose lines are decoded by `HeadsetData::from` with the given mapper. */
  method Open<H>(input: seq<string>, readValue: Mapper) returns (reader: HeadsetReader<H>)
    ensures fresh(reader) && reader.Valid()
    ensures reader.input == input && reader.decode == Decode(readValue)
    ensures reader.subscribers == map[] && reader.received == map[]
    ensures HandshakeFrom(input, Decode(readValue), 0).Success? ==>
      reader.state == Streaming && reader.cursor == HandshakeFrom(input, Decode(readValue), 0).value
    ensures HandshakeFrom(input, Decode(readValue), 0).Failure? ==>
      reader.state == Stopped(HandshakeFrom(input, Decode(readValue), 0).error)
  {
    reader := new HeadsetReader(input, Decode(readValue));
  }

  /** Subscribing and then unsubscribing the returned token restores the registry. */
  method SubscribeThenUnsubscribe<H>(reader: HeadsetReader<H>, handler: H)
    requires reader.Valid()
    modifies reader
    ensures reader.Valid()
    ensures reader.subscribers == old(reader.subscribers)
  {
    var token := reader.Subscribe(handler);
    reader.Unsubscribe(token);
  }
}
