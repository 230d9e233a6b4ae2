/** The server side of the relay: decoding inbound transport frames, the
    single-flight busy gate around a chat turn, the adapter that turns the
    completion stream into fragment frames, and the connection's receive loop.

    Each spawned turn is one atomic call, the outgoing sink is a `Sink` whose
    `sent` sequence grows, and the completion stream is the chunk sequence the
    session's client answers with. */
module Ws {
  import opened Wrappers
  import opened Types
  import Upstream

  //////////////////////////////////////////////////////////////////////////////
  // Decoding.

  datatype TransportError = TransportError(reason: string)
  datatype CloseFrame = CloseFrame(code: bv16, reason: string)

  /** A transport frame as the connection delivers it. */
  datatype Frame =
    | Text(text: string)
    | Binary(data: Bytes)
    | Ping(data: Bytes)
    | Pong(data: Bytes)
    | Close(close: Option<CloseFrame>)

  /** One item of the inbound stream. */
  type Received = Result<Frame, TransportError>

  /** The binary deserializer; a failure is `None`. */
  type Deserializer = Bytes -> Option<AppMessage>

  /** The message a received item carries, if any: only a binary frame can
      carry one, and it does exactly when its payload deserializes. */
  function DecodeMessage(received: Received, deserialize: Deserializer): (r: Option<AppMessage>)
    ensures r.Some? ==> received.Ok? && received.value.Binary?
    ensures received.Ok? && received.value.Binary? ==> r == deserialize(received.value.data)
  {
    match received
    case Err(_) => None
    case Ok(frame) =>
      match frame
      case Binary(data) => deserialize(data)
      case Text(_) => None
      case Close(_) => None
      case Ping(_) => None
      case Pong(_) => None
  }

  /** With a deserializer that inverts the sink's serializer, a frame the
      server writes decodes back to the message it was written for. */
  lemma DecodeInvertsSend(p: Peer, deserialize: Deserializer, m: AppMessage)
    requires forall x :: p.encode(x).Some? ==> deserialize(p.encode(x).value) == Some(x)
    requires p.encode(m).Some?
    ensures DecodeMessage(Ok(Binary(p.encode(m).value)), deserialize) == Some(m)
  {
  }

  //////////////////////////////////////////////////////////////////////////////
  // The chunk loop of the adapter.

  /** What the loop does with one chunk: forward a fragment, stop with success,
      or stop with an error.  Only the first choice is looked at. */
  datatype Step = Fragment(text: string) | Finished | Failed

  function Classify(chunk: Upstream.Chunk): (step: Step)
    ensures step.Finished? <==> chunk.Ok? && chunk.value.choices != [] && chunk.value.choices[0].finishReason.Some?
    ensures step.Fragment? <==> chunk.Ok? && chunk.value.choices != [] && chunk.value.choices[0].finishReason.None?
                                && chunk.value.choices[0].delta.content.Some?
    ensures step.Fragment? ==> step.text == chunk.value.choices[0].delta.content.value
  {
    match chunk
    case Err(_) => Failed
    case Ok(response) =>
      if |response.choices| == 0 then Failed
      else
        var choice := response.choices[0];
        if choice.finishReason.Some? then Finished
        else
          match choice.delta.content
          case None => Failed
          case Some(text) => Fragment(text)
  }

  /** The fragments a stream yields, in order, and how it ends. */
  datatype Relayed = Relayed(fragments: seq<string>, outcome: Result<(), AppError>)

  /** The adapter's reading of a chunk stream, independent of the sink. */
  function Relay(chunks: seq<Upstream.Chunk>): (r: Relayed)
    ensures |r.fragments| <= |chunks|
    ensures r.outcome.Err? ==> r.outcome.error == ChatError
  {
    if chunks == [] then Relayed([], Ok(()))
    else
      match Classify(chunks[0])
      case Finished => Relayed([], Ok(()))
      case Failed => Relayed([], Err(ChatError))
      case Fragment(text) =>
        var rest := Relay(chunks[1..]);
        Relayed([text] + rest.fragments, rest.outcome)
  }

  /** The fragment frames for a sequence of fragments. */
  function Fragments(texts: seq<string>): (ms: seq<AppMessage>)
    ensures |ms| == |texts|
    ensures forall i :: 0 <= i < |texts| ==> ms[i] == NextChatFragment(texts[i])
  {
    if texts == [] then [] else [NextChatFragment(texts[0])] + Fragments(texts[1..])
  }

  /** Writing `ms` one by one, stopping at the first failed write. */
  function SendEach(p: Peer, sent: seq<AppMessage>, ms: seq<AppMessage>): (r: (seq<AppMessage>, Result<(), AppError>))
    ensures |sent| <= |r.0| <= |sent| + |ms|
    ensures r.0 == sent + ms[..|r.0| - |sent|]
    ensures r.1.Ok? <==> |r.0| == |sent| + |ms|
    ensures r.1.Err? ==> r.1.error == ServerError
    ensures r.1.Err? ==> |r.0| - |sent| < |ms| && Send(p, r.0, ms[|r.0| - |sent|]).1.Err?
    decreases |ms|
  {
    if ms == [] then (sent, Ok(()))
    else
      var (s, o) := Send(p, sent, ms[0]);
      if o.Err? then (s, o) else SendEach(p, s, ms[1..])
  }

  /** Every frame `SendEach` counts as sent was written by a successful `Send`
      on what had been sent before it; with the failure clause of `SendEach`,
      writing stops exactly at the first failed write. */
  lemma {:induction false} SendEachWritesSucceeded(p: Peer, sent: seq<AppMessage>, ms: seq<AppMessage>)
    ensures var r := SendEach(p, sent, ms);
      forall j :: 0 <= j < |r.0| - |sent| ==> Send(p, sent + ms[..j], ms[j]).1.Ok?
    decreases |ms|
  {
    if ms != [] && Send(p, sent, ms[0]).1.Ok? {
      var s := Send(p, sent, ms[0]).0;
      var r := SendEach(p, sent, ms);
      SendEachWritesSucceeded(p, s, ms[1..]);
      forall j | 0 <= j < |r.0| - |sent|
        ensures Send(p, sent + ms[..j], ms[j]).1.Ok?
      {
        if j == 0 {
          assert sent + ms[..j] == sent;
        } else {
          assert sent + ms[..j] == s + ms[1..][..j - 1];
          assert ms[j] == ms[1..][j - 1];
        }
      }
    }
  }

  /** The loop of the adapter, chunk by chunk: each fragment is written as
      soon as it is read, and a failed write ends the loop with its error. */
  function Pump(p: Peer, sent: seq<AppMessage>, chunks: seq<Upstream.Chunk>): (r: (seq<AppMessage>, Result<(), AppError>))
    decreases |chunks|
  {
    if chunks == [] then (sent, Ok(()))
    else
      match Classify(chunks[0])
      case Finished => (sent, Ok(()))
      case Failed => (sent, Err(ChatError))
      case Fragment(text) =>
        var (s, o) := Send(p, sent, NextChatFragment(text));
        if o.Err? then (s, o) else Pump(p, s, chunks[1..])
  }

  /** Writing a stream's fragments: if every write succeeds the outcome is the
      stream's, otherwise it is the failed write's. */
  function Deliver(p: Peer, sent: seq<AppMessage>, relayed: Relayed): (seq<AppMessage>, Result<(), AppError>)
  {
    var (s, o) := SendEach(p, sent, Fragments(relayed.fragments));
    (s, if o.Ok? then relayed.outcome else o)
  }

  /** What the adapter does for a conversation: convert it, ask the client for
      a stream, and run the loop over the stream. */
  function Adapter(client: Upstream.Client, p: Peer, sent: seq<AppMessage>, messages: seq<Message>): (r: (seq<AppMessage>, Result<(), AppError>))
  {
    match client(ToRequests(messages))
    case Refused => (sent, Err(ChatError))
    case Streamed(chunks) => Pump(p, sent, chunks)
  }

  /** The pump writes at most one frame per chunk, only fragments, and fails
      only with a stream error or a write error. */
  lemma {:induction false} PumpAppendsFragments(p: Peer, sent: seq<AppMessage>, chunks: seq<Upstream.Chunk>)
    ensures var r := Pump(p, sent, chunks);
      && |sent| <= |r.0| <= |sent| + |chunks| && r.0[..|sent|] == sent
      && (forall i :: |sent| <= i < |r.0| ==> r.0[i].NextChatFragment?)
      && (r.1.Err? ==> r.1.error == ChatError || r.1.error == ServerError)
    decreases |chunks|
  {
    if chunks != [] && Classify(chunks[0]).Fragment? {
      var (s, o) := Send(p, sent, NextChatFragment(Classify(chunks[0]).text));
      if o.Ok? {
        PumpAppendsFragments(p, s, chunks[1..]);
        var r := Pump(p, s, chunks[1..]);
        assert r.0[..|sent|] == r.0[..|s|][..|sent|];
      }
    }
  }

  /** A refused request ends with a stream error and writes nothing; an
      accepted one writes only fragments after what was sent. */
  lemma AdapterAppendsFragments(client: Upstream.Client, p: Peer, sent: seq<AppMessage>, messages: seq<Message>)
    ensures var r := Adapter(client, p, sent, messages);
      && (client(ToRequests(messages)).Refused? ==> r == (sent, Err(ChatError)))
      && |sent| <= |r.0| && r.0[..|sent|] == sent
      && (forall i :: |sent| <= i < |r.0| ==> r.0[i].NextChatFragment?)
  {
    var completion := client(ToRequests(messages));
    if completion.Streamed? {
      PumpAppendsFragments(p, sent, completion.chunks);
    }
  }

  /** Turn the completion stream for `messages` into fragment frames.  The
      caller has already marked the session busy. */
  method JustChat(messages: seq<Message>, sink: Sink, state: SessionState) returns (outcome: Result<(), AppError>)
    requires state.chatBusy
    modifies sink
    ensures (sink.sent, outcome) == Adapter(state.client, sink.peer, old(sink.sent), messages)
  {
    var request := ToRequests(messages);
    var completion := state.client(request);
    if completion.Refused? {
      return Err(ChatError);
    }
    var chunks := completion.chunks;
    var i := 0;
    while i < |chunks|
      invariant 0 <= i <= |chunks|
      invariant Pump(sink.peer, old(sink.sent), chunks) == Pump(sink.peer, sink.sent, chunks[i..])
    {
      assert chunks[i..][0] == chunks[i] && chunks[i..][1..] == chunks[i + 1..];
      var chunk := chunks[i];
      if chunk.Err? {
        return Err(ChatError);
      }
      var choices := chunk.value.choices;
      if |choices| == 0 {
        return Err(ChatError);
      }
      var choice := choices[0];
      if choice.finishReason.Some? {
        break;
      }
      if choice.delta.content.None? {
        return Err(ChatError);
      }
      var fragment := choice.delta.content.value;
      var sendResult := SendToClient(NextChatFragment(fragment), sink);
      if sendResult.Err? {
        return sendResult;
      }
      i := i + 1;
    }
    return Ok(());
  }

  /** The fragments of a stream are the texts of its leading fragment chunks,
      in stream order, empty texts included; the first other chunk ends it with
      success if it carries a finish reason and with `ChatError` otherwise, and
      running out of chunks is a success. */
  lemma {:induction false} RelayStopsAtFirstNonFragment(chunks: seq<Upstream.Chunk>, k: nat)
    requires k <= |chunks|
    requires forall j :: 0 <= j < k ==> Classify(chunks[j]).Fragment?
    requires k < |chunks| ==> !Classify(chunks[k]).Fragment?
    ensures |Relay(chunks).fragments| == k
    ensures forall j :: 0 <= j < k ==> Relay(chunks).fragments[j] == Classify(chunks[j]).text
    ensures Relay(chunks).outcome == if k < |chunks| && Classify(chunks[k]).Failed? then Err(ChatError) else Ok(())
  {
    if k > 0 {
      assert forall j :: 0 <= j < k - 1 ==> chunks[1..][j] == chunks[j + 1];
      RelayStopsAtFirstNonFragment(chunks[1..], k - 1);
    }
  }

  /** Chunks after the first finish reason are never read. */
  lemma RelayIgnoresChunksAfterFinish(prefix: seq<Upstream.Chunk>, finish: Upstream.Chunk, rest: seq<Upstream.Chunk>)
    requires forall j :: 0 <= j < |prefix| ==> Classify(prefix[j]).Fragment?
    requires Classify(finish).Finished?
    ensures Relay(prefix + [finish] + rest) == Relay(prefix + [finish])
    ensures Relay(prefix + [finish]).outcome == Ok(())
  {
    var long, short := prefix + [finish] + rest, prefix + [finish];
    RelayStopsAtFirstNonFragment(long, |prefix|);
    RelayStopsAtFirstNonFragment(short, |prefix|);
    assert Relay(long).fragments == Relay(short).fragments;
  }

  /** Writing a concatenation that fully succeeds on its first part goes on
      with the second. */
  lemma {:induction false} SendEachAppend(p: Peer, sent: seq<AppMessage>, m: AppMessage, ms: seq<AppMessage>)
    ensures SendEach(p, sent, [m] + ms) == (var (s, o) := Send(p, sent, m); if o.Err? then (s, o) else SendEach(p, s, ms))
  {
    assert ([m] + ms)[0] == m && ([m] + ms)[1..] == ms;
  }

  /** The loop is the stream's reading followed by the writes of its
      fragments: reading and writing can be separated. */
  lemma {:induction false} PumpIsRelayThenDeliver(p: Peer, sent: seq<AppMessage>, chunks: seq<Upstream.Chunk>)
    ensures Pump(p, sent, chunks) == Deliver(p, sent, Relay(chunks))
    decreases |chunks|
  {
    if chunks != [] {
      match Classify(chunks[0])
      case Finished =>
      case Failed =>
      case Fragment(text) =>
        var rest := Relay(chunks[1..]);
        assert Fragments([text] + rest.fragments) == [NextChatFragment(text)] + Fragments(rest.fragments) by {
          assert ([text] + rest.fragments)[1..] == rest.fragments;
        }
        SendEachAppend(p, sent, NextChatFragment(text), Fragments(rest.fragments));
        var (s, o) := Send(p, sent, NextChatFragment(text));
        if o.Ok? {
          PumpIsRelayThenDeliver(p, s, chunks[1..]);
        }
    }
  }

  /** A reliable connection takes every frame, in order. */
  lemma {:induction false} SendEachReliable(p: Peer, sent: seq<AppMessage>, ms: seq<AppMessage>)
    requires Reliable(p)
    ensures SendEach(p, sent, ms) == (sent + ms, Ok(()))
    decreases |ms|
  {
    if ms != [] {
      assert p.encode(ms[0]).Some?;
      SendEachReliable(p, sent + [ms[0]], ms[1..]);
      assert sent + [ms[0]] + ms[1..] == sent + ms;
    }
  }

  //////////////////////////////////////////////////////////////////////////////
  // The busy gate around one turn.

  /** The frame that ends a turn with the given outcome. */
  function Terminal(outcome: Result<(), AppError>): (m: AppMessage)
    ensures IsTerminal(m)
    ensures m.ChatCompleted? <==> outcome.Ok?
    ensures outcome.Err? ==> m == Error(outcome.error)
  {
    match outcome
    case Ok(_) => ChatCompleted
    case Err(e) => Error(e)
  }

  /** The sent sequence after an accepted turn: the adapter's writes, then the
      terminal frame, whose own write failure is ignored. */
  function Turn(client: Upstream.Client, p: Peer, sent: seq<AppMessage>, messages: seq<Message>): (after: seq<AppMessage>)
  {
    var (s, outcome) := Adapter(client, p, sent, messages);
    Send(p, s, Terminal(outcome)).0
  }

  /** The frames a turn is meant to produce for a given completion. */
  function Reply(completion: Upstream.Completion): (ms: seq<AppMessage>)
    ensures |ms| >= 1 && IsTerminal(ms[|ms| - 1])
    ensures forall i :: 0 <= i < |ms| - 1 ==> ms[i].NextChatFragment?
  {
    match completion
    case Refused => [Error(ChatError)]
    case Streamed(chunks) =>
      var relayed := Relay(chunks);
      Fragments(relayed.fragments) + [Terminal(relayed.outcome)]
  }

  /** Start a chat turn unless one is in flight.  A busy session is left
      alone and nothing is sent; otherwise the session is busy while the
      adapter runs, exactly one terminal frame follows the fragments, and the
      session is idle again whatever the outcome. */
  method Chat(messages: seq<Message>, sink: Sink, state: SessionState)
    modifies sink, state
    ensures old(state.chatBusy) ==> state.chatBusy && sink.sent == old(sink.sent)
    ensures !old(state.chatBusy) ==> !state.chatBusy && sink.sent == Turn(state.client, sink.peer, old(sink.sent), messages)
  {
    if state.chatBusy {
      return;
    }
    state.chatBusy := true;
    var outcome := JustChat(messages, sink, state);
    match outcome {
      case Ok(_) =>
        var _ := SendToClient(ChatCompleted, sink);
      case Err(e) =>
        var _ := SendToClient(Error(e), sink);
    }
    state.chatBusy := false;
  }

  /** Over a reliable connection a turn sends exactly its reply. */
  lemma TurnReliable(client: Upstream.Client, p: Peer, sent: seq<AppMessage>, messages: seq<Message>)
    requires Reliable(p)
    ensures Turn(client, p, sent, messages) == sent + Reply(client(ToRequests(messages)))
  {
    var completion := client(ToRequests(messages));
    var (s, outcome) := Adapter(client, p, sent, messages);
    assert p.encode(Terminal(outcome)).Some?;
    if completion.Streamed? {
      var relayed := Relay(completion.chunks);
      PumpIsRelayThenDeliver(p, sent, completion.chunks);
      SendEachReliable(p, sent, Fragments(relayed.fragments));
    }
  }

  /** `after` extends `sent` by a prefix of `reply`, except that its last
      frame may be `Error(ServerError)` in place of any frame but the reply's
      last one. */
  ghost predicate AppendsPrefixOf(sent: seq<AppMessage>, after: seq<AppMessage>, reply: seq<AppMessage>)
  {
    && |sent| <= |after| && after[..|sent|] == sent
    && var added := after[|sent|..];
    && |added| <= |reply|
    && (forall i :: 0 <= i < |added| - 1 ==> added[i] == reply[i])
    && (|added| > 0 ==>
          || added[|added| - 1] == reply[|added| - 1]
          || (|added| < |reply| && added[|added| - 1] == Error(ServerError)))
  }

  /** Writing a stream's fragments and then its terminal frame appends a
      prefix of the stream's reply, whatever the connection does. */
  lemma DeliverThenTerminal(p: Peer, sent: seq<AppMessage>, relayed: Relayed)
    ensures var (s, outcome) := Deliver(p, sent, relayed);
      AppendsPrefixOf(sent, Send(p, s, Terminal(outcome)).0, Fragments(relayed.fragments) + [Terminal(relayed.outcome)])
  {
    var frags := Fragments(relayed.fragments);
    var reply := frags + [Terminal(relayed.outcome)];
    var (s, o) := SendEach(p, sent, frags);
    var k := |s| - |sent|;
    assert reply[..k] == frags[..k];
    var outcome := Deliver(p, sent, relayed).1;
    if o.Ok? {
      assert Terminal(outcome) == reply[k];
    } else {
      assert Terminal(outcome) == Error(ServerError);
    }
    PrefixThenOne(sent, reply, k, Send(p, s, Terminal(outcome)).0);
  }

  /** What was sent, a prefix of `reply`, and perhaps one more frame that is
      the reply's next one or a write error, appends a prefix of `reply`. */
  lemma PrefixThenOne(sent: seq<AppMessage>, reply: seq<AppMessage>, k: nat, after: seq<AppMessage>)
    requires k < |reply|
    requires after == sent + reply[..k] || after == sent + reply[..k] + [reply[k]]
          || (k < |reply| - 1 && after == sent + reply[..k] + [Error(ServerError)])
    ensures AppendsPrefixOf(sent, after, reply)
  {
    assert after[..|sent|] == sent;
    assert forall i :: 0 <= i < k ==> after[|sent|..][i] == reply[i];
  }

  /** Whatever the connection does, a turn only appends to what was sent, and
      what it appends is a prefix of its reply, except that the last frame may
      be `Error(ServerError)` in place of the fragment whose write failed, never
      in place of the terminal frame. */
  lemma TurnSendsPrefixOfReply(client: Upstream.Client, p: Peer, sent: seq<AppMessage>, messages: seq<Message>)
    ensures var after := Turn(client, p, sent, messages);
      |sent| <= |after| && after[..|sent|] == sent
    ensures var added := Turn(client, p, sent, messages)[|sent|..];
      var reply := Reply(client(ToRequests(messages)));
      && |added| <= |reply|
      && (forall i :: 0 <= i < |added| - 1 ==> added[i] == reply[i])
      && (|added| > 0 ==>
            || added[|added| - 1] == reply[|added| - 1]
            || (|added| < |reply| && added[|added| - 1] == Error(ServerError)))
  {
    var completion := client(ToRequests(messages));
    var after := Turn(client, p, sent, messages);
    if completion.Refused? {
      assert after[|sent|..] in {[], [Error(ChatError)]};
    } else {
      PumpIsRelayThenDeliver(p, sent, completion.chunks);
      DeliverThenTerminal(p, sent, Relay(completion.chunks));
      assert AppendsPrefixOf(sent, after, Reply(completion));
    }
  }

  /** Scenario: a stream "Hel", "lo!", finish gives two fragments and a completion. */
  lemma ScenarioFragmentsThenCompleted(client: Upstream.Client, p: Peer, messages: seq<Message>)
    requires Reliable(p)
    requires client(ToRequests(messages)) == Upstream.Streamed([
      Ok(Upstream.StreamResponse([Upstream.StreamChoice(None, Upstream.Delta(Some("Hel")))])),
      Ok(Upstream.StreamResponse([Upstream.StreamChoice(None, Upstream.Delta(Some("lo!")))])),
      Ok(Upstream.StreamResponse([Upstream.StreamChoice(Some(Upstream.Stop), Upstream.Delta(None))]))])
    ensures Turn(client, p, [], messages) == [NextChatFragment("Hel"), NextChatFragment("lo!"), ChatCompleted]
  {
    var chunks := client(ToRequests(messages)).chunks;
    RelayStopsAtFirstNonFragment(chunks, 2);
    var relayed := Relay(chunks);
    assert relayed == Relayed(["Hel", "lo!"], Ok(()));
    assert Fragments(relayed.fragments) == [NextChatFragment("Hel"), NextChatFragment("lo!")];
    TurnReliable(client, p, [], messages);
  }

  /** Scenario: a stream failing after one fragment gives that fragment and a
      `ChatError` as the terminal frame. */
  lemma ScenarioFailureMidStream(client: Upstream.Client, p: Peer, messages: seq<Message>)
    requires Reliable(p)
    requires client(ToRequests(messages)) == Upstream.Streamed([
      Ok(Upstream.StreamResponse([Upstream.StreamChoice(None, Upstream.Delta(Some("Hel")))])),
      Err(Upstream.ServiceError("connection reset"))])
    ensures Turn(client, p, [], messages) == [NextChatFragment("Hel"), Error(ChatError)]
  {
    var chunks := client(ToRequests(messages)).chunks;
    RelayStopsAtFirstNonFragment(chunks, 1);
    var relayed := Relay(chunks);
    assert relayed == Relayed(["Hel"], Err(ChatError));
    assert Fragments(relayed.fragments) == [NextChatFragment("Hel")];
    TurnReliable(client, p, [], messages);
  }

  //////////////////////////////////////////////////////////////////////////////
  // The receive loop.

  /** Whether a received item is a chat request. */
  predicate IsStartChat(received: Received, deserialize: Deserializer)
  {
    var m := DecodeMessage(received, deserialize);
    m.Some? && m.value.StartChat?
  }

  /** The sent sequence after the receive loop has handled `inbound`: each
      chat request runs one turn; everything else is ignored. */
  function Serve(client: Upstream.Client, p: Peer, sent: seq<AppMessage>, inbound: seq<Received>, deserialize: Deserializer): (after: seq<AppMessage>)
    decreases |inbound|
  {
    if inbound == [] then sent
    else
      match DecodeMessage(inbound[0], deserialize)
      case Some(StartChat(messages)) => Serve(client, p, Turn(client, p, sent, messages), inbound[1..], deserialize)
      case _ => Serve(client, p, sent, inbound[1..], deserialize)
  }

  /** Handle one connection: decode each inbound item and start a turn for
      each chat request.  Turns run to completion one at a time, so the
      session is idle at every request and after the loop. */
  method HandleWs(inbound: seq<Received>, deserialize: Deserializer, sink: Sink, state: SessionState)
    requires !state.chatBusy
    modifies sink, state
    ensures !state.chatBusy
    ensures sink.sent == Serve(state.client, sink.peer, old(sink.sent), inbound, deserialize)
  {
    var i := 0;
    while i < |inbound|
      invariant 0 <= i <= |inbound|
      invariant !state.chatBusy
      invariant Serve(state.client, sink.peer, old(sink.sent), inbound, deserialize)
             == Serve(state.client, sink.peer, sink.sent, inbound[i..], deserialize)
    {
      assert inbound[i..][0] == inbound[i] && inbound[i..][1..] == inbound[i + 1..];
      var message := DecodeMessage(inbound[i], deserialize);
      match message {
        case None =>
        case Some(StartChat(messages)) =>
          Chat(messages, sink, state);
        case Some(NextChatFragment(_)) =>
        case Some(ChatCompleted) =>
        case Some(Error(_)) =>
      }
      i := i + 1;
    }
  }

  /** An item that is not a chat request changes nothing, wherever it arrives. */
  lemma {:induction false} ServeIgnoresOtherItems(client: Upstream.Client, p: Peer, sent: seq<AppMessage>,
                                                  before: seq<Received>, item: Received, after: seq<Received>,
                                                  deserialize: Deserializer)
    requires !IsStartChat(item, deserialize)
    ensures Serve(client, p, sent, before + [item] + after, deserialize) == Serve(client, p, sent, before + after, deserialize)
    decreases |before|
  {
    if before == [] {
      assert ([item] + after)[0] == item && ([item] + after)[1..] == after;
      assert before + [item] + after == [item] + after && before + after == after;
    } else {
      var next := match DecodeMessage(before[0], deserialize)
        case Some(StartChat(messages)) => Turn(client, p, sent, messages)
        case _ => sent;
      assert (before + [item] + after)[0] == before[0] && (before + [item] + after)[1..] == before[1..] + [item] + after;
      assert (before + after)[0] == before[0] && (before + after)[1..] == before[1..] + after;
      ServeIgnoresOtherItems(client, p, next, before[1..], item, after, deserialize);
    }
  }

  /** The chat requests among the inbound items, in order. */
  function Requests(inbound: seq<Received>, deserialize: Deserializer): seq<seq<Message>>
  {
    if inbound == [] then []
    else
      match DecodeMessage(inbound[0], deserialize)
      case Some(StartChat(messages)) => [messages] + Requests(inbound[1..], deserialize)
      case _ => Requests(inbound[1..], deserialize)
  }

  /** The replies to a sequence of requests, one after another. */
  function Replies(client: Upstream.Client, requests: seq<seq<Message>>): seq<AppMessage>
  {
    if requests == [] then [] else Reply(client(ToRequests(requests[0]))) + Replies(client, requests[1..])
  }

  /** The replies to a first request and the rest, after what was sent. */
  lemma RepliesCons(client: Upstream.Client, sent: seq<AppMessage>, messages: seq<Message>, rest: seq<seq<Message>>)
    ensures sent + Replies(client, [messages] + rest) == sent + Reply(client(ToRequests(messages))) + Replies(client, rest)
  {
    assert ([messages] + rest)[0] == messages && ([messages] + rest)[1..] == rest;
    assert sent + Reply(client(ToRequests(messages))) + Replies(client, rest)
        == sent + (Reply(client(ToRequests(messages))) + Replies(client, rest));
  }

  /** One step of the loop, as a plain conditional. */
  lemma ServeStep(client: Upstream.Client, p: Peer, sent: seq<AppMessage>, inbound: seq<Received>, deserialize: Deserializer)
    requires inbound != []
    ensures var m := DecodeMessage(inbound[0], deserialize);
      && (m.Some? && m.value.StartChat? ==>
            && Serve(client, p, sent, inbound, deserialize) == Serve(client, p, Turn(client, p, sent, m.value.messages), inbound[1..], deserialize)
            && Requests(inbound, deserialize) == [m.value.messages] + Requests(inbound[1..], deserialize))
      && (!(m.Some? && m.value.StartChat?) ==>
            && Serve(client, p, sent, inbound, deserialize) == Serve(client, p, sent, inbound[1..], deserialize)
            && Requests(inbound, deserialize) == Requests(inbound[1..], deserialize))
  {
  }

  /** Over a reliable connection, a chat request at the head of the input
      sends its whole reply before the rest is handled. */
  lemma ServeStart(client: Upstream.Client, p: Peer, sent: seq<AppMessage>, inbound: seq<Received>, deserialize: Deserializer)
    requires Reliable(p) && inbound != [] && IsStartChat(inbound[0], deserialize)
    ensures var messages := DecodeMessage(inbound[0], deserialize).value.messages;
      && Serve(client, p, sent, inbound, deserialize)
         == Serve(client, p, sent + Reply(client(ToRequests(messages))), inbound[1..], deserialize)
      && Requests(inbound, deserialize) == [messages] + Requests(inbound[1..], deserialize)
  {
    ServeStep(client, p, sent, inbound, deserialize);
    TurnReliable(client, p, sent, DecodeMessage(inbound[0], deserialize).value.messages);
  }

  /** An item at the head of the input that is not a chat request is skipped. */
  lemma ServeOther(client: Upstream.Client, p: Peer, sent: seq<AppMessage>, inbound: seq<Received>, deserialize: Deserializer)
    requires inbound != [] && !IsStartChat(inbound[0], deserialize)
    ensures Serve(client, p, sent, inbound, deserialize) == Serve(client, p, sent, inbound[1..], deserialize)
    ensures Requests(inbound, deserialize) == Requests(inbound[1..], deserialize)
  {
    ServeStep(client, p, sent, inbound, deserialize);
  }

  /** Whatever the connection does, the loop only appends to what was sent. */
  lemma {:induction false} ServeOnlyAppends(client: Upstream.Client, p: Peer, sent: seq<AppMessage>, inbound: seq<Received>, deserialize: Deserializer)
    ensures var after := Serve(client, p, sent, inbound, deserialize);
      |sent| <= |after| && after[..|sent|] == sent
    decreases |inbound|
  {
    if inbound != [] {
      var m := DecodeMessage(inbound[0], deserialize);
      ServeStep(client, p, sent, inbound, deserialize);
      if m.Some? && m.value.StartChat? {
        var next := Turn(client, p, sent, m.value.messages);
        TurnSendsPrefixOfReply(client, p, sent, m.value.messages);
        ServeOnlyAppends(client, p, next, inbound[1..], deserialize);
        var after := Serve(client, p, next, inbound[1..], deserialize);
        assert after[..|sent|] == after[..|next|][..|sent|];
      } else {
        ServeOnlyAppends(client, p, sent, inbound[1..], deserialize);
      }
    }
  }

  /** The step of `ServeReliable` for a chat request at the head of the input,
      given the property for the rest. */
  lemma ServeReliableStart(client: Upstream.Client, p: Peer, sent: seq<AppMessage>, inbound: seq<Received>, deserialize: Deserializer)
    requires Reliable(p) && inbound != [] && IsStartChat(inbound[0], deserialize)
    requires var reply := Reply(client(ToRequests(DecodeMessage(inbound[0], deserialize).value.messages)));
      Serve(client, p, sent + reply, inbound[1..], deserialize)
      == sent + reply + Replies(client, Requests(inbound[1..], deserialize))
    ensures Serve(client, p, sent, inbound, deserialize) == sent + Replies(client, Requests(inbound, deserialize))
  {
    var messages := DecodeMessage(inbound[0], deserialize).value.messages;
    var reply := Reply(client(ToRequests(messages)));
    var rest := Requests(inbound[1..], deserialize);
    ServeStart(client, p, sent, inbound, deserialize);
    RepliesCons(client, sent, messages, rest);
  }

  /** Over a reliable connection the loop sends each request's whole reply, in
      request order, with no interleaving between turns. */
  lemma {:induction false} ServeReliable(client: Upstream.Client, p: Peer, sent: seq<AppMessage>, inbound: seq<Received>, deserialize: Deserializer)
    requires Reliable(p)
    ensures Serve(client, p, sent, inbound, deserialize) == sent + Replies(client, Requests(inbound, deserialize))
    decreases |inbound|
  {
    if inbound != [] {
      if IsStartChat(inbound[0], deserialize) {
        var messages := DecodeMessage(inbound[0], deserialize).value.messages;
        var reply := Reply(client(ToRequests(messages)));
        ServeReliable(client, p, sent + reply, inbound[1..], deserialize);
        ServeReliableStart(client, p, sent, inbound, deserialize);
      } else {
        ServeOther(client, p, sent, inbound, deserialize);
        ServeReliable(client, p, sent, inbound[1..], deserialize);
      }
    }
  }
}
