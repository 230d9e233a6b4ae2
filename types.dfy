/** The protocol and domain types shared by the server relay and the browser
    client: roles, messages, the four-variant wire envelope, the conversions to
    and from the completion service's shapes, the outgoing sink with its one
    write operation, and the per-connection session state. */
module Types {
  import opened Wrappers
  import Upstream

  type Bytes = seq<bv8>

  /** The application's error kinds. */
  datatype AppError = NotFound | ChatError | ServerError

  /** The error a server function reports. */
  datatype ServerFnError = ResponseError(text: string)

  /** Who wrote a message. */
  datatype Role = Assistant | System | User {

    /** A message with the given content, written by this role. */
    function MessageWith(content: string): (m: Message)
      ensures m.role == this && m.content == content
    {
      Message(this, content)
    }

    /** A message with no content, written by this role. */
    function Empty(): (m: Message)
      ensures m == MessageWith("")
      ensures m.role == this && |m.content| == 0
    {
      MessageWith("")
    }
  }

  /** One message of a conversation; `role` and `content` are its accessors. */
  datatype Message = Message(role: Role, content: string)

  /** The wire envelope: exactly four variants, matched exhaustively everywhere. */
  datatype AppMessage =
    | StartChat(messages: seq<Message>)
    | NextChatFragment(fragment: string)
    | ChatCompleted
    | Error(error: AppError)

  /** The frames that end a turn. */
  predicate IsTerminal(m: AppMessage)
  {
    m.ChatCompleted? || m.Error?
  }

  //////////////////////////////////////////////////////////////////////////////
  // Conversions to and from the completion service.

  /** The three service roles that the chat's own roles correspond to. */
  predicate IsChatRole(r: Upstream.Role)
  {
    r.System? || r.User? || r.Assistant?
  }

  /** The service role to chat role conversion; the service's other roles are
      unreachable, which the model states as a precondition. */
  function RoleFromUpstream(r: Upstream.Role): (role: Role)
    requires IsChatRole(r)
    ensures r.Assistant? <==> role.Assistant?
    ensures r.System? <==> role.System?
    ensures r.User? <==> role.User?
  {
    match r
    case Assistant => Assistant
    case System => System
    case User => User
  }

  /** A message as a request message: the builder is chosen by role and the
      content is copied. */
  function ToRequest(m: Message): (r: Upstream.RequestMessage)
    ensures r.content == m.content
    ensures IsChatRole(Upstream.RequestRole(r))
    ensures RoleFromUpstream(Upstream.RequestRole(r)) == m.role
  {
    match m.role
    case Assistant => Upstream.AssistantRequest(m.content)
    case System => Upstream.SystemRequest(m.content)
    case User => Upstream.UserRequest(m.content)
  }

  /** A conversation as a request, message by message and in order. */
  function ToRequests(ms: seq<Message>): (rs: seq<Upstream.RequestMessage>)
    ensures |rs| == |ms|
    ensures forall i :: 0 <= i < |ms| ==> rs[i].content == ms[i].content
    ensures forall i :: 0 <= i < |ms| ==> RoleFromUpstream(Upstream.RequestRole(rs[i])) == ms[i].role
  {
    if ms == [] then [] else [ToRequest(ms[0])] + ToRequests(ms[1..])
  }

  /** The error reported for a response without choices. */
  const NoOptions: ServerFnError := ResponseError("response contained no options")

  /** The first choice of a response as a message; absent content becomes "". */
  function MessageFromResponse(response: Upstream.Response): (r: Result<Message, ServerFnError>)
    requires response.choices != [] ==> IsChatRole(response.choices[0].message.role)
    ensures r.Err? <==> response.choices == []
    ensures r.Err? ==> r.error == NoOptions
    ensures r.Ok? ==> var first := response.choices[0].message;
      && r.value.role == RoleFromUpstream(first.role)
      && (first.content.Some? ==> r.value.content == first.content.value)
      && (first.content.None? ==> r.value.content == "")
  {
    if response.choices == [] then Err(NoOptions)
    else
      var message := response.choices[0].message;
      var content := match message.content case Some(c) => c case None => "";
      Ok(Message(RoleFromUpstream(message.role), content))
  }

  /** A request built from a message, read back, gives the message's role and content. */
  lemma RequestRoundTrip(m: Message)
    ensures RoleFromUpstream(Upstream.RequestRole(ToRequest(m))).MessageWith(ToRequest(m).content) == m
  {
  }

  //////////////////////////////////////////////////////////////////////////////
  // The outgoing sink.

  /** What lies behind the sink: the serializer, and the number of frames after
      which the connection is gone (`None`: it never goes). */
  datatype Peer = Peer(encode: AppMessage -> Option<Bytes>, dropsAfter: Option<nat>)

  /** A connection that accepts every frame and a serializer that never fails. */
  ghost predicate Reliable(p: Peer)
  {
    p.dropsAfter.None? && forall m :: p.encode(m).Some?
  }

  /** Whether the connection still accepts a frame after `sent`. */
  predicate Open(p: Peer, sent: seq<AppMessage>)
  {
    p.dropsAfter.None? || |sent| < p.dropsAfter.value
  }

  /** One write of `m` after `sent`: the new sent sequence and the result. */
  function Send(p: Peer, sent: seq<AppMessage>, m: AppMessage): (r: (seq<AppMessage>, Result<(), AppError>))
    ensures r.1.Ok? <==> p.encode(m).Some? && Open(p, sent)
    ensures r.1.Ok? ==> r.0 == sent + [m]
    ensures r.1.Err? ==> r.0 == sent && r.1.error == ServerError
  {
    match p.encode(m)
    case None => (sent, Err(ServerError))
    case Some(_) => if Open(p, sent) then (sent + [m], Ok(())) else (sent, Err(ServerError))
  }

  /** The sink: the messages whose frames have been written, in order. */
  class Sink {
    const peer: Peer
    var sent: seq<AppMessage>

    constructor (peer: Peer)
      ensures this.peer == peer && sent == []
    {
      this.peer := peer;
      sent := [];
    }
  }

  /** Serialize `message` and write it as one binary frame. */
  method SendToClient(message: AppMessage, sink: Sink) returns (r: Result<(), AppError>)
    modifies sink
    ensures (sink.sent, r) == Send(sink.peer, old(sink.sent), message)
  {
    var bytes := sink.peer.encode(message);
    if bytes.None? {
      return Err(ServerError);
    }
    if !Open(sink.peer, sink.sent) {
      return Err(ServerError);
    }
    sink.sent := sink.sent + [message];
    return Ok(());
  }

  //////////////////////////////////////////////////////////////////////////////
  // Session state.

  /** Per-connection state: the completion client and the busy flag. */
  class SessionState {
    const client: Upstream.Client
    var chatBusy: bool

    /** A fresh session is idle. */
    constructor Default(client: Upstream.Client)
      ensures this.client == client && !chatBusy
    {
      this.client := client;
      chatBusy := false;
    }
  }
}
