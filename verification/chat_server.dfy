/**
 * The per-connection chat protocol of the server worker: the `set nickname`
 * and `chat message` handlers and the batch replay sent when a connection is
 * established, as pure transitions over the message log. The socket layer is
 * reduced to the effects a handler produces, in the order it produces them.
 */
module ChatServer {
  import opened Optional
  import opened MessageLog

  /** The nickname stored and broadcast for a connection that has not set one. */
  const ANONYMOUS: string := "Anonymous"

  /** What the server keeps per connection: the nickname the client last set, if any. */
  datatype Session = Session(nickname: Option<string>)

  const FreshSession: Session := Session(None)

  /** `socket.nickname || 'Anonymous'`: both an unset and an empty nickname are falsy. */
  function DisplayName(session: Session): string {
    match session.nickname
    case Some(name) => if name == "" then ANONYMOUS else name
    case None => ANONYMOUS
  }

  /** The `set nickname` handler: the connection's nickname becomes `nickname`. */
  function SetNickname(session: Session, nickname: string): (s: Session)
    ensures DisplayName(s) == (if nickname == "" then ANONYMOUS else nickname)
  {
    session.(nickname := Some(nickname))
  }

  /**
   * A message as clients receive it: live as `{message, nickname}` with the
   * id as the event's second argument, or in a batch as `{message, nickname, id}`.
   */
  datatype ChatMessage = ChatMessage(message: string, nickname: string, id: int)

  /** What a handler does to the outside world. */
  datatype Effect =
    | Broadcast(msg: ChatMessage)    // io.emit('chat message', ...) to every client
    | Ack                            // the client's acknowledgement callback
    | Batch(msgs: seq<ChatMessage>)  // socket.emit('batch chat messages', ...) to this client

  /** The log after a handler ran, and its effects in the order it produced them. */
  datatype Outcome = Outcome(log: Log, effects: seq<Effect>)

  /** How a batch presents a stored row. */
  function ToMessage(row: Row): ChatMessage {
    ChatMessage(row.content, row.nickname, row.id)
  }

  /** Each row of a batch as `{message, nickname, id}`, in the rows' order. */
  function Messages(rows: Log): (msgs: seq<ChatMessage>)
    ensures |msgs| == |rows|
    ensures forall k :: 0 <= k < |rows| ==> msgs[k] == ToMessage(rows[k])
  {
    seq(|rows|, k requires 0 <= k < |rows| => ToMessage(rows[k]))
  }

  lemma MessagesAppend(a: Log, b: Log)
    ensures Messages(a + b) == Messages(a) + Messages(b)
  {
  }

  /** The messages broadcast among `effects`, in order. */
  function Broadcasts(effects: seq<Effect>): seq<ChatMessage>
    decreases |effects|
  {
    if |effects| == 0 then []
    else (if effects[0].Broadcast? then [effects[0].msg] else []) + Broadcasts(effects[1..])
  }

  lemma {:induction false} BroadcastsAppend(a: seq<Effect>, b: seq<Effect>)
    ensures Broadcasts(a + b) == Broadcasts(a) + Broadcasts(b)
    decreases |a|
  {
    if |a| == 0 {
      assert a + b == b;
    } else {
      assert (a + b)[0] == a[0];
      assert (a + b)[1..] == a[1..] + b;
      BroadcastsAppend(a[1..], b);
    }
  }

  /**
   * The `chat message` handler: try the insert; on success broadcast the new
   * message with its id and then acknowledge; on a constraint violation only
   * acknowledge; on any other failure do nothing, so the client retries.
   */
  function OnChatMessage(log: Log, session: Session, msg: string, clientOffset: string,
                         store: StoreBehaviour): (o: Outcome)
    ensures store.fault.Some? ==> o == Outcome(log, [])
    ensures store.fault.None? && HasOffset(log, clientOffset) ==> o == Outcome(log, [Ack])
    ensures store.fault.None? && !HasOffset(log, clientOffset) ==>
              && |o.log| == |log| + 1
              && o.log[..|log|] == log
              && var row := o.log[|log|];
              && row == Row(row.id, clientOffset, msg, DisplayName(session))
              && (forall i :: 0 <= i < |log| ==> log[i].id < row.id)
              && o.effects == [Broadcast(ToMessage(row)), Ack]
    ensures Valid(log) ==> Valid(o.log)
    ensures |log| <= |o.log| && Broadcasts(o.effects) == Messages(o.log[|log|..])
  {
    var nickname := DisplayName(session);
    match Insert(log, msg, clientOffset, nickname, store)
    case Inserted(log', id) =>
      var effects := [Broadcast(ChatMessage(msg, nickname, id)), Ack];
      assert Broadcasts(effects) == [ChatMessage(msg, nickname, id)] by {
        assert effects[1..] == [Ack] && [Ack][1..] == [];
      }
      assert log'[|log|..] == [log'[|log|]];
      Outcome(log', effects)
    case Rejected(errno) =>
      assert log[|log|..] == [];
      assert Broadcasts([Ack]) == [] by {
        assert [Ack][1..] == [];
      }
      if errno == SQLITE_CONSTRAINT then Outcome(log, [Ack]) else Outcome(log, [])
  }

  /** What the socket layer reports about a new connection. */
  datatype Handshake = Handshake(recovered: bool, serverOffset: Option<int>)

  /** `socket.handshake.auth.serverOffset || 0`. */
  function Watermark(handshake: Handshake): int {
    handshake.serverOffset.GetOr(0)
  }

  /**
   * Connection setup: a connection the socket layer did not recover gets one
   * batch holding every row above its watermark; a failed read sends nothing.
   */
  function OnConnection(log: Log, handshake: Handshake, readFails: bool): (effects: seq<Effect>)
    ensures handshake.recovered || readFails ==> effects == []
    ensures !handshake.recovered && !readFails ==>
              && |effects| == 1 && effects[0].Batch?
              && var batch := effects[0].msgs;
              && (forall i :: 0 <= i < |log| && log[i].id > Watermark(handshake) ==>
                    ToMessage(log[i]) in batch)
              && (forall m :: m in batch ==>
                    exists i :: 0 <= i < |log| && log[i].id > Watermark(handshake) && m == ToMessage(log[i]))
              && (Valid(log) ==> forall i, j :: 0 <= i < j < |batch| ==> batch[i].id != batch[j].id)
  {
    if handshake.recovered || readFails then []
    else
      var rows := SelectAfter(log, Watermark(handshake));
      var batch := Messages(rows);
      assert forall i :: 0 <= i < |log| && log[i].id > Watermark(handshake) ==> ToMessage(log[i]) in batch by {
        forall i | 0 <= i < |log| && log[i].id > Watermark(handshake)
          ensures ToMessage(log[i]) in batch
        {
          var k :| 0 <= k < |rows| && rows[k] == log[i];
          assert batch[k] == ToMessage(log[i]);
        }
      }
      assert forall m :: m in batch ==> exists i :: 0 <= i < |log| && log[i].id > Watermark(handshake) && m == ToMessage(log[i]) by {
        forall m | m in batch
          ensures exists i :: 0 <= i < |log| && log[i].id > Watermark(handshake) && m == ToMessage(log[i])
        {
          var k :| 0 <= k < |batch| && batch[k] == m;
          assert rows[k] in rows;
          var i :| 0 <= i < |log| && log[i] == rows[k];
        }
      }
      [Batch(batch)]
  }

  /** A server worker: the shared log and the sessions of its open connections. */
  type ConnId = nat

  datatype Server = Server(log: Log, sessions: map<ConnId, Session>)

  /** What may happen on one connection. */
  datatype Request =
    | Connect(handshake: Handshake, readFails: bool)
    | SetNick(nickname: string)
    | Chat(msg: string, clientOffset: string, store: StoreBehaviour)

  datatype StepResult = StepResult(server: Server, effects: seq<Effect>)

  /**
   * One event on connection `conn`. A connection starts with no nickname, even
   * when the socket layer recovers it; events on a connection that is not open
   * reach no handler.
   */
  function Step(server: Server, conn: ConnId, request: Request): (r: StepResult)
    ensures |server.log| <= |r.server.log| <= |server.log| + 1
    ensures r.server.log[..|server.log|] == server.log
    ensures Valid(server.log) ==> Valid(r.server.log)
    ensures !request.Connect? && conn !in server.sessions ==> r == StepResult(server, [])
    // what is broadcast is exactly the row the step added, if any
    ensures Broadcasts(r.effects) == Messages(r.server.log[|server.log|..])
    // sessions: a connection starts fresh, a nickname belongs to its own connection
    ensures request.Connect? ==> r.server.sessions == server.sessions[conn := FreshSession]
    ensures request.SetNick? && conn in server.sessions ==>
              r.server.sessions == server.sessions[conn := SetNickname(server.sessions[conn], request.nickname)]
    ensures request.Chat? ==> r.server.sessions == server.sessions
    ensures request.Chat? && conn in server.sessions && request.store.fault.None?
              && !HasOffset(server.log, request.clientOffset) ==>
              && |r.server.log| == |server.log| + 1
              && r.server.log[|server.log|].nickname == DisplayName(server.sessions[conn])
  {
    match request
    case Connect(handshake, readFails) =>
      StepResult(server.(sessions := server.sessions[conn := FreshSession]),
                 OnConnection(server.log, handshake, readFails))
    case SetNick(nickname) =>
      if conn in server.sessions then
        var session := SetNickname(server.sessions[conn], nickname);
        StepResult(server.(sessions := server.sessions[conn := session]), [])
      else
        StepResult(server, [])
    case Chat(msg, clientOffset, store) =>
      if conn in server.sessions then
        var o := OnChatMessage(server.log, server.sessions[conn], msg, clientOffset, store);
        StepResult(server.(log := o.log), o.effects)
      else
        StepResult(server, [])
  }

  /** The server after a sequence of events, in order, and every effect they produced. */
  function Run(server: Server, events: seq<(ConnId, Request)>): (r: StepResult)
    decreases |events|
  {
    if |events| == 0 then StepResult(server, [])
    else
      var first := Step(server, events[0].0, events[0].1);
      var rest := Run(first.server, events[1..]);
      StepResult(rest.server, first.effects + rest.effects)
  }
}
