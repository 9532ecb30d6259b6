/**
 * Properties that relate several runs of the chat protocol: retried
 * submissions, whole event sequences, and live broadcasts against later
 * replays.
 */
module ChatProperties {
  import opened Optional
  import opened MessageLog
  import opened ChatServer

  /** The log after a client submits one message once per store behaviour, and the reply to each attempt. */
  datatype Attempts = Attempts(log: Log, replies: seq<seq<Effect>>)

  /**
   * A client submitting the same message with the same offset again and
   * again, the store behaving as `stores` says on each attempt.
   */
  function Submissions(log: Log, session: Session, msg: string, clientOffset: string,
                       stores: seq<StoreBehaviour>): (a: Attempts)
    ensures |a.replies| == |stores|
    decreases |stores|
  {
    if |stores| == 0 then Attempts(log, [])
    else
      var o := OnChatMessage(log, session, msg, clientOffset, stores[0]);
      var rest := Submissions(o.log, session, msg, clientOffset, stores[1..]);
      Attempts(rest.log, [o.effects] + rest.replies)
  }

  /** The index of the first attempt the store does not fail, if any. */
  function FirstServed(stores: seq<StoreBehaviour>): (f: Option<nat>)
    ensures f.Some? ==> f.value < |stores| && stores[f.value].fault.None?
    ensures f.Some? ==> forall k :: 0 <= k < f.value ==> stores[k].fault.Some?
    ensures f.None? ==> forall k :: 0 <= k < |stores| ==> stores[k].fault.Some?
    decreases |stores|
  {
    if |stores| == 0 then None
    else if stores[0].fault.None? then Some(0)
    else
      match FirstServed(stores[1..])
      case Some(k) => Some(k + 1)
      case None => None
  }

  /**
   * Once a message is stored, retrying it changes nothing: the log stays as
   * it is, no attempt broadcasts, and every attempt the store serves is
   * acknowledged.
   */
  lemma {:induction false} RetryOfStoredOnlyAcks(log: Log, session: Session, msg: string,
                                                  clientOffset: string, stores: seq<StoreBehaviour>)
    requires HasOffset(log, clientOffset)
    ensures var a := Submissions(log, session, msg, clientOffset, stores);
            && a.log == log
            && forall k :: 0 <= k < |stores| ==>
                 a.replies[k] == (if stores[k].fault.None? then [Ack] else [])
    decreases |stores|
  {
    if |stores| > 0 {
      RetryOfStoredOnlyAcks(log, session, msg, clientOffset, stores[1..]);
      var a := Submissions(log, session, msg, clientOffset, stores);
      forall k | 0 < k < |stores|
        ensures a.replies[k] == (if stores[k].fault.None? then [Ack] else [])
      {
        assert stores[1..][k - 1] == stores[k];
      }
    }
  }

  /**
   * Retrying a new message until the store serves it stores exactly one row,
   * broadcasts exactly once (on the first served attempt, before its
   * acknowledgement), and acknowledges every served attempt; while the store
   * fails, nothing happens at all.
   */
  lemma {:induction false} RetriesStoreOnce(log: Log, session: Session, msg: string,
                                             clientOffset: string, stores: seq<StoreBehaviour>)
    requires !HasOffset(log, clientOffset)
    ensures var a := Submissions(log, session, msg, clientOffset, stores);
            match FirstServed(stores)
            case None =>
              && a.log == log
              && forall k :: 0 <= k < |stores| ==> a.replies[k] == []
            case Some(f) =>
              && |a.log| == |log| + 1
              && a.log[..|log|] == log
              && var row := a.log[|log|];
              && row == Row(row.id, clientOffset, msg, DisplayName(session))
              && (forall i :: 0 <= i < |log| ==> log[i].id < row.id)
              && forall k :: 0 <= k < |stores| ==>
                   a.replies[k] == (if stores[k].fault.Some? then []
                                    else if k == f then [Broadcast(ToMessage(row)), Ack]
                                    else [Ack])
    ensures Valid(log) ==> Valid(Submissions(log, session, msg, clientOffset, stores).log)
    decreases |stores|
  {
    if |stores| > 0 {
      var a := Submissions(log, session, msg, clientOffset, stores);
      var o := OnChatMessage(log, session, msg, clientOffset, stores[0]);
      var tail := stores[1..];
      var rest := Submissions(o.log, session, msg, clientOffset, tail);
      assert a == Attempts(rest.log, [o.effects] + rest.replies);
      if stores[0].fault.Some? {
        assert o == Outcome(log, []);
        RetriesStoreOnce(log, session, msg, clientOffset, tail);
        assert FirstServed(stores) == (match FirstServed(tail) case Some(k) => Some(k + 1) case None => None);
        forall k | 0 < k < |stores|
          ensures a.replies[k] == a.replies[1..][k - 1] && stores[k] == tail[k - 1]
        {
        }
      } else {
        var row := o.log[|log|];
        assert FirstServed(stores) == Some(0);
        assert a.replies[0] == [Broadcast(ToMessage(row)), Ack];
        assert HasOffset(o.log, clientOffset) by {
          assert o.log[|log|].clientOffset == clientOffset;
        }
        RetryOfStoredOnlyAcks(o.log, session, msg, clientOffset, tail);
        assert a.log == o.log;
        forall k | 0 < k < |stores|
          ensures a.replies[k] == (if stores[k].fault.Some? then [] else [Ack])
        {
          assert stores[k] == tail[k - 1];
        }
      }
    }
  }

  /** Rows once stored never change: every log a server reaches extends the one it started from. */
  lemma {:induction false} RunExtendsLog(server: Server, events: seq<(ConnId, Request)>)
    ensures var final := Run(server, events).server;
            |server.log| <= |final.log| && final.log[..|server.log|] == server.log
    decreases |events|
  {
    if |events| > 0 {
      var next := Step(server, events[0].0, events[0].1).server;
      RunExtendsLog(next, events[1..]);
      var final := Run(next, events[1..]).server;
      assert final.log[..|server.log|] == final.log[..|next.log|][..|server.log|];
    }
  }

  /** Every state a server reaches keeps the schema's guarantees. */
  lemma {:induction false} RunKeepsLog(server: Server, events: seq<(ConnId, Request)>)
    requires Valid(server.log)
    ensures Valid(Run(server, events).server.log)
    decreases |events|
  {
    if |events| > 0 {
      RunKeepsLog(Step(server, events[0].0, events[0].1).server, events[1..]);
    }
  }

  /**
   * Across any sequence of events on any connections, the messages broadcast
   * are exactly the rows added to the log, in the order they were added.
   */
  lemma {:induction false} RunBroadcastsNewRows(server: Server, events: seq<(ConnId, Request)>)
    ensures var r := Run(server, events);
            |server.log| <= |r.server.log| &&
            Broadcasts(r.effects) == Messages(r.server.log[|server.log|..])
    decreases |events|
  {
    if |events| == 0 {
      assert server.log[|server.log|..] == [];
    } else {
      var first := Step(server, events[0].0, events[0].1);
      var rest := Run(first.server, events[1..]);
      assert Run(server, events) == StepResult(rest.server, first.effects + rest.effects);
      RunBroadcastsNewRows(first.server, events[1..]);
      RunExtendsLog(first.server, events[1..]);
      BroadcastsAppend(first.effects, rest.effects);
      var firstAdded := first.server.log[|server.log|..];
      var restAdded := rest.server.log[|first.server.log|..];
      SlicesJoin(server.log, first.server.log, rest.server.log);
      MessagesAppend(firstAdded, restAdded);
    }
  }

  /** What a log grew by in two stages is what the first stage added followed by what the second added. */
  lemma SlicesJoin(l0: Log, l1: Log, l2: Log)
    requires |l0| <= |l1| <= |l2| && l2[..|l1|] == l1
    ensures l2[|l0|..] == l1[|l0|..] + l2[|l1|..]
  {
    assert l2 == l1 + l2[|l1|..];
  }

  /**
   * No client offset is ever broadcast twice, and none that was already
   * stored is broadcast at all, however the events of all connections
   * interleave: each broadcast is one newly stored row, and those rows have
   * distinct ids and distinct offsets.
   */
  lemma EachOffsetBroadcastOnce(server: Server, events: seq<(ConnId, Request)>)
    requires Valid(server.log)
    ensures var r := Run(server, events);
            var sent := Broadcasts(r.effects);
            && |server.log| + |sent| == |r.server.log|
            && (forall k :: 0 <= k < |sent| ==>
                  && sent[k] == ToMessage(r.server.log[|server.log| + k])
                  && !HasOffset(server.log, r.server.log[|server.log| + k].clientOffset))
            && (forall k, l :: 0 <= k < l < |sent| ==>
                  && sent[k].id != sent[l].id
                  && r.server.log[|server.log| + k].clientOffset
                       != r.server.log[|server.log| + l].clientOffset)
  {
    RunKeepsLog(server, events);
    RunExtendsLog(server, events);
    RunBroadcastsNewRows(server, events);
    var final := Run(server, events).server;
    var n := |server.log|;
    forall j | n <= j < |final.log|
      ensures !HasOffset(server.log, final.log[j].clientOffset)
    {
      forall i | 0 <= i < n
        ensures server.log[i].clientOffset != final.log[j].clientOffset
      {
        assert final.log[i] == server.log[i];
      }
    }
  }

  /**
   * Once an offset is stored, a later submission with that offset on any
   * connection, after any interleaving of other events, leaves the log
   * unchanged and is only acknowledged, or gets no reply when the store fails.
   */
  lemma StoredOffsetOnlyAcks(server: Server, events: seq<(ConnId, Request)>, k: nat)
    requires k < |events| && events[k].1.Chat?
    requires HasOffset(server.log, events[k].1.clientOffset)
    ensures var before := Run(server, events[..k]).server;
            var step := Step(before, events[k].0, events[k].1);
            && step.server.log == before.log
            && step.effects == (if events[k].0 in before.sessions && events[k].1.store.fault.None?
                                then [Ack] else [])
  {
    var before := Run(server, events[..k]).server;
    RunExtendsLog(server, events[..k]);
    var i :| 0 <= i < |server.log| && server.log[i].clientOffset == events[k].1.clientOffset;
    assert before.log[i] == server.log[i];
  }

  /** Events on other connections never touch a connection's session. */
  lemma {:induction false} OtherConnsKeepSession(server: Server, events: seq<(ConnId, Request)>, conn: ConnId)
    requires forall k :: 0 <= k < |events| ==> events[k].0 != conn
    ensures var final := Run(server, events).server;
            && (conn in final.sessions <==> conn in server.sessions)
            && (conn in server.sessions ==> final.sessions[conn] == server.sessions[conn])
    decreases |events|
  {
    if |events| > 0 {
      var next := Step(server, events[0].0, events[0].1).server;
      assert events[0].0 != conn;
      OtherConnsKeepSession(next, events[1..], conn);
    }
  }

  /**
   * A nickname set on one connection is the one stored with that
   * connection's next new message, whatever other connections do in between.
   */
  lemma NicknameIsPerConnection(server: Server, conn: ConnId, nickname: string,
                                others: seq<(ConnId, Request)>, msg: string, clientOffset: string,
                                store: StoreBehaviour)
    requires conn in server.sessions
    requires forall k :: 0 <= k < |others| ==> others[k].0 != conn
    requires store.fault.None?
    ensures var named := Step(server, conn, SetNick(nickname)).server;
            var before := Run(named, others).server;
            var after := Step(before, conn, Chat(msg, clientOffset, store)).server;
            !HasOffset(before.log, clientOffset) ==>
              && |after.log| == |before.log| + 1
              && after.log[|before.log|].nickname == (if nickname == "" then ANONYMOUS else nickname)
  {
    var named := Step(server, conn, SetNick(nickname)).server;
    OtherConnsKeepSession(named, others, conn);
  }

  /** After `set nickname`, the next stored message carries that nickname, or `Anonymous` for an empty one. */
  lemma NicknameTakesEffect(log: Log, session: Session, nickname: string, msg: string,
                            clientOffset: string, store: StoreBehaviour)
    requires store.fault.None? && !HasOffset(log, clientOffset)
    ensures var o := OnChatMessage(log, SetNickname(session, nickname), msg, clientOffset, store);
            var name := if nickname == "" then ANONYMOUS else nickname;
            && |o.log| == |log| + 1
            && o.log[|log|].nickname == name
            && o.effects[0] == Broadcast(ChatMessage(msg, name, o.log[|log|].id))
  {
  }

  /**
   * A message broadcast live is, unchanged, in the batch of any later
   * non-recovered connection whose watermark is below its id: live delivery
   * and replay agree.
   */
  lemma BroadcastIsReplayed(log: Log, session: Session, msg: string, clientOffset: string,
                            store: StoreBehaviour, later: Log, handshake: Handshake, m: ChatMessage)
    requires Broadcast(m) in OnChatMessage(log, session, msg, clientOffset, store).effects
    requires var stored := OnChatMessage(log, session, msg, clientOffset, store).log;
             |stored| <= |later| && later[..|stored|] == stored
    requires !handshake.recovered && Watermark(handshake) < m.id
    ensures var effects := OnConnection(later, handshake, false);
            |effects| == 1 && m in effects[0].msgs
  {
  }

  /** A connection that presents no watermark is replayed the whole log. */
  lemma NoWatermarkReplaysAll(log: Log)
    requires Valid(log)
    ensures var effects := OnConnection(log, Handshake(false, None), false);
            |effects| == 1 && forall i :: 0 <= i < |log| ==> ToMessage(log[i]) in effects[0].msgs
  {
  }

  /**
   * On an empty log, an anonymous client's "hi" is stored and broadcast with
   * id 1; its retry is only acknowledged; a fresh connection without a
   * watermark is replayed that one message.
   */
  lemma FirstMessageScenario()
    ensures var first := OnChatMessage([], FreshSession, "hi", "t1", StoreBehaviour(None, 0));
            && first.effects == [Broadcast(ChatMessage("hi", ANONYMOUS, 1)), Ack]
            && var retry := OnChatMessage(first.log, FreshSession, "hi", "t1", StoreBehaviour(None, 0));
            && retry == Outcome(first.log, [Ack])
            && OnConnection(retry.log, Handshake(false, None), false)
                 == [Batch([ChatMessage("hi", ANONYMOUS, 1)])]
  {
    var first := OnChatMessage([], FreshSession, "hi", "t1", StoreBehaviour(None, 0));
    assert first.log == [Row(1, "t1", "hi", ANONYMOUS)];
    assert HasOffset(first.log, "t1") by {
      assert first.log[0].clientOffset == "t1";
    }
    assert SelectAfter(first.log, 0) == first.log by {
      assert first.log[1..] == [];
    }
    var retry := OnChatMessage(first.log, FreshSession, "hi", "t1", StoreBehaviour(None, 0));
    assert retry == Outcome(first.log, [Ack]);
    var rows := SelectAfter(retry.log, 0);
    assert rows == first.log;
    assert Messages(rows) == [ChatMessage("hi", ANONYMOUS, 1)];
  }
}
