/**
 * The transport engine (librabbitmq), seen from the binding. Its code is not
 * part of this model: each foreign function is a method whose answer is
 * arbitrary, and which appends to a ghost log the call with its arguments and
 * its answer. The log is what the binding's obligations are stated over.
 */
module Transport {
  import opened Ints
  import opened Bytes
  import opened Replies
  import opened Requests

  /** One foreign call on a connection handle, with the answer it got. */
  datatype Call =
    | TcpSocketNewCall(ok: bool)
    | SocketOpenCall(host: string, port: i32, status: i32)
    | LoginCall(args: LoginArgs, reply: RpcReply)
    | ChannelOpenCall(id: u16, ok: bool)
    | ChannelCloseCall(id: u16, code: i32, reply: RpcReply)
    | SimpleRpcCall(request: RpcRequest, reply: RpcReply)
    | BasicPublishCall(publish: PublishRequest, status: i32)
    | BasicConsumeCall(consume: ConsumeRequest, result: ConsumeOkRef)
    | ConsumeMessageCall(flags: i32, reply: RpcReply, envelope: Envelope)
    | DestroyEnvelopeCall(released: Envelope)
    | ConnectionCloseCall(code: i32, reply: RpcReply)
    | DestroyConnectionCall

  /** `ConnectionState`. */
  datatype ConnectionState = ConnectionOpen | ConnectionClosed

  /** How one call moves the connection: a socket opened with status 0 opens it, a close RPC closes it. */
  function Step(s: ConnectionState, c: Call): ConnectionState {
    match c
    case SocketOpenCall(_, _, status) => if status == 0 then ConnectionOpen else s
    case ConnectionCloseCall(_, _) => ConnectionClosed
    case _ => s
  }

  /** The state a handle is in after the calls of `log`, starting closed. */
  function StateAfter(log: seq<Call>): ConnectionState {
    if log == [] then ConnectionClosed else Step(StateAfter(log[..|log| - 1]), log[|log| - 1])
  }

  /** The calls the obligations count. */
  datatype Kind = SocketOpened | CloseRpc | Destroy | EnvelopeAcquired | EnvelopeReleased

  predicate IsKind(c: Call, k: Kind) {
    match k
    case SocketOpened => c.SocketOpenCall? && c.status == 0
    case CloseRpc => c.ConnectionCloseCall?
    case Destroy => c.DestroyConnectionCall?
    case EnvelopeAcquired => c.ConsumeMessageCall?
    case EnvelopeReleased => c.DestroyEnvelopeCall?
  }

  function Count(log: seq<Call>, k: Kind): nat {
    if log == [] then 0
    else Count(log[..|log| - 1], k) + (if IsKind(log[|log| - 1], k) then 1 else 0)
  }

  /**
   * Whether call `c` may follow the calls of `log` under the handle's
   * protocol: a close RPC only on an open connection, nothing after the
   * handle's destruction, the envelope of a consume released by the very next
   * call, and only such an envelope released.
   */
  predicate Permitted(log: seq<Call>, c: Call) {
    && (c.ConnectionCloseCall? ==> StateAfter(log) == ConnectionOpen)
    && (log != [] ==> !log[|log| - 1].DestroyConnectionCall?)
    && (log != [] && log[|log| - 1].ConsumeMessageCall? ==> c == DestroyEnvelopeCall(log[|log| - 1].envelope))
    && (c.DestroyEnvelopeCall? ==> log != [] && log[|log| - 1].ConsumeMessageCall?)
  }

  /** Every call of the log was permitted when it was made. */
  predicate Disciplined(log: seq<Call>) {
    log == [] || (Disciplined(log[..|log| - 1]) && Permitted(log[..|log| - 1], log[|log| - 1]))
  }

  /** No consume is waiting for its envelope to be released. */
  predicate Settled(log: seq<Call>) {
    log == [] || !log[|log| - 1].ConsumeMessageCall?
  }

  /** A close RPC in a protocol log was sent while the connection was open. */
  lemma {:induction false} ClosedOnlyWhenOpen(log: seq<Call>, i: nat)
    requires Disciplined(log) && i < |log| && log[i].ConnectionCloseCall?
    ensures StateAfter(log[..i]) == ConnectionOpen
    decreases |log|
  {
    if i < |log| - 1 {
      var init := log[..|log| - 1];
      assert init[i] == log[i] && init[..i] == log[..i];
      ClosedOnlyWhenOpen(init, i);
    }
  }

  /**
   * Under the protocol, close RPCs never outnumber successful socket opens, and
   * an open connection has had strictly more opens than closes.
   */
  lemma {:induction false} ClosesFollowOpens(log: seq<Call>)
    requires Disciplined(log)
    ensures Count(log, CloseRpc) <= Count(log, SocketOpened)
    ensures StateAfter(log) == ConnectionOpen ==> Count(log, CloseRpc) < Count(log, SocketOpened)
    decreases |log|
  {
    if log != [] {
      ClosesFollowOpens(log[..|log| - 1]);
    }
  }

  /** On a settled protocol log every envelope acquired has been released, and no other. */
  lemma {:induction false} EnvelopesBalance(log: seq<Call>)
    requires Disciplined(log) && Settled(log)
    ensures Count(log, EnvelopeAcquired) == Count(log, EnvelopeReleased)
    decreases |log|
  {
    if log != [] {
      var init := log[..|log| - 1];
      if log[|log| - 1].DestroyEnvelopeCall? {
        var init2 := log[..|log| - 2];
        assert init[..|init| - 1] == init2;
        assert init[|init| - 1] == log[|log| - 2];
        if init2 != [] {
          assert init2[|init2| - 1] == log[|log| - 3];
        }
        EnvelopesBalance(init2);
      } else {
        EnvelopesBalance(init);
      }
    }
  }

  /** One call more at the end of a live, settled protocol log keeps the protocol if it is permitted. */
  lemma AppendCall(log: seq<Call>, c: Call)
    requires Disciplined(log) && Settled(log) && Count(log, Destroy) == 0
    requires !c.DestroyEnvelopeCall?
    requires c.ConnectionCloseCall? ==> StateAfter(log) == ConnectionOpen
    ensures Disciplined(log + [c])
    ensures StateAfter(log + [c]) == Step(StateAfter(log), c)
    ensures !c.ConsumeMessageCall? ==> Settled(log + [c])
    ensures forall k :: Count(log + [c], k) == Count(log, k) + (if IsKind(c, k) then 1 else 0)
  {
    assert (log + [c])[..|log|] == log;
  }

  /** A consume followed at once by the release of its envelope keeps the protocol and leaves the log settled. */
  lemma AppendConsume(log: seq<Call>, flags: i32, reply: RpcReply, envelope: Envelope)
    requires Disciplined(log) && Settled(log) && Count(log, Destroy) == 0
    ensures var log' := log + [ConsumeMessageCall(flags, reply, envelope), DestroyEnvelopeCall(envelope)];
      && Disciplined(log') && Settled(log') && Count(log', Destroy) == 0
      && StateAfter(log') == StateAfter(log)
      && Count(log', EnvelopeReleased) == Count(log, EnvelopeReleased) + 1
  {
    var c := ConsumeMessageCall(flags, reply, envelope);
    AppendCall(log, c);
    var mid := log + [c];
    var log' := log + [c, DestroyEnvelopeCall(envelope)];
    assert log' == mid + [DestroyEnvelopeCall(envelope)];
    assert log'[..|mid|] == mid;
  }

  /** `amqp_connection_state_t`: the foreign handle, known here by the calls made on it. */
  class ConnectionHandle {
    ghost var calls: seq<Call>

    constructor ()
      ensures calls == []
    {
      calls := [];
    }

    /** `amqp_tcp_socket_new`: `ok` is false when it returns null. */
    method TcpSocketNew() returns (ok: bool)
      modifies this
      ensures calls == old(calls) + [TcpSocketNewCall(ok)]
    {
      ok :| true;
      calls := calls + [TcpSocketNewCall(ok)];
    }

    /** `amqp_socket_open`. */
    method SocketOpen(host: string, port: i32) returns (status: i32)
      modifies this
      ensures calls == old(calls) + [SocketOpenCall(host, port, status)]
    {
      status :| true;
      calls := calls + [SocketOpenCall(host, port, status)];
    }

    /** `amqp_login`. */
    method Login(args: LoginArgs) returns (reply: RpcReply)
      modifies this
      ensures calls == old(calls) + [LoginCall(args, reply)]
    {
      reply :| true;
      calls := calls + [LoginCall(args, reply)];
    }

    /** `amqp_channel_open`: `ok` is false when it returns null. */
    method ChannelOpen(id: u16) returns (ok: bool)
      modifies this
      ensures calls == old(calls) + [ChannelOpenCall(id, ok)]
    {
      ok :| true;
      calls := calls + [ChannelOpenCall(id, ok)];
    }

    /** `amqp_channel_close`. */
    method ChannelClose(id: u16, code: i32) returns (reply: RpcReply)
      modifies this
      ensures calls == old(calls) + [ChannelCloseCall(id, code, reply)]
    {
      reply :| true;
      calls := calls + [ChannelCloseCall(id, code, reply)];
    }

    /**
     * `amqp_simple_rpc`. The one thing relied on: a normal reply answers with one
     * of the expected methods, and a queue.declare-ok comes decoded with a
     * readable queue name.
     */
    method SimpleRpc(request: RpcRequest) returns (reply: RpcReply)
      modifies this
      ensures calls == old(calls) + [SimpleRpcCall(request, reply)]
      ensures reply.replyType == AMQP_RESPONSE_NORMAL ==>
        reply.reply.id != 0 && reply.reply.id in request.expectedReplyIds
      ensures reply.reply.id == MethodNumber(QueueDeclareOk) ==> DeclareOkReadable(reply)
    {
      var none := RpcReply(AMQP_RESPONSE_NONE, MethodFrame(0, NoRecord), 0);
      assert none.reply.id != MethodNumber(QueueDeclareOk);
      reply :| (reply.replyType == AMQP_RESPONSE_NORMAL ==>
                 reply.reply.id != 0 && reply.reply.id in request.expectedReplyIds)
             && (reply.reply.id == MethodNumber(QueueDeclareOk) ==> DeclareOkReadable(reply));
      calls := calls + [SimpleRpcCall(request, reply)];
    }

    /** `amqp_basic_publish`. */
    method BasicPublish(publish: PublishRequest) returns (status: i32)
      modifies this
      ensures calls == old(calls) + [BasicPublishCall(publish, status)]
    {
      status :| true;
      calls := calls + [BasicPublishCall(publish, status)];
    }

    /** `amqp_basic_consume`. */
    method BasicConsume(consume: ConsumeRequest) returns (result: ConsumeOkRef)
      modifies this
      ensures calls == old(calls) + [BasicConsumeCall(consume, result)]
    {
      result :| true;
      calls := calls + [BasicConsumeCall(consume, result)];
    }

    /** `amqp_consume_message`: on a normal reply the envelope's body view is readable. */
    method ConsumeMessage(flags: i32) returns (reply: RpcReply, envelope: Envelope)
      modifies this
      ensures calls == old(calls) + [ConsumeMessageCall(flags, reply, envelope)]
      ensures reply.replyType == AMQP_RESPONSE_NORMAL ==> ValidView(envelope.body)
    {
      var empty := Envelope(AmqpBytes(0, []));
      assert ValidView(empty.body);
      reply, envelope :| reply.replyType == AMQP_RESPONSE_NORMAL ==> ValidView(envelope.body);
      calls := calls + [ConsumeMessageCall(flags, reply, envelope)];
    }

    /** `amqp_destroy_envelope`. */
    method DestroyEnvelope(envelope: Envelope)
      modifies this
      ensures calls == old(calls) + [DestroyEnvelopeCall(envelope)]
    {
      calls := calls + [DestroyEnvelopeCall(envelope)];
    }

    /** `amqp_connection_close`. */
    method ConnectionClose(code: i32) returns (reply: RpcReply)
      modifies this
      ensures calls == old(calls) + [ConnectionCloseCall(code, reply)]
    {
      reply :| true;
      calls := calls + [ConnectionCloseCall(code, reply)];
    }

    /** `amqp_destroy_connection`. */
    method Destroy()
      modifies this
      ensures calls == old(calls) + [DestroyConnectionCall]
    {
      calls := calls + [DestroyConnectionCall];
    }
  }

  /** `amqp_new_connection`: a fresh handle, or null. */
  method NewConnection() returns (handle: ConnectionHandle?)
    ensures handle != null ==> fresh(handle) && handle.calls == []
  {
    if * {
      handle := null;
    } else {
      handle := new ConnectionHandle();
    }
  }
}
