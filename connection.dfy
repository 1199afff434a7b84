/**
 * `Connection`: one transport handle and the open/closed state the binding
 * keeps beside it. The object invariant ties the state to the log of foreign
 * calls on the handle and keeps that log within the protocol.
 */
module Connections {
  import opened Ints
  import opened Wrappers
  import opened Bytes
  import opened Tables
  import opened Properties
  import opened Replies
  import opened Requests
  import opened Transport

  /** `SocketType`. */
  datatype SocketType = TcpSocket

  const ALLOCATION_ERROR := "Error allocating new connection"
  const SOCKET_ERROR := "Error creating socket"

  /** The log grew by exactly one call. */
  ghost predicate OneCall(before: seq<Call>, after: seq<Call>) {
    |after| == |before| + 1 && after[..|before|] == before
  }

  class Connection {
    const handle: ConnectionHandle
    /** The transport's `amqp_error_string2` lookup, an arbitrary function. */
    const errorString: i32 -> string
    var connectionState: ConnectionState

    /**
     * The state is the one the calls on the handle lead to, the calls so far
     * keep the protocol, no consume is left with its envelope held, and the
     * handle has not been destroyed.
     */
    ghost predicate Valid()
      reads this, handle
    {
      && connectionState == StateAfter(handle.calls)
      && Disciplined(handle.calls)
      && Settled(handle.calls)
      && Count(handle.calls, Destroy) == 0
    }

    /** The struct literal `Connection { state, connection_state: ConnectionClosed }`. */
    constructor Wrap(handle: ConnectionHandle, errorString: i32 -> string)
      requires handle.calls == [TcpSocketNewCall(true)]
      ensures this.handle == handle && this.errorString == errorString
      ensures Valid() && connectionState == ConnectionClosed
    {
      this.handle := handle;
      this.errorString := errorString;
      connectionState := ConnectionClosed;
      new;
      assert handle.calls[..0] == [];
    }

    /**
     * `Connection::new`: a closed connection over a fresh handle with a TCP
     * socket, or the allocation error, or the socket error. As written, the
     * handle created before a socket failure is never destroyed.
     */
    static method New(socketType: SocketType, errorString: i32 -> string)
      returns (r: Result<Connection, string>, ghost created: ConnectionHandle?)
      ensures created == null ==> r == Err(ALLOCATION_ERROR)
      ensures created != null ==> fresh(created) && created.calls == [TcpSocketNewCall(r.Ok?)]
      ensures created != null && r.Err? ==> r.error == SOCKET_ERROR && Count(created.calls, Destroy) == 0
      ensures r.Ok? ==> fresh(r.value) && r.value.handle == created && r.value.errorString == errorString
      ensures r.Ok? ==> r.value.Valid() && r.value.connectionState == ConnectionClosed
    {
      var state := NewConnection();
      created := state;
      if state == null {
        return Err(ALLOCATION_ERROR), created;
      }
      match socketType {
        case TcpSocket =>
          var ok := state.TcpSocketNew();
          if !ok {
            assert state.calls[..0] == [];
            return Err(SOCKET_ERROR), created;
          }
      }
      var c := new Connection.Wrap(state, errorString);
      r := Ok(c);
    }

    /** `socket_open`: open exactly when the transport answers 0; otherwise the state stays and the code is reported. */
    method SocketOpen(hostname: string, port: Option<uint>) returns (r: Result<(), (string, i32)>)
      requires Valid()
      modifies this, handle
      ensures Valid() && OneCall(old(handle.calls), handle.calls)
      ensures var c := handle.calls[|handle.calls| - 1];
        && c.SocketOpenCall? && c.host == hostname && c.port == PortArgument(port)
        && r == SocketOpenOutcome(c.status, errorString)
      ensures connectionState == if r.Ok? then ConnectionOpen else old(connectionState)
    {
      ghost var before := handle.calls;
      var status := handle.SocketOpen(hostname, PortArgument(port));
      AppendCall(before, SocketOpenCall(hostname, PortArgument(port), status));
      if status == 0 {
        connectionState := ConnectionOpen;
        r := Ok(());
      } else {
        r := Err((errorString(status), status));
      }
    }

    /** `login`, issued whatever the state: success exactly on a normal reply. */
    method Login(vhost: string, channelMax: i64, frameMax: Option<i64>, heartbeat: i64, saslMethod: u32,
                 user: string, password: string) returns (r: Result<(), string>)
      requires Valid()
      modifies handle
      ensures Valid() && OneCall(old(handle.calls), handle.calls)
      ensures var c := handle.calls[|handle.calls| - 1];
        && c.LoginCall? && c.args == LoginArguments(vhost, channelMax, frameMax, heartbeat, saslMethod, user, password)
        && r == CheckReply(c.reply, errorString)
    {
      ghost var before := handle.calls;
      var args := LoginArguments(vhost, channelMax, frameMax, heartbeat, saslMethod, user, password);
      var reply := handle.Login(args);
      AppendCall(before, LoginCall(args, reply));
      r := CheckReply(reply, errorString);
    }

    /** `channel_open`: the channel with the caller's number, unless the transport answers null. */
    method ChannelOpen(channel: u16) returns (r: Option<Channel>)
      requires Valid()
      modifies handle
      ensures Valid() && OneCall(old(handle.calls), handle.calls)
      ensures var c := handle.calls[|handle.calls| - 1];
        && c.ChannelOpenCall? && c.id == channel
        && r == if c.ok then Some(Channel(channel)) else None
    {
      ghost var before := handle.calls;
      var ok := handle.ChannelOpen(channel);
      AppendCall(before, ChannelOpenCall(channel, ok));
      if ok {
        r := Some(Channel(channel));
      } else {
        r := None;
      }
    }

    /** `channel_close`: one close of that channel number with the given code; the reply is dropped. */
    method ChannelClose(channel: Channel, code: i32)
      requires Valid()
      modifies handle
      ensures Valid() && OneCall(old(handle.calls), handle.calls)
      ensures var c := handle.calls[|handle.calls| - 1];
        c.ChannelCloseCall? && c.id == channel.id && c.code == code
    {
      ghost var before := handle.calls;
      var reply := handle.ChannelClose(channel.id, code);
      AppendCall(before, ChannelCloseCall(channel.id, code, reply));
    }

    /** `simple_rpc`: one request waiting for `replyId`, with the transport's reply handed back. */
    method SimpleRpc(channel: Channel, requestId: AmqpMethod, replyId: AmqpMethod, payload: Payload)
      returns (reply: RpcReply)
      requires Valid()
      modifies handle
      ensures Valid()
      ensures handle.calls == old(handle.calls) + [SimpleRpcCall(SimpleRpcRequest(channel, requestId, replyId, payload), reply)]
      ensures reply.replyType == AMQP_RESPONSE_NORMAL ==> reply.reply.id == MethodNumber(replyId)
      ensures reply.reply.id == MethodNumber(QueueDeclareOk) ==> DeclareOkReadable(reply)
    {
      ghost var before := handle.calls;
      var request := SimpleRpcRequest(channel, requestId, replyId, payload);
      reply := handle.SimpleRpc(request);
      AppendCall(before, SimpleRpcCall(request, reply));
    }

    /** `queue_declare`: one queue.declare RPC; the declare-ok record on a normal reply, else the reply's message. */
    method QueueDeclare(channel: Channel, queue: string, passive: bool, durable: bool, exclusive: bool,
                        autoDelete: bool, arguments: Option<Table>) returns (r: Result<DeclareOk, string>)
      requires Valid()
      modifies handle
      ensures Valid() && OneCall(old(handle.calls), handle.calls)
      ensures var c := handle.calls[|handle.calls| - 1];
        && c.SimpleRpcCall?
        && c.request == QueueDeclareRequest(channel, queue, passive, durable, exclusive, autoDelete,
                                            old(ArgumentsToRabbit(arguments)))
        && DeclareOkReadable(c.reply) && r == QueueDeclareOutcome(c.reply, errorString)
    {
      var args := ArgumentsToRabbit(arguments);
      var req := QueueDeclareRequest(channel, queue, passive, durable, exclusive, autoDelete, args).payload;
      var reply := SimpleRpc(channel, AmqpMethod.QueueDeclare, AmqpMethod.QueueDeclareOk, req);
      r := QueueDeclareOutcome(reply, errorString);
    }

    /**
     * `queue_bind`: one RPC carrying the bind record, sent, as written, under
     * the queue.declare method numbers; success exactly on a normal reply.
     */
    method QueueBind(channel: Channel, queue: string, exchange: string, routingKey: string,
                     arguments: Option<Table>) returns (r: Result<(), string>)
      requires Valid()
      modifies handle
      ensures Valid() && OneCall(old(handle.calls), handle.calls)
      ensures var c := handle.calls[|handle.calls| - 1];
        && c.SimpleRpcCall?
        && c.request == QueueBindRequest(channel, queue, exchange, routingKey, old(ArgumentsToRabbit(arguments)))
        && r == CheckReply(c.reply, errorString)
    {
      var args := ArgumentsToRabbit(arguments);
      var req := QueueBindRequest(channel, queue, exchange, routingKey, args).payload;
      var reply := SimpleRpc(channel, AmqpMethod.QueueDeclare, AmqpMethod.QueueDeclareOk, req);
      r := CheckReply(reply, errorString);
    }

    /** `basic_publish`: one publish of the packed arguments; the transport's status is returned as is. */
    method BasicPublish(channel: Channel, exchange: string, routingKey: string, mandatory: bool, immediate: bool,
                        properties: Option<BasicProperties>, body: seq<u8>) returns (status: i32)
      requires Valid()
      modifies handle
      ensures Valid()
      ensures handle.calls == old(handle.calls) +
        [BasicPublishCall(old(PublishArguments(channel, exchange, routingKey, mandatory, immediate, properties, body)), status)]
    {
      var publish := PublishArguments(channel, exchange, routingKey, mandatory, immediate, properties, body);
      status := SendPublish(publish);
    }

    /** The `amqp_basic_publish` call itself, on arguments already converted. */
    method SendPublish(publish: PublishRequest) returns (status: i32)
      requires Valid()
      modifies handle
      ensures Valid()
      ensures handle.calls == old(handle.calls) + [BasicPublishCall(publish, status)]
    {
      ghost var before := handle.calls;
      status := handle.BasicPublish(publish);
      AppendCall(before, BasicPublishCall(publish, status));
    }

    /** `basic_consume`: one consume registration; the transport's pointer is returned unread. */
    method BasicConsume(channel: Channel, queue: string, consumerTag: string, noLocal: bool, noAck: bool,
                        exclusive: bool, arguments: Option<Table>) returns (result: ConsumeOkRef)
      requires Valid()
      modifies handle
      ensures Valid()
      ensures handle.calls == old(handle.calls) +
        [BasicConsumeCall(ConsumeArguments(channel, queue, consumerTag, noLocal, noAck, exclusive,
                                           old(ArgumentsToRabbit(arguments))), result)]
    {
      ghost var before := handle.calls;
      var consume := ConsumeArguments(channel, queue, consumerTag, noLocal, noAck, exclusive, ArgumentsToRabbit(arguments));
      result := handle.BasicConsume(consume);
      AppendCall(before, BasicConsumeCall(consume, result));
    }

    /**
     * `consume_message`: one receive, then the release of its envelope, on the
     * success and on the error path alike, after the body has been copied out.
     */
    method ConsumeMessage(flags: Option<i64>) returns (r: Result<AmqpMessage, string>)
      requires Valid()
      modifies handle
      ensures Valid()
      ensures |handle.calls| == |old(handle.calls)| + 2 && handle.calls[..|old(handle.calls)|] == old(handle.calls)
      ensures var c := handle.calls[|old(handle.calls)|];
        && c.ConsumeMessageCall? && c.flags == WrapI32(flags.GetOr(0))
        && handle.calls[|old(handle.calls)| + 1] == DestroyEnvelopeCall(c.envelope)
        && (c.reply.replyType == AMQP_RESPONSE_NORMAL ==> ValidView(c.envelope.body))
        && r == ConsumeOutcome(c.reply, c.envelope, errorString)
      ensures Count(handle.calls, EnvelopeReleased) == Count(old(handle.calls), EnvelopeReleased) + 1
    {
      ghost var before := handle.calls;
      var flag := WrapI32(flags.GetOr(0));
      var reply, envelope := handle.ConsumeMessage(flag);
      if reply.replyType == AMQP_RESPONSE_NORMAL {
        var message := AmqpMessage(AmqpBytesToVec(envelope.body));
        handle.DestroyEnvelope(envelope);
        r := Ok(message);
      } else {
        handle.DestroyEnvelope(envelope);
        r := Err(ReplyToError(reply, errorString));
      }
      AppendConsume(before, flag, reply, envelope);
      assert handle.calls == before + [ConsumeMessageCall(flag, reply, envelope), DestroyEnvelopeCall(envelope)];
    }

    /**
     * `connection_close`: on an open connection, one close RPC and its reply;
     * on a closed one, nothing. Either way the connection is closed after.
     */
    method ConnectionClose(code: i32) returns (r: Option<RpcReply>)
      requires Valid()
      modifies this, handle
      ensures Valid() && connectionState == ConnectionClosed
      ensures old(connectionState) == ConnectionClosed ==> r.None? && handle.calls == old(handle.calls)
      ensures old(connectionState) == ConnectionOpen ==>
        r.Some? && handle.calls == old(handle.calls) + [ConnectionCloseCall(code, r.value)]
    {
      match connectionState
      case ConnectionOpen =>
        ghost var before := handle.calls;
        connectionState := ConnectionClosed;
        var reply := handle.ConnectionClose(code);
        AppendCall(before, ConnectionCloseCall(code, reply));
        r := Some(reply);
      case ConnectionClosed =>
        r := None;
    }

    /**
     * `Drop`: a close RPC with the success code if the connection is open,
     * then the handle's destruction, which ends the handle's log.
     */
    method Drop()
      requires Valid()
      modifies this, handle
      ensures connectionState == ConnectionClosed
      ensures var n := |old(handle.calls)|;
        && |handle.calls| == n + (if old(connectionState) == ConnectionOpen then 2 else 1)
        && handle.calls[..n] == old(handle.calls)
        && (old(connectionState) == ConnectionOpen ==>
              handle.calls[n].ConnectionCloseCall? && handle.calls[n].code == AMQP_REPLY_SUCCESS)
        && handle.calls[|handle.calls| - 1] == DestroyConnectionCall
      ensures Count(handle.calls, CloseRpc) == Count(old(handle.calls), CloseRpc) + (if old(connectionState) == ConnectionOpen then 1 else 0)
      ensures Count(handle.calls, Destroy) == 1
      ensures Disciplined(handle.calls) && Settled(handle.calls)
    {
      ghost var before := handle.calls;
      var _ := ConnectionClose(AMQP_REPLY_SUCCESS);
      ghost var closed := handle.calls;
      handle.Destroy();
      AppendCall(closed, DestroyConnectionCall);
      if old(connectionState) == ConnectionOpen {
        AppendCall(before, closed[|closed| - 1]);
      }
    }
  }

  /** Closing twice: the first close answers with the reply exactly when the connection was open, the second never; one close RPC at most. */
  method CloseTwice(connection: Connection, code: i32) returns (first: Option<RpcReply>, second: Option<RpcReply>)
    requires connection.Valid()
    modifies connection, connection.handle
    ensures connection.Valid() && connection.connectionState == ConnectionClosed
    ensures first.Some? <==> old(connection.connectionState) == ConnectionOpen
    ensures second.None?
    ensures Count(connection.handle.calls, CloseRpc) == Count(old(connection.handle.calls), CloseRpc) + (if first.Some? then 1 else 0)
  {
    ghost var before := connection.handle.calls;
    first := connection.ConnectionClose(code);
    second := connection.ConnectionClose(code);
    if first.Some? {
      AppendCall(before, ConnectionCloseCall(code, first.value));
    }
  }
}
