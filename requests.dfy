/**
 * What the connection's calls hand to the transport (the request records and
 * argument packs) and how they read its answers, as values.
 */
module Requests {
  import opened Ints
  import opened Wrappers
  import opened Bytes
  import opened Tables
  import opened Properties
  import opened Replies

  /** `Channel`: the number of an open channel. */
  datatype Channel = Channel(id: u16)

  /** The port `socket_open` uses when none is given. */
  const DEFAULT_PORT: nat := 5672
  /** The frame_max `login` uses when none is given. */
  const DEFAULT_FRAME_MAX: int := 131072

  /** `port.unwrap_or(5672) as i32`. */
  function PortArgument(port: Option<uint>): (r: i32)
    ensures port.None? ==> r == DEFAULT_PORT
    ensures port.Some? && port.value < 0x8000_0000 ==> r == port.value
    ensures port.Some? ==> (r - port.value) % 0x1_0000_0000 == 0
  {
    WrapI32(port.GetOr(DEFAULT_PORT))
  }

  /** `socket_open`'s answer to the transport's status code. */
  function SocketOpenOutcome(status: i32, errorString: i32 -> string): (r: Result<(), (string, i32)>)
    ensures r.Ok? <==> status == 0
    ensures r.Err? ==> r.error == (errorString(status), status)
  {
    if status == 0 then Ok(()) else Err((errorString(status), status))
  }

  /** The arguments `login` passes to `amqp_login`, after its casts and defaults. */
  datatype LoginArgs = LoginArgs(
    vhost: string, channelMax: i32, frameMax: i32, heartbeat: i32,
    saslMethod: u32, user: string, password: string)

  function LoginArguments(vhost: string, channelMax: i64, frameMax: Option<i64>, heartbeat: i64,
                          saslMethod: u32, user: string, password: string): (r: LoginArgs)
    ensures r.vhost == vhost && r.saslMethod == saslMethod && r.user == user && r.password == password
    ensures frameMax.None? ==> r.frameMax == DEFAULT_FRAME_MAX
    ensures (r.channelMax - channelMax) % 0x1_0000_0000 == 0 && (r.heartbeat - heartbeat) % 0x1_0000_0000 == 0
    ensures frameMax.Some? ==> (r.frameMax - frameMax.value) % 0x1_0000_0000 == 0
  {
    LoginArgs(vhost, WrapI32(channelMax), WrapI32(frameMax.GetOr(DEFAULT_FRAME_MAX)),
              WrapI32(heartbeat), saslMethod, user, password)
  }

  /**
   * The answer of an RPC whose success carries no value (`login`,
   * `queue_bind`): success exactly on a normal reply, else the reply's message.
   */
  function CheckReply(reply: RpcReply, errorString: i32 -> string): (r: Result<(), string>)
    ensures r.Ok? <==> reply.replyType == AMQP_RESPONSE_NORMAL
    ensures r.Err? ==> r.error == ReplyToError(reply, errorString)
  {
    if reply.replyType == AMQP_RESPONSE_NORMAL then Ok(()) else Err(ReplyToError(reply, errorString))
  }

  /** The argument records `simple_rpc` sends. */
  datatype Payload =
    | QueueDeclareArgs(ticket: u16, queue: AmqpBytes, passive: i32, durable: i32, exclusive: i32,
                       autoDelete: i32, nowait: i32, arguments: WireTable)
    | QueueBindArgs(ticket: u16, queue: AmqpBytes, exchange: AmqpBytes, routingKey: AmqpBytes,
                    nowait: i32, arguments: WireTable)

  /** The method a payload is the argument record of. */
  function PayloadMethod(p: Payload): (m: AmqpMethod)
    ensures IsRequest(m)
  {
    match p
    case QueueDeclareArgs(_, _, _, _, _, _, _, _) => QueueDeclare
    case QueueBindArgs(_, _, _, _, _, _) => QueueBind
  }

  /** One `amqp_simple_rpc` call: channel, request method, zero-terminated expected replies, record. */
  datatype RpcRequest = RpcRequest(channel: u16, requestId: u32, expectedReplyIds: seq<u32>, payload: Payload)

  /** `simple_rpc`: the request with its single expected reply id followed by the terminating 0. */
  function SimpleRpcRequest(channel: Channel, requestId: AmqpMethod, replyId: AmqpMethod, payload: Payload): (r: RpcRequest)
    ensures r.channel == channel.id && r.requestId == MethodNumber(requestId) && r.payload == payload
    ensures |r.expectedReplyIds| == 2 && r.expectedReplyIds[1] == 0
    ensures r.expectedReplyIds[0] == MethodNumber(replyId) && r.expectedReplyIds[0] != 0
  {
    RpcRequest(channel.id, MethodNumber(requestId), [MethodNumber(replyId), 0], payload)
  }

  /**
   * The method number sent is that of the record sent, and the one reply
   * expected is that method's `-ok`.
   */
  predicate Matched(r: RpcRequest) {
    r.requestId == MethodNumber(PayloadMethod(r.payload))
    && r.expectedReplyIds == [MethodNumber(ReplyMethod(PayloadMethod(r.payload))), 0]
  }

  /** `queue_declare`'s request: ticket and nowait 0, flags 0/1, the queue name's bytes, the given or empty table. */
  function QueueDeclareRequest(channel: Channel, queue: string, passive: bool, durable: bool, exclusive: bool,
                               autoDelete: bool, arguments: WireTable): (r: RpcRequest)
    ensures Matched(r) && r.channel == channel.id
    ensures r.payload.QueueDeclareArgs? && r.payload.ticket == 0 && r.payload.nowait == 0
    ensures Carries(r.payload.queue, queue) && r.payload.arguments == arguments
    ensures TruthValue(r.payload.passive, passive) && TruthValue(r.payload.durable, durable)
    ensures TruthValue(r.payload.exclusive, exclusive) && TruthValue(r.payload.autoDelete, autoDelete)
  {
    var req := QueueDeclareArgs(0, StrToAmqpBytes(queue), BoolFlag(passive), BoolFlag(durable),
                                BoolFlag(exclusive), BoolFlag(autoDelete), 0, arguments);
    SimpleRpcRequest(channel, QueueDeclare, QueueDeclareOk, req)
  }

  /**
   * `queue_bind`'s request, as written: a queue.bind record sent under the
   * queue.declare method number, waiting for queue.declare-ok.
   */
  function QueueBindRequest(channel: Channel, queue: string, exchange: string, routingKey: string,
                            arguments: WireTable): (r: RpcRequest)
    ensures !Matched(r) && r.channel == channel.id
    ensures r.requestId == MethodNumber(QueueDeclare) && r.expectedReplyIds == [MethodNumber(QueueDeclareOk), 0]
    ensures r.payload.QueueBindArgs? && r.payload.ticket == 0 && r.payload.nowait == 0
    ensures Carries(r.payload.queue, queue) && Carries(r.payload.exchange, exchange)
    ensures Carries(r.payload.routingKey, routingKey) && r.payload.arguments == arguments
  {
    var req := QueueBindArgs(0, StrToAmqpBytes(queue), StrToAmqpBytes(exchange), StrToAmqpBytes(routingKey), 0, arguments);
    SimpleRpcRequest(channel, QueueDeclare, QueueDeclareOk, req)
  }

  /** `amqp_queue_declare_ok`; `queue` is the buffer of the Rust `String`. */
  datatype DeclareOk = DeclareOk(queue: seq<u8>, messageCount: u32, consumerCount: u32)

  /** A normal reply to a request expecting queue.declare-ok carries a readable declare-ok record. */
  predicate DeclareOkReadable(reply: RpcReply) {
    reply.replyType == AMQP_RESPONSE_NORMAL ==>
      reply.reply.decoded.QueueDeclareOkRecord? && ValidView(reply.reply.decoded.queue)
  }

  /** `queue_declare`'s answer: the declare-ok record copied out on a normal reply, else the reply's message. */
  function QueueDeclareOutcome(reply: RpcReply, errorString: i32 -> string): (r: Result<DeclareOk, string>)
    requires DeclareOkReadable(reply)
    ensures r.Ok? <==> reply.replyType == AMQP_RESPONSE_NORMAL
    ensures r.Err? ==> r.error == ReplyToError(reply, errorString)
    ensures r.Ok? ==> var d := reply.reply.decoded;
      r.value.queue == AmqpBytesToVec(d.queue)
      && r.value.messageCount == d.messageCount && r.value.consumerCount == d.consumerCount
  {
    if reply.replyType == AMQP_RESPONSE_NORMAL then
      var d := reply.reply.decoded;
      Ok(DeclareOk(AmqpBytesToStr(d.queue), d.messageCount, d.consumerCount))
    else Err(ReplyToError(reply, errorString))
  }

  /** The arguments `basic_publish` passes to `amqp_basic_publish`. */
  datatype PublishRequest = PublishRequest(
    channel: u16, exchange: AmqpBytes, routingKey: AmqpBytes, mandatory: i32, immediate: i32,
    properties: Option<WireProperties>, body: AmqpBytes)

  function PublishArguments(channel: Channel, exchange: string, routingKey: string, mandatory: bool,
                            immediate: bool, properties: Option<BasicProperties>, body: seq<u8>): (r: PublishRequest)
    reads if properties.Some? then {properties.value.headers} else {}
    ensures r.channel == channel.id && Carries(r.exchange, exchange) && Carries(r.routingKey, routingKey)
    ensures TruthValue(r.mandatory, mandatory) && TruthValue(r.immediate, immediate)
    ensures r.properties.Some? <==> properties.Some?
    ensures properties.Some? ==> r.properties.value == PropertiesToRabbit(properties.value)
    ensures ValidView(r.body) && AmqpBytesToVec(r.body) == body
  {
    var props := match properties
      case Some(p) => Some(PropertiesToRabbit(p))
      case None => None;
    PublishRequest(channel.id, StrToAmqpBytes(exchange), StrToAmqpBytes(routingKey), BoolFlag(mandatory),
                   BoolFlag(immediate), props, VecToAmqpBytes(body))
  }

  /** The arguments `basic_consume` passes to `amqp_basic_consume`. */
  datatype ConsumeRequest = ConsumeRequest(
    channel: u16, queue: AmqpBytes, consumerTag: AmqpBytes, noLocal: i32, noAck: i32, exclusive: i32,
    arguments: WireTable)

  function ConsumeArguments(channel: Channel, queue: string, consumerTag: string, noLocal: bool, noAck: bool,
                            exclusive: bool, arguments: WireTable): (r: ConsumeRequest)
    ensures r.channel == channel.id && Carries(r.queue, queue) && Carries(r.consumerTag, consumerTag)
    ensures TruthValue(r.noLocal, noLocal) && TruthValue(r.noAck, noAck) && TruthValue(r.exclusive, exclusive)
    ensures r.arguments == arguments
  {
    ConsumeRequest(channel.id, StrToAmqpBytes(queue), StrToAmqpBytes(consumerTag), BoolFlag(noLocal),
                   BoolFlag(noAck), BoolFlag(exclusive), arguments)
  }

  /** The `amqp_basic_consume_ok_t` pointer `basic_consume` hands back unread (0 is null). */
  datatype ConsumeOkRef = ConsumeOkRef(address: nat)

  /** `amqp_envelope_t`, reduced to the delivered message's body view. */
  datatype Envelope = Envelope(body: AmqpBytes)

  /** `consume_message`'s answer: the body copied out on a normal reply, else the reply's message. */
  function ConsumeOutcome(reply: RpcReply, envelope: Envelope, errorString: i32 -> string): (r: Result<AmqpMessage, string>)
    requires reply.replyType == AMQP_RESPONSE_NORMAL ==> ValidView(envelope.body)
    ensures r.Ok? <==> reply.replyType == AMQP_RESPONSE_NORMAL
    ensures r.Ok? ==> r.value.body == AmqpBytesToVec(envelope.body)
    ensures r.Err? ==> r.error == ReplyToError(reply, errorString)
  {
    if reply.replyType == AMQP_RESPONSE_NORMAL then Ok(AmqpMessage(AmqpBytesToVec(envelope.body)))
    else Err(ReplyToError(reply, errorString))
  }

  /**
   * A delivery whose envelope holds the very view a publish sent yields the
   * published body byte for byte, zero bytes included.
   */
  lemma PublishedBodyConsumed(channel: Channel, exchange: string, routingKey: string, mandatory: bool,
                              immediate: bool, body: seq<u8>, reply: RpcReply, errorString: i32 -> string)
    requires reply.replyType == AMQP_RESPONSE_NORMAL
    ensures var sent := PublishArguments(channel, exchange, routingKey, mandatory, immediate, None, body);
      ConsumeOutcome(reply, Envelope(sent.body), errorString) == Ok(AmqpMessage(body))
  {
  }
}
