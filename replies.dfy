/**
 * Method identifiers and RPC replies. A method number packs an AMQP 0-9-1
 * class id and method id as (class-id << 16 | method-id) (section 4.2.4 of the
 * AMQP 0-9-1 specification); `ReplyToError` turns every reply into the
 * message the binding reports.
 */
module Replies {
  import opened Ints
  import opened Wrappers
  import opened Bytes
  import Decimal

  /** `AMQPMethod`. */
  datatype AmqpMethod =
    | QueueDeclare | QueueDeclareOk
    | QueueBind | QueueBindOk
    | ConnectionClose | ConnectionCloseOk
    | ChannelClose | ChannelCloseOk

  /** The AMQP 0-9-1 class a method belongs to: connection 10, channel 20, queue 50. */
  function ClassId(m: AmqpMethod): u16 {
    match m
    case QueueDeclare | QueueDeclareOk | QueueBind | QueueBindOk => 50
    case ConnectionClose | ConnectionCloseOk => 10
    case ChannelClose | ChannelCloseOk => 20
  }

  /** The method's index within its class in AMQP 0-9-1. */
  function MethodIndex(m: AmqpMethod): u16 {
    match m
    case QueueDeclare => 10
    case QueueDeclareOk => 11
    case QueueBind => 20
    case QueueBindOk => 21
    case ConnectionClose => 50
    case ConnectionCloseOk => 51
    case ChannelClose => 40
    case ChannelCloseOk => 41
  }

  /** The enumeration's integer values, which are the packed AMQP method numbers. */
  function MethodNumber(m: AmqpMethod): (r: u32)
    ensures r == ClassId(m) * 0x1_0000 + MethodIndex(m)
    ensures r / 0x1_0000 == ClassId(m) && r % 0x1_0000 == MethodIndex(m)
  {
    match m
    case QueueDeclare => 0x0032000A
    case QueueDeclareOk => 0x0032000B
    case QueueBind => 0x00320014
    case QueueBindOk => 0x00320015
    case ConnectionClose => 0x000A0032
    case ConnectionCloseOk => 0x000A0033
    case ChannelClose => 0x00140028
    case ChannelCloseOk => 0x00140029
  }

  /** The methods this binding sends and waits on a reply for. */
  predicate IsRequest(m: AmqpMethod) {
    m.QueueDeclare? || m.QueueBind? || m.ConnectionClose? || m.ChannelClose?
  }

  /** The `-ok` method a request is answered with: the next method of the same class. */
  function ReplyMethod(m: AmqpMethod): (r: AmqpMethod)
    requires IsRequest(m)
    ensures ClassId(r) == ClassId(m) && MethodIndex(r) == MethodIndex(m) + 1
  {
    match m
    case QueueDeclare => QueueDeclareOk
    case QueueBind => QueueBindOk
    case ConnectionClose => ConnectionCloseOk
    case ChannelClose => ChannelCloseOk
  }

  /** `amqp_response_type_enum` (librabbitmq's amqp.h). */
  const AMQP_RESPONSE_NONE: u32 := 0
  const AMQP_RESPONSE_NORMAL: u32 := 1
  const AMQP_RESPONSE_LIBRARY_EXCEPTION: u32 := 2
  const AMQP_RESPONSE_SERVER_EXCEPTION: u32 := 3

  /** `AMQP_REPLY_SUCCESS`, the reply code of an orderly close. */
  const AMQP_REPLY_SUCCESS: i32 := 200

  /** The decoded method record `amqp_method_t.decoded` points at. */
  datatype Decoded =
    | NoRecord
    | QueueDeclareOkRecord(queue: AmqpBytes, messageCount: u32, consumerCount: u32)

  /** `amqp_method_t`: a method number and its decoded arguments. */
  datatype MethodFrame = MethodFrame(id: u32, decoded: Decoded)

  /**
   * `amqp_rpc_reply_t`. The reply type is a raw C enumeration value, so
   * values outside the four named ones are representable.
   */
  datatype RpcReply = RpcReply(replyType: u32, reply: MethodFrame, libraryError: i32)

  const MISSING_REPLY_TYPE := "Missing RPC reply type"
  const SERVER_CONNECTION_ERROR := "server connection error"
  const SERVER_CHANNEL_ERROR := "server channel error"
  const UNKNOWN_SERVER_ERROR_PREFIX := "Unknown server error, method id "
  const NO_ERROR := "No error"
  const UNKNOWN_REPLY_TYPE := "Unknown reply_type"

  /**
   * `reply_to_error`: total over every reply. `errorString` is the transport's
   * `amqp_error_string2` lookup, about which nothing is assumed.
   */
  function ReplyToError(reply: RpcReply, errorString: i32 -> string): (r: string)
    ensures reply.replyType == AMQP_RESPONSE_NONE ==> r == MISSING_REPLY_TYPE
    ensures reply.replyType == AMQP_RESPONSE_LIBRARY_EXCEPTION ==> r == errorString(reply.libraryError)
    ensures reply.replyType == AMQP_RESPONSE_NORMAL ==> r == NO_ERROR
    ensures reply.replyType > AMQP_RESPONSE_SERVER_EXCEPTION ==> r == UNKNOWN_REPLY_TYPE
  {
    if reply.replyType == AMQP_RESPONSE_NONE then MISSING_REPLY_TYPE
    else if reply.replyType == AMQP_RESPONSE_LIBRARY_EXCEPTION then errorString(reply.libraryError)
    else if reply.replyType == AMQP_RESPONSE_SERVER_EXCEPTION then
      if reply.reply.id == MethodNumber(ConnectionClose) then SERVER_CONNECTION_ERROR
      else if reply.reply.id == MethodNumber(ChannelClose) then SERVER_CHANNEL_ERROR
      else UNKNOWN_SERVER_ERROR_PREFIX + Decimal.Format(reply.reply.id)
    else if reply.replyType == AMQP_RESPONSE_NORMAL then NO_ERROR
    else UNKNOWN_REPLY_TYPE
  }

  /** The method number an "Unknown server error" message reports, if it is one. */
  function ReportedMethodId(message: string): Option<nat> {
    var p := |UNKNOWN_SERVER_ERROR_PREFIX|;
    if |message| > p && message[..p] == UNKNOWN_SERVER_ERROR_PREFIX
       && forall i :: p <= i < |message| ==> Decimal.IsDigit(message[i])
    then Some(Decimal.Value(message[p..]))
    else None
  }

  /** The five messages that carry no method number. */
  predicate IsFixedMessage(message: string) {
    message == MISSING_REPLY_TYPE || message == SERVER_CONNECTION_ERROR || message == SERVER_CHANNEL_ERROR
    || message == NO_ERROR || message == UNKNOWN_REPLY_TYPE
  }

  /**
   * A server exception is reported by the method the server closed with: a
   * connection.close and a channel.close get their own messages, and any other
   * method number is written after "Unknown server error, method id " in
   * decimal, with no sign and no leading zero, from which it reads back.
   */
  lemma ServerExceptionMessage(reply: RpcReply, errorString: i32 -> string)
    requires reply.replyType == AMQP_RESPONSE_SERVER_EXCEPTION
    ensures var m := ReplyToError(reply, errorString);
      && (m == SERVER_CONNECTION_ERROR <==> reply.reply.id == MethodNumber(ConnectionClose))
      && (m == SERVER_CHANNEL_ERROR <==> reply.reply.id == MethodNumber(ChannelClose))
      && (ReportedMethodId(m).Some? <==> !IsFixedMessage(m))
      && (ReportedMethodId(m).Some? ==> ReportedMethodId(m) == Some(reply.reply.id as nat))
      && (reply.reply.id != MethodNumber(ConnectionClose) && reply.reply.id != MethodNumber(ChannelClose) ==>
            m == UNKNOWN_SERVER_ERROR_PREFIX + Decimal.Format(reply.reply.id)
            && ReportedMethodId(m) == Some(reply.reply.id as nat))
  {
    var id := reply.reply.id;
    var m := ReplyToError(reply, errorString);
    var p := |UNKNOWN_SERVER_ERROR_PREFIX|;
    if id != MethodNumber(ConnectionClose) && id != MethodNumber(ChannelClose) {
      var digits := Decimal.Format(id);
      assert m == UNKNOWN_SERVER_ERROR_PREFIX + digits;
      assert m[..p] == UNKNOWN_SERVER_ERROR_PREFIX && m[p..] == digits;
      assert m[0] == 'U';
      assert |m| > |NO_ERROR| && |m| > |UNKNOWN_REPLY_TYPE| && |m| > |SERVER_CONNECTION_ERROR|;
      Decimal.ValueFormat(id);
    } else {
      assert m[0] == 's';
    }
  }

  /**
   * A server exception's message determines the method number the server
   * closed with: two server exceptions with the same message came with the same id.
   */
  lemma ServerExceptionMessageDeterminesId(r1: RpcReply, r2: RpcReply, errorString: i32 -> string)
    requires r1.replyType == AMQP_RESPONSE_SERVER_EXCEPTION && r2.replyType == AMQP_RESPONSE_SERVER_EXCEPTION
    requires ReplyToError(r1, errorString) == ReplyToError(r2, errorString)
    ensures r1.reply.id == r2.reply.id
  {
    ServerExceptionMessage(r1, errorString);
    ServerExceptionMessage(r2, errorString);
  }

  /**
   * Apart from library exceptions, whose text comes from the transport,
   * "No error" is reported for a normal reply and for nothing else, and every
   * reply type outside the four known ones is reported as unknown.
   */
  lemma NoErrorOnlyForNormal(reply: RpcReply, errorString: i32 -> string)
    requires reply.replyType != AMQP_RESPONSE_LIBRARY_EXCEPTION
    ensures ReplyToError(reply, errorString) == NO_ERROR <==> reply.replyType == AMQP_RESPONSE_NORMAL
    ensures ReplyToError(reply, errorString) == UNKNOWN_REPLY_TYPE <==> reply.replyType > AMQP_RESPONSE_SERVER_EXCEPTION
  {
    if reply.replyType == AMQP_RESPONSE_SERVER_EXCEPTION {
      ServerExceptionMessage(reply, errorString);
      var m := ReplyToError(reply, errorString);
      if ReportedMethodId(m).None? {
        assert m == SERVER_CONNECTION_ERROR || m == SERVER_CHANNEL_ERROR;
      }
    }
  }
}
