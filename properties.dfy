/**
 * `amqp_basic_properties`: the content header of a published message and its
 * wire form. The flags word is whatever the caller stored; the binding does not
 * derive it from the fields that are set.
 */
module Properties {
  import opened Ints
  import opened Bytes
  import opened Tables

  datatype BasicProperties = BasicProperties(
    flags: u32,
    contentType: string,
    contentEncoding: string,
    headers: Table,
    deliveryMode: u8,
    priority: u8,
    correlationId: string,
    replyTo: string,
    expiration: string,
    messageId: string,
    timestamp: u64,
    messageType: string,
    userId: string,
    appId: string,
    clusterId: string)

  /** `amqp_basic_properties_t`. */
  datatype WireProperties = WireProperties(
    flags: u32,
    contentType: AmqpBytes,
    contentEncoding: AmqpBytes,
    headers: WireTable,
    deliveryMode: u8,
    priority: u8,
    correlationId: AmqpBytes,
    replyTo: AmqpBytes,
    expiration: AmqpBytes,
    messageId: AmqpBytes,
    timestamp: u64,
    messageType: AmqpBytes,
    userId: AmqpBytes,
    appId: AmqpBytes,
    clusterId: AmqpBytes)

  /**
   * `amqp_basic_properties::to_rabbit`: every field carried over, the strings as
   * byte views (an unset string is the empty view), the flags copied unchanged.
   */
  function PropertiesToRabbit(p: BasicProperties): (r: WireProperties)
    reads p.headers
    ensures r.flags == p.flags
    ensures Carries(r.contentType, p.contentType) && Carries(r.contentEncoding, p.contentEncoding)
    ensures r.headers == p.headers.ToRabbit()
    ensures r.deliveryMode == p.deliveryMode && r.priority == p.priority
    ensures Carries(r.correlationId, p.correlationId) && Carries(r.replyTo, p.replyTo)
    ensures Carries(r.expiration, p.expiration) && Carries(r.messageId, p.messageId)
    ensures r.timestamp == p.timestamp && Carries(r.messageType, p.messageType)
    ensures Carries(r.userId, p.userId) && Carries(r.appId, p.appId) && Carries(r.clusterId, p.clusterId)
  {
    WireProperties(
      p.flags,
      StrToAmqpBytes(p.contentType),
      StrToAmqpBytes(p.contentEncoding),
      p.headers.ToRabbit(),
      p.deliveryMode,
      p.priority,
      StrToAmqpBytes(p.correlationId),
      StrToAmqpBytes(p.replyTo),
      StrToAmqpBytes(p.expiration),
      StrToAmqpBytes(p.messageId),
      p.timestamp,
      StrToAmqpBytes(p.messageType),
      StrToAmqpBytes(p.userId),
      StrToAmqpBytes(p.appId),
      StrToAmqpBytes(p.clusterId))
  }
}
