# rust-rabbitmq connection core, in Dafny

rust-rabbitmq is a thin Rust binding over librabbitmq, the C client for AMQP 0-9-1.
This project models the deterministic logic around the binding's foreign calls:

- the `Connection` object, with its open/closed state, `new`, `socket_open`, `login`, the
  channel calls, `simple_rpc`, `queue_declare`, `queue_bind`, `basic_publish`,
  `basic_consume`, `consume_message`, `connection_close` and `Drop`;
- `reply_to_error`, the map from an RPC reply to the message the binding reports;
- the wire values the binding builds: field-table values (`TableField` and its `u32`
  implementation), `amqp_table` with `add_entry` and `to_rabbit`, the basic properties,
  and the byte views (`str_to_amqp_bytes`, `vec_to_amqp_bytes`, `amqp_bytes_to_vec`,
  `amqp_bytes_to_str`);
- the `AMQPMethod` constants, as the packed class and method numbers of AMQP 0-9-1
  (section 4.2.4 of the AMQP 0-9-1 specification).

librabbitmq's code is not part of this model. A `ConnectionHandle` stands for
`amqp_connection_state_t`. Each foreign function is a method on it that returns an
arbitrary answer and records the call, its arguments and that answer in a ghost log.
Only three facts about the library are relied on:

- a normal `amqp_simple_rpc` reply answers with one of the expected methods;
- a queue.declare-ok reply carries a readable declare-ok record;
- a normal `amqp_consume_message` reply comes with a readable body view.

Every `Connection` method is proved against that log. Its postcondition states the
exact call or calls appended, and how the Rust result follows from the recorded answers.
The object invariant `Valid` ties `connection_state` to the state the log leads to
(`StateAfter`). It also keeps the log within the handle's protocol (`Disciplined`):

- a close RPC only on an open connection;
- nothing after `amqp_destroy_connection`;
- every consumed envelope released by the very next call.

Lemmas over such logs give the counting properties (closes never outnumber successful
opens; envelopes acquired equal envelopes released).

`error_string` is a function parameter about which nothing is assumed. Host strings are
Dafny strings. Their bytes are their UTF-8 encoding, which is proved to round-trip with a
strict decoder (`Utf8`). The method number in "Unknown server error, method id {}" is
written by a decimal formatter that is proved to read back (`Decimal`).

Three behaviours of the source are kept as written:

- `queue_bind` sends its bind record under the queue.declare method number and waits for
  queue.declare-ok (src/lib.rs:246). `QueueBindRequest` states that the request does not
  match its payload.
- `Connection::new` does not destroy the handle it allocated when socket creation fails
  (src/lib.rs:153-156). `Connection.New` states that no destroy call was made.
- Rust's `as i32` casts of `uint` and `int` keep the low 32 bits (`WrapI32`).

## Model

| member | source | states |
|---|---|---|
| `Replies.MethodNumber` | src/lib.rs:17-26 | each `AMQPMethod` value is its AMQP class id times 2^16 plus its method index, and unpacks back to both |
| `Replies.ReplyMethod` | src/lib.rs:18-25 | every request method's `-OK` constant is the next method of the same class |
| `Replies.ReplyToError` | src/lib.rs:364-376 | no reply type gives "Missing RPC reply type", a library exception the transport's error string for its code, a normal reply "No error", any type above 3 "Unknown reply_type"; the server-exception case is stated by `ServerExceptionMessage` |
| `Replies.ServerExceptionMessage` | src/lib.rs:364-376 | for a server exception: "server connection error" iff the id is connection.close, "server channel error" iff it is channel.close, and for any other id "Unknown server error, method id " followed by the id in decimal (digits only, no leading zero), which reads back as exactly that id |
| `Replies.ServerExceptionMessageDeterminesId` | src/lib.rs:368-372 | two server exceptions reported with the same message carry the same method id |
| `Replies.NoErrorOnlyForNormal` | src/lib.rs:364-376 | apart from library exceptions, "No error" is reported iff the reply is normal, and "Unknown reply_type" iff the type is outside the four known ones |
| `Decimal.ValueFormat` | src/lib.rs:371 | the decimal text of the method id reads back as that id |
| `Decimal.FormatInjective` | src/lib.rs:371 | distinct method ids get distinct decimal texts |
| `Ints.WrapI32` | src/lib.rs:164 | `as i32` gives the i32 congruent to its argument modulo 2^32, and an in-range argument unchanged |
| `Ints.BoolFlag` | src/lib.rs:215-218 | `bool as i32` is 0 or 1, nonzero exactly for true |
| `Utf8.DecodeEncode` | src/lib.rs:337-339 | a string's UTF-8 bytes decode back to that string |
| `Utf8.EncodeDecode` | src/lib.rs:88-92 | bytes that decode to a string are exactly that string's encoding |
| `Utf8.DecodeExactly` | src/lib.rs:88-92 | bytes decode to `s` iff they are the encoding of `s` |
| `Bytes.AmqpBytesToVec` | src/lib.rs:352-356 | the copy has the view's `len` and the bytes the view points at |
| `Bytes.AmqpBytesToStr` | src/lib.rs:347-351 | the string's buffer is the unchecked byte copy of the view |
| `Bytes.VecToAmqpBytes` | src/lib.rs:341-345 | the view is readable, has `len` equal to the vector's length, and copies back to the vector |
| `Bytes.StrToAmqpBytes` | src/lib.rs:337-339 | the view's length is the string's UTF-8 length, and it carries the string and reads back as it |
| `Bytes.CarriesReadsBack` | src/lib.rs:337-339 | a readable view carries `s` iff its bytes decode to `s` |
| `Bytes.StrBody` | src/lib.rs:88-92 | `str_body` is `Some(s)` iff the body is the UTF-8 encoding of `s`, and `None` for a malformed body |
| `Tables.TableField.Value` | src/lib.rs:37-39 | two raw words, which read back under the 'I' tag as exactly this u32 field |
| `Tables.TableField.Kind` | src/lib.rs:40-42 | the tag is 'I', the AMQP 0-9-1 field-table tag of a 32-bit integer (section 4.2.5.5) |
| `Tables.TableField.ToRabbit` | src/lib.rs:31-43 | the wire value has the field's kind ('I' for a u32), two words, and reads back as the field |
| `Tables.FromRabbitExact` | src/lib.rs:31-43 | a wire value that reads back as a field is that field's wire value |
| `Tables.Entry` | src/lib.rs:102 | an added entry's key carries the key string and its value reads back as the field |
| `Tables.Table.constructor` | src/lib.rs:64-67 | a default table has no entries |
| `Tables.Table.AddEntry` | src/lib.rs:101-103 | one entry more, at the end, earlier entries unchanged |
| `Tables.Table.ToRabbit` | src/lib.rs:95-99 | the wire table has the same entries, and `num_entries` is their count (exactly below 2^31, modulo 2^32 beyond) |
| `Tables.ArgumentsToRabbit` | src/lib.rs:207-210 | missing arguments become the empty table; given ones keep their entries, counted as `len as i32` (exactly below 2^31, modulo 2^32 beyond) |
| `Properties.PropertiesToRabbit` | src/lib.rs:107-116 | flags and numeric fields copied unchanged, headers converted, each string field carried as its UTF-8 view |
| `Requests.PortArgument` | src/lib.rs:164 | no port means 5672; an in-range port is passed unchanged, and any port as its i32 congruent value modulo 2^32 |
| `Requests.SocketOpenOutcome` | src/lib.rs:164-167 | `Ok` iff the status is 0, else the error string of the status with the status |
| `Requests.LoginArguments` | src/lib.rs:174-175 | strings and SASL method passed as given; frame_max defaults to 131072; integers cast to i32 |
| `Requests.CheckReply` | src/lib.rs:176-179 | `Ok` iff the reply is normal, else `reply_to_error` of the reply |
| `Requests.SimpleRpcRequest` | src/lib.rs:200-203 | the request carries the channel, the request method number and the given record unchanged, and expects the reply method number followed by a terminating 0 |
| `Requests.QueueDeclareRequest` | src/lib.rs:207-222 | ticket and nowait 0, each flag 0/1 and 1 iff set, the queue name carried, the arguments passed, sent as queue.declare waiting for queue.declare-ok |
| `Requests.QueueBindRequest` | src/lib.rs:234-246 | ticket and nowait 0, queue, exchange and routing key carried, arguments passed, sent under the declare method numbers, which do not match the bind record |
| `Requests.QueueDeclareOutcome` | src/lib.rs:223-228 | `Ok` iff the reply is normal, with queue name, message count and consumer count copied from the declare-ok record; otherwise `reply_to_error` |
| `Requests.PublishArguments` | src/lib.rs:257-261 | exchange and routing key carried, each flag 0/1 and 1 iff set, properties present iff given and converted, body view copying back to the body |
| `Requests.ConsumeArguments` | src/lib.rs:267-272 | queue and consumer tag carried, each flag 0/1 and 1 iff set, the arguments table passed |
| `Requests.ConsumeOutcome` | src/lib.rs:285-292 | `Ok` iff the reply is normal, with the body copied out of the envelope; otherwise `reply_to_error` |
| `Requests.PublishedBodyConsumed` | src/lib.rs:261 | a delivery of the very view a publish sent yields the published body |
| `Transport.ClosedOnlyWhenOpen` | src/lib.rs:296-306 | in a protocol log every close RPC was sent while the connection was open |
| `Transport.ClosesFollowOpens` | src/lib.rs:162-169 | in a protocol log close RPCs never outnumber successful socket opens, and strictly fewer while open |
| `Transport.EnvelopesBalance` | src/lib.rs:282-292 | in a settled protocol log envelopes acquired equal envelopes released |
| `Transport.ConnectionHandle.SimpleRpc` | src/lib.rs:202 | the call is logged; a normal reply carries a nonzero expected method id |
| `Transport.ConnectionHandle.ConsumeMessage` | src/lib.rs:284 | the call is logged; a normal reply has a readable body view |
| `Transport.ConnectionHandle.DestroyEnvelope` | src/lib.rs:331-335 | the release is logged |
| `Transport.NewConnection` | src/lib.rs:147 | null, or a fresh handle with no calls |
| `Connections.Connection.Wrap` | src/lib.rs:159 | a new connection over a handle with a TCP socket is closed and valid |
| `Connections.Connection.New` | src/lib.rs:145-160 | allocation error on a null handle; socket error on a null socket, with the handle not destroyed; otherwise a closed, valid connection |
| `Connections.Connection.SocketOpen` | src/lib.rs:162-169 | one socket-open call with the host and defaulted port; open exactly when the status is 0, state unchanged and `(error_string(code), code)` otherwise |
| `Connections.Connection.Login` | src/lib.rs:171-181 | one login call with the converted arguments; the result is `CheckReply` of its reply |
| `Connections.Connection.ChannelOpen` | src/lib.rs:183-192 | one channel-open call; the channel with the caller's number, or `None` on a null answer |
| `Connections.Connection.ChannelClose` | src/lib.rs:194-198 | one channel-close call with that channel number and code |
| `Connections.Connection.SimpleRpc` | src/lib.rs:200-203 | one RPC call with the built request; a normal reply is the expected method |
| `Connections.Connection.QueueDeclare` | src/lib.rs:205-230 | one RPC carrying the declare request with the given or empty table; the result is the declare outcome of its reply |
| `Connections.Connection.QueueBind` | src/lib.rs:232-253 | one RPC carrying the bind request under the declare ids; `Ok` iff the reply is normal |
| `Connections.Connection.BasicPublish` | src/lib.rs:255-263 | one publish call with the packed arguments; the transport's status is returned |
| `Connections.Connection.SendPublish` | src/lib.rs:261 | the publish call is appended to the log and the protocol is kept |
| `Connections.Connection.BasicConsume` | src/lib.rs:265-274 | one consume call with the packed arguments; the transport's pointer is returned |
| `Connections.Connection.ConsumeMessage` | src/lib.rs:276-294 | a receive, then the release of that same envelope on both paths (one release more); the flags default to 0; the result is the consume outcome |
| `Connections.Connection.ConnectionClose` | src/lib.rs:296-306 | open: one close RPC and `Some(reply)`; closed: no call and `None`; closed after either way |
| `Connections.Connection.Drop` | src/lib.rs:137-142 | a close RPC with code 200 only if open, then exactly one handle destruction, last |
| `Connections.CloseTwice` | src/lib.rs:296-306 | two closes in a row give `Some` iff the connection was open, then `None`, with at most one close RPC |

## Left out

- `version`, `version_number` and `maybe_release_buffers` (src/lib.rs:308-329) pass a
  foreign answer straight through and hold no logic.
- The `timeout` argument of `consume_message` is I/O timing; the model's receive does not
  take it.
- Pointer layout and lifetimes (`mem::transmute`, raw pointers) are not modelled. A byte
  view is a length and the bytes it designates. So the model does not capture the
  following hazards of the source:
  - `vec_to_amqp_bytes` points into a clone that is dropped at once;
  - the `arguments` table is dropped before its wire view is used;
  - `basic_publish` passes the address of a temporary properties record.
- `Channel` is not `Copy` in Rust, so each call consumes it. The model passes it by value
  and does not track that linearity.
- `to_c_str().unwrap()` panics on a string with an interior NUL. The model passes host
  strings to the transport whole and does not model the panic.
- The text `amqp_error_string2` returns is not modelled: `errorString` is an arbitrary
  function.
- `Tables.TableField.ToRabbit`: the model does not interpret the 'I' value the way the
  peer does, as a signed 32-bit integer. A `u32` of 2^31 or more is read back here as the
  same `u32`.
- `Properties.PropertiesToRabbit`: `headers` refers to a `Table` object, whereas the Rust
  struct owns its table by value. The model does not rule out two property records sharing
  one table, and states the conversion for whatever that table holds when it is called.
- `login` and the channel, queue, publish and consume calls check no state, as in the
  source. The model lets them be issued on a closed connection.
