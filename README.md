# go-redis-streams, modelled in Dafny

A model of the helper package `go_redis_streams`, a thin layer over a Redis
client for Redis Streams. It covers the three pieces of logic in `redis.go`:

- **the stream key namer** `Key`, which puts a logical name in the `streams:` namespace;
- **the consumer-group read loop** of `Subscribe`. It starts in backlog mode, reading this consumer's pending
  entries from ID `0-0`. It switches for good to live mode (cursor `>`) at the first stream in a reply that
  comes back with no entries. It wraps every entry of every reply into a `PayloadMessage` and pushes it to the
  output channel;
- **`Publish` and `AcknowledgeMessage`** as the commands they send through the client: one `XADD`, and one
  transactional batch of `XACK`, `XTRIM` and `XDEL`.

The broker is not modelled. The client is the `log` field of class `Redis`: the requests it was asked to send,
in order. The outcome of each group read is an input (`ReadResult`). The output channel is a sequence.
The loop runs once per given reply, not forever.

Files:

- `stream_keys.dfy`: module `StreamKeys`, with `Key`, its inverse `LogicalName` and the lemmas relating them.
- `commands.dfy`: module `Commands`, the command vocabulary and the requests `Publish` and `AcknowledgeMessage` send.
  It also has three readings of a request log: payloads published per stream, triples acknowledged, entries deleted.
- `read_loop.dfy`: module `ReadLoop`, the read loop's data and its specification. `Deliveries` and `BacklogAfter`
  cover one reply; `Run` folds over a sequence of replies. The module also has the lemmas and the method `Deliver`,
  which is the body of one loop iteration as the source runs it.
- `redis.dfy`: module `RedisStreams`, with class `Redis` (`Publish`, `Subscribe`, `AcknowledgeMessage`) and
  `Address`, the configuration check of `Init`.
- `wrappers.dfy`: module `Wrappers`, with `Option`.

Points of the code's behaviour the model keeps:

- Backlog mode ends when **some stream in a reply has zero messages**. A reply whose streams all have
  entries keeps backlog mode on, and so does a reply with no streams at all, which is what an errored read gives.
- The loop walks the reply's streams **whether or not** the read returned an error. The error only decides a
  log line, so `ReadResult` carries both and the model ignores the error.
- `Publish` passes `MaxLen: 10000` and `AcknowledgeMessage` calls `XTrimMaxLen(…, 1000)`. Neither uses an
  approximate variant, so the model records exact lengths.
- `Publish` discards the error of its append and `AcknowledgeMessage` only logs its batch's error. Neither
  surfaces a failure to its caller, and the model does not either.

## Model

| member | source | states |
|---|---|---|
| StreamKeys.Key | redis.go:66-68 | the key is the prefix `streams:` followed by exactly the name, so its length is the prefix's plus the name's |
| StreamKeys.NameRoundTrip | redis.go:67 | the logical name is recovered from every key |
| StreamKeys.KeyRoundTrip | redis.go:67 | a string yields a name exactly when it is the key of some name, and it is then the key of the name it yields |
| StreamKeys.KeyInjective | redis.go:66-68 | two names have the same key if and only if they are the same name |
| StreamKeys.KeyOfTesting | redis_test.go:11-16 | `Key("testing")` is `"streams:testing"` |
| Commands.PublishEffect | redis.go:71-81 | a publish adds exactly its payload, last, to the payloads of its own stream, adds nothing to any other stream, and acknowledges or deletes nothing |
| Commands.AckEffect | redis.go:141-156 | an acknowledgement adds exactly (stream, group, ID) to the acknowledged set and (stream, ID) to the deleted set, and publishes nothing |
| Commands.AckTwiceSameAsOnce | redis.go:142-146 | acknowledging the same message twice acknowledges and deletes no more than acknowledging it once |
| RedisStreams.Address | redis.go:41-49 | there is no address (start-up fails) exactly when host, port or password is empty; otherwise the address is the host, a `:` and the port |
| RedisStreams.Redis.constructor | redis.go:14-16 | a new helper has sent no commands |
| RedisStreams.Redis.Publish | redis.go:71-81 | sends exactly one request: an `XADD` to the given key with maximum length 10000, ID `*` and the single field `payload` mapped to the payload |
| RedisStreams.Redis.Subscribe | redis.go:86-138 | sends a group creation at `$`, then one group read per reply using the cursors of `Run`; what it pushes to the channel is exactly `Run`'s delivered messages |
| RedisStreams.Redis.AcknowledgeMessage | redis.go:141-156 | sends exactly one transactional batch of three commands, in this order: `XACK` of (stream, group, ID), `XTRIM` to 1000, `XDEL` of (stream, ID) |
| ReadLoop.Run | redis.go:96-137 | the loop issues exactly one read per reply |
| ReadLoop.Deliver | redis.go:113-136 | one iteration pushes exactly the reply's messages in reply order and leaves the backlog flag as `BacklogAfter` says |
| ReadLoop.WrapAllSpec | redis.go:117-131 | one message per entry, in order, each with the reply's stream name as channel, the group, the entry's ID, an empty text and the entry's values |
| ReadLoop.SingleStreamDelivery | redis.go:113-131 | a reply with one stream delivers exactly its entries, wrapped, in reply order |
| ReadLoop.DeliveriesAppend | redis.go:113-136 | a reply's messages are its first streams' messages followed by its later streams' messages |
| ReadLoop.WrappedFromEntries | redis.go:117-127 | every message wrapped from a stream's entries has that stream as channel, the group, an empty text, and an ID and values that form one of the entries |
| ReadLoop.DeliveriesFromEntries | redis.go:113-131 | every delivered message is for the reading group, has an empty text, and is an entry of a stream of the reply named as its channel |
| ReadLoop.DeliveriesCount | redis.go:113-131 | a reply delivers exactly as many messages as it has entries over all its streams |
| ReadLoop.BacklogAfterSpec | redis.go:133-135 | after a reply the flag is true if and only if it was true and every stream in the reply had at least one entry |
| ReadLoop.BacklogNeverReturns | redis.go:133-135 | once the flag is false, no reply sets it back to true |
| ReadLoop.RunCursors | redis.go:92-100 | the loop is in backlog mode exactly while no earlier reply had an empty stream; each read uses `0-0` in backlog mode and `>` otherwise |
| ReadLoop.LiveIsPermanent | redis.go:97-100 | once a read uses `>`, every later read does too |
| ReadLoop.BacklogThenLive | redis.go:92-135 | every run is a block of `0-0` reads followed only by `>` reads |
| ReadLoop.RunPrefix | redis.go:96-137 | the reads issued and the messages pushed after the first few replies are prefixes of those after all of them |
| ReadLoop.RunDeliveredCount | redis.go:113-131 | over a whole run, the loop pushes exactly as many messages as the replies carry entries |
| ReadLoop.RunDeliversForGroup | redis.go:121-127 | every message the loop pushes carries the subscribing group and an empty text |
| ReadLoop.EmptyReplyRepeatsCursor | redis.go:102-111 | a reply with no streams delivers nothing and keeps the flag, so the next read uses the same cursor; the read's error does not change the outcome |

## Left out

- `Init`: only its configuration check and the `host:port` address are modelled, as `Address`. Loading `.env`, reading the environment, `log.Fatal` ending the process, building the client, the ping and returning an empty `Redis` when the ping fails are all I/O.
- Broker and client-library behaviour: what a group read returns, pending-entry lists, blocking reads, how trimming works and whether a pipeline is atomic are outside the helper. `Published`, `Acknowledged` and `Deleted` read the request log and do not model stream contents.
- The background task and the channel: the goroutine running `Subscribe` and back-pressure when the channel is full are left out. The channel is the sequence of messages pushed.
- The endless `for` loop: `Subscribe` runs one iteration per given reply and stops when the replies run out.
- Logging of errors in group creation, reads and acknowledgements: a log line has no effect on state.
- The `Streams` interface and the JSON tags of `PayloadMessage`: the interface is unused and the tags affect only encoding.
- Message values: the source's `map[string]interface{}` is modelled as `map<string, string>`, the string values a read returns.
- `redis_test.go` and `example/hi.go` need a live server. Only the test's assertion on `Key("testing")` is modelled, as `StreamKeys.KeyOfTesting`.
