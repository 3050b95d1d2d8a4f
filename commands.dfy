/**
 * The stream commands the helper sends through its client, as values.
 * What the broker does with them is not modelled; the client is a log of
 * the requests it was asked to send, and the functions at the end read that
 * log the way the broker is asked to act on it.
 */
module Commands {

  /** Producer-side cap on a stream's length, passed with every append. */
  const PublishMaxLen: nat := 10000
  /** The entry ID that asks the broker to assign one. */
  const AutoId: string := "*"
  /** The single field a published entry carries. */
  const PayloadField: string := "payload"
  /** The length a stream is trimmed to when a message is acknowledged. */
  const AckTrimMaxLen: nat := 1000
  /** Where a newly created consumer group starts: the stream's current tail. */
  const GroupStart: string := "$"

  datatype Command =
    | XGroupCreate(stream: string, group: string, start: string)
    | XAdd(stream: string, maxLen: nat, id: string, values: map<string, string>)
    | XReadGroup(group: string, consumer: string, stream: string, cursor: string, noAck: bool)
    | XAck(stream: string, group: string, id: string)
    | XTrimMaxLen(stream: string, maxLen: nat)
    | XDel(stream: string, id: string)

  /** One command sent on its own, or a batch sent through a transactional pipeline. */
  datatype Request = Single(cmd: Command) | TxPipeline(cmds: seq<Command>)

  /** The append a publish sends. */
  function PublishRequest(streamKey: string, payload: string): Request
  {
    Single(XAdd(streamKey, PublishMaxLen, AutoId, map[PayloadField := payload]))
  }

  /** The acknowledge, trim and delete batch an acknowledgement sends. */
  function AckRequest(streamKey: string, groupId: string, messageId: string): Request
  {
    TxPipeline([XAck(streamKey, groupId, messageId),
                XTrimMaxLen(streamKey, AckTrimMaxLen),
                XDel(streamKey, messageId)])
  }

  function CommandsOf(r: Request): seq<Command>
  {
    match r
    case Single(c) => [c]
    case TxPipeline(cs) => cs
  }

  /** The commands of a request log, in the order they reach the broker. */
  function Sent(log: seq<Request>): seq<Command>
  {
    if log == [] then [] else CommandsOf(log[0]) + Sent(log[1..])
  }

  /** The payloads appended to `stream`, in order. */
  function Published(cmds: seq<Command>, stream: string): seq<string>
  {
    if cmds == [] then []
    else
      var c := cmds[0];
      (if c.XAdd? && c.stream == stream && PayloadField in c.values then [c.values[PayloadField]] else [])
      + Published(cmds[1..], stream)
  }

  /** The (stream, group, entry ID) triples acknowledged. */
  function Acknowledged(cmds: seq<Command>): set<(string, string, string)>
  {
    if cmds == [] then {}
    else
      var c := cmds[0];
      (if c.XAck? then {(c.stream, c.group, c.id)} else {}) + Acknowledged(cmds[1..])
  }

  /** The (stream, entry ID) pairs deleted. */
  function Deleted(cmds: seq<Command>): set<(string, string)>
  {
    if cmds == [] then {}
    else
      var c := cmds[0];
      (if c.XDel? then {(c.stream, c.id)} else {}) + Deleted(cmds[1..])
  }

  lemma {:induction false} SentAppend(a: seq<Request>, b: seq<Request>)
    ensures Sent(a + b) == Sent(a) + Sent(b)
  {
    if a == [] {
      assert a + b == b;
    } else {
      assert (a + b)[0] == a[0];
      assert (a + b)[1..] == a[1..] + b;
      SentAppend(a[1..], b);
      assert Sent(a + b) == CommandsOf(a[0]) + (Sent(a[1..]) + Sent(b));
    }
  }

  lemma {:induction false} PublishedAppend(a: seq<Command>, b: seq<Command>, s: string)
    ensures Published(a + b, s) == Published(a, s) + Published(b, s)
  {
    if a == [] {
      assert a + b == b;
    } else {
      assert (a + b)[0] == a[0];
      assert (a + b)[1..] == a[1..] + b;
      PublishedAppend(a[1..], b, s);
    }
  }

  lemma {:induction false} AckDelAppend(a: seq<Command>, b: seq<Command>)
    ensures Acknowledged(a + b) == Acknowledged(a) + Acknowledged(b)
    ensures Deleted(a + b) == Deleted(a) + Deleted(b)
  {
    if a == [] {
      assert a + b == b;
    } else {
      assert (a + b)[0] == a[0];
      assert (a + b)[1..] == a[1..] + b;
      AckDelAppend(a[1..], b);
    }
  }

  /** Everything the three readings of a log say distributes over concatenation. */
  lemma InterpretAppend(a: seq<Command>, b: seq<Command>)
    ensures forall s :: Published(a + b, s) == Published(a, s) + Published(b, s)
    ensures Acknowledged(a + b) == Acknowledged(a) + Acknowledged(b)
    ensures Deleted(a + b) == Deleted(a) + Deleted(b)
  {
    forall s ensures Published(a + b, s) == Published(a, s) + Published(b, s) {
      PublishedAppend(a, b, s);
    }
    AckDelAppend(a, b);
  }

  /** A request appended to a log adds its own commands after the log's. */
  lemma SentSnoc(log: seq<Request>, r: Request)
    ensures Sent(log + [r]) == Sent(log) + CommandsOf(r)
  {
    SentAppend(log, [r]);
    assert Sent([r]) == CommandsOf(r) + Sent([]);
  }

  /**
   * Publishing appends exactly the payload to the stream it names, and to no
   * other stream; it acknowledges and deletes nothing.
   */
  lemma PublishEffect(log: seq<Request>, streamKey: string, payload: string)
    ensures forall s :: Published(Sent(log + [PublishRequest(streamKey, payload)]), s)
                     == Published(Sent(log), s) + (if s == streamKey then [payload] else [])
    ensures Acknowledged(Sent(log + [PublishRequest(streamKey, payload)])) == Acknowledged(Sent(log))
    ensures Deleted(Sent(log + [PublishRequest(streamKey, payload)])) == Deleted(Sent(log))
  {
    var r := PublishRequest(streamKey, payload);
    SentSnoc(log, r);
    InterpretAppend(Sent(log), CommandsOf(r));
    assert CommandsOf(r)[1..] == [];
    forall s ensures Published(CommandsOf(r), s) == if s == streamKey then [payload] else [] {
      assert Published(CommandsOf(r)[1..], s) == [];
    }
  }

  /**
   * Acknowledging a message marks it acknowledged for the group and deletes
   * it from its stream; it publishes nothing.
   */
  lemma AckEffect(log: seq<Request>, streamKey: string, groupId: string, messageId: string)
    ensures Acknowledged(Sent(log + [AckRequest(streamKey, groupId, messageId)]))
         == Acknowledged(Sent(log)) + {(streamKey, groupId, messageId)}
    ensures Deleted(Sent(log + [AckRequest(streamKey, groupId, messageId)]))
         == Deleted(Sent(log)) + {(streamKey, messageId)}
    ensures forall s :: Published(Sent(log + [AckRequest(streamKey, groupId, messageId)]), s)
                     == Published(Sent(log), s)
  {
    var r := AckRequest(streamKey, groupId, messageId);
    SentSnoc(log, r);
    InterpretAppend(Sent(log), CommandsOf(r));
    var cs := CommandsOf(r);
    assert cs[1..][1..][1..] == [];
    assert Acknowledged(cs[1..][1..][1..]) == {} && Deleted(cs[1..][1..][1..]) == {};
    assert Acknowledged(cs[1..][1..]) == {} && Deleted(cs[1..][1..]) == {(streamKey, messageId)};
    assert Acknowledged(cs[1..]) == {} && Deleted(cs[1..]) == {(streamKey, messageId)};
    forall s ensures Published(cs, s) == [] {
      assert Published(cs[1..][1..][1..], s) == [];
      assert Published(cs[1..][1..], s) == [];
      assert Published(cs[1..], s) == [];
    }
  }

  /**
   * Acknowledging the same message a second time acknowledges and deletes
   * nothing more. The second call still sends a whole second batch; this
   * holds because the acknowledged and deleted readings of the log are sets,
   * so a repeated element adds nothing. It says nothing about what the broker
   * answers to the repeated commands.
   */
  lemma AckTwiceSameAsOnce(log: seq<Request>, streamKey: string, groupId: string, messageId: string)
    ensures var once := log + [AckRequest(streamKey, groupId, messageId)];
            var twice := once + [AckRequest(streamKey, groupId, messageId)];
            Acknowledged(Sent(twice)) == Acknowledged(Sent(once)) && Deleted(Sent(twice)) == Deleted(Sent(once))
  {
    var once := log + [AckRequest(streamKey, groupId, messageId)];
    AckEffect(log, streamKey, groupId, messageId);
    AckEffect(once, streamKey, groupId, messageId);
  }
}
