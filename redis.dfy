/**
 * The helper's client object: publishing, subscribing and acknowledging
 * through a client whose traffic is the log of requests it was asked to send.
 */
module RedisStreams {
  import opened Wrappers
  import opened Commands
  import opened ReadLoop

  /**
   * The address the client connects to, or None when the host, the port
   * or the password is missing, which stops the process at start-up.
   */
  function Address(host: string, port: string, password: string): (addr: Option<string>)
    ensures addr.None? <==> |host| == 0 || |port| == 0 || |password| == 0
    ensures addr.Some? ==> (&& |addr.value| == |host| + 1 + |port|
                            && addr.value[..|host|] == host
                            && addr.value[|host|] == ':'
                            && addr.value[|host| + 1..] == port)
  {
    if |host| == 0 || |port| == 0 || |password| == 0 then None
    else Some(host + ":" + port)
  }

  /** The group reads issued with the given cursors, one per cursor, in order. */
  function ReadRequests(groupId: string, consumerId: string, streamKey: string, cursors: seq<string>): seq<Request>
  {
    seq(|cursors|, i requires 0 <= i < |cursors| =>
      Single(XReadGroup(groupId, consumerId, streamKey, cursors[i], false)))
  }

  class Redis {
    /** Every request sent through the client, oldest first. */
    var log: seq<Request>

    /** A helper whose client has sent nothing yet. */
    constructor ()
      ensures log == []
    {
      log := [];
    }

    /** Append `payload` under the single field "payload", capping the stream at 10000 entries. */
    method Publish(streamKey: string, payload: string)
      modifies this
      ensures log == old(log) + [Single(XAdd(streamKey, 10000, "*", map["payload" := payload]))]
    {
      log := log + [PublishRequest(streamKey, payload)];
    }

    /**
     * Create the group at the stream's tail (a failure, such as the group
     * already existing, is ignored), then read once per reply: in backlog
     * mode from "0-0", after the first reply with an empty stream from ">";
     * every entry of every reply is pushed to `data` in reply order.
     */
    method Subscribe(streamKey: string, groupId: string, consumerId: string, replies: seq<ReadResult>)
      returns (data: seq<PayloadMessage>)
      modifies this
      ensures data == Run(groupId, replies).data
      ensures log == old(log) + [Single(XGroupCreate(streamKey, groupId, "$"))]
                     + ReadRequests(groupId, consumerId, streamKey, Run(groupId, replies).cursors)
    {
      log := log + [Single(XGroupCreate(streamKey, groupId, GroupStart))];
      ghost var start := log;
      var lastId := BacklogStart;
      var checkBacklog := true;
      data := [];
      var n := 0;
      while n < |replies|
        invariant 0 <= n <= |replies|
        invariant checkBacklog == Run(groupId, replies[..n]).checkBacklog
        invariant data == Run(groupId, replies[..n]).data
        invariant log == start + ReadRequests(groupId, consumerId, streamKey, Run(groupId, replies[..n]).cursors)
      {
        var myId := lastId;
        if !checkBacklog {
          myId := NewEntries;
        }
        ghost var before := Run(groupId, replies[..n]);
        log := log + [Single(XReadGroup(groupId, consumerId, streamKey, myId, false))];
        var reply := replies[n];
        var delivered, backlog := Deliver(groupId, checkBacklog, reply.streams);
        data := data + delivered;
        checkBacklog := backlog;
        assert replies[..n + 1][..n] == replies[..n];
        assert ReadRequests(groupId, consumerId, streamKey, before.cursors + [myId])
            == ReadRequests(groupId, consumerId, streamKey, before.cursors)
               + [Single(XReadGroup(groupId, consumerId, streamKey, myId, false))];
        n := n + 1;
      }
      assert replies[..n] == replies;
    }

    /** Acknowledge the entry for the group, trim the stream to 1000 entries and delete the entry, as one batch. */
    method AcknowledgeMessage(streamKey: string, groupId: string, messageId: string)
      modifies this
      ensures log == old(log) + [TxPipeline([XAck(streamKey, groupId, messageId),
                                             XTrimMaxLen(streamKey, 1000),
                                             XDel(streamKey, messageId)])]
    {
      log := log + [AckRequest(streamKey, groupId, messageId)];
    }
  }
}
