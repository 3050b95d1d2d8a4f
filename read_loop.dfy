/**
 * The consumer-group read loop of Subscribe, without the broker: each
 * read's outcome is an input, and the loop's state is the backlog flag, the
 * cursors of the reads it issued and the messages it pushed to its output
 * channel, which is a sequence here.
 */
module ReadLoop {
  import opened Wrappers

  /** The read ID of backlog mode: this consumer's pending entries from the start. */
  const BacklogStart: string := "0-0"
  /** The read ID of live mode: entries never yet delivered to the group. */
  const NewEntries: string := ">"

  /** A stream entry as a read returns it: its ID and its field/value pairs. */
  datatype Entry = Entry(id: string, values: map<string, string>)

  /** The part of a read's reply for one stream. */
  datatype XStream = XStream(stream: string, messages: seq<Entry>)

  /** What one group read gives back: an error, if any, and the streams it carries. */
  datatype ReadResult = ReadResult(err: Option<string>, streams: seq<XStream>)

  /** The unit handed to the application for each delivered entry. */
  datatype PayloadMessage =
    PayloadMessage(channel: string, groupId: string, id: string, message: string, raw: map<string, string>)

  /** The ID a read uses: the fixed start ID while the backlog is being checked, ">" after. */
  function Cursor(lastId: string, checkBacklog: bool): string
  {
    if checkBacklog then lastId else NewEntries
  }

  /** The message one entry of stream `stream` becomes. */
  function Wrap(stream: string, groupId: string, e: Entry): PayloadMessage
  {
    PayloadMessage(stream, groupId, e.id, "", e.values)
  }

  /** The messages the entries of one stream become, in reply order. */
  function WrapAll(stream: string, groupId: string, msgs: seq<Entry>): seq<PayloadMessage>
  {
    if msgs == [] then []
    else WrapAll(stream, groupId, msgs[..|msgs| - 1]) + [Wrap(stream, groupId, msgs[|msgs| - 1])]
  }

  /** The messages one reply delivers: its streams in order, each stream's entries in order. */
  function Deliveries(groupId: string, streams: seq<XStream>): seq<PayloadMessage>
  {
    if streams == [] then []
    else
      var last := streams[|streams| - 1];
      Deliveries(groupId, streams[..|streams| - 1]) + WrapAll(last.stream, groupId, last.messages)
  }

  /** The backlog flag after the streams of one reply have been looked at. */
  function BacklogAfter(checkBacklog: bool, streams: seq<XStream>): bool
  {
    if streams == [] then checkBacklog
    else
      var before := BacklogAfter(checkBacklog, streams[..|streams| - 1]);
      if |streams[|streams| - 1].messages| == 0 && before then false else before
  }

  /** The number of entries a reply carries over all its streams. */
  function EntryCount(streams: seq<XStream>): nat
  {
    if streams == [] then 0
    else EntryCount(streams[..|streams| - 1]) + |streams[|streams| - 1].messages|
  }

  /** The state of the loop after some reads. */
  datatype Trace = Trace(checkBacklog: bool, cursors: seq<string>, data: seq<PayloadMessage>)

  /**
   * The loop run over `replies`, one read per reply: each read uses the
   * cursor the flag selects, its reply's messages are pushed in order, and
   * the flag is updated from the reply's streams.
   */
  function Run(groupId: string, replies: seq<ReadResult>): (t: Trace)
    ensures |t.cursors| == |replies|
  {
    if replies == [] then Trace(true, [], [])
    else
      var t := Run(groupId, replies[..|replies| - 1]);
      var r := replies[|replies| - 1];
      Trace(BacklogAfter(t.checkBacklog, r.streams),
            t.cursors + [Cursor(BacklogStart, t.checkBacklog)],
            t.data + Deliveries(groupId, r.streams))
  }

  /** Some stream in the reply came back with no entries. */
  predicate HasEmptyStream(r: ReadResult)
  {
    exists k :: 0 <= k < |r.streams| && |r.streams[k].messages| == 0
  }

  /** None of the first `n` replies had a stream with no entries. */
  predicate NoEmptyStreamBefore(replies: seq<ReadResult>, n: nat)
    requires n <= |replies|
  {
    forall j :: 0 <= j < n ==> !HasEmptyStream(replies[j])
  }

  /** The reads before `k` use "0-0" and the reads from `k` on use ">". */
  predicate SwitchesAt(cursors: seq<string>, k: nat)
  {
    k <= |cursors| && forall i :: 0 <= i < |cursors| ==> (cursors[i] == BacklogStart <==> i < k)
  }

  // ----- one reply -----

  /** One message per entry, in order, carrying the entry's ID and values, the group and an empty text. */
  lemma {:induction false} WrapAllSpec(stream: string, groupId: string, msgs: seq<Entry>)
    ensures |WrapAll(stream, groupId, msgs)| == |msgs|
    ensures forall i :: 0 <= i < |msgs| ==>
              WrapAll(stream, groupId, msgs)[i] == PayloadMessage(stream, groupId, msgs[i].id, "", msgs[i].values)
  {
    if msgs != [] {
      WrapAllSpec(stream, groupId, msgs[..|msgs| - 1]);
    }
  }

  /** The messages of a reply with one stream are its entries, wrapped, in reply order. */
  lemma SingleStreamDelivery(groupId: string, s: XStream)
    ensures |Deliveries(groupId, [s])| == |s.messages|
    ensures forall j :: 0 <= j < |s.messages| ==>
              Deliveries(groupId, [s])[j] == PayloadMessage(s.stream, groupId, s.messages[j].id, "", s.messages[j].values)
  {
    assert [s][..0] == [];
    WrapAllSpec(s.stream, groupId, s.messages);
  }

  /** A reply's messages are its first streams' messages followed by its other streams' messages. */
  lemma {:induction false} DeliveriesAppend(groupId: string, a: seq<XStream>, b: seq<XStream>)
    ensures Deliveries(groupId, a + b) == Deliveries(groupId, a) + Deliveries(groupId, b)
  {
    if b == [] {
      assert a + b == a;
    } else {
      var b' := b[..|b| - 1];
      assert (a + b)[..|a + b| - 1] == a + b';
      assert (a + b)[|a + b| - 1] == b[|b| - 1];
      DeliveriesAppend(groupId, a, b');
    }
  }

  /** The message is an entry of one of the streams, and carries that stream's name as its channel. */
  predicate FromStreamOf(m: PayloadMessage, streams: seq<XStream>)
  {
    exists i :: 0 <= i < |streams| && streams[i].stream == m.channel && Entry(m.id, m.raw) in streams[i].messages
  }

  /** Every message wrapped from a stream's entries carries that stream, the group, an entry and an empty text. */
  lemma WrappedFromEntries(stream: string, groupId: string, msgs: seq<Entry>)
    ensures forall m :: m in WrapAll(stream, groupId, msgs) ==>
              m.groupId == groupId && m.message == "" && m.channel == stream && Entry(m.id, m.raw) in msgs
  {
    WrapAllSpec(stream, groupId, msgs);
    forall m | m in WrapAll(stream, groupId, msgs)
      ensures m.groupId == groupId && m.message == "" && m.channel == stream && Entry(m.id, m.raw) in msgs
    {
      var j :| 0 <= j < |msgs| && WrapAll(stream, groupId, msgs)[j] == m;
      assert msgs[j] == Entry(m.id, m.raw);
    }
  }

  /**
   * Every message a reply delivers is for the reading group, has an empty
   * text, and is an entry of one of the reply's streams, named after it.
   */
  lemma {:induction false} DeliveriesFromEntries(groupId: string, streams: seq<XStream>)
    ensures forall m :: m in Deliveries(groupId, streams) ==>
              m.groupId == groupId && m.message == "" && FromStreamOf(m, streams)
  {
    if streams != [] {
      var n := |streams|;
      var init := streams[..n - 1];
      var last := streams[n - 1];
      DeliveriesFromEntries(groupId, init);
      WrappedFromEntries(last.stream, groupId, last.messages);
      forall m | m in Deliveries(groupId, streams)
        ensures m.groupId == groupId && m.message == "" && FromStreamOf(m, streams)
      {
        if m in Deliveries(groupId, init) {
          var i :| 0 <= i < |init| && init[i].stream == m.channel && Entry(m.id, m.raw) in init[i].messages;
          assert streams[i] == init[i];
        } else {
          assert streams[n - 1] == last;
        }
      }
    }
  }

  /** A reply delivers exactly as many messages as it carries entries. */
  lemma {:induction false} DeliveriesCount(groupId: string, streams: seq<XStream>)
    ensures |Deliveries(groupId, streams)| == EntryCount(streams)
  {
    if streams != [] {
      var last := streams[|streams| - 1];
      DeliveriesCount(groupId, streams[..|streams| - 1]);
      WrapAllSpec(last.stream, groupId, last.messages);
    }
  }

  /**
   * The flag stays true through a reply exactly when it was true and every
   * stream of the reply had at least one entry.
   */
  lemma {:induction false} BacklogAfterSpec(checkBacklog: bool, streams: seq<XStream>)
    ensures BacklogAfter(checkBacklog, streams)
        <==> checkBacklog && forall k :: 0 <= k < |streams| ==> |streams[k].messages| != 0
  {
    if streams != [] {
      var init := streams[..|streams| - 1];
      BacklogAfterSpec(checkBacklog, init);
      assert forall k :: 0 <= k < |init| ==> init[k] == streams[k];
    }
  }

  /** Once live, no reply sets the flag back. */
  lemma BacklogNeverReturns(streams: seq<XStream>)
    ensures !BacklogAfter(false, streams)
  {
  }

  // ----- the loop over many replies -----

  /**
   * The loop reads once per reply; it is in backlog mode exactly while no
   * earlier reply had a stream with no entries, and each read's cursor is
   * "0-0" in backlog mode and ">" otherwise.
   */
  lemma {:induction false} RunCursors(groupId: string, replies: seq<ReadResult>)
    ensures |Run(groupId, replies).cursors| == |replies|
    ensures Run(groupId, replies).checkBacklog <==> NoEmptyStreamBefore(replies, |replies|)
    ensures forall i :: 0 <= i < |replies| ==>
              Run(groupId, replies).cursors[i]
                == if NoEmptyStreamBefore(replies, i) then BacklogStart else NewEntries
  {
    if replies != [] {
      var n := |replies|;
      var p := replies[..n - 1];
      var r := replies[n - 1];
      RunCursors(groupId, p);
      assert forall j :: 0 <= j < n - 1 ==> p[j] == replies[j];
      assert forall i :: 0 <= i <= n - 1 ==> (NoEmptyStreamBefore(p, i) <==> NoEmptyStreamBefore(replies, i));
      BacklogAfterSpec(Run(groupId, p).checkBacklog, r.streams);
      assert !HasEmptyStream(r) <==> forall k :: 0 <= k < |r.streams| ==> |r.streams[k].messages| != 0;
    }
  }

  /** Once a read uses ">", every later read does too. */
  lemma LiveIsPermanent(groupId: string, replies: seq<ReadResult>, i: nat, j: nat)
    requires i <= j < |replies|
    requires Run(groupId, replies).cursors[i] == NewEntries
    ensures Run(groupId, replies).cursors[j] == NewEntries
  {
    RunCursors(groupId, replies);
  }

  /** The number of entries all the replies carry, over all their streams. */
  function TotalEntries(replies: seq<ReadResult>): nat
  {
    if replies == [] then 0
    else TotalEntries(replies[..|replies| - 1]) + EntryCount(replies[|replies| - 1].streams)
  }

  /** A run pushes exactly one message per entry of all its replies. */
  lemma {:induction false} RunDeliveredCount(groupId: string, replies: seq<ReadResult>)
    ensures |Run(groupId, replies).data| == TotalEntries(replies)
  {
    if replies != [] {
      RunDeliveredCount(groupId, replies[..|replies| - 1]);
      DeliveriesCount(groupId, replies[|replies| - 1].streams);
    }
  }

  /** Everything a run delivers is for its group, with an empty text. */
  lemma {:induction false} RunDeliversForGroup(groupId: string, replies: seq<ReadResult>)
    ensures forall m :: m in Run(groupId, replies).data ==> m.groupId == groupId && m.message == ""
  {
    if replies != [] {
      RunDeliversForGroup(groupId, replies[..|replies| - 1]);
      DeliveriesFromEntries(groupId, replies[|replies| - 1].streams);
    }
  }

  /** The loop's state after the first `i` reads is a prefix of its state after all of them. */
  lemma {:induction false} RunPrefix(groupId: string, replies: seq<ReadResult>, i: nat)
    requires i <= |replies|
    ensures Run(groupId, replies[..i]).cursors <= Run(groupId, replies).cursors
    ensures Run(groupId, replies[..i]).data <= Run(groupId, replies).data
  {
    if i < |replies| {
      var p := replies[..|replies| - 1];
      assert p[..i] == replies[..i];
      RunPrefix(groupId, p, i);
    } else {
      assert replies[..i] == replies;
    }
  }

  /**
   * Every run is some backlog reads followed only by live reads: there is a
   * `k` with the reads before `k` using "0-0" and the rest using ">".
   */
  lemma {:induction false} BacklogThenLive(groupId: string, replies: seq<ReadResult>)
    ensures exists k :: SwitchesAt(Run(groupId, replies).cursors, k)
  {
    RunCursors(groupId, replies);
    if replies != [] {
      var n := |replies|;
      var p := replies[..n - 1];
      BacklogThenLive(groupId, p);
      RunCursors(groupId, p);
      var k' :| SwitchesAt(Run(groupId, p).cursors, k');
      if Run(groupId, p).checkBacklog {
        assert forall i :: 0 <= i < n ==> NoEmptyStreamBefore(replies, i);
        assert SwitchesAt(Run(groupId, replies).cursors, n);
      } else {
        assert SwitchesAt(Run(groupId, replies).cursors, k');
      }
    } else {
      assert SwitchesAt(Run(groupId, replies).cursors, 0);
    }
  }

  /**
   * A reply with no streams (as an errored read gives) delivers nothing and
   * leaves the flag, so the next read uses the same cursor; the error itself
   * never changes what the loop does.
   */
  lemma EmptyReplyRepeatsCursor(groupId: string, replies: seq<ReadResult>, r: ReadResult, next: ReadResult)
    requires r.streams == []
    ensures Run(groupId, replies + [r]).checkBacklog == Run(groupId, replies).checkBacklog
    ensures Run(groupId, replies + [r]).data == Run(groupId, replies).data
    ensures Run(groupId, replies + [r, next]).cursors[|replies| + 1]
         == Run(groupId, replies + [r]).cursors[|replies|]
    ensures Run(groupId, replies + [r]) == Run(groupId, replies + [ReadResult(None, r.streams)])
  {
    var rs := replies + [r];
    assert rs[..|rs| - 1] == replies;
    assert (replies + [ReadResult(None, r.streams)])[..|rs| - 1] == replies;
    assert (replies + [r, next])[..|rs|] == rs;
    RunCursors(groupId, replies);
  }

  // ----- one pass of the loop body, as the source runs it -----

  /**
   * The body of one read: push one message per entry of each stream, in
   * reply order, and leave backlog mode at a stream with no entries.
   */
  method Deliver(groupId: string, checkBacklog: bool, streams: seq<XStream>)
    returns (data: seq<PayloadMessage>, backlog: bool)
    ensures data == Deliveries(groupId, streams)
    ensures backlog == BacklogAfter(checkBacklog, streams)
  {
    data := [];
    backlog := checkBacklog;
    var i := 0;
    while i < |streams|
      invariant 0 <= i <= |streams|
      invariant data == Deliveries(groupId, streams[..i])
      invariant backlog == BacklogAfter(checkBacklog, streams[..i])
    {
      var stream := streams[i];
      var j := 0;
      while j < |stream.messages|
        invariant 0 <= j <= |stream.messages|
        invariant data == Deliveries(groupId, streams[..i]) + WrapAll(stream.stream, groupId, stream.messages[..j])
      {
        var message := stream.messages[j];
        data := data + [Wrap(stream.stream, groupId, message)];
        assert stream.messages[..j + 1][..j] == stream.messages[..j];
        j := j + 1;
      }
      if |stream.messages| == 0 && backlog {
        backlog := false;
      }
      assert stream.messages[..j] == stream.messages;
      assert streams[..i + 1][..i] == streams[..i];
      i := i + 1;
    }
    assert streams[..i] == streams;
  }
}
