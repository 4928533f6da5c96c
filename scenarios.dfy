/**
 Client-side sequences of registry operations: publishing a run of messages, and the
 end-to-end scenarios the hub is expected to satisfy (one subscriber across ten
 broadcasts and an abrupt disconnect, a broadcast with nobody listening, and a
 broadcast after one of two subscribers has gone).
 */
module ServerScenarios {
  import opened PubSub

  /** The messages of `msgs` that Broadcast accepts, in order: empty ones are rejected. */
  function Published(msgs: seq<string>): (r: seq<string>)
    ensures |r| <= |msgs|
    ensures forall k :: 0 <= k < |r| ==> r[k] != ""
  {
    if msgs == [] then []
    else Published(msgs[..|msgs| - 1]) + if msgs[|msgs| - 1] == "" then [] else [msgs[|msgs| - 1]]
  }

  /** A run of non-empty messages is published in full, in order. */
  lemma {:induction false} PublishedAll(msgs: seq<string>)
    requires forall k :: 0 <= k < |msgs| ==> msgs[k] != ""
    ensures Published(msgs) == msgs
  {
    if msgs != [] {
      PublishedAll(msgs[..|msgs| - 1]);
      assert msgs[..|msgs| - 1] + [msgs[|msgs| - 1]] == msgs;
    }
  }

  /** Nothing is published exactly when every message of the run is empty. */
  lemma {:induction false} PublishedNoneIff(msgs: seq<string>)
    ensures Published(msgs) == [] <==> forall k :: 0 <= k < |msgs| ==> msgs[k] == ""
  {
    if msgs != [] {
      var init := msgs[..|msgs| - 1];
      PublishedNoneIff(init);
      assert forall k :: 0 <= k < |init| ==> init[k] == msgs[k];
    }
  }

  /** Publishing one more message appends it if it is non-empty. */
  lemma PublishedSnoc(msgs: seq<string>, i: nat)
    requires i < |msgs|
    ensures Published(msgs[..i + 1]) == Published(msgs[..i]) + if msgs[i] == "" then [] else [msgs[i]]
  {
    assert msgs[..i + 1][..i] == msgs[..i];
  }

  /** Concatenation is associative. A proof hint for the broadcast loops, which extend
      each log one message at a time. */
  lemma AppendAssoc<T>(a: seq<T>, b: seq<T>, c: seq<T>)
    ensures (a + b) + c == a + (b + c)
  {
  }

  /** One publish request to a registry in which every subscriber is connected. */
  method BroadcastToConnected(server: Server, msg: string)
    requires server.Valid()
    requires forall k :: 0 <= k < |server.subscribers| ==> !server.subscribers[k].closed
    modifies server, server.Channels()
    ensures server.Valid()
    ensures server.subscribers == old(server.subscribers)
    ensures forall k :: 0 <= k < |server.subscribers| ==>
      server.subscribers[k].msgs.sent == old(server.subscribers[k].msgs.sent) + Published([msg])
  {
    LiveKeepsAllIff(server.subscribers);
    assert Published([msg]) == if msg == "" then [] else [msg];
    var _ := server.Broadcast(msg);
    forall k | 0 <= k < |server.subscribers|
      ensures server.subscribers[k].msgs.sent == old(server.subscribers[k].msgs.sent) + Published([msg])
    {
      assert server.subscribers[k] in old(server.subscribers);
    }
  }

  /** Broadcasts `msgs` one after another to a registry in which every subscriber is
      connected, as a publisher issuing one request per message: nobody is evicted and
      every subscriber is handed exactly the non-empty messages, in order. */
  method BroadcastEach(server: Server, msgs: seq<string>)
    requires server.Valid()
    requires forall k :: 0 <= k < |server.subscribers| ==> !server.subscribers[k].closed
    modifies server, server.Channels()
    ensures server.Valid()
    ensures server.subscribers == old(server.subscribers)
    ensures forall k :: 0 <= k < |server.subscribers| ==>
      server.subscribers[k].msgs.sent == old(server.subscribers[k].msgs.sent) + Published(msgs)
  {
    ghost var olds := server.subscribers;
    var i := 0;
    while i < |msgs|
      invariant i <= |msgs|
      invariant server.Valid()
      invariant server.subscribers == olds
      invariant forall k :: 0 <= k < |olds| ==> !olds[k].closed
      invariant forall k :: 0 <= k < |olds| ==> olds[k].msgs.sent == old(olds[k].msgs.sent) + Published(msgs[..i])
    {
      PublishedSnoc(msgs, i);
      assert Published([msgs[i]]) == if msgs[i] == "" then [] else [msgs[i]];
      BroadcastToConnected(server, msgs[i]);
      forall k | 0 <= k < |olds|
        ensures olds[k].msgs.sent == old(olds[k].msgs.sent) + Published(msgs[..i + 1])
      {
        AppendAssoc(old(olds[k].msgs.sent), Published(msgs[..i]), Published([msgs[i]]));
      }
      i := i + 1;
    }
    assert msgs[..|msgs|] == msgs;
  }

  /** One publish request to any registry: a registered, connected subscriber stays
      registered and is handed the message unless it is empty; the request touches no
      channel outside the registry it started from. */
  method BroadcastReaches(server: Server, msg: string, sub: Subscriber)
    requires server.Valid()
    requires sub in server.subscribers && !sub.closed
    modifies server, server.Channels()
    ensures server.Valid()
    ensures sub in server.subscribers
    ensures server.Channels() <= old(server.Channels())
    ensures sub.msgs.sent == old(sub.msgs.sent) + Published([msg])
  {
    ghost var before := server.subscribers;
    assert Published([msg]) == if msg == "" then [] else [msg];
    var _ := server.Broadcast(msg);
    LiveMembers(before, sub);
    forall c | c in server.Channels() ensures c in old(server.Channels()) {
      var s :| s in server.subscribers && s.msgs == c;
      LiveMembers(before, s);
    }
  }

  /** Broadcasts `msgs` one after another to any registry, including one that still
      tracks disconnected subscribers: a subscriber that is registered and connected
      stays registered and is handed exactly the non-empty messages, in order. */
  method BroadcastEachReaches(server: Server, msgs: seq<string>, sub: Subscriber)
    requires server.Valid()
    requires sub in server.subscribers && !sub.closed
    modifies server, server.Channels()
    ensures server.Valid()
    ensures sub in server.subscribers
    ensures sub.msgs.sent == old(sub.msgs.sent) + Published(msgs)
  {
    var i := 0;
    while i < |msgs|
      invariant i <= |msgs|
      invariant server.Valid()
      invariant sub in server.subscribers
      invariant server.Channels() <= old(server.Channels())
      invariant sub.msgs.sent == old(sub.msgs.sent) + Published(msgs[..i])
    {
      PublishedSnoc(msgs, i);
      BroadcastReaches(server, msgs[i], sub);
      AppendAssoc(old(sub.msgs.sent), Published(msgs[..i]), Published([msgs[i]]));
      i := i + 1;
    }
    assert msgs[..|msgs|] == msgs;
  }

  /** The decimal numeral of `n`, most significant digit first, without leading zeros,
      as the `%d` verb of the test's message format renders it (server_test.go:98). */
  function Decimal(n: nat): (r: string)
    ensures |r| >= 1 && forall k :: 0 <= k < |r| ==> '0' <= r[k] <= '9'
  {
    if n < 10 then ["0123456789"[n]] else Decimal(n / 10) + ["0123456789"[n % 10]]
  }

  /** The text of the i-th message the end-to-end scenario publishes: the format
      "Message #%d" of server_test.go:98. */
  function TestMessage(i: nat): (r: string)
    ensures |r| > |"Message #"| && r[..|"Message #"|] == "Message #"
  {
    "Message #" + Decimal(i)
  }

  /** The messages numbered 1 to n, in order. */
  function TestMessages(n: nat): (r: seq<string>)
    ensures |r| == n && forall k :: 0 <= k < n ==> r[k] != ""
  {
    seq(n, k requires 0 <= k => TestMessage(k + 1))
  }

  /** One subscriber connects; ten messages are published; it is still registered and
      has been handed exactly those ten, in order. Its connection then breaks and one
      more message is published: the registry is empty and that message never reached it. */
  method SingleSubscriberScenario()
    returns (countAfterTen: nat, received: seq<string>, countAfterLast: nat, receivedInTotal: seq<string>)
    ensures countAfterTen == 1
    ensures received == TestMessages(10)
    ensures countAfterLast == 0
    ensures receivedInTotal == received
  {
    var server := new Server();
    var sub := server.Subscribe();
    var msgs := TestMessages(10);
    PublishedAll(msgs);
    BroadcastEach(server, msgs);
    countAfterTen := |server.subscribers|;
    received := sub.msgs.sent;
    server.Disconnect(sub);
    var _ := server.Broadcast("last");
    assert Live([sub]) == [];
    countAfterLast := |server.subscribers|;
    receivedInTotal := sub.msgs.sent;
  }

  /** A publish request with nobody subscribed succeeds (unless the message is empty)
      and leaves the registry empty. */
  method NoSubscribersScenario(msg: string) returns (count: nat, outcome: Outcome)
    ensures count == 0
    ensures outcome == if msg == "" then EmptyMessage else Delivered
  {
    var server := new Server();
    outcome := server.Broadcast(msg);
    count := |server.subscribers|;
  }

  /** Two subscribers connect and the first disconnects before anything is published.
      One publish request then reaches only the second and evicts the first; an empty
      one reaches nobody and evicts nobody. */
  method TwoSubscribersScenario(msg: string)
    returns (count: nat, receivedByLive: seq<string>, receivedByGone: seq<string>)
    ensures count == if msg == "" then 2 else 1
    ensures receivedByLive == if msg == "" then [] else [msg]
    ensures receivedByGone == []
  {
    var server := new Server();
    var gone := server.Subscribe();
    var live := server.Subscribe();
    server.Disconnect(gone);
    var _ := server.Broadcast(msg);
    assert Live([gone, live]) == [live] by {
      assert [gone, live][1..] == [live];
    }
    count := |server.subscribers|;
    receivedByLive := live.msgs.sent;
    receivedByGone := gone.msgs.sent;
  }
}
