/**
 The subscriber registry of a single-channel websocket publish/subscribe hub.

 Every operation below runs under the server's one mutex in the original, so each
 is modelled as an atomic method. A delivery channel is an object of its own (a
 channel value is a reference); a send on it appends to the log of messages handed
 to the subscriber's writer pump.
 */
module PubSub {

  /** Outcome of a publish request. */
  datatype Outcome = Delivered | EmptyMessage

  /** An unbuffered channel of text messages: whether it has been closed, and every
      message handed over on it so far, in order. */
  class Channel {
    var closed: bool
    var sent: seq<string>

    constructor ()
      ensures !closed && sent == []
    {
      closed := false;
      sent := [];
    }

    /** A send; sending on a closed channel panics, so callers must never do it. */
    method Send(m: string)
      requires !closed
      modifies this
      ensures !closed && sent == old(sent) + [m]
    {
      sent := sent + [m];
    }

    /** Closing a closed channel panics, so a channel is closed at most once. */
    method Close()
      requires !closed
      modifies this
      ensures closed && sent == old(sent)
    {
      closed := true;
    }
  }

  /** One connected client: its closed flag and the channel its writer pump drains. */
  class Subscriber {
    var closed: bool
    const msgs: Channel

    /** A new subscriber is open and owns a fresh, open, empty channel. */
    constructor ()
      ensures !closed && fresh(msgs) && !msgs.closed && msgs.sent == []
    {
      closed := false;
      msgs := new Channel();
    }
  }

  /** The subscribers of `subs` whose closed flag is false, in their original order. */
  function Live(subs: seq<Subscriber>): (r: seq<Subscriber>)
    reads subs
    ensures |r| <= |subs|
  {
    if subs == [] then []
    else (if subs[0].closed then [] else [subs[0]]) + Live(subs[1..])
  }

  /** A subscriber survives compaction exactly when it was tracked and is open. */
  lemma {:induction false} LiveMembers(s: seq<Subscriber>, x: Subscriber)
    ensures x in Live(s) <==> x in s && !x.closed
  {
    if s != [] {
      LiveMembers(s[1..], x);
      assert x in s <==> x == s[0] || x in s[1..];
    }
  }

  /** Appending a subscriber whose channel no entry owns keeps channels owned. */
  lemma {:induction false} OwnChannelsAppend(s: seq<Subscriber>, x: Subscriber)
    requires OwnChannels(s)
    requires forall k :: 0 <= k < |s| ==> s[k].msgs != x.msgs
    ensures OwnChannels(s + [x])
  {
    if s != [] {
      assert (s + [x])[1..] == s[1..] + [x];
      OwnChannelsAppend(s[1..], x);
    } else {
      assert (s + [x])[1..] == [];
    }
  }

  /** The closed flag of every entry, in registry order. */
  ghost function Flags(subs: seq<Subscriber>): seq<bool>
    reads subs
  {
    seq(|subs|, k requires 0 <= k < |subs| reads subs => subs[k].closed)
  }

  /** The delivery log of every entry, in registry order. */
  ghost function Logs(subs: seq<Subscriber>): seq<seq<string>>
    reads set s | s in subs :: s.msgs
  {
    seq(|subs|, k requires 0 <= k < |subs| reads set s | s in subs :: s.msgs => subs[k].msgs.sent)
  }

  /** No two entries share a delivery channel (so no subscriber is tracked twice). */
  ghost predicate OwnChannels(subs: seq<Subscriber>)
  {
    subs == [] || ((forall k :: 1 <= k < |subs| ==> subs[k].msgs != subs[0].msgs) && OwnChannels(subs[1..]))
  }

  /** The channel of entry `i` belongs to no other entry. */
  lemma {:induction false} OwnChannelsAt(s: seq<Subscriber>, i: nat)
    requires OwnChannels(s) && i < |s|
    ensures forall k :: 0 <= k < |s| && k != i ==> s[k].msgs != s[i].msgs
  {
    if i > 0 {
      OwnChannelsAt(s[1..], i - 1);
      forall k | 0 < k < |s| && k != i ensures s[k].msgs != s[i].msgs {
        assert s[k] == s[1..][k - 1];
      }
    }
  }

  /** `a` is `b` with some entries removed, the rest in their original order. */
  ghost predicate SubsequenceOf<T>(a: seq<T>, b: seq<T>)
    decreases |b|
  {
    a == [] || (b != [] && if a[0] == b[0] then SubsequenceOf(a[1..], b[1..]) else SubsequenceOf(a, b[1..]))
  }

  /** Filtering distributes over concatenation. */
  lemma {:induction false} LiveConcat(s: seq<Subscriber>, t: seq<Subscriber>)
    ensures Live(s + t) == Live(s) + Live(t)
  {
    if s == [] {
      assert s + t == t;
    } else {
      assert (s + t)[0] == s[0];
      assert (s + t)[1..] == s[1..] + t;
      LiveConcat(s[1..], t);
    }
  }

  /** One more entry read: the filtered prefix grows by that entry if it is open. */
  lemma LiveStep(s: seq<Subscriber>, i: nat)
    requires i < |s|
    ensures Live(s[..i + 1]) == Live(s[..i]) + if s[i].closed then [] else [s[i]]
  {
    assert s[..i + 1] == s[..i] + [s[i]];
    LiveConcat(s[..i], [s[i]]);
    assert [s[i]][1..] == [];
  }

  /** Live(s[..n]) for every n from 0 to |s|: what a compaction pass has kept after
      reading n entries. */
  ghost function LivePrefixes(s: seq<Subscriber>): (p: seq<seq<Subscriber>>)
    reads s
    ensures |p| == |s| + 1 && p[|s|] == Live(s)
    ensures forall n :: 0 <= n < |s| ==> p[n + 1] == p[n] + if s[n].closed then [] else [s[n]]
  {
    LiveSteps(s);
    assert s[..|s|] == s;
    seq(|s| + 1, n requires 0 <= n <= |s| reads s => Live(s[..n]))
  }

  /** LiveStep at every position of `s`. */
  lemma LiveSteps(s: seq<Subscriber>)
    ensures forall n :: 0 <= n < |s| ==> Live(s[..n + 1]) == Live(s[..n]) + if s[n].closed then [] else [s[n]]
  {
    forall n | 0 <= n < |s|
      ensures Live(s[..n + 1]) == Live(s[..n]) + if s[n].closed then [] else [s[n]]
    {
      LiveStep(s, n);
    }
  }

  /** Writing `x` at the write index extends the kept prefix by `x`. A proof hint for
      the compaction loop: Dafny proves it unaided but does not find it inside the loop. */
  lemma SeqUpdatePrefix<T>(a: seq<T>, h: nat, x: T)
    requires h < |a|
    ensures a[h := x][..h + 1] == a[..h] + [x]
  {
  }

  /** Compaction keeps channel ownership: it only removes entries. */
  lemma {:induction false} LiveOwnsChannels(s: seq<Subscriber>)
    requires OwnChannels(s)
    ensures OwnChannels(Live(s))
  {
    if s != [] {
      LiveOwnsChannels(s[1..]);
      var rest := Live(s[1..]);
      if !s[0].closed {
        forall k | 1 <= k < |Live(s)| ensures Live(s)[k].msgs != s[0].msgs {
          assert Live(s)[k] == rest[k - 1];
          LiveMembers(s[1..], rest[k - 1]);
          var m :| 0 <= m < |s[1..]| && s[1..][m] == rest[k - 1];
          assert s[m + 1] == rest[k - 1];
        }
        assert Live(s)[1..] == rest;
      } else {
        assert Live(s) == rest;
      }
    }
  }

  /** No survivor of compaction shares a channel with an entry that is closed. */
  lemma LiveChannelsNotClosed(s: seq<Subscriber>)
    requires OwnChannels(s)
    ensures forall x, k :: x in Live(s) && 0 <= k < |s| && s[k].closed ==> x.msgs != s[k].msgs
  {
    forall x, k | x in Live(s) && 0 <= k < |s| && s[k].closed ensures x.msgs != s[k].msgs {
      LiveMembers(s, x);
      var j :| 0 <= j < |s| && s[j] == x;
      OwnChannelsAt(s, j);
    }
  }

  /** The surviving entries keep their relative order. */
  lemma {:induction false} LiveIsSubsequence(s: seq<Subscriber>)
    ensures SubsequenceOf(Live(s), s)
  {
    if s != [] {
      var rest := Live(s[1..]);
      LiveIsSubsequence(s[1..]);
      if !s[0].closed {
        assert Live(s) == [s[0]] + rest;
        assert ([s[0]] + rest)[1..] == rest;
      } else if rest != [] {
        assert Live(s) == rest;
        LiveMembers(s[1..], rest[0]);
      }
    }
  }

  /** A registry that has just been compacted is not shrunk by a second compaction. */
  lemma {:induction false} LiveIdempotent(s: seq<Subscriber>)
    ensures Live(Live(s)) == Live(s)
  {
    if s != [] {
      var rest := Live(s[1..]);
      LiveIdempotent(s[1..]);
      if !s[0].closed {
        assert Live(s) == [s[0]] + rest;
        assert ([s[0]] + rest)[0] == s[0] && ([s[0]] + rest)[1..] == rest;
        assert Live([s[0]] + rest) == [s[0]] + Live(rest);
      } else {
        assert Live(s) == rest;
      }
    }
  }

  /** Compaction removes nothing exactly when no tracked subscriber is closed. */
  lemma {:induction false} LiveKeepsAllIff(s: seq<Subscriber>)
    ensures Live(s) == s <==> forall i :: 0 <= i < |s| ==> !s[i].closed
  {
    if s != [] {
      LiveKeepsAllIff(s[1..]);
      if s[0].closed {
        assert |Live(s)| < |s|;
      } else {
        assert Live(s)[1..] == Live(s[1..]);
        if forall i :: 0 <= i < |s| ==> !s[i].closed {
          assert forall i :: 0 <= i < |s[1..]| ==> !s[1..][i].closed by {
            forall i | 0 <= i < |s[1..]| ensures !s[1..][i].closed {
              assert s[1..][i] == s[i + 1];
            }
          }
        }
        if Live(s) == s {
          assert Live(s[1..]) == s[1..];
          forall i | 0 <= i < |s| ensures !s[i].closed {
            if i > 0 {
              assert s[i] == s[1..][i - 1];
            }
          }
        }
      }
    }
  }

  /** The server's registry of subscribers; the mutex is left out (see README). */
  class Server {
    var subscribers: seq<Subscriber>

    /** The channels owned by the tracked subscribers. */
    ghost function Channels(): set<Channel>
      reads this
    {
      set s | s in subscribers :: s.msgs
    }

    /** Registry invariant: no shared channels, and a subscriber's channel is closed
        exactly when its closed flag is set (the two change together, under the lock). */
    ghost predicate Valid()
      reads this, subscribers, Channels()
    {
      && OwnChannels(subscribers)
      && forall s :: s in subscribers ==> s.closed == s.msgs.closed
    }

    constructor ()
      ensures Valid() && subscribers == []
    {
      subscribers := [];
    }

    /** Appends `sub` to the registry; the error result is always nil. The caller hands
        over a subscriber it has just created: open, with a channel of its own. */
    method AddSubscriber(sub: Subscriber) returns (ok: bool)
      requires Valid()
      requires !sub.closed && !sub.msgs.closed
      requires forall s :: s in subscribers ==> s.msgs != sub.msgs
      modifies this
      ensures Valid()
      ensures ok
      ensures subscribers == old(subscribers) + [sub]
    {
      OwnChannelsAppend(subscribers, sub);
      subscribers := subscribers + [sub];
      ok := true;
    }

    /** Creates an open subscriber with a fresh channel and registers it. */
    method Subscribe() returns (sub: Subscriber)
      requires Valid()
      modifies this
      ensures Valid()
      ensures fresh(sub) && fresh(sub.msgs)
      ensures !sub.closed && !sub.msgs.closed && sub.msgs.sent == []
      ensures subscribers == old(subscribers) + [sub]
    {
      sub := new Subscriber();
      var _ := AddSubscriber(sub);
    }

    /** The reader pump's reaction to a read error: mark the subscriber closed and close
        its channel. It stays in the registry until the next non-empty broadcast. */
    method Disconnect(sub: Subscriber)
      requires Valid()
      requires sub in subscribers && !sub.closed
      modifies sub, sub.msgs
      ensures Valid()
      ensures old(!sub.closed) && sub.closed && sub.msgs.closed
      ensures sub.msgs.sent == old(sub.msgs.sent)
      ensures subscribers == old(subscribers) && sub in subscribers
    {
      sub.closed := true;
      sub.msgs.Close();
      forall s | s in subscribers ensures s.closed == s.msgs.closed {
        var j :| 0 <= j < |subscribers| && subscribers[j] == sub;
        OwnChannelsAt(subscribers, j);
      }
    }

    /** Rejects an empty message; otherwise delivers it to every open subscriber and
        drops the closed ones from the registry. */
    method Broadcast(msg: string) returns (r: Outcome)
      requires Valid()
      modifies this, Channels()
      ensures Valid()
      ensures r == if msg == "" then EmptyMessage else Delivered
      ensures subscribers == if msg == "" then old(subscribers) else old(Live(subscribers))
      ensures forall s :: s in old(subscribers) ==> s.msgs.closed == old(s.msgs.closed)
      ensures forall s :: s in old(subscribers) ==>
        s.msgs.sent == old(s.msgs.sent) + if msg == "" || s.closed then [] else [msg]
    {
      if msg == "" {
        return EmptyMessage;
      }
      ghost var olds := subscribers;
      ghost var live := Live(olds);
      LiveOwnsChannels(olds);
      assert forall x :: x in live ==> x in olds by {
        forall x | x in live ensures x in olds { LiveMembers(olds, x); }
      }
      DeliverAndCompact(msg, Logs(olds), Flags(olds));
      forall s | s in olds
        ensures s.msgs.sent == old(s.msgs.sent) + if s.closed then [] else [msg]
        ensures s.msgs.closed == old(s.msgs.closed) == s.closed
      {
        var k :| 0 <= k < |olds| && olds[k] == s;
      }
      r := Delivered;
    }

    /** One pass over the registry under the lock: hands `msg` to each open subscriber,
        in registry order, and compacts the registry in place to those subscribers.
        `logs` and `flags` are ghost snapshots of every entry's delivery log and closed
        flag on entry. */
    method DeliverAndCompact(msg: string, ghost logs: seq<seq<string>>, ghost flags: seq<bool>)
      requires Valid()
      requires logs == Logs(subscribers) && flags == Flags(subscribers)
      modifies this, Channels()
      ensures subscribers == old(Live(subscribers))
      ensures forall k :: 0 <= k < |old(subscribers)| ==>
        && old(subscribers)[k].msgs.closed == flags[k]
        && old(subscribers)[k].msgs.sent == logs[k] + if flags[k] then [] else [msg]
    {
      ghost var olds := subscribers;
      ghost var kept := LivePrefixes(olds);
      assert forall n :: 0 <= n < |olds| ==> kept[n + 1] == kept[n] + if flags[n] then [] else [olds[n]];
      // The slice being compacted: entries are read at i and written back at h <= i.
      var subs := subscribers;
      var h := 0;
      var i := 0;
      while i < |subs|
        invariant 0 <= h <= i <= |subs| == |olds|
        invariant forall k :: i <= k < |olds| ==> subs[k] == olds[k]
        invariant subs[..h] == kept[i]
        invariant forall k :: 0 <= k < |olds| ==>
          && olds[k].msgs.closed == flags[k]
          && olds[k].msgs.sent == logs[k] + if k >= i || flags[k] then [] else [msg]
      {
        var sub := subs[i];
        assert sub == olds[i];
        OwnChannelsAt(olds, i);
        if !sub.closed {
          SeqUpdatePrefix(subs, h, sub);
          subs := subs[h := sub];
          sub.msgs.Send(msg);
          h := h + 1;
        }
        i := i + 1;
      }
      subscribers := subs[..h];
    }
  }
}
