/** Fan-out of inbox events to open streams, each with a bounded queue. */
module Realtime {

  /** An event names something that changed, or tells the stream to refetch
      everything. */
  datatype Event = Change(id: nat) | Resync

  const QUEUE_LIMIT := 200

  // ---- What it means to lose nothing ----------------------------------------

  /** `seen` accounts for `published`: it repeats it in order, except that a
      resync may stand for any number of events published before it. */
  ghost predicate Accounts(seen: seq<Event>, published: seq<Event>)
    decreases seen
  {
    if seen == [] then published == []
    else match seen[0]
      case Change(_) => published != [] && published[0] == seen[0] && Accounts(seen[1..], published[1..])
      case Resync => exists n :: 0 <= n <= |published| && Accounts(seen[1..], published[n..])
  }

  /** A seen event more for a published event more. */
  lemma {:induction false} AccountsOneMore(seen: seq<Event>, published: seq<Event>, e: Event)
    requires Accounts(seen, published)
    ensures Accounts(seen + [e], published + [e])
    decreases seen
  {
    if seen == [] {
      assert seen + [e] == [e] && [e][1..] == [] && published + [e] == [e];
      assert Accounts([e][1..], [e][1..]);
    } else {
      assert (seen + [e])[1..] == seen[1..] + [e];
      if seen[0].Change? {
        assert (published + [e])[1..] == published[1..] + [e];
        AccountsOneMore(seen[1..], published[1..], e);
      } else {
        var n :| 0 <= n <= |published| && Accounts(seen[1..], published[n..]);
        assert (published + [e])[n..] == published[n..] + [e];
        AccountsOneMore(seen[1..], published[n..], e);
      }
    }
  }

  /** A resync covers whatever was published since the last event seen. */
  lemma {:induction false} AccountsResync(seen: seq<Event>, published: seq<Event>, missed: seq<Event>)
    requires Accounts(seen, published)
    ensures Accounts(seen + [Resync], published + missed)
    decreases seen
  {
    if seen == [] {
      assert seen + [Resync] == [Resync] && published + missed == missed;
      assert missed[|missed|..] == [] && [Resync][1..] == [];
    } else {
      assert (seen + [Resync])[1..] == seen[1..] + [Resync];
      if seen[0].Change? {
        assert (published + missed)[1..] == published[1..] + missed;
        AccountsResync(seen[1..], published[1..], missed);
      } else {
        var n :| 0 <= n <= |published| && Accounts(seen[1..], published[n..]);
        assert (published + missed)[n..] == published[n..] + missed;
        AccountsResync(seen[1..], published[n..], missed);
      }
    }
  }

  /** What the front of an accounting accounts for. */
  lemma {:induction false} AccountsFront(front: seq<Event>, back: seq<Event>, published: seq<Event>) returns (n: nat)
    requires Accounts(front + back, published)
    ensures n <= |published| && Accounts(front, published[..n])
    decreases front
  {
    if front == [] {
      n := 0;
    } else {
      assert (front + back)[1..] == front[1..] + back && (front + back)[0] == front[0];
      var k := 1;
      if front[0].Resync? {
        k :| 0 <= k <= |published| && Accounts(front[1..] + back, published[k..]);
      }
      var m := AccountsFront(front[1..], back, published[k..]);
      n := k + m;
      assert published[..n][k..] == published[k..][..m];
    }
  }

  /** A stream that was never told to resync has seen exactly what was
      published. */
  lemma {:induction false} WithoutResyncExact(seen: seq<Event>, published: seq<Event>)
    requires Accounts(seen, published) && Resync !in seen
    ensures seen == published
    decreases seen
  {
    if seen != [] {
      WithoutResyncExact(seen[1..], published[1..]);
    }
  }

  /** After its last resync a stream has seen exactly the events published from
      some moment on, in order. */
  lemma {:induction false} SinceResyncExact(before: seq<Event>, since: seq<Event>, published: seq<Event>)
    requires Accounts(before + [Resync] + since, published) && Resync !in since
    ensures |since| <= |published| && since == published[|published| - |since|..]
    decreases before
  {
    var seen := before + [Resync] + since;
    if before == [] {
      assert seen[1..] == since;
      var n :| 0 <= n <= |published| && Accounts(since, published[n..]);
      WithoutResyncExact(since, published[n..]);
    } else {
      assert seen[1..] == before[1..] + [Resync] + since && seen[0] == before[0];
      var n := 1;
      if before[0].Resync? {
        n :| 0 <= n <= |published| && Accounts(seen[1..], published[n..]);
      }
      SinceResyncExact(before[1..], since, published[n..]);
    }
  }

  /** Every published event was seen itself, in its place, or is covered by a
      resync seen after its place. */
  lemma {:induction false} NothingLost(seen: seq<Event>, published: seq<Event>, i: nat) returns (j: nat, n: nat)
    requires Accounts(seen, published) && i < |published|
    ensures j < |seen| && i < n <= |published|
    ensures Accounts(seen[..j + 1], published[..n])
    ensures seen[j] == Resync || (seen[j] == published[i] && n == i + 1)
    decreases seen
  {
    var k := 1;
    if seen[0].Resync? {
      k :| 0 <= k <= |published| && Accounts(seen[1..], published[k..]);
    }
    if i < k {
      j, n := 0, k;
      assert seen[..1][1..] == [] && published[..k][k..] == [];
      assert Accounts(seen[..1][1..], published[..k][k..]);
    } else {
      var j', n' := NothingLost(seen[1..], published[k..], i - k);
      j, n := j' + 1, k + n';
      assert seen[..j + 1][1..] == seen[1..][..j' + 1] && published[..n][k..] == published[k..][..n'];
    }
  }

  // ---- Streams --------------------------------------------------------------

  /** One open stream. `scheduled` are the callbacks its event loop has yet to
      run; `consumed` is what the browser has been sent, and `published` what was
      published to its shop since it subscribed. */
  class Stream {
    var scheduled: seq<Event>
    var queue: seq<Event>
    ghost var consumed: seq<Event>
    ghost var published: seq<Event>

    /** Nothing published is lost silently, order is kept, and the queue is
        bounded. */
    ghost predicate Valid()
      reads this
    {
      && |queue| <= QUEUE_LIMIT
      && exists n :: 0 <= n <= |published| && published[n..] == scheduled && Accounts(consumed + queue, published[..n])
    }

    constructor ()
      ensures Valid() && scheduled == [] && queue == [] && consumed == [] && published == []
    {
      scheduled, queue, consumed, published := [], [], [], [];
      new;
      assert published[0..] == scheduled && Accounts(consumed + queue, published[..0]);
    }

    /** `_offer`, run by the event loop for the callback scheduled first. */
    method Deliver()
      requires Valid() && scheduled != []
      modifies this`scheduled, this`queue
      ensures Valid()
      ensures scheduled == old(scheduled)[1..]
      ensures queue == if |old(queue)| < QUEUE_LIMIT then old(queue) + [old(scheduled)[0]] else [Resync]
    {
      ghost var n :| 0 <= n <= |published| && published[n..] == scheduled && Accounts(consumed + queue, published[..n]);
      var payload := scheduled[0];
      assert payload == published[n];
      scheduled := scheduled[1..];
      assert published[..n + 1] == published[..n] + [payload] && published[n + 1..] == scheduled;
      if |queue| < QUEUE_LIMIT {
        AccountsOneMore(consumed + queue, published[..n], payload);
        assert consumed + queue + [payload] == consumed + (queue + [payload]);
        queue := queue + [payload];
      } else {
        ghost var m := AccountsFront(consumed, queue, published[..n]);
        while queue != []
          invariant |queue| <= QUEUE_LIMIT && scheduled == old(scheduled)[1..]
          decreases |queue|
        {
          queue := queue[1..];
        }
        queue := queue + [Resync];
        AccountsResync(consumed, published[..n][..m], published[m..n + 1]);
        assert published[..n][..m] + published[m..n + 1] == published[..n + 1];
        assert queue == [Resync];
        assert published[n + 1..] == scheduled && Accounts(consumed + queue, published[..n + 1]);
      }
    }

    /** The stream's own loop takes the oldest event. */
    method Take() returns (e: Event)
      requires Valid() && queue != []
      modifies this`queue, this`consumed
      ensures Valid()
      ensures e == old(queue)[0] && queue == old(queue)[1..] && consumed == old(consumed) + [e]
    {
      e := queue[0];
      assert consumed + queue == consumed + [queue[0]] + queue[1..];
      queue, consumed := queue[1..], consumed + [e];
    }

    /** loop.call_soon_threadsafe(_offer, queue, payload) */
    method Schedule(e: Event)
      requires Valid()
      modifies this`scheduled, this`published
      ensures Valid()
      ensures scheduled == old(scheduled) + [e] && published == old(published) + [e]
    {
      ghost var n :| 0 <= n <= |published| && published[n..] == scheduled && Accounts(consumed + queue, published[..n]);
      ghost var before := published;
      scheduled, published := scheduled + [e], published + [e];
      assert published[n..] == before[n..] + [e] && published[..n] == before[..n];
    }
  }

  // ---- The hub --------------------------------------------------------------

  type UserId = nat

  class Hub {
    var streams: map<UserId, set<Stream>>

    /** Each stream belongs to one shop, and a shop with no stream has no entry. */
    ghost predicate Valid()
      reads this, All()
    {
      && (forall u <- streams :: streams[u] != {})
      && (forall u <- streams, v <- streams :: u != v ==> streams[u] !! streams[v])
      && (forall s <- All() :: s.Valid())
    }

    ghost function All(): set<Stream>
      reads this
    {
      set u, s | u in streams && s in streams[u] :: s
    }

    ghost function Of(user: UserId): set<Stream>
      reads this
    {
      if user in streams then streams[user] else {}
    }

    constructor ()
      ensures Valid() && streams == map[]
    {
      streams := map[];
    }

    method Subscribe(user: UserId) returns (stream: Stream)
      requires Valid()
      modifies this
      ensures Valid() && fresh(stream) && stream.published == [] && stream.queue == [] && stream.scheduled == []
      ensures Of(user) == old(Of(user)) + {stream}
      ensures forall u | u != user :: Of(u) == old(Of(u))
    {
      stream := new Stream();
      var before := if user in streams then streams[user] else {};
      streams := streams[user := before + {stream}];
    }

    method Unsubscribe(user: UserId, stream: Stream)
      requires Valid()
      modifies this
      ensures Valid()
      ensures Of(user) == old(Of(user)) - {stream}
      ensures forall u | u != user :: Of(u) == old(Of(u))
    {
      if user in streams {
        var rest := streams[user] - {stream};
        if rest == {} {
          streams := streams - {user};
        } else {
          streams := streams[user := rest];
        }
      }
    }

    /** Hand an event to every stream of its shop, and to no other. */
    method Publish(user: UserId, e: Event)
      requires Valid()
      modifies Of(user)
      ensures Valid() && streams == old(streams)
      ensures forall s <- Of(user) :: s.scheduled == old(s.scheduled) + [e] && s.published == old(s.published) + [e]
      ensures forall s <- Of(user) :: s.queue == old(s.queue) && s.consumed == old(s.consumed)
    {
      var rest := if user in streams then streams[user] else {};
      while rest != {}
        invariant rest <= Of(user) && streams == old(streams)
        invariant forall s <- All() :: s.Valid()
        invariant forall s <- rest :: unchanged(s)
        invariant forall s <- Of(user) - rest ::
                    s.scheduled == old(s.scheduled) + [e] && s.published == old(s.published) + [e]
        invariant forall s <- Of(user) :: s.queue == old(s.queue) && s.consumed == old(s.consumed)
        decreases rest
      {
        var s :| s in rest;
        s.Schedule(e);
        rest := rest - {s};
      }
    }
  }
}
