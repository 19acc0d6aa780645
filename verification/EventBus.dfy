/** The event bus: fan-out to buffered subscribers, a flag for those that fell behind. */
module EventBus {
  import opened Wrappers

  /** One subscriber's channel: what waits in it, and whether something was ever dropped for it.  `received`
      and `since` record what was taken from it and what was published since it subscribed. */
  class Subscription<E(!new)> {
    const capacity: nat
    var queue: seq<E>
    var dropped: bool
    var open: bool
    ghost var received: seq<E>
    ghost var since: seq<E>

    /** Undropped, a subscriber has seen or will see everything, in order; dropped, a part of it, in order. */
    ghost predicate Valid()
      reads this
    {
      && 1 <= capacity && |queue| <= capacity
      && (if dropped then Subsequence(received + queue, since) else received + queue == since)
    }

    constructor (buffer: int)
      ensures Valid() && open && !dropped && queue == [] && received == [] && since == []
      ensures capacity == if buffer < 1 then 1 else buffer
    {
      capacity := if buffer < 1 then 1 else buffer;
      queue, dropped, open, received, since := [], false, true, [], [];
    }

    /** A send that never blocks: into the buffer, or dropped and flagged, once and for good. */
    method Offer(e: E)
      requires Valid()
      modifies this
      ensures Valid() && open == old(open) && received == old(received)
      ensures since == old(since) + [e]
      ensures if |old(queue)| < capacity then queue == old(queue) + [e] && dropped == old(dropped)
              else queue == old(queue) && dropped
    {
      since := since + [e];
      if |queue| < capacity {
        assert received + (queue + [e]) == (received + queue) + [e];
        SubsequenceGrows(received + queue, old(since), e);
        queue := queue + [e];
      } else {
        SubsequenceOfMore(received + queue, old(since), e);
        if !dropped {
          SubsequenceOfSelf(old(since));
          SubsequenceOfMore(received + queue, old(since), e);
          dropped := true;
        }
      }
    }

    method Receive() returns (e: Option<E>)
      requires Valid()
      modifies this
      ensures Valid() && open == old(open) && dropped == old(dropped) && since == old(since)
      ensures if old(queue) == [] then e == None && queue == [] && received == old(received)
              else e == Some(old(queue)[0]) && queue == old(queue)[1..] && received == old(received) + [old(queue)[0]]
    {
      if queue == [] {
        return None;
      }
      e := Some(queue[0]);
      assert (received + [queue[0]]) + queue[1..] == received + queue;
      received := received + [queue[0]];
      queue := queue[1..];
    }
  }

  /** `a` is `b` with some elements left out. */
  ghost predicate Subsequence<E(!new)>(a: seq<E>, b: seq<E>)
    decreases |b|
  {
    if b == [] then a == []
    else
      || Subsequence(a, b[..|b| - 1])
      || (a != [] && a[|a| - 1] == b[|b| - 1] && Subsequence(a[..|a| - 1], b[..|b| - 1]))
  }

  lemma SubsequenceOfMore<E(!new)>(a: seq<E>, b: seq<E>, e: E)
    ensures Subsequence(a, b) ==> Subsequence(a, b + [e])
  {
    assert (b + [e])[..|b|] == b;
  }

  lemma SubsequenceGrows<E(!new)>(a: seq<E>, b: seq<E>, e: E)
    ensures Subsequence(a, b) ==> Subsequence(a + [e], b + [e])
  {
    assert (b + [e])[..|b|] == b && (a + [e])[..|a|] == a;
  }

  lemma {:induction false} SubsequenceOfSelf<E(!new)>(a: seq<E>)
    ensures Subsequence(a, a)
  {
    if a != [] {
      SubsequenceOfSelf(a[..|a| - 1]);
    }
  }

  class Bus<E(!new)> {
    var subs: set<Subscription<E>>

    ghost predicate Valid()
      reads this, subs
    {
      forall s | s in subs :: s.Valid() && s.open
    }

    constructor ()
      ensures Valid() && subs == {}
    {
      subs := {};
    }

    method Subscribe(buffer: int) returns (s: Subscription<E>)
      requires Valid()
      modifies this
      ensures fresh(s) && Valid() && subs == old(subs) + {s} && s.since == [] && s.queue == [] && !s.dropped
    {
      s := new Subscription<E>(buffer);
      subs := subs + {s};
    }

    method Unsubscribe(s: Subscription<E>)
      requires Valid()
      modifies this, s`open
      ensures Valid() && subs == old(subs) - {s}
      ensures s in old(subs) ==> !s.open
    {
      if s in subs {
        subs := subs - {s};
        s.open := false;
      }
    }

    /** Every subscriber is offered the event, whatever the others' buffers look like. */
    method Publish(e: E)
      requires Valid()
      modifies subs
      ensures Valid()
      ensures forall s | s in subs ::
        && s.since == old(s.since) + [e] && s.received == old(s.received)
        && (if |old(s.queue)| < s.capacity then s.queue == old(s.queue) + [e] && s.dropped == old(s.dropped)
            else s.queue == old(s.queue) && s.dropped)
    {
      var todo := subs;
      while todo != {}
        invariant todo <= subs && Valid()
        invariant forall s | s in todo ::
          s.since == old(s.since) && s.received == old(s.received) && s.queue == old(s.queue) && s.dropped == old(s.dropped)
        invariant forall s | s in subs && s !in todo ::
          && s.since == old(s.since) + [e] && s.received == old(s.received)
          && (if |old(s.queue)| < s.capacity then s.queue == old(s.queue) + [e] && s.dropped == old(s.dropped)
              else s.queue == old(s.queue) && s.dropped)
      {
        var s :| s in todo;
        todo := todo - {s};
        s.Offer(e);
      }
    }
  }
}
