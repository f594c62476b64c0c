/** The class behind every subscriber (pwnproxy/shared/bus/qos.py:42-232), proved to carry out the
    state machine of module QoS operation by operation. */
module QoSQueue {
  import opened Wrappers
  import opened QoS

  class QoSClassifiedQueue {
    const qos: QoSClass
    const maxsize: int
    var items: seq<Event>
    var retryBuffer: seq<Retry>
    var dropped: nat
    var coalesced: nat
    /** Every operation so far. */
    ghost var trace: seq<Op>

    ghost function Settings(): Config {
      Config(qos, maxsize)
    }

    ghost function State(): Queue
      reads this
    {
      Queue(items, retryBuffer, dropped, coalesced)
    }

    ghost predicate Valid()
      reads this
    {
      State() == Run(Settings(), trace).queue
    }

    constructor (qos: QoSClass, maxsize: Option<int>)
      ensures Valid() && trace == [] && this.qos == qos
      ensures this.maxsize == if maxsize == None || maxsize == Some(0) then DefaultMaxsize(qos) else maxsize.value
    {
      this.qos := qos;
      this.maxsize := if maxsize == None || maxsize == Some(0) then DefaultMaxsize(qos) else maxsize.value;
      items, retryBuffer, dropped, coalesced := [], [], 0, 0;
      trace := [];
    }

    /** `asyncio.Queue.put_nowait`: false stands for QueueFull. */
    method Offer(e: Event) returns (ok: bool)
      modifies this`items
      ensures ok == !Settings().Full(|old(items)|)
      ensures items == if ok then old(items) + [e] else old(items)
    {
      ok := !(0 < maxsize <= |items|);
      if ok {
        items := items + [e];
      }
    }

    method EnqueueDrop(e: Event) returns (accepted: bool)
      modifies this`items, this`dropped
      ensures accepted == !Settings().Full(|old(items)|)
      ensures items == if accepted then old(items) + [e] else old(items)
      ensures dropped == if accepted then old(dropped) else old(dropped) + 1
    {
      accepted := Offer(e);
      if !accepted {
        dropped := dropped + 1;
      }
    }

    /** The refill of the emptied queue: it stops at the first event that does not fit. */
    method Refill(copy: seq<Event>)
      requires items == [] && |copy| >= 1 && (|copy| >= 2 ==> !Settings().Full(|copy| - 2))
      modifies this`items, this`dropped
      ensures items == if Settings().Full(|copy| - 1) then copy[..|copy| - 1] else copy
      ensures dropped == old(dropped) + if Settings().Full(|copy| - 1) then 1 else 0
    {
      var k, overflow := 0, false;
      while k < |copy| && !overflow
        invariant 0 <= k <= |copy|
        invariant overflow ==> k == |copy| && Settings().Full(|copy| - 1)
        invariant !overflow && k > 0 ==> !Settings().Full(k - 1)
        invariant items == copy[..if overflow then |copy| - 1 else k]
        invariant dropped == old(dropped) + if overflow then 1 else 0
        modifies this`items, this`dropped
        decreases |copy| - k
      {
        var ok := Offer(copy[k]);
        if !ok {
          overflow := true;
          dropped := dropped + 1;
        }
        k := k + 1;
      }
    }

    /** Replace in place or append; the queue is emptied and refilled, and the refill stops at the
        first event that does not fit, which can only be the new one at the end. */
    method EnqueueCoalesce(e: Event) returns (accepted: bool)
      requires Bounded(Settings(), State())
      modifies this`items, this`dropped, this`coalesced
      ensures accepted == (CoalesceKey(e).Some? || !Settings().Full(|old(items)|))
      ensures State() == PutCoalesced(Settings(), START.(queue := old(State())), e).queue
    {
      var key := CoalesceKey(e);
      if key.None? {
        accepted := EnqueueDrop(e);
        return;
      }
      var copy, i := items, 0;
      while i < |items| && CoalesceKey(items[i]) != key
        invariant 0 <= i <= |items|
        invariant forall j :: 0 <= j < i ==> CoalesceKey(items[j]) != key
        modifies {}
      {
        i := i + 1;
      }
      ghost var first := IndexOfKey(items, key.value);
      assert i == first;
      if i < |items| {
        copy := copy[i := e];
        coalesced := coalesced + 1;
      } else {
        copy := copy + [e];
      }
      items := [];
      Refill(copy);
      accepted := true;
    }

    method EnqueueCritical(e: Event, now: Time) returns (accepted: bool)
      requires Bounded(Settings(), State())
      modifies this`items, this`retryBuffer, this`dropped
      ensures accepted
      ensures State() == PutRetried(Settings(), START.(queue := old(State())), e, now).queue
    {
      var ok := Offer(e);
      if !ok {
        retryBuffer := retryBuffer + [Retry(e, now + RETRY_DELAYS[0], 1)];
        if |retryBuffer| > RETRY_LIMIT {
          var oldest := retryBuffer[..16];
          retryBuffer := retryBuffer[16..];
          dropped := dropped + |oldest|;
        }
      }
      accepted := true;
    }

    method PutNowait(topic: string, data: map<string, string>, now: Time) returns (accepted: bool)
      requires Valid()
      modifies this
      ensures Valid() && trace == old(trace) + [Put(Event(topic, data), now)]
      ensures accepted == Accepted(Settings(), old(State()), Event(topic, data))
    {
      var e := Event(topic, data);
      RunIsBounded(Settings(), trace);
      QueueIgnoresFates(Settings(), Run(Settings(), trace), Put(e, now));
      RunSnoc(Settings(), trace, Put(e, now));
      accepted := Enqueue(e, now);
      trace := trace + [Put(e, now)];
    }

    /** The policy of the queue's class. */
    method Enqueue(e: Event, now: Time) returns (accepted: bool)
      requires Bounded(Settings(), State())
      modifies this`items, this`retryBuffer, this`dropped, this`coalesced
      ensures State() == Apply(Settings(), START.(queue := old(State())), Put(e, now)).queue
      ensures accepted == Accepted(Settings(), old(State()), e)
    {
      match qos {
        case Critical => accepted := EnqueueCritical(e, now);
        case Important => accepted := EnqueueCoalesce(e);
        case BestEffort => accepted := EnqueueDrop(e);
      }
    }

    /** None stands for QueueEmpty. */
    method GetNowait(now: Time) returns (item: Option<Event>)
      requires Valid()
      modifies this
      ensures Valid() && trace == old(trace) + [Get(now)]
      ensures Run(Settings(), trace).delivered
           == Run(Settings(), old(trace)).delivered + (if item.Some? then [item.value] else [])
      ensures item.None? <==> old(items) == [] && Ready(old(retryBuffer), now) == []
    {
      ghost var before := Run(Settings(), trace);
      var ready := Ready(retryBuffer, now);
      RunSnoc(Settings(), trace, Get(now));
      trace := trace + [Get(now)];
      assert Run(Settings(), trace) == TakeNext(before, now);
      if ready != [] {
        item := Some(ready[0].event);
        retryBuffer := Waiting(retryBuffer, now);
      } else if items != [] {
        item := Some(items[0]);
        items := items[1..];
      } else {
        item := None;
      }
    }

    method RetryTick(now: Time)
      requires Valid()
      modifies this
      ensures Valid() && trace == old(trace) + [Tick(now)]
    {
      ghost var before := Run(Settings(), trace);
      var pending, given := SplitRetries(now);
      RunSnoc(Settings(), trace, Tick(now));
      trace := trace + [Tick(now)];
      assert Run(Settings(), trace) == QoS.RetryTick(before, now);
      retryBuffer, dropped := pending, dropped + given;
    }

    /** The loop of `retry_tick`: what is kept for later and how many are given up. */
    method SplitRetries(now: Time) returns (pending: seq<Retry>, given: nat)
      ensures pending == Postponed(retryBuffer, now) && given == |Exhausted(retryBuffer)|
    {
      pending, given := [], 0;
      for i := 0 to |retryBuffer|
        invariant pending == Postponed(retryBuffer[..i], now)
        invariant given == |Exhausted(retryBuffer[..i])|
      {
        var r := retryBuffer[i];
        assert retryBuffer[..i + 1] == retryBuffer[..i] + [r];
        TickAppend(retryBuffer[..i], r, now);
        if r.attempts >= MAX_RETRIES {
          given := given + 1;
        } else {
          pending := pending + [Later(r, now)];
        }
      }
      assert retryBuffer[..|retryBuffer|] == retryBuffer;
    }
  }
}
