/** The QoS-classified event queue (pwnproxy/shared/bus/qos.py): its three enqueue policies as one
    state machine, and the class that carries it out on a bounded queue and a retry buffer. */
module QoS {
  import opened Text
  import opened Wrappers

  type Time = real

  datatype QoSClass = Critical | Important | BestEffort

  /** A payload maps field names to the text their values print as. */
  datatype Event = Event(topic: string, data: map<string, string>)

  datatype Retry = Retry(event: Event, due: Time, attempts: nat)

  const MAX_RETRIES := 3
  const RETRY_LIMIT := 32
  const RETRY_DELAYS: seq<Time> := [0.05, 0.1, 0.2]

  function DefaultMaxsize(qos: QoSClass): int {
    match qos
    case Critical => 256
    case Important => 128
    case BestEffort => 64
  }

  // ----- coalesce keys -----

  function Field(data: map<string, string>, name: string, default: string): string {
    if name in data then data[name] else default
  }

  function CoalesceKey(e: Event): Option<string> {
    if Contains(e.topic, "progress") then Some("progress:" + Field(e.data, "job_id", "?"))
    else if e.topic == "triage.updated" then Some("triage:" + Field(e.data, "finding_id", Field(e.data, "id", "?")))
    else None
  }

  /** Two events coalesce exactly if both report the progress of one job, or both a verdict on one finding;
      reports that name none are taken for the same. */
  lemma {:induction false} SharedKeyExactly(a: Event, b: Event)
    ensures CoalesceKey(a).Some? && CoalesceKey(a) == CoalesceKey(b)
       <==> || (Contains(a.topic, "progress") && Contains(b.topic, "progress") && Named(a, ["job_id"]) == Named(b, ["job_id"]))
            || (a.topic == "triage.updated" == b.topic && Named(a, ["finding_id", "id"]) == Named(b, ["finding_id", "id"]))
  {
    if Contains("triage.updated", "progress") {
      ContainsChar("triage.updated", "progress", 'o');
      assert false;
    }
    KeyOf(a);
    KeyOf(b);
    var ids := ["finding_id", "id"];
    PrefixCancels("progress:", Named(a, ["job_id"]), Named(b, ["job_id"]));
    PrefixCancels("triage:", Named(a, ids), Named(b, ids));
    TagsDiffer(Named(a, ["job_id"]), Named(b, ids));
    TagsDiffer(Named(b, ["job_id"]), Named(a, ids));
  }

  lemma {:induction false} TagsDiffer(x: string, y: string)
    ensures "progress:" + x != "triage:" + y
  {
    assert ("progress:" + x)[0] == 'p' && ("triage:" + y)[0] == 't';
  }

  lemma {:induction false} KeyOf(e: Event)
    ensures CoalesceKey(e) == if Contains(e.topic, "progress") then Some("progress:" + Named(e, ["job_id"]))
                              else if e.topic == "triage.updated" then Some("triage:" + Named(e, ["finding_id", "id"]))
                              else None
  {
    var ids := ["finding_id", "id"];
    assert ids[1..] == ["id"];
    assert Named(e, ["id"]) == Field(e.data, "id", "?") && Named(e, ["job_id"]) == Field(e.data, "job_id", "?");
  }

  /** The first of these fields an event has, or "?". */
  function Named(e: Event, fields: seq<string>): string {
    if fields == [] then "?" else if fields[0] in e.data then e.data[fields[0]] else Named(e, fields[1..])
  }

  lemma {:induction false} ContainsChar(s: string, sub: string, c: char)
    requires Contains(s, sub) && c in sub
    ensures c in s
  {
    if !(sub <= s) {
      ContainsChar(s[1..], sub, c);
    }
  }

  lemma {:induction false} PrefixCancels(p: string, x: string, y: string)
    ensures p + x == p + y <==> x == y
  {
    assert (p + x)[|p|..] == x && (p + y)[|p|..] == y;
  }

  // ----- the state machine -----

  /** `asyncio.Queue` treats a maxsize that is not positive as unbounded. */
  datatype Config = Config(qos: QoSClass, maxsize: int)
  {
    predicate Full(n: nat) {
      0 < maxsize <= n
    }
  }

  datatype Queue = Queue(items: seq<Event>, retry: seq<Retry>, dropped: nat, coalesced: nat)

  const EMPTY := Queue([], [], 0, 0)

  datatype Op = Put(event: Event, now: Time) | Get(now: Time) | Tick(now: Time)

  /** The queue with the fate of every event that has left it: handed to a consumer, replaced by a
      newer event of its key, counted as dropped, or thrown away without being counted. */
  datatype Trace = Trace(
    queue: Queue,
    delivered: seq<Event>,
    replaced: seq<Event>,
    discarded: seq<Event>,
    forgotten: seq<Event>)

  function IndexOfKey(items: seq<Event>, key: string): (i: nat)
    ensures i <= |items|
    ensures i < |items| ==> CoalesceKey(items[i]) == Some(key)
    ensures forall j :: 0 <= j < i ==> CoalesceKey(items[j]) != Some(key)
  {
    if items == [] || CoalesceKey(items[0]) == Some(key) then 0 else 1 + IndexOfKey(items[1..], key)
  }

  function Events(rs: seq<Retry>): (es: seq<Event>)
    ensures |es| == |rs|
  {
    seq(|rs|, i requires 0 <= i < |rs| => rs[i].event)
  }

  function Ready(rs: seq<Retry>, now: Time): seq<Retry> {
    if rs == [] then [] else (if rs[0].due <= now then [rs[0]] else []) + Ready(rs[1..], now)
  }

  function Waiting(rs: seq<Retry>, now: Time): (ws: seq<Retry>)
    ensures |ws| <= |rs|
  {
    if rs == [] then [] else (if rs[0].due > now then [rs[0]] else []) + Waiting(rs[1..], now)
  }

  function Exhausted(rs: seq<Retry>): seq<Retry> {
    if rs == [] then [] else (if rs[0].attempts >= MAX_RETRIES then [rs[0]] else []) + Exhausted(rs[1..])
  }

  function Delay(attempts: nat): Time {
    RETRY_DELAYS[if attempts < |RETRY_DELAYS| then attempts else |RETRY_DELAYS| - 1]
  }

  function Later(r: Retry, now: Time): Retry {
    Retry(r.event, now + Delay(r.attempts), r.attempts + 1)
  }

  function Postponed(rs: seq<Retry>, now: Time): (ps: seq<Retry>)
    ensures |ps| <= |rs|
  {
    if rs == [] then []
    else (if rs[0].attempts >= MAX_RETRIES then []
          else [Later(rs[0], now)]) + Postponed(rs[1..], now)
  }

  function Append(t: Trace, e: Event): Trace {
    t.(queue := t.queue.(items := t.queue.items + [e]))
  }

  function Discard(t: Trace, e: Event): Trace {
    t.(queue := t.queue.(dropped := t.queue.dropped + 1), discarded := t.discarded + [e])
  }

  function PutBounded(c: Config, t: Trace, e: Event): Trace {
    if c.Full(|t.queue.items|) then Discard(t, e) else Append(t, e)
  }

  function PutCoalesced(c: Config, t: Trace, e: Event): Trace {
    match CoalesceKey(e)
    case None => PutBounded(c, t, e)
    case Some(key) =>
      var q, i := t.queue, IndexOfKey(t.queue.items, key);
      if i < |q.items| then
        t.(queue := q.(items := q.items[i := e], coalesced := q.coalesced + 1), replaced := t.replaced + [q.items[i]])
      else PutBounded(c, t, e)
  }

  function PutRetried(c: Config, t: Trace, e: Event, now: Time): Trace {
    var q := t.queue;
    if !c.Full(|q.items|) then Append(t, e)
    else
      var retry := q.retry + [Retry(e, now + RETRY_DELAYS[0], 1)];
      if |retry| <= RETRY_LIMIT then t.(queue := q.(retry := retry))
      else t.(queue := q.(retry := retry[16..], dropped := q.dropped + 16),
              discarded := t.discarded + Events(retry[..16]))
  }

  function TakeNext(t: Trace, now: Time): Trace {
    var q, ready := t.queue, Ready(t.queue.retry, now);
    if ready != [] then
      t.(queue := q.(retry := Waiting(q.retry, now)),
         delivered := t.delivered + [ready[0].event],
         forgotten := t.forgotten + Events(ready[1..]))
    else if q.items != [] then
      t.(queue := q.(items := q.items[1..]), delivered := t.delivered + [q.items[0]])
    else t
  }

  function RetryTick(t: Trace, now: Time): Trace {
    var q, out := t.queue, Exhausted(t.queue.retry);
    t.(queue := q.(retry := Postponed(q.retry, now), dropped := q.dropped + |out|),
       discarded := t.discarded + Events(out))
  }

  function Apply(c: Config, t: Trace, op: Op): Trace {
    match op
    case Put(e, now) =>
      (match c.qos
       case Critical => PutRetried(c, t, e, now)
       case Important => PutCoalesced(c, t, e)
       case BestEffort => PutBounded(c, t, e))
    case Get(now) => TakeNext(t, now)
    case Tick(now) => RetryTick(t, now)
  }

  const START := Trace(EMPTY, [], [], [], [])

  function Run(c: Config, ops: seq<Op>): Trace {
    if ops == [] then START else Apply(c, Run(c, ops[..|ops| - 1]), ops[|ops| - 1])
  }

  function Puts(ops: seq<Op>): seq<Event> {
    if ops == [] then []
    else Puts(ops[..|ops| - 1]) + (if ops[|ops| - 1].Put? then [ops[|ops| - 1].event] else [])
  }

  /** What the queue does next depends on its contents only. */
  lemma {:induction false} QueueIgnoresFates(c: Config, t: Trace, op: Op)
    ensures Apply(c, t, op).queue == Apply(c, START.(queue := t.queue), op).queue
  {
  }

  lemma {:induction false} TickAppend(rs: seq<Retry>, r: Retry, now: Time)
    ensures Postponed(rs + [r], now) == Postponed(rs, now) + Postponed([r], now)
    ensures Exhausted(rs + [r]) == Exhausted(rs) + Exhausted([r])
  {
    if rs == [] {
      assert rs + [r] == [r];
    } else {
      assert (rs + [r])[1..] == rs[1..] + [r] && (rs + [r])[0] == rs[0];
      TickAppend(rs[1..], r, now);
    }
  }

  // ----- event accounting -----

  function Count(s: seq<Event>, x: Event): nat {
    multiset(s)[x]
  }

  /** In how many places event `x` is. */
  function Places(t: Trace, x: Event): nat {
    Count(t.queue.items, x) + Count(Events(t.queue.retry), x) + Count(t.delivered, x)
    + Count(t.replaced, x) + Count(t.discarded, x) + Count(t.forgotten, x)
  }

  lemma {:induction false} CountAppend(a: seq<Event>, b: seq<Event>, x: Event)
    ensures Count(a + b, x) == Count(a, x) + Count(b, x)
  {
  }

  lemma {:induction false} CountCons(r: Retry, rs: seq<Retry>, x: Event)
    ensures Count(Events([r] + rs), x) == (if r.event == x then 1 else 0) + Count(Events(rs), x)
  {
    assert Events([r] + rs) == [r.event] + Events(rs);
  }

  lemma {:induction false} CountSplit(s: seq<Event>, k: nat, x: Event)
    requires k <= |s|
    ensures Count(s, x) == Count(s[..k], x) + Count(s[k..], x)
  {
    assert s == s[..k] + s[k..];
  }

  lemma {:induction false} ReadyOrWaiting(rs: seq<Retry>, now: Time, x: Event)
    ensures Count(Events(Ready(rs, now)), x) + Count(Events(Waiting(rs, now)), x) == Count(Events(rs), x)
  {
    if rs != [] {
      var rest := rs[1..];
      ReadyOrWaiting(rest, now, x);
      assert rs == [rs[0]] + rest;
      CountCons(rs[0], rest, x);
      CountCons(rs[0], Ready(rest, now), x);
      CountCons(rs[0], Waiting(rest, now), x);
      assert if rs[0].due <= now then Waiting(rs, now) == Waiting(rest, now) else Ready(rs, now) == Ready(rest, now);
    }
  }

  lemma {:induction false} ExhaustedOrPostponed(rs: seq<Retry>, now: Time, x: Event)
    ensures Count(Events(Exhausted(rs)), x) + Count(Events(Postponed(rs, now)), x) == Count(Events(rs), x)
  {
    if rs != [] {
      var rest := rs[1..];
      ExhaustedOrPostponed(rest, now, x);
      assert rs == [rs[0]] + rest;
      CountCons(rs[0], rest, x);
      if rs[0].attempts >= MAX_RETRIES {
        CountCons(rs[0], Exhausted(rest), x);
        assert Postponed(rs, now) == Postponed(rest, now);
      } else {
        var later := Later(rs[0], now);
        CountCons(later, Postponed(rest, now), x);
        assert Exhausted(rs) == Exhausted(rest);
        assert Postponed(rs, now) == [later] + Postponed(rest, now);
      }
    }
  }

  lemma {:induction false} BoundedPutPlaces(c: Config, t: Trace, e: Event, x: Event)
    ensures Places(PutBounded(c, t, e), x) == Places(t, x) + (if e == x then 1 else 0)
  {
    CountAppend(t.queue.items, [e], x);
    CountAppend(t.discarded, [e], x);
  }

  lemma {:induction false} CoalescedPutPlaces(c: Config, t: Trace, e: Event, x: Event)
    ensures Places(PutCoalesced(c, t, e), x) == Places(t, x) + (if e == x then 1 else 0)
  {
    BoundedPutPlaces(c, t, e, x);
    var key, items := CoalesceKey(e), t.queue.items;
    if key.Some? && IndexOfKey(items, key.value) < |items| {
      var i := IndexOfKey(items, key.value);
      CountAppend(t.replaced, [items[i]], x);
      assert Count(items[i := e], x) + Count([items[i]], x) == Count(items, x) + Count([e], x);
    }
  }

  lemma {:induction false} RetriedPutPlaces(c: Config, t: Trace, e: Event, now: Time, x: Event)
    ensures Places(PutRetried(c, t, e, now), x) == Places(t, x) + (if e == x then 1 else 0)
  {
    var q, r := t.queue, Retry(e, now + RETRY_DELAYS[0], 1);
    var retry := q.retry + [r];
    CountAppend(q.items, [e], x);
    assert Count(Events(retry), x) == Count(Events(q.retry), x) + (if e == x then 1 else 0) by {
      assert Events(retry) == Events(q.retry) + [e];
      CountAppend(Events(q.retry), [e], x);
    }
    if |retry| > RETRY_LIMIT {
      assert Events(retry)[..16] == Events(retry[..16]) && Events(retry)[16..] == Events(retry[16..]);
      CountSplit(Events(retry), 16, x);
      CountAppend(t.discarded, Events(retry[..16]), x);
    }
  }

  lemma {:induction false} GetPlaces(t: Trace, now: Time, x: Event)
    ensures Places(TakeNext(t, now), x) == Places(t, x)
  {
    var q, ready := t.queue, Ready(t.queue.retry, now);
    if ready != [] {
      ReadyOrWaiting(q.retry, now, x);
      assert ready == [ready[0]] + ready[1..];
      CountCons(ready[0], ready[1..], x);
      CountAppend(t.delivered, [ready[0].event], x);
      CountAppend(t.forgotten, Events(ready[1..]), x);
    } else if q.items != [] {
      CountSplit(q.items, 1, x);
      assert q.items[..1] == [q.items[0]];
      CountAppend(t.delivered, [q.items[0]], x);
    }
  }

  lemma {:induction false} TickPlaces(t: Trace, now: Time, x: Event)
    ensures Places(RetryTick(t, now), x) == Places(t, x)
  {
    ExhaustedOrPostponed(t.queue.retry, now, x);
    CountAppend(t.discarded, Events(Exhausted(t.queue.retry)), x);
  }

  lemma {:induction false} ApplyPlaces(c: Config, t: Trace, op: Op, x: Event)
    ensures Places(Apply(c, t, op), x) == Places(t, x) + (if op.Put? && op.event == x then 1 else 0)
  {
    match op
    case Put(e, now) =>
      match c.qos {
        case Critical => RetriedPutPlaces(c, t, e, now, x);
        case Important => CoalescedPutPlaces(c, t, e, x);
        case BestEffort => BoundedPutPlaces(c, t, e, x);
      }
    case Get(now) => GetPlaces(t, now, x);
    case Tick(now) => TickPlaces(t, now, x);
  }

  lemma {:induction false} CountersFollow(c: Config, t: Trace, op: Op)
    ensures var t' := Apply(c, t, op);
            && t'.queue.coalesced - t.queue.coalesced == |t'.replaced| - |t.replaced|
            && t'.queue.dropped - t.queue.dropped == |t'.discarded| - |t.discarded|
  {
  }

  /** Every event put, with its multiplicity, is queued, waiting for a retry, delivered, replaced,
      discarded or forgotten; the two counters count exactly the replaced and the discarded ones. */
  lemma {:induction false} EveryEventIsAccountedFor(c: Config, ops: seq<Op>, x: Event)
    ensures Count(Puts(ops), x) == Places(Run(c, ops), x)
    ensures Run(c, ops).queue.coalesced == |Run(c, ops).replaced|
    ensures Run(c, ops).queue.dropped == |Run(c, ops).discarded|
  {
    if ops != [] {
      var init, op := ops[..|ops| - 1], ops[|ops| - 1];
      EveryEventIsAccountedFor(c, init, x);
      ApplyPlaces(c, Run(c, init), op, x);
      CountersFollow(c, Run(c, init), op);
      CountAppend(Puts(init), if op.Put? then [op.event] else [], x);
    }
  }

  lemma {:induction false} SplitLengths(rs: seq<Retry>, now: Time)
    ensures |Ready(rs, now)| + |Waiting(rs, now)| == |rs|
    ensures |Exhausted(rs)| + |Postponed(rs, now)| == |rs|
  {
    if rs != [] {
      SplitLengths(rs[1..], now);
    }
  }

  function Total(t: Trace): nat {
    |t.delivered| + |t.queue.items| + |t.queue.retry| + t.queue.coalesced + t.queue.dropped + |t.forgotten|
  }

  lemma {:induction false} ApplyTotal(c: Config, t: Trace, op: Op)
    ensures Total(Apply(c, t, op)) == Total(t) + (if op.Put? then 1 else 0)
  {
    if !op.Put? {
      SplitLengths(t.queue.retry, op.now);
    }
  }

  /** The count the metrics should balance to, with the one term no metric shows. */
  lemma {:induction false} EventCountsBalance(c: Config, ops: seq<Op>)
    ensures |Puts(ops)| == Total(Run(c, ops))
  {
    if ops != [] {
      EventCountsBalance(c, ops[..|ops| - 1]);
      ApplyTotal(c, Run(c, ops[..|ops| - 1]), ops[|ops| - 1]);
    }
  }

  /** The i-th operation is a dequeue that finds several retries ready and keeps only one. */
  ghost predicate Forgets(c: Config, ops: seq<Op>, i: nat)
    requires i < |ops|
  {
    ops[i].Get? && |Ready(Run(c, ops[..i]).queue.retry, ops[i].now)| > 1
  }

  lemma {:induction false} RunSnoc(c: Config, ops: seq<Op>, op: Op)
    ensures Run(c, ops + [op]) == Apply(c, Run(c, ops), op)
  {
    assert (ops + [op])[..|ops|] == ops;
  }

  lemma {:induction false} ForgetsBefore(c: Config, ops: seq<Op>, n: nat, i: nat)
    requires i < n <= |ops|
    ensures Forgets(c, ops[..n], i) == Forgets(c, ops, i)
  {
    assert ops[..n][..i] == ops[..i];
  }

  lemma {:induction false} LastForgets(c: Config, ops: seq<Op>)
    requires ops != []
    ensures var init := Run(c, ops[..|ops| - 1]);
            && init.forgotten <= Run(c, ops).forgotten
            && (Forgets(c, ops, |ops| - 1) <==> Run(c, ops).forgotten != init.forgotten)
  {
    var init, op := Run(c, ops[..|ops| - 1]), ops[|ops| - 1];
    assert Run(c, ops) == Apply(c, init, op);
    if op.Get? {
      assert |Ready(init.queue.retry, op.now)| > 0 ==>
          Run(c, ops).forgotten == init.forgotten + Events(Ready(init.queue.retry, op.now)[1..]);
    } else {
      assert Run(c, ops).forgotten == init.forgotten;
    }
  }

  /** The uncounted loss is nil exactly when no dequeue finds more than one retry ready. */
  lemma {:induction false} UncountedLossExactly(c: Config, ops: seq<Op>)
    ensures Run(c, ops).forgotten == [] <==> forall i :: 0 <= i < |ops| ==> !Forgets(c, ops, i)
  {
    if ops != [] {
      var n, init := |ops| - 1, ops[..|ops| - 1];
      UncountedLossExactly(c, init);
      LastForgets(c, ops);
      forall i | 0 <= i < n ensures Forgets(c, init, i) == Forgets(c, ops, i) {
        ForgetsBefore(c, ops, n, i);
      }
    }
  }

  /** A CRITICAL event can vanish: two events wait for a retry, one dequeue finds both ready,
      delivers the first, and no counter mentions the second. */
  lemma {:induction false} CriticalEventCanVanish(a: Event, b: Event, d: Event)
    ensures var t := Run(Config(Critical, 1), [Put(a, 0.0), Put(b, 0.0), Put(d, 0.0), Get(1.0)]);
            && t.delivered == [b] && t.queue.items == [a] && t.queue.retry == []
            && t.queue.dropped == 0 && t.forgotten == [d]
  {
    var c, ops := Config(Critical, 1), [Put(a, 0.0), Put(b, 0.0), Put(d, 0.0), Get(1.0)];
    assert ops[..3][..2][..1][..0] == [];
    assert ops[..3][..2][..1] == [Put(a, 0.0)];
    assert ops[..3][..2] == [Put(a, 0.0), Put(b, 0.0)];
    assert ops[..3] == [Put(a, 0.0), Put(b, 0.0), Put(d, 0.0)];
    var r1, r2 := Retry(b, 0.05, 1), Retry(d, 0.05, 1);
    assert Run(c, ops[..3][..2][..1]).queue.items == [a];
    assert Run(c, ops[..3][..2]).queue == Queue([a], [r1], 0, 0);
    assert Run(c, ops[..3]).queue == Queue([a], [r1, r2], 0, 0);
    assert [r1, r2][1..] == [r2] && [r2][1..] == [];
    assert Waiting([], 1.0) == [] && Ready([], 1.0) == [];
    assert Ready([r2], 1.0) == [r2] && Waiting([r2], 1.0) == [];
    assert Ready([r1, r2], 1.0) == [r1, r2] && Waiting([r1, r2], 1.0) == [];
  }

  // ----- bounds -----

  predicate Bounded(c: Config, q: Queue) {
    && (c.maxsize > 0 ==> |q.items| <= c.maxsize)
    && |q.retry| <= RETRY_LIMIT
    && (q.retry != [] ==> c.qos == Critical)
  }

  lemma {:induction false} ApplyStaysBounded(c: Config, t: Trace, op: Op)
    requires Bounded(c, t.queue)
    ensures Bounded(c, Apply(c, t, op).queue)
  {
  }

  lemma {:induction false} RunIsBounded(c: Config, ops: seq<Op>)
    ensures Bounded(c, Run(c, ops).queue)
  {
    if ops != [] {
      RunIsBounded(c, ops[..|ops| - 1]);
      ApplyStaysBounded(c, Run(c, ops[..|ops| - 1]), ops[|ops| - 1]);
    }
  }

  // ----- when a buffered event is retried, and when it is given up -----

  /** The times of the ticks among these operations. */
  function Ticks(ops: seq<Op>): seq<Time> {
    if ops == [] then []
    else Ticks(ops[..|ops| - 1]) + (if ops[|ops| - 1].Tick? then [ops[|ops| - 1].now] else [])
  }

  function TicksSince(ops: seq<Op>, j: nat): seq<Time>
    requires j < |ops|
  {
    Ticks(ops[j + 1..])
  }

  /** When the event of the j-th operation may be served from the buffer: 50 ms after its put, or 100 ms
      after its first tick, or 200 ms after its second. */
  function DueAt(ops: seq<Op>, j: nat): Time
    requires j < |ops| && |TicksSince(ops, j)| <= 2
  {
    var ticks := TicksSince(ops, j);
    if |ticks| == 0 then ops[j].now + 0.05 else if |ticks| == 1 then ticks[0] + 0.1 else ticks[1] + 0.2
  }

  /** This entry of the buffer comes from the j-th operation. */
  ghost predicate From(ops: seq<Op>, j: nat, r: Retry) {
    && j < |ops| && ops[j].Put? && r.event == ops[j].event
    && |TicksSince(ops, j)| <= 2 && r.due == DueAt(ops, j) && r.attempts == 1 + |TicksSince(ops, j)|
  }

  ghost predicate Ordered(at: seq<nat>) {
    forall i, k :: 0 <= i < k < |at| ==> at[i] < at[k]
  }

  ghost predicate Paired(ops: seq<Op>, at: seq<nat>, rs: seq<Retry>) {
    |at| == |rs| && forall k :: 0 <= k < |rs| ==> From(ops, at[k], rs[k])
  }

  /** The entries of the buffer come from the operations at these places, in order. */
  ghost predicate AllFrom(ops: seq<Op>, at: seq<nat>, rs: seq<Retry>) {
    Paired(ops, at, rs) && Ordered(at)
  }

  function SeenTicks(ops: seq<Op>, j: nat): nat {
    if j < |ops| then |TicksSince(ops, j)| else 0
  }

  function DueOf(ops: seq<Op>, j: nat): Time {
    if j < |ops| && |TicksSince(ops, j)| <= 2 then DueAt(ops, j) else 0.0
  }

  /** The places whose events are not due yet. */
  function NotDue(ops: seq<Op>, at: seq<nat>, now: Time): seq<nat> {
    if at == [] then [] else (if DueOf(ops, at[0]) > now then [at[0]] else []) + NotDue(ops, at[1..], now)
  }

  /** The places whose events have seen less than two ticks. */
  function Young(ops: seq<Op>, at: seq<nat>): seq<nat> {
    if at == [] then [] else (if SeenTicks(ops, at[0]) < 2 then [at[0]] else []) + Young(ops, at[1..])
  }

  /** The events, at these places, that have seen two ticks. */
  function GivenUp(ops: seq<Op>, at: seq<nat>): seq<Event> {
    if at == [] then []
    else (if at[0] < |ops| && ops[at[0]].Put? && SeenTicks(ops, at[0]) == 2 then [ops[at[0]].event] else [])
         + GivenUp(ops, at[1..])
  }

  lemma {:induction false} FromLater(ops: seq<Op>, op: Op, j: nat)
    requires j < |ops|
    ensures (ops + [op])[j] == ops[j]
    ensures TicksSince(ops + [op], j) == TicksSince(ops, j) + (if op.Tick? then [op.now] else [])
  {
    var rest := (ops + [op])[j + 1..];
    assert rest == ops[j + 1..] + [op];
    assert rest[..|rest| - 1] == ops[j + 1..];
  }

  lemma {:induction false} StaysFrom(ops: seq<Op>, op: Op, at: seq<nat>, rs: seq<Retry>)
    requires Paired(ops, at, rs) && !op.Tick?
    ensures Paired(ops + [op], at, rs)
  {
    forall k | 0 <= k < |rs| ensures From(ops + [op], at[k], rs[k]) {
      FromLater(ops, op, at[k]);
    }
  }

  lemma {:induction false} FirstFrom(ops: seq<Op>, at: seq<nat>, rs: seq<Retry>)
    requires Paired(ops, at, rs) && rs != []
    ensures From(ops, at[0], rs[0]) && Paired(ops, at[1..], rs[1..])
  {
  }

  lemma {:induction false} FromInFront(ops: seq<Op>, j: nat, r: Retry, at: seq<nat>, rs: seq<Retry>)
    requires From(ops, j, r) && Paired(ops, at, rs)
    ensures Paired(ops, [j] + at, [r] + rs)
  {
  }

  /** Serving what is due leaves, of the buffer, what is not. */
  lemma {:induction false} WaitingFrom(ops: seq<Op>, at: seq<nat>, rs: seq<Retry>, now: Time)
    requires Paired(ops, at, rs)
    ensures Paired(ops, NotDue(ops, at, now), Waiting(rs, now))
  {
    if rs != [] {
      FirstFrom(ops, at, rs);
      WaitingFrom(ops, at[1..], rs[1..], now);
      if rs[0].due > now {
        FromInFront(ops, at[0], rs[0], NotDue(ops, at[1..], now), Waiting(rs[1..], now));
      }
    }
  }

  lemma {:induction false} NotDueIsOrdered(ops: seq<Op>, at: seq<nat>, now: Time)
    requires Ordered(at)
    ensures Ordered(NotDue(ops, at, now))
    ensures forall j :: j in NotDue(ops, at, now) ==> j in at
  {
    if at != [] {
      NotDueIsOrdered(ops, at[1..], now);
      InFrontIsOrdered(at, NotDue(ops, at[1..], now));
    }
  }

  lemma {:induction false} InFrontIsOrdered(at: seq<nat>, some: seq<nat>)
    requires Ordered(at) && at != [] && Ordered(some) && forall j :: j in some ==> j in at[1..]
    ensures Ordered([at[0]] + some) && forall j :: j in [at[0]] + some ==> j in at
  {
    var more := [at[0]] + some;
    forall i, k | 0 <= i < k < |more| ensures more[i] < more[k] {
      assert more[k] == some[k - 1] && some[k - 1] in some;
      assert i > 0 ==> more[i] == some[i - 1];
    }
  }

  lemma {:induction false} YoungIsOrdered(ops: seq<Op>, at: seq<nat>)
    requires Ordered(at)
    ensures Ordered(Young(ops, at))
    ensures forall j :: j in Young(ops, at) ==> j in at
  {
    if at != [] {
      YoungIsOrdered(ops, at[1..]);
      InFrontIsOrdered(at, Young(ops, at[1..]));
    }
  }

  /** A tick postpones the entries that have seen less than two ticks before. */
  lemma {:induction false} PostponedFrom(ops: seq<Op>, at: seq<nat>, rs: seq<Retry>, now: Time)
    requires Paired(ops, at, rs)
    ensures Paired(ops + [Tick(now)], Young(ops, at), Postponed(rs, now))
  {
    if rs != [] {
      FirstFrom(ops, at, rs);
      PostponedFrom(ops, at[1..], rs[1..], now);
      if rs[0].attempts < MAX_RETRIES {
        FromLater(ops, Tick(now), at[0]);
        FromInFront(ops + [Tick(now)], at[0], Later(rs[0], now), Young(ops, at[1..]), Postponed(rs[1..], now));
      }
    }
  }

  /** And it gives up the others. */
  lemma {:induction false} ExhaustedFrom(ops: seq<Op>, at: seq<nat>, rs: seq<Retry>)
    requires Paired(ops, at, rs)
    ensures Events(Exhausted(rs)) == GivenUp(ops, at)
  {
    if rs != [] {
      FirstFrom(ops, at, rs);
      ExhaustedFrom(ops, at[1..], rs[1..]);
      var out := Exhausted(rs[1..]);
      assert Events([rs[0]] + out) == [rs[0].event] + Events(out);
    }
  }

  lemma {:induction false} PutFrom(ops: seq<Op>, e: Event, now: Time, was: seq<nat>, rs: seq<Retry>)
    requires AllFrom(ops, was, rs)
    ensures AllFrom(ops + [Put(e, now)], was + [|ops|], rs + [Retry(e, now + 0.05, 1)])
  {
    var all, at, more := ops + [Put(e, now)], was + [|ops|], rs + [Retry(e, now + 0.05, 1)];
    StaysFrom(ops, Put(e, now), was, rs);
    assert all[|ops| + 1..] == [];
    assert From(all, |ops|, Retry(e, now + 0.05, 1));
    forall k | 0 <= k < |more| ensures From(all, at[k], more[k]) {
      assert k < |rs| ==> at[k] == was[k] && more[k] == rs[k];
    }
    assert forall k :: 0 <= k < |was| ==> From(ops, was[k], rs[k]);
  }

  /** Where the entries of the buffer come from after one more operation on a queue of `n` entries. */
  function NextOrigins(c: Config, ops: seq<Op>, op: Op, was: seq<nat>, n: nat): seq<nat> {
    match op
    case Put(_, _) =>
      if c.qos != Critical || !c.Full(n) then was
      else if |was| < RETRY_LIMIT then was + [|ops|]
      else (was + [|ops|])[16..]
    case Get(now) => NotDue(ops, was, now)
    case Tick(_) => Young(ops, was)
  }

  function Origins(c: Config, ops: seq<Op>): seq<nat> {
    if ops == [] then []
    else
      var init := ops[..|ops| - 1];
      NextOrigins(c, init, ops[|ops| - 1], Origins(c, init), |Run(c, init).queue.items|)
  }

  /** In every run each buffered event comes from a put of its own, in the order of the puts, has seen at
      most two ticks since, and is due by the clock of its put or of its last tick. */
  lemma {:induction false} BufferedEventsAreTimed(c: Config, ops: seq<Op>)
    ensures AllFrom(ops, Origins(c, ops), Run(c, ops).queue.retry)
  {
    if ops != [] {
      var init, op := ops[..|ops| - 1], ops[|ops| - 1];
      var was, t := Origins(c, init), Run(c, init);
      BufferedEventsAreTimed(c, init);
      match op {
        case Put(e, now) => PutKeepsOrigins(c, init, e, now, was, t);
        case Get(now) => GetKeepsOrigins(c, init, now, was, t);
        case Tick(now) => TickKeepsOrigins(c, init, now, was, t);
      }
      assert ops == init + [op];
    }
  }

  lemma {:induction false} PutKeepsOrigins(c: Config, ops: seq<Op>, e: Event, now: Time, was: seq<nat>, t: Trace)
    requires AllFrom(ops, was, t.queue.retry)
    ensures var op := Put(e, now);
            AllFrom(ops + [op], NextOrigins(c, ops, op, was, |t.queue.items|), Apply(c, t, op).queue.retry)
  {
    StaysFrom(ops, Put(e, now), was, t.queue.retry);
    PutFrom(ops, e, now, was, t.queue.retry);
  }

  lemma {:induction false} GetKeepsOrigins(c: Config, ops: seq<Op>, now: Time, was: seq<nat>, t: Trace)
    requires AllFrom(ops, was, t.queue.retry)
    ensures AllFrom(ops + [Get(now)], NotDue(ops, was, now), TakeNext(t, now).queue.retry)
  {
    var rs := t.queue.retry;
    WaitingFrom(ops, was, rs, now);
    NotDueIsOrdered(ops, was, now);
    StaysFrom(ops, Get(now), NotDue(ops, was, now), Waiting(rs, now));
    if Ready(rs, now) == [] {
      NothingDue(rs, now);
    }
  }

  lemma {:induction false} TickKeepsOrigins(c: Config, ops: seq<Op>, now: Time, was: seq<nat>, t: Trace)
    requires AllFrom(ops, was, t.queue.retry)
    ensures AllFrom(ops + [Tick(now)], Young(ops, was), RetryTick(t, now).queue.retry)
  {
    PostponedFrom(ops, was, t.queue.retry, now);
    YoungIsOrdered(ops, was);
  }

  /** Where nothing is due, serving what is due takes nothing away. */
  lemma {:induction false} NothingDue(rs: seq<Retry>, now: Time)
    requires Ready(rs, now) == []
    ensures Waiting(rs, now) == rs
  {
    if rs != [] {
      NothingDue(rs[1..], now);
    }
  }

  /** So a tick discards an event of the buffer exactly when it is the third one since its put, and keeps the
      others, whatever has happened before. */
  lemma {:induction false} ThirdTickDiscards(c: Config, ops: seq<Op>, now: Time)
    ensures var at := Origins(c, ops);
            && AllFrom(ops, at, Run(c, ops).queue.retry)
            && Run(c, ops + [Tick(now)]).discarded == Run(c, ops).discarded + GivenUp(ops, at)
            && AllFrom(ops + [Tick(now)], Young(ops, at), Run(c, ops + [Tick(now)]).queue.retry)
  {
    BufferedEventsAreTimed(c, ops);
    RunSnoc(c, ops, Tick(now));
    ExhaustedFrom(ops, Origins(c, ops), Run(c, ops).queue.retry);
    PostponedFrom(ops, Origins(c, ops), Run(c, ops).queue.retry, now);
    YoungIsOrdered(ops, Origins(c, ops));
  }

  lemma {:induction false} FirstReady(rs: seq<Retry>, now: Time) returns (k: nat)
    ensures k <= |rs| && forall i :: 0 <= i < k ==> rs[i].due > now
    ensures if k < |rs| then rs[k].due <= now && Ready(rs, now) != [] && Ready(rs, now)[0] == rs[k] else Ready(rs, now) == []
  {
    k := 0;
    if rs != [] && rs[0].due > now {
      k := FirstReady(rs[1..], now);
      k := k + 1;
    }
  }

  /** A dequeue serves the first event of the buffer that is due, in the order of the puts (here the k-th),
      and only if none is due the head of the queue. */
  lemma {:induction false} DueEventsComeFirst(c: Config, ops: seq<Op>, now: Time) returns (k: nat)
    ensures var at := Origins(c, ops);
            && AllFrom(ops, at, Run(c, ops).queue.retry)
            && k <= |at| && (forall i :: 0 <= i < k ==> DueOf(ops, at[i]) > now)
            && var t, t' := Run(c, ops), Run(c, ops + [Get(now)]);
               if k < |at| then
                 && DueOf(ops, at[k]) <= now && at[k] < |ops| && ops[at[k]].Put?
                 && t'.delivered == t.delivered + [ops[at[k]].event] && t'.queue.items == t.queue.items
               else if t.queue.items != [] then
                 t'.delivered == t.delivered + [t.queue.items[0]] && t'.queue.items == t.queue.items[1..]
               else t'.delivered == t.delivered && t'.queue.items == []
    ensures AllFrom(ops + [Get(now)], NotDue(ops, Origins(c, ops), now), Run(c, ops + [Get(now)]).queue.retry)
  {
    var at, rs := Origins(c, ops), Run(c, ops).queue.retry;
    BufferedEventsAreTimed(c, ops);
    RunSnoc(c, ops, Get(now));
    GetKeepsOrigins(c, ops, now, at, Run(c, ops));
    k := FirstReady(rs, now);
    forall i | 0 <= i < |rs| ensures DueOf(ops, at[i]) == rs[i].due && at[i] < |ops| && ops[at[i]].Put? && ops[at[i]].event == rs[i].event {
      assert From(ops, at[i], rs[i]);
    }
  }

  /** Overflow of the buffer loses the sixteen events put first. */
  lemma {:induction false} OverflowLosesTheOldest(c: Config, ops: seq<Op>, e: Event, now: Time)
    requires c.qos == Critical && c.Full(|Run(c, ops).queue.items|) && |Run(c, ops).queue.retry| == RETRY_LIMIT
    ensures var at, was, lost := Origins(c, ops), Run(c, ops).discarded, Run(c, ops + [Put(e, now)]).discarded;
            && AllFrom(ops, at, Run(c, ops).queue.retry)
            && |lost| == |was| + 16
            && forall i :: 0 <= i < 16 ==> at[i] < |ops| && ops[at[i]].Put? && lost[|was| + i] == ops[at[i]].event
  {
    var at, rs := Origins(c, ops), Run(c, ops).queue.retry;
    BufferedEventsAreTimed(c, ops);
    RunSnoc(c, ops, Put(e, now));
    forall i | 0 <= i < 16 ensures From(ops, at[i], rs[i]) {
    }
    assert (rs + [Retry(e, now + RETRY_DELAYS[0], 1)])[..16] == rs[..16];
  }

  // ----- what the caller of put is told -----

  predicate Accepted(c: Config, q: Queue, e: Event) {
    c.qos == Critical || (c.qos == Important && CoalesceKey(e).Some?) || !c.Full(|q.items|)
  }

  /** `put_nowait` returns True for an event that is dropped at that moment in exactly one case:
      a keyed event, new to a full IMPORTANT queue. */
  lemma {:induction false} AcceptedThoughDropped(c: Config, t: Trace, e: Event, now: Time)
    ensures var t' := Apply(c, t, Put(e, now));
            (Accepted(c, t.queue, e) && t'.discarded == t.discarded + [e])
            <==> c.qos == Important && c.Full(|t.queue.items|) && CoalesceKey(e).Some?
                 && IndexOfKey(t.queue.items, CoalesceKey(e).value) == |t.queue.items|
  {
    assert |(t.discarded + [e])| == |t.discarded| + 1;
  }

  /** Nothing is lost or delayed while there is room: the event joins the end of the queue, or takes the
      place of the queued event of its key. A maxsize that is not positive always leaves room. */
  lemma {:induction false} RoomMeansQueued(c: Config, t: Trace, e: Event, now: Time)
    requires c.maxsize <= 0 || |t.queue.items| < c.maxsize
    ensures var q, t' := t.queue, Apply(c, t, Put(e, now));
            && t'.discarded == t.discarded && t'.queue.retry == q.retry && t'.queue.dropped == q.dropped
            && (t'.queue.items == q.items + [e]
                || exists i :: 0 <= i < |q.items| && t'.queue.items == q.items[i := e] && c.qos == Important
                               && CoalesceKey(e).Some? && CoalesceKey(q.items[i]) == CoalesceKey(e))
  {
    if c.qos == Important && CoalesceKey(e).Some? {
      var i := IndexOfKey(t.queue.items, CoalesceKey(e).value);
      assert i < |t.queue.items| ==> Apply(c, t, Put(e, now)).queue.items == t.queue.items[i := e];
    }
  }

  // ----- BEST_EFFORT is a FIFO with tail drop -----

  ghost function Admitted(c: Config, ops: seq<Op>): seq<Event> {
    if ops == [] then []
    else
      var init, op := ops[..|ops| - 1], ops[|ops| - 1];
      Admitted(c, init) + (if op.Put? && Accepted(c, Run(c, init).queue, op.event) then [op.event] else [])
  }

  lemma {:induction false} BestEffortIsFifo(c: Config, ops: seq<Op>)
    requires c.qos == BestEffort
    ensures Run(c, ops).delivered + Run(c, ops).queue.items == Admitted(c, ops)
  {
    if ops != [] {
      var init := ops[..|ops| - 1];
      BestEffortIsFifo(c, init);
      RunIsBounded(c, init);
    }
  }

  // ----- IMPORTANT refines an insertion-ordered conflating map -----

  /** A keyed event lives in the slot of its key, any other in a slot of its own. */
  datatype Slot = Keyed(key: string) | Single(id: nat)

  datatype Conflated = Conflated(order: seq<Slot>, value: map<Slot, Event>, next: nat, out: seq<Event>)

  function SlotOf(e: Event, ticket: nat): Slot {
    match CoalesceKey(e) case Some(k) => Keyed(k) case None => Single(ticket)
  }

  function ConflateStep(c: Config, m: Conflated, op: Op): Conflated {
    match op
    case Put(e, _) =>
      var slot := SlotOf(e, m.next);
      if slot in m.value then m.(value := m.value[slot := e], next := m.next + 1)
      else if c.Full(|m.order|) then m.(next := m.next + 1)
      else m.(order := m.order + [slot], value := m.value[slot := e], next := m.next + 1)
    case Get(_) =>
      if m.order == [] || m.order[0] !in m.value then m
      else Conflated(m.order[1..], m.value - {m.order[0]}, m.next, m.out + [m.value[m.order[0]]])
    case Tick(_) => m
  }

  function Conflate(c: Config, ops: seq<Op>): Conflated {
    if ops == [] then Conflated([], map[], 0, []) else ConflateStep(c, Conflate(c, ops[..|ops| - 1]), ops[|ops| - 1])
  }

  /** The queue lists the map's values in insertion order, one entry per slot. */
  ghost predicate Refines(q: Queue, m: Conflated) {
    && |q.items| == |m.order|
    && (forall i :: 0 <= i < |m.order| ==> m.order[i] in m.value && m.value[m.order[i]] == q.items[i])
    && (forall s :: s in m.value ==> s in m.order)
    && (forall i, j :: 0 <= i < j < |m.order| ==> m.order[i] != m.order[j])
    && (forall i :: 0 <= i < |m.order| ==>
          match CoalesceKey(q.items[i])
          case Some(k) => m.order[i] == Keyed(k)
          case None => m.order[i].Single? && m.order[i].id < m.next)
  }

  lemma {:induction false} SlotIsIndexed(q: Queue, m: Conflated, key: string)
    requires Refines(q, m)
    ensures var i := IndexOfKey(q.items, key);
            Keyed(key) in m.value <==> i < |m.order| && m.order[i] == Keyed(key)
    ensures IndexOfKey(q.items, key) < |q.items| ==> Keyed(key) in m.value
  {
    var i := IndexOfKey(q.items, key);
    if i < |q.items| {
      assert m.order[i] == Keyed(key);
    }
  }

  lemma {:induction false} ReplaceRefines(q: Queue, m: Conflated, i: nat, e: Event)
    requires Refines(q, m) && i < |q.items| && m.order[i].Keyed? && CoalesceKey(e) == Some(m.order[i].key)
    ensures Refines(q.(items := q.items[i := e], coalesced := q.coalesced + 1),
                    m.(value := m.value[m.order[i] := e], next := m.next + 1))
  {
  }

  lemma {:induction false} AppendRefines(q: Queue, m: Conflated, e: Event)
    requires Refines(q, m) && SlotOf(e, m.next) !in m.value
    ensures Refines(q.(items := q.items + [e]),
                    m.(order := m.order + [SlotOf(e, m.next)], value := m.value[SlotOf(e, m.next) := e], next := m.next + 1))
  {
  }

  lemma {:induction false} PutRefines(c: Config, t: Trace, m: Conflated, e: Event, now: Time)
    requires c.qos == Important && Refines(t.queue, m)
    ensures Refines(Apply(c, t, Put(e, now)).queue, ConflateStep(c, m, Put(e, now)))
  {
    var q, slot := t.queue, SlotOf(e, m.next);
    if slot.Keyed? {
      SlotIsIndexed(q, m, slot.key);
    }
    if slot in m.value {
      ReplaceRefines(q, m, IndexOfKey(q.items, slot.key), e);
    } else if !c.Full(|q.items|) {
      AppendRefines(q, m, e);
    }
  }

  lemma {:induction false} TailHoldsTheRest<T>(s: seq<T>, x: T)
    requires s != [] && x in s && x != s[0]
    ensures x in s[1..]
  {
    assert s == [s[0]] + s[1..];
  }

  lemma {:induction false} DropFirstRefines(q: Queue, m: Conflated, out: seq<Event>)
    requires Refines(q, m) && m.order != []
    ensures Refines(q.(items := q.items[1..]), Conflated(m.order[1..], m.value - {m.order[0]}, m.next, out))
  {
    forall s | s in m.value && s != m.order[0] ensures s in m.order[1..] {
      TailHoldsTheRest(m.order, s);
    }
  }

  lemma {:induction false} GetRefines(c: Config, t: Trace, m: Conflated, now: Time)
    requires t.queue.retry == [] && Refines(t.queue, m)
    ensures Refines(TakeNext(t, now).queue, ConflateStep(c, m, Get(now)))
    ensures t.delivered == m.out ==> TakeNext(t, now).delivered == ConflateStep(c, m, Get(now)).out
  {
    if m.order != [] {
      DropFirstRefines(t.queue, m, m.out + [m.value[m.order[0]]]);
    }
  }

  /** Over every run of puts, gets and ticks the IMPORTANT queue is the conflating map in insertion
      order, and delivers what the map would: one entry per key, replaced in place, and a new key
      on a full queue loses only itself. */
  lemma {:induction false} ImportantIsConflatingMap(c: Config, ops: seq<Op>)
    requires c.qos == Important
    ensures Refines(Run(c, ops).queue, Conflate(c, ops))
    ensures Run(c, ops).delivered == Conflate(c, ops).out
  {
    if ops != [] {
      var init, op := ops[..|ops| - 1], ops[|ops| - 1];
      ImportantIsConflatingMap(c, init);
      RunIsBounded(c, init);
      match op
      case Put(e, now) => PutRefines(c, Run(c, init), Conflate(c, init), e, now);
      case Get(now) => GetRefines(c, Run(c, init), Conflate(c, init), now);
      case Tick(_) =>
    }
  }

  /** The last event put under `key`. */
  function Newest(ops: seq<Op>, key: string): Option<Event> {
    if ops == [] then None
    else
      var op := ops[|ops| - 1];
      if op.Put? && CoalesceKey(op.event) == Some(key) then Some(op.event) else Newest(ops[..|ops| - 1], key)
  }

  lemma {:induction false} SlotsHoldTheNewest(c: Config, ops: seq<Op>, key: string)
    ensures Keyed(key) in Conflate(c, ops).value ==> Some(Conflate(c, ops).value[Keyed(key)]) == Newest(ops, key)
    ensures forall s :: s in Conflate(c, ops).value && s.Single? ==> CoalesceKey(Conflate(c, ops).value[s]).None?
  {
    if ops != [] {
      SlotsHoldTheNewest(c, ops[..|ops| - 1], key);
    }
  }

  /** A consumer of an IMPORTANT queue never sees a stale value: every queued keyed event is the
      newest ever put under its key, and no key is queued twice. */
  lemma {:induction false} QueuedEventIsNewest(c: Config, ops: seq<Op>, i: nat)
    requires c.qos == Important && i < |Run(c, ops).queue.items|
    requires CoalesceKey(Run(c, ops).queue.items[i]).Some?
    ensures var items, key := Run(c, ops).queue.items, CoalesceKey(Run(c, ops).queue.items[i]);
            && Some(items[i]) == Newest(ops, key.value)
            && forall j :: 0 <= j < |items| && j != i ==> CoalesceKey(items[j]) != key
  {
    ImportantIsConflatingMap(c, ops);
    SlotsHoldTheNewest(c, ops, CoalesceKey(Run(c, ops).queue.items[i]).value);
  }
}
