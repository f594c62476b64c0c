/** Fan-out of one published event to the private queue of every subscriber, with a bounded buffer
    for what is published before the first one (pwnproxy/shared/hooks.py). */
module HookBus {
  import opened Wrappers
  import opened QoS
  import opened QoSQueue
  import opened Text
  import Seqs

  type Data = map<string, string>

  const PENDING_CAP := 200

  /** HOOKBUS_QOS with its default (pwnproxy/shared/bus/topics.py). */
  function ChannelQoS(channel: string): QoSClass {
    if channel in {"finding.created", "job.state_changed", "scope.updated", "crawl.started", "crawl.failed",
                   "crawl.completed", "bruteforce.started", "bruteforce.completed", "bruteforce.failed",
                   "scan.started", "scan.completed", "finding", "error"} then Critical
    else if channel in {"autoscan.started", "autoscan.completed", "crawl.progress", "bruteforce.progress",
                        "triage.updated", "flow_stored"} then Important
    else BestEffort
  }

  // ----- one channel -----

  datatype ChannelOp = Publish(data: Data) | Register

  /** What waits for a first subscriber, and what each subscriber has been offered so far. */
  datatype Channel = Channel(pending: seq<Data>, streams: seq<seq<Data>>)

  function Newest(s: seq<Data>, n: nat): seq<Data> {
    if |s| <= n then s else s[|s| - n..]
  }

  function ToAll(streams: seq<seq<Data>>, d: Data): (r: seq<seq<Data>>)
    ensures |r| == |streams|
  {
    seq(|streams|, i requires 0 <= i < |streams| => streams[i] + [d])
  }

  function ChannelStep(c: Channel, op: ChannelOp): Channel {
    match op
    case Publish(d) =>
      if c.streams == [] then c.(pending := Newest(c.pending + [d], PENDING_CAP))
      else c.(streams := ToAll(c.streams, d))
    case Register => Channel([], c.streams + [c.pending])
  }

  function ChannelRun(ops: seq<ChannelOp>): Channel {
    if ops == [] then Channel([], []) else ChannelStep(ChannelRun(ops[..|ops| - 1]), ops[|ops| - 1])
  }

  function Published(ops: seq<ChannelOp>): seq<Data> {
    if ops == [] then []
    else Published(ops[..|ops| - 1]) + (if ops[|ops| - 1].Publish? then [ops[|ops| - 1].data] else [])
  }

  /** When the r-th subscriber registered. */
  function Registrations(ops: seq<ChannelOp>): (at: seq<nat>)
    ensures forall r :: 0 <= r < |at| ==> at[r] < |ops|
  {
    if ops == [] then []
    else Registrations(ops[..|ops| - 1]) + (if ops[|ops| - 1].Register? then [|ops| - 1] else [])
  }

  /** These are all the registrations, each once, in order. */
  lemma {:induction false} RegistrationsAreAll(ops: seq<ChannelOp>)
    ensures var at := Registrations(ops);
            && (forall r, q :: 0 <= r < q < |at| ==> at[r] < at[q])
            && forall i :: 0 <= i < |ops| ==> (i in at <==> ops[i].Register?)
  {
    if ops != [] {
      RegistrationsAreAll(ops[..|ops| - 1]);
    }
  }

  /** What the subscriber that registered at `at` has been offered: for the first one the newest
      events from before it came, capped, then for everyone each event published since. */
  function Expected(ops: seq<ChannelOp>, at: nat, first: bool): seq<Data>
    requires at < |ops|
  {
    (if first then Newest(Published(ops[..at]), PENDING_CAP) else []) + Published(ops[at..])
  }

  lemma {:induction false} PublishedSnoc(ops: seq<ChannelOp>, at: nat)
    requires at < |ops| - 1
    ensures Published(ops[at..])
         == Published(ops[..|ops| - 1][at..]) + (if ops[|ops| - 1].Publish? then [ops[|ops| - 1].data] else [])
  {
    var tail := ops[at..];
    assert tail[..|tail| - 1] == ops[..|ops| - 1][at..];
    assert tail[|tail| - 1] == ops[|ops| - 1];
  }

  lemma {:induction false} ExpectedStep(ops: seq<ChannelOp>, at: nat, first: bool)
    requires at < |ops| - 1
    ensures Expected(ops, at, first)
         == Expected(ops[..|ops| - 1], at, first) + (if ops[|ops| - 1].Publish? then [ops[|ops| - 1].data] else [])
  {
    PublishedSnoc(ops, at);
    assert ops[..|ops| - 1][..at] == ops[..at];
  }

  ghost predicate Exact(ops: seq<ChannelOp>, c: Channel) {
    var at := Registrations(ops);
    && |c.streams| == |at|
    && c.pending == (if at == [] then Newest(Published(ops), PENDING_CAP) else [])
    && forall r :: 0 <= r < |at| ==> c.streams[r] == Expected(ops, at[r], r == 0)
  }

  lemma {:induction false} NewestAgain(s: seq<Data>, d: Data, n: nat)
    ensures Newest(Newest(s, n) + [d], n) == Newest(s + [d], n)
  {
  }

  lemma {:induction false} PublishIsExact(ops: seq<ChannelOp>, c: Channel)
    requires ops != [] && ops[|ops| - 1].Publish? && Exact(ops[..|ops| - 1], c)
    ensures Exact(ops, ChannelStep(c, ops[|ops| - 1]))
  {
    var at, d := Registrations(ops), ops[|ops| - 1].data;
    assert at == Registrations(ops[..|ops| - 1]);
    NewestAgain(Published(ops[..|ops| - 1]), d, PENDING_CAP);
    forall r | 0 <= r < |at| ensures ChannelStep(c, ops[|ops| - 1]).streams[r] == Expected(ops, at[r], r == 0) {
      ExpectedStep(ops, at[r], r == 0);
    }
  }

  /** A subscriber that has just registered has been offered the backlog, if it is the first. */
  lemma {:induction false} NewcomerIsExact(ops: seq<ChannelOp>, first: bool)
    requires ops != [] && ops[|ops| - 1].Register?
    ensures Expected(ops, |ops| - 1, first) == if first then Newest(Published(ops[..|ops| - 1]), PENDING_CAP) else []
  {
    assert ops[|ops| - 1..] == [Register] && [Register][..0] == [];
    assert Published([]) == [] && Published([Register]) == [];
  }

  lemma {:induction false} RegisterIsExact(ops: seq<ChannelOp>, c: Channel)
    requires ops != [] && ops[|ops| - 1].Register? && Exact(ops[..|ops| - 1], c)
    ensures Exact(ops, ChannelStep(c, ops[|ops| - 1]))
  {
    var n, at := |ops| - 1, Registrations(ops[..|ops| - 1]);
    assert Registrations(ops) == at + [n];
    forall r | 0 <= r <= |at| ensures ChannelStep(c, Register).streams[r] == Expected(ops, (at + [n])[r], r == 0) {
      if r < |at| {
        ExpectedStep(ops, at[r], r == 0);
      } else {
        NewcomerIsExact(ops, r == 0);
      }
    }
  }

  /** For every run of publishes and registrations: nothing is pending once there is a subscriber,
      the pending buffer is the newest `PENDING_CAP` events before that, and every subscriber is
      offered exactly its expected stream. */
  lemma {:induction false} StreamsAreExact(ops: seq<ChannelOp>)
    ensures var at, c := Registrations(ops), ChannelRun(ops);
            && |c.streams| == |at|
            && c.pending == (if at == [] then Newest(Published(ops), PENDING_CAP) else [])
            && forall r :: 0 <= r < |at| ==> c.streams[r] == Expected(ops, at[r], r == 0)
  {
    if ops != [] {
      var init := ops[..|ops| - 1];
      StreamsAreExact(init);
      if ops[|ops| - 1].Publish? {
        PublishIsExact(ops, ChannelRun(init));
      } else {
        RegisterIsExact(ops, ChannelRun(init));
      }
    }
  }

  lemma {:induction false} PublishedSplit(ops: seq<ChannelOp>, at: nat)
    requires at <= |ops|
    ensures Published(ops) == Published(ops[..at]) + Published(ops[at..])
  {
    if at == |ops| {
      assert ops[..at] == ops && ops[at..] == [];
    } else {
      var init := ops[..|ops| - 1];
      PublishedSplit(init, at);
      assert init[..at] == ops[..at] && ops[at..][..|ops| - at - 1] == init[at..];
      Seqs.AppendAssoc(Published(ops[..at]), Published(init[at..]), if ops[|ops| - 1].Publish? then [ops[|ops| - 1].data] else []);
    }
  }

  /** From which event on a subscriber that registers after `n` events is offered them. */
  function FirstOffered(n: nat, first: bool): nat {
    if !first then n else if n <= 200 then 0 else n - 200
  }

  /** So every stream is an end of what was published: from 200 events before its registration for the first
      subscriber, or from all there were, and from its registration for the others. */
  lemma {:induction false} StreamsAreEnds(ops: seq<ChannelOp>, r: nat)
    requires r < |Registrations(ops)|
    ensures var n, all := |Published(ops[..Registrations(ops)[r]])|, Published(ops);
            && r < |ChannelRun(ops).streams| && n <= |all|
            && ChannelRun(ops).streams[r] == all[FirstOffered(n, r == 0)..]
  {
    StreamsAreExact(ops);
    var at := Registrations(ops)[r];
    PublishedSplit(ops, at);
    var before, since := Published(ops[..at]), Published(ops[at..]);
    EndOf(before, since, FirstOffered(|before|, r == 0));
    assert before[|before|..] == [] && before[0..] == before;
  }

  /** And what waits for a first subscriber are the newest 200 events. */
  lemma {:induction false} PendingIsNewest(ops: seq<ChannelOp>)
    ensures var all := Published(ops);
            ChannelRun(ops).pending == if Registrations(ops) != [] then [] else all[FirstOffered(|all|, true)..]
  {
    StreamsAreExact(ops);
    assert Published(ops)[0..] == Published(ops);
  }

  lemma {:induction false} EndOf(a: seq<Data>, b: seq<Data>, k: nat)
    requires k <= |a|
    ensures (a + b)[k..] == a[k..] + b
  {
  }

  lemma {:induction false} ChannelRunSnoc(h: seq<ChannelOp>, op: ChannelOp)
    ensures ChannelRun(h + [op]) == ChannelStep(ChannelRun(h), op)
  {
    assert (h + [op])[..|h|] == h;
  }

  // ----- replaying the pending buffer into a queue -----

  function Replay(channel: string, pending: seq<Data>, now: Time): (ops: seq<Op>)
    ensures |ops| == |pending|
  {
    seq(|pending|, i requires 0 <= i < |pending| => Put(Event(channel, pending[i]), now))
  }

  function Payloads(channel: string, pending: seq<Data>): (es: seq<Event>)
    ensures |es| == |pending|
  {
    seq(|pending|, i requires 0 <= i < |pending| => Event(channel, pending[i]))
  }

  lemma {:induction false} ReplaySnoc(channel: string, pending: seq<Data>, now: Time)
    requires pending != []
    ensures Replay(channel, pending, now)[..|pending| - 1] == Replay(channel, pending[..|pending| - 1], now)
    ensures Payloads(channel, pending)[..|pending| - 1] == Payloads(channel, pending[..|pending| - 1])
  {
  }

  /** A queue that never fills keeps the whole replay, in order, and loses nothing; in particular a
      CRITICAL channel does, because the buffer is capped below its capacity. */
  lemma {:induction false} ReplayFits(c: Config, channel: string, pending: seq<Data>, now: Time)
    requires c.qos == Critical && |pending| <= c.maxsize
    ensures Run(c, Replay(channel, pending, now)) == START.(queue := EMPTY.(items := Payloads(channel, pending)))
  {
    if pending != [] {
      ReplaySnoc(channel, pending, now);
      ReplayFits(c, channel, pending[..|pending| - 1], now);
      assert Payloads(channel, pending) == Payloads(channel, pending[..|pending| - 1]) + [Event(channel, pending[|pending| - 1])];
    }
  }

  /** How many of `n` entries a queue of this configuration holds. */
  function Kept(c: Config, n: nat): nat {
    if 0 < c.maxsize < n then c.maxsize else n
  }

  /** The channels whose events carry a coalesce key. */
  predicate HasKey(channel: string) {
    Contains(channel, "progress") || channel == "triage.updated"
  }

  /** A channel that drops at the tail, BEST_EFFORT or IMPORTANT without keys, keeps the oldest events
      of the replay that fit, not the newest. */
  lemma {:induction false} ReplayKeepsOldest(c: Config, channel: string, pending: seq<Data>, now: Time)
    requires c.qos == BestEffort || (c.qos == Important && !HasKey(channel))
    ensures var kept, q := Kept(c, |pending|), Run(c, Replay(channel, pending, now)).queue;
            q.items == Payloads(channel, pending)[..kept] && q.dropped == |pending| - kept && q.coalesced == 0
  {
    if pending != [] {
      ReplaySnoc(channel, pending, now);
      ReplayKeepsOldest(c, channel, pending[..|pending| - 1], now);
    }
  }

  lemma {:induction false} HeadIsInside(s: string, sub: string)
    requires sub != ""
    ensures Contains(s, sub) ==> sub[0] in s
  {
    ContainsExactly(s, sub);
    if i: nat :| StandsAt(s, sub, i) {
      assert s[i] == s[i..i + |sub|][0];
    }
  }

  /** With the shipped sizes a full backlog survives its replay whole on a CRITICAL channel, down to its
      oldest 128 on an IMPORTANT one without keys, down to its oldest 64 on a BEST_EFFORT one. */
  lemma {:induction false} ShippedReplays(qos: QoSClass, channel: string, pending: seq<Data>, now: Time)
    requires |pending| <= 200 && (qos == Important ==> !HasKey(channel))
    ensures var n := |pending|;
            var kept := match qos
              case Critical => n
              case Important => if n <= 128 then n else 128
              case BestEffort => if n <= 64 then n else 64;
            Run(Config(qos, DefaultMaxsize(qos)), Replay(channel, pending, now)).queue.items == Payloads(channel, pending)[..kept]
  {
    var c := Config(qos, DefaultMaxsize(qos));
    if qos == Critical {
      ReplayFits(c, channel, pending, now);
    } else {
      ReplayKeepsOldest(c, channel, pending, now);
    }
  }

  /** Stored flows are replayed on an IMPORTANT channel without keys. */
  lemma {:induction false} StoredFlowsHaveNoKey(channel: string)
    requires channel == "flow_stored"
    ensures !HasKey(channel)
  {
    HeadIsInside(channel, "progress");
  }

  function KeyOf(channel: string, d: Data): string
    requires HasKey(channel)
  {
    CoalesceKey(Event(channel, d)).value
  }

  /** The keys of some payloads, in the order in which they first appear. */
  function Keys(channel: string, ds: seq<Data>): (ks: seq<string>)
    requires HasKey(channel)
    ensures forall i, j :: 0 <= i < j < |ks| ==> ks[i] != ks[j]
  {
    if ds == [] then []
    else
      var ks, k := Keys(channel, ds[..|ds| - 1]), KeyOf(channel, ds[|ds| - 1]);
      if k in ks then ks else ks + [k]
  }

  /** The newest payload under a key. */
  function LatestUnder(channel: string, ds: seq<Data>, key: string): Option<Data>
    requires HasKey(channel)
  {
    if ds == [] then None
    else if KeyOf(channel, ds[|ds| - 1]) == key then Some(ds[|ds| - 1])
    else LatestUnder(channel, ds[..|ds| - 1], key)
  }

  /** How many payloads have none of these keys. */
  function Without(channel: string, ds: seq<Data>, ks: seq<string>): nat
    requires HasKey(channel)
  {
    if ds == [] then 0
    else Without(channel, ds[..|ds| - 1], ks) + (if KeyOf(channel, ds[|ds| - 1]) in ks then 0 else 1)
  }

  lemma {:induction false} KeysLeaveNoneOut(channel: string, ds: seq<Data>, ks: seq<string>)
    requires HasKey(channel) && Keys(channel, ds) <= ks
    ensures Without(channel, ds, ks) == 0
  {
    if ds != [] {
      var all, k := Keys(channel, ds), KeyOf(channel, ds[|ds| - 1]);
      KeysLeaveNoneOut(channel, ds[..|ds| - 1], ks);
      var i :| 0 <= i < |all| && all[i] == k;
      assert ks[i] == k;
    }
  }

  /** The queue holds the newest payload of each of the first keys. */
  ghost predicate HoldsLatest(channel: string, ds: seq<Data>, items: seq<Event>) {
    HasKey(channel) &&
    var ks := Keys(channel, ds);
    && |items| <= |ks|
    && forall i :: 0 <= i < |items| ==> items[i].topic == channel && LatestUnder(channel, ds, ks[i]) == Some(items[i].data)
  }

  lemma {:induction false} LatestHasKey(channel: string, ds: seq<Data>, key: string)
    requires HasKey(channel) && LatestUnder(channel, ds, key).Some?
    ensures KeyOf(channel, LatestUnder(channel, ds, key).value) == key
  {
    if KeyOf(channel, ds[|ds| - 1]) != key {
      LatestHasKey(channel, ds[..|ds| - 1], key);
    }
  }

  lemma {:induction false} ItemsFollowKeys(channel: string, ds: seq<Data>, items: seq<Event>)
    requires HoldsLatest(channel, ds, items)
    ensures forall i :: 0 <= i < |items| ==> CoalesceKey(items[i]) == Some(Keys(channel, ds)[i])
  {
    forall i | 0 <= i < |items| ensures CoalesceKey(items[i]) == Some(Keys(channel, ds)[i]) {
      LatestHasKey(channel, ds, Keys(channel, ds)[i]);
    }
  }

  /** What a replay leaves in the queue: the newest payload of each of the first keys that fit, in the
      order in which the keys first appeared; every event under one of these keys is kept or coalesced,
      and exactly the others are dropped. */
  ghost predicate ReplayedAs(c: Config, channel: string, ds: seq<Data>, q: Queue) {
    && HoldsLatest(channel, ds, q.items)
    && |q.items| == Kept(c, |Keys(channel, ds)|)
    && q.dropped == Without(channel, ds, Keys(channel, ds)[..|q.items|])
    && q.coalesced == |ds| - |q.items| - q.dropped
  }

  lemma {:induction false} OneMorePayload(channel: string, ds: seq<Data>, d: Data)
    requires HasKey(channel)
    ensures var ks, k := Keys(channel, ds), KeyOf(channel, d);
            && Keys(channel, ds + [d]) == (if k in ks then ks else ks + [k])
            && (forall key :: LatestUnder(channel, ds + [d], key) == if key == k then Some(d) else LatestUnder(channel, ds, key))
            && forall s :: Without(channel, ds + [d], s) == Without(channel, ds, s) + (if k in s then 0 else 1)
  {
    assert (ds + [d])[..|ds|] == ds;
  }

  lemma {:induction false} ReplaceUnderKey(c: Config, channel: string, ds: seq<Data>, q: Queue, d: Data, i: nat)
    requires ReplayedAs(c, channel, ds, q) && i < |q.items| && Keys(channel, ds)[i] == KeyOf(channel, d)
    ensures ReplayedAs(c, channel, ds + [d], q.(items := q.items[i := Event(channel, d)], coalesced := q.coalesced + 1))
  {
    OneMorePayload(channel, ds, d);
    var keys, items := Keys(channel, ds), q.items[i := Event(channel, d)];
    assert keys[..|q.items|][i] == KeyOf(channel, d) && keys[i] in keys;
    forall j | 0 <= j < |items| ensures items[j].topic == channel && LatestUnder(channel, ds + [d], keys[j]) == Some(items[j].data) {
      assert j != i ==> items[j] == q.items[j] && keys[j] != keys[i];
    }
  }

  lemma {:induction false} DropNewKey(c: Config, channel: string, ds: seq<Data>, q: Queue, d: Data)
    requires ReplayedAs(c, channel, ds, q) && c.Full(|q.items|)
    requires KeyOf(channel, d) !in Keys(channel, ds)[..|q.items|]
    ensures ReplayedAs(c, channel, ds + [d], q.(dropped := q.dropped + 1))
  {
    OneMorePayload(channel, ds, d);
    assert Keys(channel, ds + [d])[..|q.items|] == Keys(channel, ds)[..|q.items|];
    forall i | 0 <= i < |q.items| ensures Keys(channel, ds)[i] != KeyOf(channel, d) {
      assert Keys(channel, ds)[..|q.items|][i] == Keys(channel, ds)[i];
    }
  }

  lemma {:induction false} AppendNewKey(c: Config, channel: string, ds: seq<Data>, q: Queue, d: Data)
    requires ReplayedAs(c, channel, ds, q) && !c.Full(|q.items|)
    requires KeyOf(channel, d) !in Keys(channel, ds)[..|q.items|]
    ensures ReplayedAs(c, channel, ds + [d], q.(items := q.items + [Event(channel, d)]))
  {
    OneMorePayload(channel, ds, d);
    var keys, more := Keys(channel, ds), Keys(channel, ds + [d]);
    assert keys[..|q.items|] == keys && more == keys + [KeyOf(channel, d)] && more[..|more|] == more;
    KeysLeaveNoneOut(channel, ds, keys);
    KeysLeaveNoneOut(channel, ds, more);
    var items := q.items + [Event(channel, d)];
    forall i | 0 <= i < |items| ensures LatestUnder(channel, ds + [d], more[i]) == Some(items[i].data) && items[i].topic == channel {
      assert i < |keys| ==> more[i] == keys[i] && items[i] == q.items[i];
    }
  }

  lemma {:induction false} PutUnderKey(c: Config, channel: string, ds: seq<Data>, t: Trace, d: Data, now: Time)
    requires c.qos == Important && ReplayedAs(c, channel, ds, t.queue)
    ensures ReplayedAs(c, channel, ds + [d], Apply(c, t, Put(Event(channel, d), now)).queue)
  {
    var q, k := t.queue, KeyOf(channel, d);
    var i := IndexOfKey(q.items, k);
    ItemsFollowKeys(channel, ds, q.items);
    if i < |q.items| {
      ReplaceUnderKey(c, channel, ds, q, d, i);
    } else {
      assert forall j :: 0 <= j < |q.items| ==> CoalesceKey(q.items[j]) != Some(k);
      if c.Full(|q.items|) {
        DropNewKey(c, channel, ds, q, d);
      } else {
        AppendNewKey(c, channel, ds, q, d);
      }
    }
  }

  /** An IMPORTANT channel whose events carry keys keeps the newest payload of each of the first keys. */
  lemma {:induction false} ReplayConflates(c: Config, channel: string, pending: seq<Data>, now: Time)
    requires c.qos == Important && HasKey(channel)
    ensures ReplayedAs(c, channel, pending, Run(c, Replay(channel, pending, now)).queue)
  {
    if pending != [] {
      var init, d := pending[..|pending| - 1], pending[|pending| - 1];
      ReplaySnoc(channel, pending, now);
      ReplayConflates(c, channel, init, now);
      PutUnderKey(c, channel, init, Run(c, Replay(channel, init, now)), d, now);
      assert pending == init + [d];
    }
  }

  // ----- the bus -----

  function PayloadsOf(es: seq<Event>): (ds: seq<Data>)
    ensures |ds| == |es|
  {
    seq(|es|, i requires 0 <= i < |es| => es[i].data)
  }

  /** What a subscriber has been offered, whatever it has consumed since. */
  ghost function Offered(q: QoSClassifiedQueue): seq<Data>
    reads q
  {
    PayloadsOf(Puts(q.trace))
  }

  lemma {:induction false} OfferedOne(trace: seq<Op>, op: Op)
    ensures Puts(trace + [op]) == Puts(trace) + (if op.Put? then [op.event] else [])
    ensures PayloadsOf(Puts(trace + [op])) == PayloadsOf(Puts(trace)) + (if op.Put? then [op.event.data] else [])
  {
    assert (trace + [op])[..|trace|] == trace;
  }

  lemma {:induction false} OfferedReplay(channel: string, pending: seq<Data>, now: Time)
    ensures PayloadsOf(Puts(Replay(channel, pending, now))) == pending
  {
    if pending != [] {
      ReplaySnoc(channel, pending, now);
      OfferedReplay(channel, pending[..|pending| - 1], now);
      var trace := Replay(channel, pending[..|pending| - 1], now);
      OfferedOne(trace, Put(Event(channel, pending[|pending| - 1]), now));
      assert Replay(channel, pending, now) == trace + [Put(Event(channel, pending[|pending| - 1]), now)];
    }
  }

  class HookBus {
    var subscribers: map<string, seq<QoSClassifiedQueue>>
    var pending: map<string, seq<Data>>
    /** Every publish and registration so far, by channel. */
    ghost var history: map<string, seq<ChannelOp>>

    ghost function Queues(): set<QoSClassifiedQueue>
      reads this
    {
      set channel, i | channel in subscribers && 0 <= i < |subscribers[channel]| :: subscribers[channel][i]
    }

    function Subscribers(channel: string): seq<QoSClassifiedQueue>
      reads this
    {
      if channel in subscribers then subscribers[channel] else []
    }

    function Pending(channel: string): seq<Data>
      reads this
    {
      if channel in pending then pending[channel] else []
    }

    ghost function History(channel: string): seq<ChannelOp>
      reads this
    {
      if channel in history then history[channel] else []
    }

    /** A queue of this channel that carries a stream. */
    ghost predicate Carries(q: QoSClassifiedQueue, channel: string, stream: seq<Data>)
      reads this, Queues(), q
    {
      q in Queues() && q.Valid() && q.qos == ChannelQoS(channel) && Offered(q) == stream
    }

    /** The bus holds, channel by channel, exactly what the run of that channel predicts. */
    ghost predicate ChannelValid(channel: string)
      reads this, Queues()
    {
      var subs, c := Subscribers(channel), ChannelRun(History(channel));
      && Pending(channel) == c.pending
      && |subs| == |c.streams|
      && forall i :: 0 <= i < |subs| ==> subs[i] in Queues() && Carries(subs[i], channel, c.streams[i])
    }

    ghost predicate Distinct()
      reads this
    {
      forall c, i, d, j | c in subscribers && d in subscribers
          && 0 <= i < |subscribers[c]| && 0 <= j < |subscribers[d]| && subscribers[c][i] == subscribers[d][j] ::
        c == d && i == j
    }

    ghost predicate Valid()
      reads this, Queues()
    {
      Distinct() && forall channel :: ChannelValid(channel)
    }

    constructor ()
      ensures Valid() && history == map[]
    {
      subscribers, pending, history := map[], map[], map[];
    }

    /** Offer one event to every queue of a channel. */
    static method Broadcast(subs: seq<QoSClassifiedQueue>, channel: string, data: Data, now: Time)
      requires forall i, j :: 0 <= i < j < |subs| ==> subs[i] != subs[j]
      requires forall i :: 0 <= i < |subs| ==> subs[i].Valid()
      modifies subs
      ensures forall i :: 0 <= i < |subs| ==> subs[i].Valid() && Offered(subs[i]) == old(Offered(subs[i])) + [data]
    {
      for k := 0 to |subs|
        invariant forall j :: 0 <= j < |subs| ==> subs[j].Valid()
        invariant forall j :: 0 <= j < k ==> Offered(subs[j]) == old(Offered(subs[j])) + [data]
        invariant forall j :: k <= j < |subs| ==> Offered(subs[j]) == old(Offered(subs[j]))
      {
        label before:
        var _ := subs[k].PutNowait(channel, data, now);
        OfferedOne(old@before(subs[k].trace), Put(Event(channel, data), now));
        assert forall j :: 0 <= j < |subs| && j != k ==> Offered(subs[j]) == old@before(Offered(subs[j]));
      }
    }

    /** A channel whose history, buffer and queues are left alone stays valid. */
    twostate lemma OtherChannel(channel: string)
      requires old(ChannelValid(channel))
      requires Subscribers(channel) == old(Subscribers(channel)) && old(Queues()) <= Queues()
      requires Pending(channel) == old(Pending(channel)) && History(channel) == old(History(channel))
      requires forall i :: 0 <= i < |Subscribers(channel)| ==> unchanged(Subscribers(channel)[i])
      ensures ChannelValid(channel)
    {
    }

    method BufferPending(channel: string, data: Data)
      requires Valid() && Subscribers(channel) == []
      modifies this`pending, this`history
      ensures Valid() && subscribers == old(subscribers)
      ensures history == old(history)[channel := old(History(channel)) + [ChannelOp.Publish(data)]]
    {
      assert ChannelValid(channel);
      var buffer := Pending(channel) + [data];
      if |buffer| > PENDING_CAP {
        buffer := buffer[|buffer| - PENDING_CAP..];
      }
      ghost var h' := History(channel) + [ChannelOp.Publish(data)];
      assert h'[..|h'| - 1] == History(channel);
      pending, history := pending[channel := buffer], history[channel := h'];
      forall other ensures ChannelValid(other) {
        if other != channel {
          OtherChannel(other);
        }
      }
    }

    /** Every queue of a channel that has subscribers was offered one more event. */
    lemma {:induction false} PostedIsNext(channel: string, h: seq<ChannelOp>, data: Data)
      requires var subs, c := Subscribers(channel), ChannelRun(h);
               && c.streams != [] && |subs| == |c.streams| && Pending(channel) == c.pending
               && forall i :: 0 <= i < |subs| ==> Carries(subs[i], channel, c.streams[i] + [data])
      requires History(channel) == h + [ChannelOp.Publish(data)]
      ensures ChannelValid(channel)
    {
      ChannelRunSnoc(h, ChannelOp.Publish(data));
    }

    twostate lemma PostedKeepsOthers(channel: string)
      requires old(Valid()) && subscribers == old(subscribers) && pending == old(pending)
      requires history == old(history)[channel := History(channel)]
      requires forall o :: o in old(Queues()) && o !in Subscribers(channel) ==> unchanged(o)
      ensures forall other :: other != channel ==> ChannelValid(other)
    {
      forall other | other != channel ensures ChannelValid(other) {
        assert old(ChannelValid(other));
        OtherChannel(other);
      }
    }

    method Deliver(channel: string, data: Data, now: Time)
      requires Valid() && channel in subscribers && subscribers[channel] != []
      modifies this`history, Subscribers(channel)
      ensures Valid()
      ensures history == old(history)[channel := old(History(channel)) + [ChannelOp.Publish(data)]]
    {
      assert ChannelValid(channel);
      ghost var h := History(channel);
      Broadcast(subscribers[channel], channel, data, now);
      history := history[channel := h + [ChannelOp.Publish(data)]];
      PostedIsNext(channel, h, data);
      PostedKeepsOthers(channel);
    }

    /** Buffer the event while nobody listens, else offer it to every subscriber of the channel. */
    method Publish(channel: string, data: Data, now: Time)
      requires Valid()
      modifies this, Queues()
      ensures Valid() && subscribers == old(subscribers)
      ensures history == old(history)[channel := old(History(channel)) + [ChannelOp.Publish(data)]]
    {
      assert ChannelValid(channel);
      if channel !in subscribers || |subscribers[channel]| == 0 {
        BufferPending(channel, data);
      } else {
        Deliver(channel, data, now);
      }
    }

    /** Put the buffered events into a new subscriber's queue, oldest first. */
    static method ReplayInto(q: QoSClassifiedQueue, channel: string, backlog: seq<Data>, now: Time)
      requires q.Valid() && q.trace == []
      modifies q
      ensures q.Valid() && q.trace == Replay(channel, backlog, now)
    {
      for k := 0 to |backlog|
        invariant q.Valid() && q.trace == Replay(channel, backlog[..k], now)
      {
        var _ := q.PutNowait(channel, backlog[k], now);
        assert Replay(channel, backlog[..k + 1], now) == Replay(channel, backlog[..k], now) + [Put(Event(channel, backlog[k]), now)];
      }
      assert backlog[..|backlog|] == backlog;
    }

    /** Subscribe: the new queue starts with whatever was pending, and a CRITICAL one holds all of it. */
    method Register(channel: string, now: Time) returns (q: QoSClassifiedQueue)
      requires Valid()
      modifies this
      ensures Valid() && fresh(q)
      ensures subscribers == old(subscribers)[channel := old(Subscribers(channel)) + [q]]
      ensures history == old(history)[channel := old(History(channel)) + [ChannelOp.Register]]
      ensures Offered(q) == old(Pending(channel)) && q.trace == Replay(channel, old(Pending(channel)), now)
      ensures q.qos == Critical ==>
                q.items == Payloads(channel, old(Pending(channel))) && q.retryBuffer == [] && q.dropped == 0
    {
      assert ChannelValid(channel);
      ghost var h := History(channel);
      ghost var h' := h + [ChannelOp.Register];
      assert h'[..|h'| - 1] == h;
      q := new QoSClassifiedQueue(ChannelQoS(channel), None);
      var backlog := Pending(channel);
      ReplayInto(q, channel, backlog, now);
      OfferedReplay(channel, backlog, now);
      if q.qos == Critical {
        StreamsAreExact(h);
        ReplayFits(q.Settings(), channel, backlog, now);
      }
      forall other ensures ChannelValid(other) {
        assert old(ChannelValid(other));
        OtherChannel(other);
      }
      AddSubscriber(channel, q);
    }

    /** One queue, not yet in use, joined a channel at the end. */
    twostate predicate Added(channel: string)
      reads this
    {
      var before, after := old(Subscribers(channel)), Subscribers(channel);
      && |after| == |before| + 1 && after[..|before|] == before
      && after[|before|] !in old(Queues())
      && subscribers == old(subscribers)[channel := after]
    }

    twostate lemma AddedQueue(channel: string)
      requires Added(channel)
      ensures old(Queues()) <= Queues()
      ensures Subscribers(channel)[|old(Subscribers(channel))|] in Queues()
    {
      forall o | o in old(Queues()) ensures o in Queues() {
        var c, i :| c in old(subscribers) && 0 <= i < |old(subscribers)[c]| && old(subscribers)[c][i] == o;
        assert subscribers[c][i] == o;
      }
      assert subscribers[channel][|old(Subscribers(channel))|] in Queues();
    }

    twostate lemma AddedKeepsDistinct(channel: string)
      requires old(Distinct()) && Added(channel)
      ensures Distinct()
    {
      forall c, i, d, j | c in subscribers && d in subscribers
          && 0 <= i < |subscribers[c]| && 0 <= j < |subscribers[d]| && subscribers[c][i] == subscribers[d][j]
        ensures c == d && i == j
      {
        var n := |old(Subscribers(channel))|;
        assert (c == channel && i == n) || old(subscribers)[c][i] == subscribers[c][i];
        assert (d == channel && j == n) || old(subscribers)[d][j] == subscribers[d][j];
      }
    }

    twostate lemma AddedKeepsStreams(channel: string)
      requires old(ChannelValid(channel)) && Added(channel)
      requires forall i :: 0 <= i < |old(Subscribers(channel))| ==> unchanged(old(Subscribers(channel))[i])
      ensures forall i :: 0 <= i < |old(Subscribers(channel))| ==>
                Carries(Subscribers(channel)[i], channel, ChannelRun(old(History(channel))).streams[i])
    {
      AddedQueue(channel);
      var subs := old(Subscribers(channel));
      forall i | 0 <= i < |subs| ensures Carries(Subscribers(channel)[i], channel, ChannelRun(old(History(channel))).streams[i]) {
        assert Subscribers(channel)[i] == Subscribers(channel)[..|subs|][i] == subs[i];
      }
    }

    lemma {:induction false} OneMoreStream(channel: string, c: Channel)
      requires Pending(channel) == [] && ChannelRun(History(channel)) == Channel([], c.streams + [c.pending])
      requires |Subscribers(channel)| == |c.streams| + 1
      requires forall i :: 0 <= i < |c.streams| ==> Carries(Subscribers(channel)[i], channel, c.streams[i])
      requires Carries(Subscribers(channel)[|c.streams|], channel, c.pending)
      ensures ChannelValid(channel)
    {
      var subs, streams := Subscribers(channel), c.streams + [c.pending];
      forall i | 0 <= i < |subs| ensures Carries(subs[i], channel, streams[i]) {
        assert i < |c.streams| ==> streams[i] == c.streams[i];
      }
    }

    twostate lemma AddedIsNext(channel: string)
      requires old(ChannelValid(channel)) && Added(channel)
      requires var q := Subscribers(channel)[|old(Subscribers(channel))|];
               q.Valid() && q.qos == ChannelQoS(channel) && Offered(q) == old(Pending(channel))
      requires Pending(channel) == [] && History(channel) == old(History(channel)) + [ChannelOp.Register]
      requires forall i :: 0 <= i < |old(Subscribers(channel))| ==> unchanged(old(Subscribers(channel))[i])
      ensures ChannelValid(channel)
    {
      AddedQueue(channel);
      AddedKeepsStreams(channel);
      ChannelRunSnoc(old(History(channel)), ChannelOp.Register);
      OneMoreStream(channel, ChannelRun(old(History(channel))));
    }

    twostate lemma AddedKeepsOthers(channel: string)
      requires old(Valid()) && Added(channel)
      requires pending == old(pending) - {channel}
      requires history == old(history)[channel := History(channel)]
      requires forall o :: o in old(Queues()) ==> unchanged(o)
      ensures forall other :: other != channel ==> ChannelValid(other)
    {
      AddedQueue(channel);
      forall other | other != channel ensures ChannelValid(other) {
        assert old(ChannelValid(other));
        OtherChannel(other);
      }
    }

    /** The bookkeeping of `register`, once the new queue is filled. */
    method AddSubscriber(channel: string, q: QoSClassifiedQueue)
      requires Valid() && q !in Queues() && q.Valid()
      requires q.qos == ChannelQoS(channel) && Offered(q) == Pending(channel)
      modifies this
      ensures Valid()
      ensures subscribers == old(subscribers)[channel := old(Subscribers(channel)) + [q]]
      ensures history == old(history)[channel := old(History(channel)) + [ChannelOp.Register]]
    {
      assert ChannelValid(channel);
      ghost var h' := History(channel) + [ChannelOp.Register];
      subscribers := subscribers[channel := Subscribers(channel) + [q]];
      pending, history := pending - {channel}, history[channel := h'];
      assert Subscribers(channel)[..|old(Subscribers(channel))|] == old(Subscribers(channel));
      AddedKeepsDistinct(channel);
      AddedIsNext(channel);
      AddedKeepsOthers(channel);
    }

    /** A consumer takes an event from its own queue: no other stream notices. */
    method Consume(channel: string, i: nat, now: Time) returns (item: Option<Event>)
      requires Valid() && i < |Subscribers(channel)|
      modifies Subscribers(channel)[i]
      ensures Valid() && subscribers == old(subscribers) && history == old(history)
      ensures var q := Subscribers(channel)[i];
              && q.trace == old(q.trace) + [Get(now)]
              && (item.None? <==> old(q.items) == [] && Ready(old(q.retryBuffer), now) == [])
              && Run(q.Settings(), q.trace).delivered
                 == Run(q.Settings(), old(q.trace)).delivered + (if item.Some? then [item.value] else [])
    {
      assert ChannelValid(channel);
      ghost var q := Subscribers(channel)[i];
      item := Subscribers(channel)[i].GetNowait(now);
      OfferedOne(old(q.trace), Get(now));
      SameStreamStaysValid(q);
    }

    /** A queue that changed, but not in what it was offered, leaves the bus valid. */
    twostate lemma SameStreamStaysValid(q: QoSClassifiedQueue)
      requires old(Valid()) && subscribers == old(subscribers) && pending == old(pending) && history == old(history)
      requires forall o :: o in old(Queues()) && o != q ==> unchanged(o)
      requires q.Valid() && Offered(q) == old(Offered(q))
      ensures Valid()
    {
      forall other ensures ChannelValid(other) {
        assert old(ChannelValid(other));
        var subs, streams := Subscribers(other), ChannelRun(History(other)).streams;
        forall i | 0 <= i < |subs| ensures Carries(subs[i], other, streams[i]) {
          assert old(Carries(subs[i], other, streams[i]));
        }
      }
    }
  }

  /** In every state of the bus: the r-th subscriber of a channel has been offered exactly the
      capped backlog (the first one) and every event published since it registered. */
  lemma {:induction false} SubscriberStreamIsExact(bus: HookBus, channel: string, r: nat)
    requires bus.Valid() && r < |bus.Subscribers(channel)|
    ensures var h := bus.History(channel);
            r < |Registrations(h)| && Offered(bus.Subscribers(channel)[r]) == Expected(h, Registrations(h)[r], r == 0)
    ensures bus.Pending(channel) == []
  {
    assert bus.ChannelValid(channel);
    StreamsAreExact(bus.History(channel));
  }
}
