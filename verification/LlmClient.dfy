/** The provider chain (pwnproxy/ai/llm/client.py:254-390): fallback, retries on rate limits, and one
    second try for structured output. */
module LlmClient {
  import opened Wrappers
  import opened CircuitBreaker

  datatype Reply = Answer(text: string) | Timeout | Unavailable | RateLimited | OtherError

  /** How a call of the client ends; every case but the first is an exception. */
  datatype Ending = Answered(provider: string, text: string) | Failed(reply: Reply) | NoProvider | SchemaError

  /** One request sent to a provider: what its history was and the time. */
  datatype Call = Call(provider: string, past: History, at: real)

  /** What the client cannot know: the n-th reply of all providers together, the n-th reading of the
      clock, and which texts fit the schema. */
  datatype Env = Env(reply: nat -> Reply, clock: nat -> real, fits: string -> bool)

  datatype Config = Config(providers: set<string>, threshold: int, cooldown: real, retries: int)

  datatype World = World(history: map<string, History>, calls: seq<Call>, tick: nat)

  function MaxCalls(retries: int): (n: nat)
    ensures n >= 1
  {
    if retries < 0 then 1 else retries + 1
  }

  function Send(env: Env, w: World, provider: string): World {
    w.(calls := w.calls + [Call(provider, Of(w.history, provider), env.clock(w.tick))], tick := w.tick + 1)
  }

  function Record(env: Env, w: World, provider: string, ok: bool): World {
    w.(history := Recorded(w.history, provider, Outcome(ok, env.clock(w.tick))), tick := w.tick + 1)
  }

  /** `n` requests to one provider. */
  function SendTimes(env: Env, w: World, provider: string, n: nat): (r: World)
    ensures |r.calls| == |w.calls| + n && r.history == w.history && r.tick == w.tick + n
    ensures w.calls <= r.calls
    ensures forall j :: |w.calls| <= j < |r.calls| ==>
              r.calls[j] == Call(provider, Of(w.history, provider), env.clock(w.tick + (j - |w.calls|)))
  {
    if n == 0 then w else Send(env, SendTimes(env, w, provider, n - 1), provider)
  }

  /** The replies from `first` on, `n` of them, are rate limits. */
  ghost predicate AllLimited(env: Env, first: nat, n: nat) {
    forall j :: first <= j < first + n ==> env.reply(j).RateLimited?
  }

  /** How many requests one provider is sent: up to its first reply that is no rate limit, at most one
      more than the retries. */
  ghost predicate TriesNeeded(env: Env, first: nat, retries: int, n: nat) {
    && 1 <= n <= MaxCalls(retries)
    && AllLimited(env, first, n - 1)
    && (n < MaxCalls(retries) ==> !env.reply(first + n - 1).RateLimited?)
  }

  function Tries(env: Env, first: nat, retries: int, n: nat): (k: nat)
    requires 1 <= n <= MaxCalls(retries) && AllLimited(env, first, n - 1)
    ensures TriesNeeded(env, first, retries, k)
    decreases MaxCalls(retries) - n
  {
    if n == MaxCalls(retries) || !env.reply(first + n - 1).RateLimited? then n else Tries(env, first, retries, n + 1)
  }

  /** In numbers: one request and at most `retries` more, each further one only after a rate limit, and
      none left unsent while the last reply is one. */
  lemma {:induction false} RetriesExactly(env: Env, first: nat, retries: nat)
    ensures var n := Tries(env, first, retries, 1);
            && 1 <= n <= retries + 1
            && (forall j :: first <= j < first + n - 1 ==> env.reply(j) == RateLimited)
            && (env.reply(first + n - 1) == RateLimited ==> n == retries + 1)
  {
    var n := Tries(env, first, retries, 1);
    assert TriesNeeded(env, first, retries, n);
  }

  /** A provider whose last allowed reply is still a rate limit counts as unavailable. */
  function Settled(r: Reply): Reply {
    if r.RateLimited? then Unavailable else r
  }

  /** What a visit to one provider of the chain leads to: an ending, or the next provider. */
  datatype Visit = Visit(done: Option<Ending>, world: World, last: Option<Reply>)

  /** What follows a reply: it is recorded unless it is a foreign error. */
  function AfterReply(env: Env, w: World, name: string, reply: Reply, last: Option<Reply>): Visit {
    match reply
    case Answer(text) => Visit(Some(Answered(name, text)), Record(env, w, name, true), last)
    case OtherError => Visit(Some(Failed(OtherError)), w, last)
    case bad => Visit(None, Record(env, w, name, false), Some(bad))
  }

  datatype Tried = Tried(world: World, reply: Reply)

  /** All requests of one visit and what they come to. */
  function TryAll(env: Env, retries: int, w: World, name: string): Tried {
    var n := Tries(env, |w.calls|, retries, 1);
    Tried(SendTimes(env, w, name, n), Settled(env.reply(|w.calls| + n - 1)))
  }

  /** A provider the breaker lets through. */
  function AttemptOne(env: Env, cfg: Config, w: World, name: string, last: Option<Reply>): Visit {
    var tried := TryAll(env, cfg.retries, w.(tick := w.tick + 1), name);
    AfterReply(env, tried.world, name, tried.reply, last)
  }

  function VisitOne(env: Env, cfg: Config, w: World, name: string, last: Option<Reply>): Visit {
    if name !in cfg.providers then Visit(None, w, last)
    else if Open(Of(w.history, name), cfg.threshold, cfg.cooldown, env.clock(w.tick)) then
      Visit(None, w.(tick := w.tick + 1), last)
    else AttemptOne(env, cfg, w.(tick := w.tick + 1), name, last)
  }

  datatype Round = Round(ending: Ending, world: World)

  /** One pass over the rest of the chain. */
  function Generate(env: Env, cfg: Config, w: World, chain: seq<string>, last: Option<Reply>): Round
    decreases |chain|
  {
    if chain == [] then Round(if last.Some? then Failed(last.value) else NoProvider, w)
    else
      var v := VisitOne(env, cfg, w, chain[0], last);
      if v.done.Some? then Round(v.done.value, v.world) else Generate(env, cfg, v.world, chain[1..], v.last)
  }

  /** Structured output: a text that does not fit gets one second round. */
  function GenerateStructured(env: Env, cfg: Config, w: World, chain: seq<string>): Round {
    var first := Generate(env, cfg, w, chain, None);
    if !first.ending.Answered? || env.fits(first.ending.text) then first
    else
      var second := Generate(env, cfg, first.world, chain, None);
      if !second.ending.Answered? || env.fits(second.ending.text) then second else Round(SchemaError, second.world)
  }

  class Client {
    const env: Env
    const providers: set<string>
    const chain: seq<string>
    const retries: int
    const circuit: CircuitBreaker
    var asked: nat
    var tick: nat
    ghost var calls: seq<Call>

    constructor (env: Env, providers: set<string>, chain: seq<string>, threshold: int, cooldown: real, retries: int)
      ensures fresh(circuit) && Valid() && Now() == World(map[], [], 0)
      ensures this.env == env && this.chain == chain
      ensures Cfg() == Config(providers, threshold, cooldown, retries)
    {
      this.env, this.providers, this.chain, this.retries := env, providers, chain, retries;
      circuit := new CircuitBreaker(threshold, cooldown);
      asked, tick, calls := 0, 0, [];
    }

    ghost predicate Valid()
      reads this, circuit
    {
      circuit.Valid() && |calls| == asked
    }

    ghost function Now(): World
      reads this, circuit
    {
      World(circuit.history, calls, tick)
    }

    ghost function Cfg(): Config
      reads this, circuit
    {
      Config(providers, circuit.threshold, circuit.cooldown, retries)
    }

    method ReadClock() returns (now: real)
      modifies this`tick
      ensures now == env.clock(old(tick)) && tick == old(tick) + 1
    {
      now := env.clock(tick);
      tick := tick + 1;
    }

    method Ask(name: string) returns (reply: Reply)
      requires Valid()
      modifies this`asked, this`tick, this`calls
      ensures Valid() && reply == env.reply(old(asked)) && Now() == Send(env, old(Now()), name)
    {
      reply := env.reply(asked);
      calls := calls + [Call(name, Of(circuit.history, name), env.clock(tick))];
      asked, tick := asked + 1, tick + 1;
    }

    /** `attempt` requests of a visit that began in `start` were all rate limited, and one more is due. */
    ghost predicate Trying(start: World, name: string, attempt: nat)
      reads this, circuit
    {
      && Valid() && asked == |start.calls| + attempt && attempt < MaxCalls(retries)
      && Now() == SendTimes(env, start, name, attempt)
      && AllLimited(env, |start.calls|, attempt)
      && Tries(env, |start.calls|, retries, 1) == Tries(env, |start.calls|, retries, attempt + 1)
    }

    /** One turn of the retry loop. */
    method TryOnce(name: string, attempt: nat, ghost start: World) returns (reply: Reply, done: bool)
      requires Trying(start, name, attempt)
      modifies this`asked, this`tick, this`calls
      ensures done ==> Valid() && Tried(Now(), reply) == TryAll(env, retries, start, name)
      ensures !done ==> Trying(start, name, attempt + 1)
    {
      reply := Ask(name);
      done := true;
      assert Now() == SendTimes(env, start, name, attempt + 1);
      if reply.RateLimited? {
        if attempt + 1 > retries {
          reply := Unavailable;
        } else {
          done := false;
        }
      }
    }

    /** `_try_provider`: ask again while the provider is rate limited, up to `retries` more times. */
    method TryProvider(name: string) returns (reply: Reply)
      requires Valid()
      modifies this`asked, this`tick, this`calls
      ensures Valid() && Tried(Now(), reply) == TryAll(env, retries, old(Now()), name)
    {
      var attempt: nat := 0;
      ghost var start := Now();
      while true
        invariant Trying(start, name, attempt)
        decreases MaxCalls(retries) - attempt
      {
        var done;
        reply, done := TryOnce(name, attempt, start);
        if done {
          return;
        }
        attempt := attempt + 1;
      }
    }

    method RecordOutcome(name: string, ok: bool)
      requires Valid()
      modifies this`tick, circuit
      ensures Valid() && Now() == Record(env, old(Now()), name, ok)
    {
      var now := ReadClock();
      if ok {
        circuit.RecordSuccess(name, now);
      } else {
        circuit.RecordFailure(name, now);
      }
    }

    /** The part of the loop of `generate` behind the provider's reply. */
    method Settle(name: string, reply: Reply, lastError: Option<Reply>) returns (done: Option<Ending>, last: Option<Reply>)
      requires Valid()
      modifies this`tick, circuit
      ensures Valid() && Now() == AfterReply(env, old(Now()), name, reply, lastError).world
      ensures done == AfterReply(env, old(Now()), name, reply, lastError).done
      ensures last == AfterReply(env, old(Now()), name, reply, lastError).last
    {
      match reply
      case Answer(text) =>
        RecordOutcome(name, true);
        return Some(Answered(name, text)), lastError;
      case OtherError =>
        return Some(Failed(reply)), lastError;
      case _ =>
        RecordOutcome(name, false);
        return None, Some(reply);
    }

    /** The part of the loop of `generate` behind the breaker. */
    method Attempt(name: string, lastError: Option<Reply>) returns (done: Option<Ending>, last: Option<Reply>)
      requires Valid()
      modifies this`asked, this`tick, this`calls, circuit
      ensures Valid() && Visit(done, Now(), last) == AttemptOne(env, Cfg(), old(Now()), name, lastError)
    {
      var now := ReadClock();
      var state := circuit.GetCircuitState(name, now);
      var reply := TryProvider(name);
      done, last := Settle(name, reply, lastError);
    }

    /** The body of the loop of `generate`. */
    method VisitProvider(name: string, lastError: Option<Reply>) returns (done: Option<Ending>, last: Option<Reply>)
      requires Valid()
      modifies this`asked, this`tick, this`calls, circuit
      ensures Valid() && Visit(done, Now(), last) == VisitOne(env, Cfg(), old(Now()), name, lastError)
    {
      if name !in providers {
        return None, lastError;
      }
      var now := ReadClock();
      var open := circuit.IsOpen(name, now);
      if open {
        return None, lastError;
      }
      done, last := Attempt(name, lastError);
    }

    /** `generate`. */
    method GenerateReply() returns (ending: Ending)
      requires Valid()
      modifies this`asked, this`tick, this`calls, circuit
      ensures Valid() && Round(ending, Now()) == Generate(env, Cfg(), old(Now()), chain, None)
    {
      var lastError: Option<Reply> := None;
      ghost var round := Generate(env, Cfg(), Now(), chain, None);
      var i := 0;
      assert chain[0..] == chain;
      while i < |chain|
        invariant i <= |chain| && Valid()
        invariant round == Generate(env, Cfg(), Now(), chain[i..], lastError)
      {
        assert chain[i..][0] == chain[i] && chain[i..][1..] == chain[i + 1..];
        var done, last := VisitProvider(chain[i], lastError);
        if done.Some? {
          return done.value;
        }
        lastError, i := last, i + 1;
      }
      assert chain[i..] == [];
      ending := if lastError.Some? then Failed(lastError.value) else NoProvider;
    }

    /** `generate_structured`. */
    method GenerateStructuredReply() returns (ending: Ending)
      requires Valid()
      modifies this`asked, this`tick, this`calls, circuit
      ensures Valid() && Round(ending, Now()) == GenerateStructured(env, Cfg(), old(Now()), chain)
    {
      ending := GenerateReply();
      if !ending.Answered? || env.fits(ending.text) {
        return;
      }
      ending := GenerateReply();
      if !ending.Answered? || env.fits(ending.text) {
        return;
      }
      ending := SchemaError;
    }
  }

  // ----- what one pass over the chain guarantees -----

  ghost predicate NeverGoesBack(clock: nat -> real) {
    forall i: nat, j: nat :: i <= j ==> clock(i) <= clock(j)
  }

  /** A request the breaker lets through, at the very time it is sent. */
  ghost predicate Passed(cfg: Config, c: Call) {
    c.provider in cfg.providers && !Open(c.past, cfg.threshold, cfg.cooldown, c.at)
  }

  /** All requests from number `first` on went to providers of the chain that were let through. */
  ghost predicate AllPassed(cfg: Config, calls: seq<Call>, first: nat, chain: seq<string>) {
    forall j :: first <= j < |calls| ==> Passed(cfg, calls[j]) && calls[j].provider in chain
  }

  lemma {:induction false} VisitPasses(env: Env, cfg: Config, w: World, name: string, last: Option<Reply>)
    requires NeverGoesBack(env.clock)
    ensures var v := VisitOne(env, cfg, w, name, last).world;
            && w.calls <= v.calls && |v.calls| <= |w.calls| + MaxCalls(cfg.retries)
            && AllPassed(cfg, v.calls, |w.calls|, [name])
  {
    var v := VisitOne(env, cfg, w, name, last).world;
    forall j | |w.calls| <= j < |v.calls| ensures Passed(cfg, v.calls[j]) && v.calls[j].provider == name {
      StaysPassable(Of(w.history, name), cfg.threshold, cfg.cooldown, env.clock(w.tick), v.calls[j].at);
    }
  }

  /** No request is ever sent to a provider whose breaker is open at that time, and a call sends at most
      one request and its retries to each entry of the chain. */
  lemma {:induction false} GenerateRespectsBreakers(env: Env, cfg: Config, w: World, chain: seq<string>, last: Option<Reply>)
    requires NeverGoesBack(env.clock)
    ensures var r := Generate(env, cfg, w, chain, last).world;
            && w.calls <= r.calls && |r.calls| <= |w.calls| + |chain| * MaxCalls(cfg.retries)
            && AllPassed(cfg, r.calls, |w.calls|, chain)
    decreases |chain|
  {
    if chain != [] {
      VisitPasses(env, cfg, w, chain[0], last);
      var v := VisitOne(env, cfg, w, chain[0], last);
      assert chain == [chain[0]] + chain[1..];
      assert |chain| * MaxCalls(cfg.retries) == MaxCalls(cfg.retries) + |chain[1..]| * MaxCalls(cfg.retries);
      assert |chain[1..]| * MaxCalls(cfg.retries) >= 0;
      if v.done.None? {
        GenerateRespectsBreakers(env, cfg, v.world, chain[1..], v.last);
        var r := Generate(env, cfg, v.world, chain[1..], v.last).world;
        forall j | |w.calls| <= j < |r.calls| ensures Passed(cfg, r.calls[j]) && r.calls[j].provider in chain {
          assert j < |v.world.calls| ==> r.calls[j] == v.world.calls[j];
        }
      }
    }
  }

  /** The replies to requests `first` to `end`, the last one left out, are those that make the client
      go on: neither an answer nor a foreign error. */
  ghost predicate GoesOn(env: Env, first: nat, end: nat) {
    forall j :: first <= j < end ==> !env.reply(j).Answer? && !env.reply(j).OtherError?
  }

  /** The ending is the last reply, read as the source reads it, and every reply before it made the
      client go on: it stops at the first answer and at the first foreign error, and says that there is
      no provider exactly when nobody was asked. */
  lemma {:induction false} EndingIsTheLastReply(env: Env, cfg: Config, w: World, chain: seq<string>)
    ensures var r := Generate(env, cfg, w, chain, None);
            var n := |r.world.calls|;
            && n >= |w.calls|
            && (r.ending.NoProvider? <==> n == |w.calls|)
            && !r.ending.SchemaError?
            && (n > |w.calls| ==>
                  && GoesOn(env, |w.calls|, n - 1)
                  && r.ending == (match env.reply(n - 1)
                                  case Answer(text) => Answered(r.world.calls[n - 1].provider, text)
                                  case RateLimited => Failed(Unavailable)
                                  case bad => Failed(bad)))
  {
    EndingFrom(env, cfg, w, chain, None);
  }

  lemma {:induction false} EndingFrom(env: Env, cfg: Config, w: World, chain: seq<string>, last: Option<Reply>)
    ensures var r := Generate(env, cfg, w, chain, last);
            var n := |r.world.calls|;
            && n >= |w.calls|
            && (n == |w.calls| ==> r.ending == if last.Some? then Failed(last.value) else NoProvider)
            && (n > |w.calls| ==>
                  && GoesOn(env, |w.calls|, n - 1)
                  && r.ending == (match Settled(env.reply(n - 1))
                                  case Answer(text) => Answered(r.world.calls[n - 1].provider, text)
                                  case bad => Failed(bad)))
    decreases |chain|
  {
    if chain != [] {
      var v := VisitOne(env, cfg, w, chain[0], last);
      if v.done.None? {
        EndingFrom(env, cfg, v.world, chain[1..], v.last);
      }
    }
  }

  // ----- what it leaves in the breakers -----

  /** After a call a provider's record has grown by failures only, or by a success at its end. */
  ghost predicate Grew(before: History, after: History, answered: bool) {
    && before <= after
    && (forall i :: |before| <= i < |after| - (if answered then 1 else 0) ==> !after[i].ok)
    && (answered ==> |after| > |before| && after[|after| - 1].ok)
  }

  ghost predicate NotAsked(calls: seq<Call>, first: nat, p: string) {
    forall j :: first <= j < |calls| ==> calls[j].provider != p
  }

  lemma {:induction false} VisitRecords(env: Env, cfg: Config, w: World, name: string, last: Option<Reply>, p: string)
    ensures var v := VisitOne(env, cfg, w, name, last);
            && w.calls <= v.world.calls
            && (v.done.Some? && v.done.value.Answered? ==> v.done.value.provider == name)
            && Grew(Of(w.history, p), Of(v.world.history, p), p == name && v.done.Some? && v.done.value.Answered?)
            && (NotAsked(v.world.calls, |w.calls|, p) ==> Of(v.world.history, p) == Of(w.history, p))
  {
    var v := VisitOne(env, cfg, w, name, last);
    if p == name && |v.world.calls| > |w.calls| {
      assert v.world.calls[|w.calls|].provider == p;
    }
  }

  /** The provider that answered ends with a success, so its breaker is closed; every other provider has
      only gained failures; a provider outside the chain, or one never asked, keeps its record. */
  lemma {:induction false} RecordsAfterACall(env: Env, cfg: Config, w: World, chain: seq<string>, last: Option<Reply>, p: string)
    ensures var r := Generate(env, cfg, w, chain, last);
            && w.calls <= r.world.calls
            && Grew(Of(w.history, p), Of(r.world.history, p), r.ending.Answered? && r.ending.provider == p)
            && (r.ending.Answered? && r.ending.provider == p ==> !Tripped(Of(r.world.history, p), cfg.threshold))
            && (NotAsked(r.world.calls, |w.calls|, p) ==> Of(r.world.history, p) == Of(w.history, p))
    decreases |chain|
  {
    if chain != [] {
      var v := VisitOne(env, cfg, w, chain[0], last);
      VisitRecords(env, cfg, w, chain[0], last, p);
      if v.done.None? {
        RecordsAfterACall(env, cfg, v.world, chain[1..], v.last, p);
        var r := Generate(env, cfg, v.world, chain[1..], v.last).world;
        if NotAsked(r.calls, |w.calls|, p) {
          forall j | |w.calls| <= j < |v.world.calls| ensures v.world.calls[j].provider != p {
            assert r.calls[j] == v.world.calls[j];
          }
        }
      }
    }
  }

  /** The breaker of this provider lets every call through from now on: it has not tripped, or its cooldown
      is over. */
  ghost predicate Usable(env: Env, cfg: Config, w: World, p: string) {
    p in cfg.providers && forall t :: t >= w.tick ==> !Open(Of(w.history, p), cfg.threshold, cfg.cooldown, env.clock(t))
  }

  /** That is so of a tripped provider once its cooldown is over. */
  lemma {:induction false} UsableAgain(env: Env, cfg: Config, w: World, p: string)
    requires p in cfg.providers && NeverGoesBack(env.clock)
    requires Tripped(Of(w.history, p), cfg.threshold)
    ensures Usable(env, cfg, w, p) <==>
            env.clock(w.tick) >= Of(w.history, p)[|Of(w.history, p)| - 1].at + cfg.cooldown
  {
    var h := Of(w.history, p);
    if env.clock(w.tick) >= h[|h| - 1].at + cfg.cooldown {
      forall t | t >= w.tick ensures !Open(h, cfg.threshold, cfg.cooldown, env.clock(t)) {
        assert env.clock(t) >= env.clock(w.tick);
      }
    } else {
      assert Open(h, cfg.threshold, cfg.cooldown, env.clock(w.tick));
    }
  }

  lemma {:induction false} VisitAsks(env: Env, cfg: Config, w: World, name: string, last: Option<Reply>, p: string)
    ensures var v := VisitOne(env, cfg, w, name, last);
            && w.calls <= v.world.calls && w.tick <= v.world.tick
            && (forall j :: |w.calls| <= j < |v.world.calls| ==> v.world.calls[j].provider == name)
            && (Usable(env, cfg, w, name) ==> |v.world.calls| > |w.calls|)
            && (Usable(env, cfg, w, p) && p != name ==> Usable(env, cfg, v.world, p))
            && (v.done.Some? ==> v.done.value.Answered? || v.done.value == Failed(OtherError))
  {
  }

  lemma {:induction false} CallsGrow(env: Env, cfg: Config, w: World, chain: seq<string>, last: Option<Reply>)
    ensures w.calls <= Generate(env, cfg, w, chain, last).world.calls
    decreases |chain|
  {
    if chain != [] {
      var v := VisitOne(env, cfg, w, chain[0], last);
      if v.done.None? {
        CallsGrow(env, cfg, v.world, chain[1..], v.last);
      }
    }
  }

  /** The requests went to these places of the chain, in its order. */
  ghost predicate AskedAt(w: World, r: World, chain: seq<string>, at: seq<nat>) {
    && w.calls <= r.calls && |at| == |r.calls| - |w.calls|
    && (forall j :: 0 <= j < |at| ==> at[j] < |chain| && r.calls[|w.calls| + j].provider == chain[at[j]])
    && (forall i, j :: 0 <= i < j < |at| ==> at[i] <= at[j])
  }

  /** The end of the chain was reached, or a request went further than this place. */
  ghost predicate WentPast(ending: Ending, at: seq<nat>, i: nat) {
    (!ending.Answered? && ending != Failed(OtherError)) || (at != [] && i < at[|at| - 1])
  }

  /** A call asks along the chain in its own order, and passes over no provider it could use: one whose
      breaker lets calls through is asked at its first place, unless the call ended before. */
  lemma {:induction false} FallsBackInOrder(env: Env, cfg: Config, w: World, chain: seq<string>, last: Option<Reply>)
    returns (at: seq<nat>)
    ensures var r := Generate(env, cfg, w, chain, last);
            AskedAt(w, r.world, chain, at) && NonePassedOver(env, cfg, w, chain, r.ending, at)
    decreases |chain|
  {
    at := [];
    if chain != [] {
      var v, r := VisitOne(env, cfg, w, chain[0], last), Generate(env, cfg, w, chain, last);
      VisitAsks(env, cfg, w, chain[0], last, chain[0]);
      var here := Zeros(|v.world.calls| - |w.calls|);
      at := here;
      if v.done.None? {
        CallsGrow(env, cfg, v.world, chain[1..], v.last);
        var rest := FallsBackInOrder(env, cfg, v.world, chain[1..], v.last);
        at := here + OneOn(rest);
        AskedFurther(w, v.world, r.world, chain, here, rest);
        PassedOverFurther(env, cfg, w, chain, last, r.ending, here, rest);
      } else {
        assert Usable(env, cfg, w, chain[0]) ==> here != [] && here[0] == 0;
      }
    }
  }

  lemma {:induction false} PassedOverFurther(env: Env, cfg: Config, w: World, chain: seq<string>, last: Option<Reply>,
                                             ending: Ending, here: seq<nat>, rest: seq<nat>)
    requires chain != [] && here == Zeros(|here|)
    requires Usable(env, cfg, w, chain[0]) ==> here != []
    requires NonePassedOver(env, cfg, VisitOne(env, cfg, w, chain[0], last).world, chain[1..], ending, rest)
    ensures NonePassedOver(env, cfg, w, chain, ending, here + OneOn(rest))
  {
    var at := here + OneOn(rest);
    forall i | 0 <= i < |chain| && FirstUsable(env, cfg, w, chain, i) && WentPast(ending, at, i) ensures i in at {
      if i == 0 {
        assert at[0] == 0;
      } else {
        var v := VisitOne(env, cfg, w, chain[0], last).world;
        assert chain[1..][i - 1] == chain[i] && chain[..i] == [chain[0]] + chain[1..][..i - 1];
        assert chain[0] in chain[..i];
        VisitAsks(env, cfg, w, chain[0], last, chain[i]);
        assert FirstUsable(env, cfg, v, chain[1..], i - 1);
        PastFurther(ending, here, rest, i);
        OneOnHolds(rest, i - 1);
      }
    }
  }

  lemma {:induction false} PastFurther(ending: Ending, here: seq<nat>, rest: seq<nat>, i: nat)
    requires i > 0 && here == Zeros(|here|) && WentPast(ending, here + OneOn(rest), i)
    ensures WentPast(ending, rest, i - 1)
  {
    var at := here + OneOn(rest);
    if rest == [] {
      assert at == here;
    } else {
      assert at[|at| - 1] == rest[|rest| - 1] + 1;
    }
  }

  /** The first place of a usable provider. */
  ghost predicate FirstUsable(env: Env, cfg: Config, w: World, chain: seq<string>, i: nat)
    requires i < |chain|
  {
    chain[i] !in chain[..i] && Usable(env, cfg, w, chain[i])
  }

  /** A usable provider is asked at its first place, if the call came that far. */
  ghost predicate NonePassedOver(env: Env, cfg: Config, w: World, chain: seq<string>, ending: Ending, at: seq<nat>) {
    forall i :: 0 <= i < |chain| && FirstUsable(env, cfg, w, chain, i) && WentPast(ending, at, i) ==> i in at
  }

  function Zeros(n: nat): (at: seq<nat>)
    ensures |at| == n && forall i :: 0 <= i < n ==> at[i] == 0
  {
    seq(n, _ => 0)
  }

  function OneOn(at: seq<nat>): (r: seq<nat>)
    ensures |r| == |at| && forall i :: 0 <= i < |at| ==> r[i] == at[i] + 1
  {
    seq(|at|, i requires 0 <= i < |at| => at[i] + 1)
  }

  lemma {:induction false} OneOnHolds(at: seq<nat>, i: nat)
    requires i in at
    ensures i + 1 in OneOn(at)
  {
    var j :| 0 <= j < |at| && at[j] == i;
    assert OneOn(at)[j] == i + 1;
  }

  lemma {:induction false} AskedFurther(w: World, v: World, r: World, chain: seq<string>, here: seq<nat>, rest: seq<nat>)
    requires chain != [] && w.calls <= v.calls && here == Zeros(|v.calls| - |w.calls|)
    requires forall j :: |w.calls| <= j < |v.calls| ==> v.calls[j].provider == chain[0]
    requires AskedAt(v, r, chain[1..], rest)
    ensures AskedAt(w, r, chain, here + OneOn(rest))
  {
    var at := here + OneOn(rest);
    forall j | 0 <= j < |at| ensures at[j] < |chain| && r.calls[|w.calls| + j].provider == chain[at[j]] {
      if j < |here| {
        assert r.calls[|w.calls| + j] == v.calls[|w.calls| + j];
      } else {
        assert at[j] == rest[j - |here|] + 1 && chain[1..][rest[j - |here|]] == chain[at[j]];
      }
    }
  }

  /** If the whole chain failed, every configured provider whose breaker let calls through was asked. */
  lemma {:induction false} FailureMeansAllWereAsked(env: Env, cfg: Config, w: World, chain: seq<string>, last: Option<Reply>, p: string)
    requires p in chain && Usable(env, cfg, w, p)
    ensures var r := Generate(env, cfg, w, chain, last);
            && w.calls <= r.world.calls
            && (!r.ending.Answered? && r.ending != Failed(OtherError) ==>
                  exists j :: |w.calls| <= j < |r.world.calls| && r.world.calls[j].provider == p)
  {
    var r := Generate(env, cfg, w, chain, last);
    var at := FallsBackInOrder(env, cfg, w, chain, last);
    var i := FirstPlace(chain, p);
    if !r.ending.Answered? && r.ending != Failed(OtherError) {
      assert FirstUsable(env, cfg, w, chain, i) && WentPast(r.ending, at, i) && i in at;
      var j :| 0 <= j < |at| && at[j] == i;
      assert r.world.calls[|w.calls| + j].provider == p;
    }
  }

  lemma {:induction false} FirstPlace(chain: seq<string>, p: string) returns (i: nat)
    requires p in chain
    ensures i < |chain| && chain[i] == p && p !in chain[..i]
  {
    i := 0;
    if chain[0] != p {
      assert chain == [chain[0]] + chain[1..];
      i := FirstPlace(chain[1..], p);
      assert chain[..i + 1] == [chain[0]] + chain[1..][..i];
      i := i + 1;
    }
  }

  lemma {:induction false} VisitSkips(env: Env, cfg: Config, w: World, name: string, last: Option<Reply>, p: string)
    requires Open(Of(w.history, p), cfg.threshold, cfg.cooldown, env.clock(w.tick))
    ensures var v := VisitOne(env, cfg, w, name, last).world;
            && Of(v.history, p) == Of(w.history, p) && w.calls <= v.calls && w.tick <= v.tick
            && NotAsked(v.calls, |w.calls|, p)
  {
  }

  /** A provider that is open throughout is not asked and its record stays. */
  lemma {:induction false} OpenProviderIsSkipped(env: Env, cfg: Config, w: World, chain: seq<string>, last: Option<Reply>, p: string)
    requires forall t :: t >= w.tick ==> Open(Of(w.history, p), cfg.threshold, cfg.cooldown, env.clock(t))
    ensures var r := Generate(env, cfg, w, chain, last).world;
            && Of(r.history, p) == Of(w.history, p) && w.calls <= r.calls
            && forall j :: |w.calls| <= j < |r.calls| ==> r.calls[j].provider != p
    decreases |chain|
  {
    if chain != [] {
      var v := VisitOne(env, cfg, w, chain[0], last);
      VisitSkips(env, cfg, w, chain[0], last, p);
      if v.done.None? {
        OpenProviderIsSkipped(env, cfg, v.world, chain[1..], v.last, p);
        var r := Generate(env, cfg, v.world, chain[1..], v.last).world;
        assert forall j :: 0 <= j < |v.world.calls| ==> r.calls[j] == v.world.calls[j];
      }
    }
  }

  // ----- structured output -----

  /** A structured call sends at most twice as many requests, all let through. */
  lemma {:induction false} StructuredRespectsBreakers(env: Env, cfg: Config, w: World, chain: seq<string>)
    requires NeverGoesBack(env.clock)
    ensures var r := GenerateStructured(env, cfg, w, chain).world;
            && w.calls <= r.calls && |r.calls| <= |w.calls| + 2 * (|chain| * MaxCalls(cfg.retries))
            && AllPassed(cfg, r.calls, |w.calls|, chain)
  {
    GenerateRespectsBreakers(env, cfg, w, chain, None);
    var first := Generate(env, cfg, w, chain, None);
    if first.ending.Answered? && !env.fits(first.ending.text) {
      GenerateRespectsBreakers(env, cfg, first.world, chain, None);
      var second := Generate(env, cfg, first.world, chain, None).world;
      forall j | |w.calls| <= j < |second.calls| ensures Passed(cfg, second.calls[j]) && second.calls[j].provider in chain {
        assert j < |first.world.calls| ==> second.calls[j] == first.world.calls[j];
      }
    }
  }

  /** It answers only with a text that fits, gives up exactly when two answers in a row do not, and
      passes every other ending through. */
  lemma {:induction false} StructuredAnswersFit(env: Env, cfg: Config, w: World, chain: seq<string>)
    ensures var first := Generate(env, cfg, w, chain, None);
            var second := Generate(env, cfg, first.world, chain, None);
            var r := GenerateStructured(env, cfg, w, chain);
            && (r.ending.Answered? ==>
                  env.fits(r.ending.text) && exists j :: |w.calls| <= j < |r.world.calls| && env.reply(j) == Answer(r.ending.text))
            && (r.ending.SchemaError? <==>
                  first.ending.Answered? && !env.fits(first.ending.text) && second.ending.Answered? && !env.fits(second.ending.text))
            && (!first.ending.Answered? || env.fits(first.ending.text) ==> r == first)
            && (first.ending.Answered? && !env.fits(first.ending.text) ==>
                  r.world == second.world && (!r.ending.SchemaError? ==> r.ending == second.ending))
  {
    EndingIsTheLastReply(env, cfg, w, chain);
    var first := Generate(env, cfg, w, chain, None);
    EndingIsTheLastReply(env, cfg, first.world, chain);
    var r := GenerateStructured(env, cfg, w, chain);
    if r.ending.Answered? {
      assert env.reply(|r.world.calls| - 1) == Answer(r.ending.text);
    }
  }
}
