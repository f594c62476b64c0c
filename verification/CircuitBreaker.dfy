/** The per-provider breaker (pwnproxy/ai/llm/client.py:160-196): two counters that stand for the whole
    history of each provider. */
module CircuitBreaker {

  datatype Outcome = Outcome(ok: bool, at: real)

  /** A provider's recorded outcomes, oldest first. */
  type History = seq<Outcome>

  /** The failures since the last success. */
  function Run(h: History): (n: nat)
    ensures n <= |h|
  {
    if h == [] || h[|h| - 1].ok then 0 else Run(h[..|h| - 1]) + 1
  }

  function AtLeastOne(threshold: int): int {
    if threshold < 1 then 1 else threshold
  }

  /** The failures in a row have reached the threshold; a threshold below one acts as one. */
  predicate Tripped(h: History, threshold: int) {
    Run(h) >= AtLeastOne(threshold)
  }

  predicate Open(h: History, threshold: int, cooldown: real, now: real) {
    Tripped(h, threshold) && now - h[|h| - 1].at < cooldown
  }

  datatype CircuitState = StateOpen | StateHalfOpen | StateClosed

  function StateOf(h: History, threshold: int, cooldown: real, now: real): CircuitState {
    if !Tripped(h, threshold) then StateClosed
    else if now - h[|h| - 1].at < cooldown then StateOpen
    else StateHalfOpen
  }

  function Of<T>(m: map<string, seq<T>>, provider: string): seq<T> {
    if provider in m then m[provider] else []
  }

  function Recorded(m: map<string, History>, provider: string, o: Outcome): map<string, History> {
    m[provider := Of(m, provider) + [o]]
  }

  class CircuitBreaker {
    const threshold: int
    const cooldown: real
    var failures: map<string, nat>
    var openedAt: map<string, real>
    ghost var history: map<string, History>

    function FailuresOf(provider: string): nat
      reads this
    {
      if provider in failures then failures[provider] else 0
    }

    /** The counters of one provider say what its history says. */
    ghost predicate Agrees(provider: string)
      reads this
    {
      var h := Of(history, provider);
      && FailuresOf(provider) == Run(h)
      && (provider in openedAt <==> Tripped(h, threshold))
      && (provider in openedAt ==> openedAt[provider] == h[|h| - 1].at)
    }

    ghost predicate Valid()
      reads this
    {
      forall p :: Agrees(p)
    }

    constructor (threshold: int, cooldown: real)
      ensures Valid() && history == map[]
      ensures this.threshold == threshold && this.cooldown == cooldown
    {
      this.threshold, this.cooldown := threshold, cooldown;
      failures, openedAt, history := map[], map[], map[];
    }

    method IsOpen(provider: string, now: real) returns (open: bool)
      requires Valid()
      ensures open == Open(Of(history, provider), threshold, cooldown, now)
    {
      assert Agrees(provider);
      if provider !in openedAt {
        return false;
      }
      open := !(now - openedAt[provider] >= cooldown);
    }

    method RecordSuccess(provider: string, now: real)
      requires Valid()
      modifies this
      ensures Valid() && history == Recorded(old(history), provider, Outcome(true, now))
    {
      failures := failures[provider := 0];
      openedAt := openedAt - {provider};
      history := Recorded(history, provider, Outcome(true, now));
      forall p ensures Agrees(p) {
        assert old(Agrees(p));
      }
    }

    method RecordFailure(provider: string, now: real)
      requires Valid()
      modifies this
      ensures Valid() && history == Recorded(old(history), provider, Outcome(false, now))
    {
      assert Agrees(provider);
      ghost var h := Of(history, provider);
      assert (h + [Outcome(false, now)])[..|h|] == h;
      failures := failures[provider := FailuresOf(provider) + 1];
      if failures[provider] >= threshold {
        openedAt := openedAt[provider := now];
      }
      history := Recorded(history, provider, Outcome(false, now));
      forall p ensures Agrees(p) {
        assert old(Agrees(p));
      }
    }

    method GetCircuitState(provider: string, now: real) returns (state: CircuitState)
      requires Valid()
      ensures state == StateOf(Of(history, provider), threshold, cooldown, now)
    {
      assert Agrees(provider);
      var open := IsOpen(provider, now);
      if open {
        return StateOpen;
      }
      if provider in openedAt && FailuresOf(provider) > 0 {
        return StateHalfOpen;
      }
      return StateClosed;
    }
  }

  // ----- what the history says -----

  /** The run is what its name says: that many failures at the end, and before them a success or
      nothing. */
  lemma {:induction false} RunIsTrailing(h: History)
    ensures forall i :: |h| - Run(h) <= i < |h| ==> !h[i].ok
    ensures Run(h) < |h| ==> h[|h| - Run(h) - 1].ok
  {
    if h != [] && !h[|h| - 1].ok {
      var front := h[..|h| - 1];
      RunIsTrailing(front);
      forall i | |h| - Run(h) <= i < |h| ensures !h[i].ok {
        assert i < |front| ==> front[i] == h[i];
      }
    }
  }

  /** The last `n` outcomes are failures. */
  predicate FailedLast(h: History, n: int) {
    n <= |h| && forall i :: 0 <= i < |h| && |h| - n <= i ==> !h[i].ok
  }

  /** A breaker has tripped exactly if the threshold's last outcomes, at least one, are failures; it is open
      while less than the cooldown has passed since the last of them, then half open. */
  lemma {:induction false} OpenExactly(h: History, threshold: int, cooldown: real, now: real)
    ensures var n := if threshold < 1 then 1 else threshold;
            && (Tripped(h, threshold) <==> FailedLast(h, n))
            && (Open(h, threshold, cooldown, now) <==> FailedLast(h, n) && now < h[|h| - 1].at + cooldown)
            && (StateOf(h, threshold, cooldown, now) == StateOpen <==> FailedLast(h, n) && now < h[|h| - 1].at + cooldown)
            && (StateOf(h, threshold, cooldown, now) == StateHalfOpen <==> FailedLast(h, n) && now >= h[|h| - 1].at + cooldown)
            && (StateOf(h, threshold, cooldown, now) == StateClosed <==> !FailedLast(h, n))
  {
    RunIsTrailing(h);
    if Run(h) < |h| {
      assert h[|h| - Run(h) - 1].ok;
    }
  }

  /** A success closes the breaker whatever came before. From there, and from the start, failures in a
      row trip it at the threshold and not before; once tripped, one failed trial trips it again. */
  lemma {:induction false} BreakerCycle(h: History, good: Outcome, more: History, threshold: int)
    requires good.ok && forall i :: 0 <= i < |more| ==> !more[i].ok
    ensures !Tripped(h + [good], threshold)
    ensures h == [] || h[|h| - 1].ok ==> (Tripped(h + more, threshold) <==> |more| >= AtLeastOne(threshold))
    ensures Tripped(h, threshold) ==> Tripped(h + more, threshold)
  {
    RunOfFailures(h, more);
  }

  lemma {:induction false} RunOfFailures(h: History, more: History)
    requires forall i :: 0 <= i < |more| ==> !more[i].ok
    ensures Run(h + more) == Run(h) + |more|
  {
    if more == [] {
      assert h + more == h;
    } else {
      var front := more[..|more| - 1];
      RunOfFailures(h, front);
      assert (h + more)[..|h + more| - 1] == h + front;
    }
  }

  /** With a clock that never goes back, a breaker that lets a call through keeps letting it through
      until the next outcome is recorded. */
  lemma {:induction false} StaysPassable(h: History, threshold: int, cooldown: real, now: real, later: real)
    requires now <= later && !Open(h, threshold, cooldown, now)
    ensures !Open(h, threshold, cooldown, later)
  {
  }
}
