/** Detection chains (pwnproxy/plugins/core/chain.py): stages in sequence, each on the points not yet
    confirmed, against stages in waves by depth under a time budget, each wave on the points not
    confirmed before it began. */
module Chain {
  import opened Wrappers
  import Seqs

  datatype Depth = Fast | Standard | Deep

  function Level(d: Depth): nat {
    match d case Fast => 0 case Standard => 1 case Deep => 2
  }

  type Key = string
  type Finding = string

  datatype Point = Point(key: Key, value: string)

  datatype StageResult = StageResult(findings: seq<Finding>, confirmed: set<Key>)

  /** What a stage reports for a list of points; None stands for an exception. */
  type Behaviour = seq<Point> -> Option<StageResult>

  datatype Stage = Stage(minDepth: Depth, execute: Behaviour)

  /** One executed stage: its wave, the points it was given, the keys it confirmed, and the elapsed
      time read just before it. */
  datatype Executed = Executed(stage: Stage, level: nat, tested: seq<Point>, confirmed: set<Key>, at: int)

  datatype Progress = Progress(findings: seq<Finding>, confirmed: set<Key>, log: seq<Executed>)

  const NOTHING := Progress([], {}, [])

  predicate ShouldRun(s: Stage, depth: Depth) {
    Level(depth) >= Level(s.minDepth)
  }

  function Remaining(points: seq<Point>, confirmed: set<Key>): (rest: seq<Point>)
    ensures forall p :: p in rest <==> p in points && p.key !in confirmed
  {
    if points == [] then []
    else (if points[0].key !in confirmed then [points[0]] else []) + Remaining(points[1..], confirmed)
  }

  function Execute(s: Stage, points: seq<Point>, at: int, pr: Progress): Progress {
    match s.execute(points)
    case None => pr.(log := pr.log + [Executed(s, Level(s.minDepth), points, {}, at)])
    case Some(r) =>
      Progress(pr.findings + r.findings, pr.confirmed + r.confirmed,
               pr.log + [Executed(s, Level(s.minDepth), points, r.confirmed, at)])
  }

  // ----- DetectionChain -----

  function Detect(stages: seq<Stage>, depth: Depth, points: seq<Point>, pr: Progress): Progress {
    if stages == [] then pr
    else if !ShouldRun(stages[0], depth) then Detect(stages[1..], depth, points, pr)
    else
      var remaining := Remaining(points, pr.confirmed);
      if remaining == [] then pr else Detect(stages[1..], depth, points, Execute(stages[0], remaining, 0, pr))
  }

  method DetectionChainRun(stages: seq<Stage>, depth: Depth, points: seq<Point>) returns (pr: Progress)
    ensures pr == Detect(stages, depth, points, NOTHING)
  {
    pr := NOTHING;
    var i := 0;
    assert stages[0..] == stages;
    while i < |stages|
      invariant 0 <= i <= |stages|
      invariant Detect(stages, depth, points, NOTHING) == Detect(stages[i..], depth, points, pr)
    {
      assert stages[i..][1..] == stages[i + 1..];
      var stage := stages[i];
      i := i + 1;
      if !ShouldRun(stage, depth) {
        continue;
      }
      var remaining := Remaining(points, pr.confirmed);
      if remaining == [] {
        return;
      }
      pr := Execute(stage, remaining, 0, pr);
    }
  }

  // ----- BudgetChain -----

  /** A chain state with the number of clock readings taken so far. */
  datatype Timed = Timed(pr: Progress, readings: nat)

  datatype Limits = Limits(depth: Depth, maxDepth: Depth, budget: int)

  predicate DepthAllows(l: Limits, wave: nat) {
    Level(l.depth) <= wave <= Level(l.maxDepth)
  }

  function WaveStages(stages: seq<Stage>, wave: nat): seq<Stage> {
    if stages == [] then []
    else (if Level(stages[0].minDepth) == wave then [stages[0]] else []) + WaveStages(stages[1..], wave)
  }

  /** The stages of one wave; a reading at or over the budget ends it. */
  function RunWave(stages: seq<Stage>, points: seq<Point>, clock: nat -> int, budget: int, t: Timed): Timed {
    if stages == [] then t
    else if clock(t.readings) >= budget then t.(readings := t.readings + 1)
    else RunWave(stages[1..], points, clock, budget,
                 Timed(Execute(stages[0], points, clock(t.readings), t.pr), t.readings + 1))
  }

  function RunWaves(stages: seq<Stage>, l: Limits, points: seq<Point>, clock: nat -> int, wave: nat, t: Timed): Timed
    decreases 3 - wave
  {
    if wave >= 3 then t
    else if !DepthAllows(l, wave) then RunWaves(stages, l, points, clock, wave + 1, t)
    else if clock(t.readings) >= l.budget then t.(readings := t.readings + 1)
    else
      var remaining := Remaining(points, t.pr.confirmed);
      if remaining == [] then t.(readings := t.readings + 1)
      else RunWaves(stages, l, points, clock, wave + 1,
                    RunWave(WaveStages(stages, wave), remaining, clock, l.budget, t.(readings := t.readings + 1)))
  }

  method BudgetChainRun(stages: seq<Stage>, l: Limits, points: seq<Point>, clock: nat -> int) returns (pr: Progress)
    ensures pr == RunWaves(stages, l, points, clock, 0, Timed(NOTHING, 0)).pr
  {
    var t := Timed(NOTHING, 0);
    var wave := 0;
    ghost var all := RunWaves(stages, l, points, clock, 0, t);
    while wave < 3
      invariant 0 <= wave <= 3
      invariant all == RunWaves(stages, l, points, clock, wave, t)
    {
      var here := wave;
      wave := wave + 1;
      if !DepthAllows(l, here) {
        continue;
      }
      var elapsed := clock(t.readings);
      ghost var before := t;
      t := t.(readings := t.readings + 1);
      if elapsed >= l.budget {
        return t.pr;
      }
      var remaining := Remaining(points, t.pr.confirmed);
      if remaining == [] {
        return t.pr;
      }
      var waveStages := WaveStages(stages, here);
      if waveStages == [] {
        continue;
      }
      ghost var start := t;
      var i := 0;
      assert waveStages[0..] == waveStages;
      while i < |waveStages|
        invariant 0 <= i <= |waveStages|
        invariant RunWave(waveStages, remaining, clock, l.budget, start)
               == RunWave(waveStages[i..], remaining, clock, l.budget, t)
      {
        assert waveStages[i..][1..] == waveStages[i + 1..];
        var now := clock(t.readings);
        if now >= l.budget {
          t := t.(readings := t.readings + 1);
          break;
        }
        t := Timed(Execute(waveStages[i], remaining, now, t.pr), t.readings + 1);
        i := i + 1;
      }
      assert t == RunWave(waveStages, remaining, clock, l.budget, start);
    }
    pr := t.pr;
  }

  // ----- nothing confirmed is tested again -----

  /** The keys confirmed are those the executed stages confirmed, and no stage is given a point that
      an earlier stage (of a lower wave, if `byWave`) confirmed. */
  ghost predicate NoRetest(pr: Progress, byWave: bool) {
    && (forall i, k :: 0 <= i < |pr.log| && k in pr.log[i].confirmed ==> k in pr.confirmed)
    && forall i, j :: 0 <= i < j < |pr.log| && (byWave ==> pr.log[i].level < pr.log[j].level) ==> Untouched(pr.log[i], pr.log[j])
  }

  ghost predicate Untouched(a: Executed, b: Executed) {
    forall p :: p in b.tested ==> p.key !in a.confirmed
  }

  lemma {:induction false} DetectNeverRetests(stages: seq<Stage>, depth: Depth, points: seq<Point>, pr: Progress)
    requires NoRetest(pr, false)
    ensures NoRetest(Detect(stages, depth, points, pr), false)
  {
    if stages != [] {
      if ShouldRun(stages[0], depth) {
        var remaining := Remaining(points, pr.confirmed);
        if remaining != [] {
          DetectNeverRetests(stages[1..], depth, points, Execute(stages[0], remaining, 0, pr));
        }
      } else {
        DetectNeverRetests(stages[1..], depth, points, pr);
      }
    }
  }

  /** Nothing in the log belongs to a wave above `top`, and the points of the wave under way
      exclude everything that lower waves confirmed. */
  ghost predicate WaveFresh(pr: Progress, wave: nat, points: seq<Point>) {
    && (forall i :: 0 <= i < |pr.log| ==> pr.log[i].level <= wave)
    && forall i, p :: 0 <= i < |pr.log| && pr.log[i].level < wave && p in points ==> p.key !in pr.log[i].confirmed
  }

  lemma {:induction false} WaveNeverRetests(stages: seq<Stage>, wave: nat, points: seq<Point>, clock: nat -> int, budget: int, t: Timed)
    requires NoRetest(t.pr, true) && WaveFresh(t.pr, wave, points)
    requires forall s :: s in stages ==> Level(s.minDepth) == wave
    ensures var t' := RunWave(stages, points, clock, budget, t);
            NoRetest(t'.pr, true) && forall i :: 0 <= i < |t'.pr.log| ==> t'.pr.log[i].level <= wave
  {
    if stages != [] && clock(t.readings) < budget {
      assert stages[0] in stages;
      WaveNeverRetests(stages[1..], wave, points, clock, budget,
                       Timed(Execute(stages[0], points, clock(t.readings), t.pr), t.readings + 1));
    }
  }

  lemma {:induction false} WaveStagesLevel(stages: seq<Stage>, wave: nat)
    ensures forall s :: s in WaveStages(stages, wave) <==> s in stages && Level(s.minDepth) == wave
  {
    if stages != [] {
      WaveStagesLevel(stages[1..], wave);
    }
  }

  /** For every clock and budget: no point confirmed in an earlier wave is ever tested again. */
  lemma {:induction false} WavesNeverRetest(stages: seq<Stage>, l: Limits, points: seq<Point>, clock: nat -> int, wave: nat, t: Timed)
    requires NoRetest(t.pr, true) && forall i :: 0 <= i < |t.pr.log| ==> t.pr.log[i].level < wave
    ensures NoRetest(RunWaves(stages, l, points, clock, wave, t).pr, true)
    decreases 3 - wave
  {
    if wave < 3 {
      if !DepthAllows(l, wave) {
        WavesNeverRetest(stages, l, points, clock, wave + 1, t);
      } else if clock(t.readings) < l.budget {
        var remaining := Remaining(points, t.pr.confirmed);
        if remaining != [] {
          var t1 := t.(readings := t.readings + 1);
          WaveStagesLevel(stages, wave);
          WaveNeverRetests(WaveStages(stages, wave), wave, remaining, clock, l.budget, t1);
          WavesNeverRetest(stages, l, points, clock, wave + 1,
                           RunWave(WaveStages(stages, wave), remaining, clock, l.budget, t1));
        }
      }
    }
  }

  // ----- what a run yields is what its stages reported -----

  /** What the stage of this entry returned for the points it was given; a failed one counts for nothing. */
  function Returned(e: Executed): StageResult {
    match e.stage.execute(e.tested) case None => StageResult([], {}) case Some(r) => r
  }

  function Reported(log: seq<Executed>): seq<Finding> {
    if log == [] then [] else Reported(log[..|log| - 1]) + Returned(log[|log| - 1]).findings
  }

  function ConfirmedBy(log: seq<Executed>): set<Key> {
    if log == [] then {} else ConfirmedBy(log[..|log| - 1]) + Returned(log[|log| - 1]).confirmed
  }

  /** What the stages of the waves below this one confirmed. */
  function ConfirmedBelow(log: seq<Executed>, wave: nat): set<Key> {
    if log == [] then {}
    else
      var e := log[|log| - 1];
      ConfirmedBelow(log[..|log| - 1], wave) + (if Level(e.stage.minDepth) < wave then Returned(e).confirmed else {})
  }

  /** The points no earlier stage confirmed, in order. */
  ghost predicate Leftover(points: seq<Point>, confirmed: set<Key>, rest: seq<Point>) {
    rest == Seqs.Filter(points, (p: Point) => p.key !in confirmed)
  }

  lemma {:induction false} RemainingIsFilter(points: seq<Point>, confirmed: set<Key>, keep: Point -> bool)
    requires forall p :: keep(p) <==> p.key !in confirmed
    ensures Remaining(points, confirmed) == Seqs.Filter(points, keep)
  {
    if points != [] {
      RemainingIsFilter(points[1..], confirmed, keep);
    }
  }

  lemma {:induction false} RemainingIsLeftover(points: seq<Point>, confirmed: set<Key>)
    ensures Leftover(points, confirmed, Remaining(points, confirmed))
  {
    RemainingIsFilter(points, confirmed, (p: Point) => p.key !in confirmed);
  }

  /** Each stage was given, in order, what the stages before it had not confirmed, and never nothing. */
  ghost predicate InSequence(log: seq<Executed>, points: seq<Point>) {
    log == [] ||
    var init, e := log[..|log| - 1], log[|log| - 1];
    InSequence(init, points) && e.tested != [] && Leftover(points, ConfirmedBy(init), e.tested)
  }

  /** Each stage was given, in order, what the waves below its own had not confirmed, and never nothing. */
  ghost predicate InWaves(log: seq<Executed>, points: seq<Point>) {
    log == [] ||
    var init, e := log[..|log| - 1], log[|log| - 1];
    InWaves(init, points) && e.tested != [] && Leftover(points, ConfirmedBelow(init, Level(e.stage.minDepth)), e.tested)
  }

  /** Findings and confirmations are those of the executed stages, in the order of execution. */
  ghost predicate Explained(pr: Progress) {
    pr.findings == Reported(pr.log) && pr.confirmed == ConfirmedBy(pr.log)
  }

  lemma {:induction false} ExecuteIsExplained(s: Stage, points: seq<Point>, at: int, pr: Progress)
    requires Explained(pr)
    ensures var next := Execute(s, points, at, pr);
            && Explained(next) && |next.log| == |pr.log| + 1 && next.log[..|pr.log|] == pr.log
            && next.log[|pr.log|].stage == s && next.log[|pr.log|].tested == points
  {
    var next := Execute(s, points, at, pr);
    assert next.log[..|pr.log|] == pr.log;
  }

  /** The stages of `DetectionChain`, as it took them, and what each was given and reported. */
  lemma {:induction false} DetectIsItsLog(stages: seq<Stage>, depth: Depth, points: seq<Point>, pr: Progress)
    requires Explained(pr) && InSequence(pr.log, points)
    ensures var r := Detect(stages, depth, points, pr); Explained(r) && InSequence(r.log, points)
  {
    if stages != [] {
      if ShouldRun(stages[0], depth) {
        var remaining := Remaining(points, pr.confirmed);
        if remaining != [] {
          RemainingIsLeftover(points, pr.confirmed);
          ExecuteIsExplained(stages[0], remaining, 0, pr);
          DetectIsItsLog(stages[1..], depth, points, Execute(stages[0], remaining, 0, pr));
        }
      } else {
        DetectIsItsLog(stages[1..], depth, points, pr);
      }
    }
  }

  /** Every entry belongs to a wave below this one, and within the depths the chain is limited to. */
  ghost predicate BelowWave(log: seq<Executed>, l: Limits, wave: nat) {
    log == [] ||
    var e := log[|log| - 1];
    BelowWave(log[..|log| - 1], l, wave) && Level(l.depth) <= Level(e.stage.minDepth) <= Level(l.maxDepth)
    && Level(e.stage.minDepth) < wave
  }

  lemma {:induction false} BelowHigherWave(log: seq<Executed>, l: Limits, wave: nat, higher: nat)
    requires BelowWave(log, l, wave) && wave <= higher
    ensures BelowWave(log, l, higher)
  {
    if log != [] {
      BelowHigherWave(log[..|log| - 1], l, wave, higher);
    }
  }

  lemma {:induction false} AllBelow(log: seq<Executed>, l: Limits, wave: nat)
    requires BelowWave(log, l, wave)
    ensures ConfirmedBelow(log, wave) == ConfirmedBy(log)
  {
    if log != [] {
      AllBelow(log[..|log| - 1], l, wave);
    }
  }

  lemma {:induction false} WaveIsItsLog(stages: seq<Stage>, l: Limits, all: seq<Point>, points: seq<Point>, clock: nat -> int,
                                        wave: nat, t: Timed)
    requires Explained(t.pr) && InWaves(t.pr.log, all) && BelowWave(t.pr.log, l, wave + 1) && DepthAllows(l, wave)
    requires points != [] && Leftover(all, ConfirmedBelow(t.pr.log, wave), points)
    requires forall s :: s in stages ==> Level(s.minDepth) == wave
    ensures var r := RunWave(stages, points, clock, l.budget, t).pr;
            Explained(r) && InWaves(r.log, all) && BelowWave(r.log, l, wave + 1)
  {
    if stages != [] && clock(t.readings) < l.budget {
      assert stages[0] in stages;
      ExecuteIsExplained(stages[0], points, clock(t.readings), t.pr);
      assert ConfirmedBelow(Execute(stages[0], points, clock(t.readings), t.pr).log, wave) == ConfirmedBelow(t.pr.log, wave);
      WaveIsItsLog(stages[1..], l, all, points, clock, wave,
                   Timed(Execute(stages[0], points, clock(t.readings), t.pr), t.readings + 1));
    }
  }

  lemma {:induction false} WaveKeepsLog(stages: seq<Stage>, l: Limits, points: seq<Point>, clock: nat -> int, wave: nat,
                                        t: Timed, t1: Timed)
    requires Explained(t.pr) && InWaves(t.pr.log, points) && BelowWave(t.pr.log, l, wave) && DepthAllows(l, wave)
    requires Remaining(points, t.pr.confirmed) != [] && t1.pr == t.pr
    ensures var r := RunWave(WaveStages(stages, wave), Remaining(points, t.pr.confirmed), clock, l.budget, t1).pr;
            Explained(r) && InWaves(r.log, points) && BelowWave(r.log, l, wave + 1)
  {
    RemainingIsLeftover(points, t.pr.confirmed);
    AllBelow(t.pr.log, l, wave);
    BelowHigherWave(t.pr.log, l, wave, wave + 1);
    WaveStagesLevel(stages, wave);
    WaveIsItsLog(WaveStages(stages, wave), l, points, Remaining(points, t.pr.confirmed), clock, wave, t1);
  }

  /** For every clock, budget and limits: what the budgeted chain yields is what its executed stages reported,
      in their order; each belongs to a wave within the limits, and was given what lower waves left. */
  lemma {:induction false} WavesAreTheirLog(stages: seq<Stage>, l: Limits, points: seq<Point>, clock: nat -> int, wave: nat, t: Timed)
    returns (r: Progress)
    requires wave <= 3 && Explained(t.pr) && InWaves(t.pr.log, points) && BelowWave(t.pr.log, l, wave)
    ensures r == RunWaves(stages, l, points, clock, wave, t).pr
    ensures Explained(r) && InWaves(r.log, points) && BelowWave(r.log, l, 3)
    decreases 3 - wave
  {
    r := t.pr;
    BelowHigherWave(t.pr.log, l, wave, 3);
    if wave < 3 {
      if !DepthAllows(l, wave) {
        BelowHigherWave(t.pr.log, l, wave, wave + 1);
        r := WavesAreTheirLog(stages, l, points, clock, wave + 1, t);
      } else if clock(t.readings) < l.budget && Remaining(points, t.pr.confirmed) != [] {
        var t1 := t.(readings := t.readings + 1);
        var t2 := RunWave(WaveStages(stages, wave), Remaining(points, t.pr.confirmed), clock, l.budget, t1);
        WaveKeepsLog(stages, l, points, clock, wave, t, t1);
        r := WavesAreTheirLog(stages, l, points, clock, wave + 1, t2);
      }
    }
  }

  /** An exhausted budget takes nothing back. */
  lemma {:induction false} BudgetKeepsFindings(stages: seq<Stage>, l: Limits, points: seq<Point>, clock: nat -> int, wave: nat, t: Timed)
    ensures Extends(t.pr, RunWaves(stages, l, points, clock, wave, t).pr)
    decreases 3 - wave
  {
    if wave < 3 {
      if !DepthAllows(l, wave) {
        BudgetKeepsFindings(stages, l, points, clock, wave + 1, t);
      } else if clock(t.readings) < l.budget {
        var remaining, t1, ws := Remaining(points, t.pr.confirmed), t.(readings := t.readings + 1), WaveStages(stages, wave);
        if remaining != [] {
          WaveExtends(ws, remaining, clock, l.budget, t1);
          BudgetKeepsFindings(stages, l, points, clock, wave + 1, RunWave(ws, remaining, clock, l.budget, t1));
        }
      }
    }
  }

  ghost predicate Extends(before: Progress, after: Progress) {
    before.findings <= after.findings && before.confirmed <= after.confirmed && before.log <= after.log
  }

  lemma {:induction false} WaveExtends(stages: seq<Stage>, points: seq<Point>, clock: nat -> int, budget: int, t: Timed)
    ensures Extends(t.pr, RunWave(stages, points, clock, budget, t).pr)
  {
    if stages != [] && clock(t.readings) < budget {
      WaveExtends(stages[1..], points, clock, budget,
                  Timed(Execute(stages[0], points, clock(t.readings), t.pr), t.readings + 1));
    }
  }

  // ----- which stages have their turn -----

  function StagesOf(log: seq<Executed>): (ss: seq<Stage>)
    ensures |ss| == |log|
  {
    seq(|log|, i requires 0 <= i < |log| => log[i].stage)
  }

  lemma {:induction false} StagesOfMore(s: Stage, points: seq<Point>, at: int, pr: Progress)
    ensures StagesOf(Execute(s, points, at, pr).log) == StagesOf(pr.log) + [s]
  {
  }

  ghost predicate SomeLeft(points: seq<Point>, confirmed: set<Key>) {
    exists p :: p in points && p.key !in confirmed
  }

  lemma {:induction false} StillLeft(points: seq<Point>, confirmed: set<Key>, more: set<Key>)
    requires SomeLeft(points, more) && confirmed <= more
    ensures Remaining(points, confirmed) != []
  {
    var p :| p in points && p.key !in more;
    assert p in Remaining(points, confirmed);
  }

  /** As long as a point is left, `DetectionChain` executes every stage its depth allows, in order. */
  lemma {:induction false} DetectTakesAll(stages: seq<Stage>, depth: Depth, points: seq<Point>, pr: Progress, keep: Stage -> bool)
    requires SomeLeft(points, Detect(stages, depth, points, pr).confirmed)
    requires forall s :: keep(s) <==> Level(s.minDepth) <= Level(depth)
    ensures StagesOf(Detect(stages, depth, points, pr).log) == StagesOf(pr.log) + Seqs.Filter(stages, keep)
  {
    if stages == [] {
    } else if ShouldRun(stages[0], depth) {
      var remaining := Remaining(points, pr.confirmed);
      DetectConfirmsMore(stages, depth, points, pr);
      StillLeft(points, pr.confirmed, Detect(stages, depth, points, pr).confirmed);
      StagesOfMore(stages[0], remaining, 0, pr);
      DetectTakesAll(stages[1..], depth, points, Execute(stages[0], remaining, 0, pr), keep);
      Seqs.AppendAssoc(StagesOf(pr.log), [stages[0]], Seqs.Filter(stages[1..], keep));
    } else {
      DetectTakesAll(stages[1..], depth, points, pr, keep);
    }
  }

  lemma {:induction false} DetectConfirmsMore(stages: seq<Stage>, depth: Depth, points: seq<Point>, pr: Progress)
    ensures pr.confirmed <= Detect(stages, depth, points, pr).confirmed
  {
    if stages != [] {
      if !ShouldRun(stages[0], depth) {
        DetectConfirmsMore(stages[1..], depth, points, pr);
      } else {
        var remaining := Remaining(points, pr.confirmed);
        if remaining != [] {
          DetectConfirmsMore(stages[1..], depth, points, Execute(stages[0], remaining, 0, pr));
        }
      }
    }
  }

  lemma {:induction false} WaveStagesAreFilter(stages: seq<Stage>, wave: nat, keep: Stage -> bool)
    requires forall s :: keep(s) <==> Level(s.minDepth) == wave
    ensures WaveStages(stages, wave) == Seqs.Filter(stages, keep)
  {
    if stages != [] {
      WaveStagesAreFilter(stages[1..], wave, keep);
    }
  }

  /** The stages of the waves from this one on that the limits allow, wave by wave, in the order given. */
  function Turns(stages: seq<Stage>, l: Limits, wave: nat): seq<Stage>
    decreases 3 - wave
  {
    if wave >= 3 then []
    else (if Level(l.depth) <= wave <= Level(l.maxDepth) then Seqs.Filter(stages, (s: Stage) => Level(s.minDepth) == wave) else [])
         + Turns(stages, l, wave + 1)
  }

  lemma {:induction false} WaveTakesAll(stages: seq<Stage>, points: seq<Point>, clock: nat -> int, budget: int, t: Timed)
    requires forall i :: clock(i) < budget
    ensures StagesOf(RunWave(stages, points, clock, budget, t).pr.log) == StagesOf(t.pr.log) + stages
  {
    if stages == [] {
      assert StagesOf(t.pr.log) + stages == StagesOf(t.pr.log);
    } else {
      var next := Timed(Execute(stages[0], points, clock(t.readings), t.pr), t.readings + 1);
      StagesOfMore(stages[0], points, clock(t.readings), t.pr);
      WaveTakesAll(stages[1..], points, clock, budget, next);
      Seqs.AppendAssoc(StagesOf(t.pr.log), [stages[0]], stages[1..]);
      assert stages == [stages[0]] + stages[1..];
    }
  }

  /** As long as a point is left and the budget lasts, every stage within the limits has its turn. */
  lemma {:induction false} WavesTakeAll(stages: seq<Stage>, l: Limits, points: seq<Point>, clock: nat -> int, wave: nat, t: Timed)
    requires (forall i :: clock(i) < l.budget) && SomeLeft(points, RunWaves(stages, l, points, clock, wave, t).pr.confirmed)
    ensures StagesOf(RunWaves(stages, l, points, clock, wave, t).pr.log) == StagesOf(t.pr.log) + Turns(stages, l, wave)
    decreases 3 - wave
  {
    if wave < 3 {
      if DepthAllows(l, wave) {
        var remaining, t1, ws := Remaining(points, t.pr.confirmed), t.(readings := t.readings + 1), WaveStages(stages, wave);
        BudgetKeepsFindings(stages, l, points, clock, wave, t);
        StillLeft(points, t.pr.confirmed, RunWaves(stages, l, points, clock, wave, t).pr.confirmed);
        WaveTakesAll(ws, remaining, clock, l.budget, t1);
        WavesTakeAll(stages, l, points, clock, wave + 1, RunWave(ws, remaining, clock, l.budget, t1));
        WaveStagesAreFilter(stages, wave, (s: Stage) => Level(s.minDepth) == wave);
        Seqs.AppendAssoc(StagesOf(t.pr.log), ws, Turns(stages, l, wave + 1));
      } else {
        WavesTakeAll(stages, l, points, clock, wave + 1, t);
        assert [] + Turns(stages, l, wave + 1) == Turns(stages, l, wave + 1);
      }
    }
  }

  // ----- the budget only cuts the end off -----

  const FROZEN: nat -> int := _ => 0

  /** The log with every clock reading at 0. */
  function Untimed(log: seq<Executed>): (r: seq<Executed>)
    ensures |r| == |log|
  {
    seq(|log|, i requires 0 <= i < |log| => log[i].(at := 0))
  }

  ghost predicate NeverGoesBack(clock: nat -> int) {
    forall i, j :: i <= j ==> clock(i) <= clock(j)
  }

  /** The clocked state is the unclocked one, or has stopped before it. */
  ghost predicate Follows(t: Timed, u: Timed, clock: nat -> int, budget: int) {
    || (Untimed(t.pr.log) == u.pr.log && t.pr.confirmed == u.pr.confirmed)
    || (Untimed(t.pr.log) <= u.pr.log && clock(t.readings) >= budget)
  }

  lemma {:induction false} ExecuteUntimed(s: Stage, points: seq<Point>, at: int, a: Progress, b: Progress)
    requires Untimed(a.log) == b.log && a.confirmed == b.confirmed
    ensures var x, y := Execute(s, points, at, a), Execute(s, points, 0, b);
            Untimed(x.log) == y.log && x.confirmed == y.confirmed
  {
    var x, y := Execute(s, points, at, a), Execute(s, points, 0, b);
    assert Untimed(x.log) == Untimed(a.log) + [x.log[|a.log|].(at := 0)];
  }

  lemma {:induction false} WaveFollows(stages: seq<Stage>, points: seq<Point>, clock: nat -> int, budget: int, t: Timed, u: Timed)
    requires NeverGoesBack(clock) && Untimed(t.pr.log) == u.pr.log && t.pr.confirmed == u.pr.confirmed
    ensures Follows(RunWave(stages, points, clock, budget, t), RunWave(stages, points, FROZEN, 1, u), clock, budget)
  {
    if stages != [] {
      if clock(t.readings) >= budget {
        WaveExtends(stages, points, FROZEN, 1, u);
      } else {
        ExecuteUntimed(stages[0], points, clock(t.readings), t.pr, u.pr);
        WaveFollows(stages[1..], points, clock, budget,
                    Timed(Execute(stages[0], points, clock(t.readings), t.pr), t.readings + 1),
                    Timed(Execute(stages[0], points, 0, u.pr), u.readings + 1));
      }
    }
  }

  /** Once over, a budget stays over. */
  lemma {:induction false} SpentIsSpent(stages: seq<Stage>, l: Limits, points: seq<Point>, clock: nat -> int, wave: nat, t: Timed)
    requires NeverGoesBack(clock) && clock(t.readings) >= l.budget
    ensures RunWaves(stages, l, points, clock, wave, t).pr == t.pr
    decreases 3 - wave
  {
    if wave < 3 && !DepthAllows(l, wave) {
      SpentIsSpent(stages, l, points, clock, wave + 1, t);
    }
  }

  /** With a clock that never goes back, the stages executed within a budget are the first ones of the run
      without a budget, given the same points. */
  lemma {:induction false} BudgetCutsTheEnd(stages: seq<Stage>, l: Limits, points: seq<Point>, clock: nat -> int,
                                            wave: nat, t: Timed, u: Timed)
    requires NeverGoesBack(clock) && Follows(t, u, clock, l.budget)
    ensures Untimed(RunWaves(stages, l, points, clock, wave, t).pr.log)
         <= RunWaves(stages, l.(budget := 1), points, FROZEN, wave, u).pr.log
    decreases 3 - wave
  {
    var free := l.(budget := 1);
    if clock(t.readings) >= l.budget {
      SpentIsSpent(stages, l, points, clock, wave, t);
      BudgetKeepsFindings(stages, free, points, FROZEN, wave, u);
    } else if wave < 3 {
      if !DepthAllows(l, wave) {
        BudgetCutsTheEnd(stages, l, points, clock, wave + 1, t, u);
      } else {
        var remaining, ws := Remaining(points, t.pr.confirmed), WaveStages(stages, wave);
        if remaining != [] {
          var t1, u1 := t.(readings := t.readings + 1), u.(readings := u.readings + 1);
          WaveFollows(ws, remaining, clock, l.budget, t1, u1);
          BudgetCutsTheEnd(stages, l, points, clock, wave + 1,
                           RunWave(ws, remaining, clock, l.budget, t1), RunWave(ws, remaining, FROZEN, 1, u1));
        }
      }
    }
  }

  // ----- the two chains agree -----

  /** The waves without a clock. */
  function Wave(stages: seq<Stage>, points: seq<Point>, pr: Progress): Progress {
    if stages == [] then pr else Wave(stages[1..], points, Execute(stages[0], points, 0, pr))
  }

  function Waves(stages: seq<Stage>, depth: Depth, points: seq<Point>, wave: nat, pr: Progress): Progress
    decreases 3 - wave
  {
    if wave > Level(depth) then pr
    else
      var remaining := Remaining(points, pr.confirmed);
      if remaining == [] then pr
      else Waves(stages, depth, points, wave + 1, Wave(WaveStages(stages, wave), remaining, pr))
  }

  /** What a caller sees of a chain. */
  ghost predicate Same(a: Progress, b: Progress) {
    a.findings == b.findings && a.confirmed == b.confirmed
  }

  lemma {:induction false} UntimedWave(stages: seq<Stage>, points: seq<Point>, clock: nat -> int, budget: int, t: Timed, pr: Progress)
    requires (forall i :: clock(i) < budget) && Same(t.pr, pr)
    ensures Same(RunWave(stages, points, clock, budget, t).pr, Wave(stages, points, pr))
  {
    if stages != [] {
      UntimedWave(stages[1..], points, clock, budget,
                  Timed(Execute(stages[0], points, clock(t.readings), t.pr), t.readings + 1),
                  Execute(stages[0], points, 0, pr));
    }
  }

  /** `chain_from_depth` starts at FAST with the requested depth as its ceiling; if the clock never
      reaches the budget it is the untimed waves. */
  lemma {:induction false} UntimedWaves(stages: seq<Stage>, depth: Depth, budget: int, points: seq<Point>, clock: nat -> int,
                                        wave: nat, t: Timed, pr: Progress)
    requires (forall i :: clock(i) < budget) && Same(t.pr, pr)
    ensures Same(RunWaves(stages, Limits(Fast, depth, budget), points, clock, wave, t).pr, Waves(stages, depth, points, wave, pr))
    decreases 3 - wave
  {
    var l := Limits(Fast, depth, budget);
    if wave < 3 {
      if wave > Level(depth) {
        UntimedWaves(stages, depth, budget, points, clock, wave + 1, t, pr);
      } else {
        var remaining := Remaining(points, pr.confirmed);
        if remaining != [] {
          var t1 := t.(readings := t.readings + 1);
          UntimedWave(WaveStages(stages, wave), remaining, clock, budget, t1, pr);
          UntimedWaves(stages, depth, budget, points, clock, wave + 1,
                       RunWave(WaveStages(stages, wave), remaining, clock, budget, t1),
                       Wave(WaveStages(stages, wave), remaining, pr));
        }
      }
    }
  }

  /** The stages a depth runs come in strictly increasing depth: sorted by it, one per depth. */
  ghost predicate Laddered(stages: seq<Stage>, depth: Depth) {
    forall i, j :: 0 <= i < j < |stages| && ShouldRun(stages[i], depth) && ShouldRun(stages[j], depth) ==>
      Level(stages[i].minDepth) < Level(stages[j].minDepth)
  }

  /** What runs at this depth belongs to wave `wave` or a later one. */
  ghost predicate FromWave(stages: seq<Stage>, depth: Depth, wave: nat) {
    forall s :: s in stages && ShouldRun(s, depth) ==> wave <= Level(s.minDepth)
  }

  ghost predicate SameWaves(all: seq<Stage>, rest: seq<Stage>, depth: Depth, wave: nat) {
    forall v :: wave <= v <= Level(depth) ==> WaveStages(all, v) == WaveStages(rest, v)
  }

  lemma {:induction false} NoStagesOfWave(stages: seq<Stage>, wave: nat)
    requires forall s :: s in stages ==> Level(s.minDepth) != wave
    ensures WaveStages(stages, wave) == []
  {
    if stages != [] {
      assert stages[0] in stages;
      NoStagesOfWave(stages[1..], wave);
    }
  }

  lemma {:induction false} NothingToDetect(stages: seq<Stage>, depth: Depth, points: seq<Point>, pr: Progress)
    requires forall s :: s in stages ==> !ShouldRun(s, depth)
    ensures Detect(stages, depth, points, pr) == pr
  {
    if stages != [] {
      assert stages[0] in stages;
      NothingToDetect(stages[1..], depth, points, pr);
    }
  }

  /** The first stage of a ladder is both chains' next step. */
  lemma {:induction false} ClimbOneRung(all: seq<Stage>, rest: seq<Stage>, depth: Depth, points: seq<Point>, wave: nat, pr: Progress)
    requires rest != [] && ShouldRun(rest[0], depth) && wave <= Level(depth) && Remaining(points, pr.confirmed) != []
    requires WaveStages(all, wave) == [rest[0]]
    requires var next := Execute(rest[0], Remaining(points, pr.confirmed), 0, pr);
             Detect(rest[1..], depth, points, next) == Waves(all, depth, points, wave + 1, next)
    ensures Detect(rest, depth, points, pr) == Waves(all, depth, points, wave, pr)
  {
    var remaining := Remaining(points, pr.confirmed);
    assert Wave([rest[0]], remaining, pr) == Execute(rest[0], remaining, 0, pr);
  }

  ghost predicate LadderFrom(all: seq<Stage>, rest: seq<Stage>, depth: Depth, wave: nat) {
    Laddered(rest, depth) && FromWave(rest, depth, wave) && SameWaves(all, rest, depth, wave)
  }

  lemma {:induction false} LadderSkips(all: seq<Stage>, rest: seq<Stage>, depth: Depth, wave: nat)
    requires LadderFrom(all, rest, depth, wave) && rest != [] && !ShouldRun(rest[0], depth)
    ensures LadderFrom(all, rest[1..], depth, wave)
  {
  }

  lemma {:induction false} LadderClimbs(all: seq<Stage>, rest: seq<Stage>, depth: Depth, wave: nat)
    requires LadderFrom(all, rest, depth, wave) && rest != [] && ShouldRun(rest[0], depth)
    requires Level(rest[0].minDepth) == wave <= Level(depth)
    ensures LadderFrom(all, rest[1..], depth, wave + 1) && WaveStages(all, wave) == [rest[0]]
  {
    assert forall s :: s in rest[1..] && ShouldRun(s, depth) ==> Level(rest[0].minDepth) < Level(s.minDepth);
    NoStagesOfWave(rest[1..], wave);
    assert WaveStages(rest, wave) == [rest[0]];
  }

  lemma {:induction false} LadderWaits(all: seq<Stage>, rest: seq<Stage>, depth: Depth, wave: nat)
    requires LadderFrom(all, rest, depth, wave) && wave <= Level(depth)
    requires rest == [] || (ShouldRun(rest[0], depth) && Level(rest[0].minDepth) != wave)
    ensures LadderFrom(all, rest, depth, wave + 1) && WaveStages(all, wave) == []
  {
    if rest != [] {
      assert rest[0] in rest;
      assert forall s :: s in rest[1..] && ShouldRun(s, depth) ==> Level(rest[0].minDepth) < Level(s.minDepth);
      assert rest == [rest[0]] + rest[1..];
    }
    NoStagesOfWave(rest, wave);
  }

  lemma {:induction false} LadderAgrees(all: seq<Stage>, rest: seq<Stage>, depth: Depth, points: seq<Point>, wave: nat, pr: Progress)
    requires LadderFrom(all, rest, depth, wave)
    ensures Detect(rest, depth, points, pr) == Waves(all, depth, points, wave, pr)
    decreases |rest|, 3 - wave
  {
    var remaining := Remaining(points, pr.confirmed);
    if wave > Level(depth) {
      NothingToDetect(rest, depth, points, pr);
    } else if rest != [] && !ShouldRun(rest[0], depth) {
      LadderSkips(all, rest, depth, wave);
      LadderAgrees(all, rest[1..], depth, points, wave, pr);
    } else if remaining != [] {
      if rest != [] && Level(rest[0].minDepth) == wave {
        LadderClimbs(all, rest, depth, wave);
        LadderAgrees(all, rest[1..], depth, points, wave + 1, Execute(rest[0], remaining, 0, pr));
        ClimbOneRung(all, rest, depth, points, wave, pr);
      } else {
        LadderWaits(all, rest, depth, wave);
        LadderAgrees(all, rest, depth, points, wave + 1, pr);
      }
    }
  }

  // ----- and only then -----

  /** The stages of a chain, once each has been given a behaviour. */
  function Assign(shapes: seq<Depth>, b: nat -> Behaviour): (stages: seq<Stage>)
    ensures |stages| == |shapes| && forall i :: 0 <= i < |shapes| ==> stages[i] == Stage(shapes[i], b(i))
  {
    seq(|shapes|, i requires 0 <= i < |shapes| => Stage(shapes[i], b(i)))
  }

  predicate LadderedShapes(shapes: seq<Depth>, depth: Depth) {
    forall i, j :: 0 <= i < j < |shapes| && Level(shapes[i]) <= Level(depth) && Level(shapes[j]) <= Level(depth) ==>
      Level(shapes[i]) < Level(shapes[j])
  }

  const SILENT := Some(StageResult([], {}))
  const LOUD := Some(StageResult(["late"], {}))

  ghost predicate Silent(s: Stage) {
    forall ps :: s.execute(ps) == SILENT
  }

  /** Stage `i` confirms the only point there is; stage `j` reports a finding; the rest do nothing. */
  function Telltale(i: nat, j: nat): nat -> Behaviour {
    n => (ps => if n == i then Some(StageResult([], {"k"})) else if n == j then LOUD else SILENT)
  }

  const ONE_POINT: seq<Point> := [Point("k", "")]

  lemma {:induction false} NoneLeft(confirmed: set<Key>)
    ensures Remaining(ONE_POINT, confirmed) == if "k" in confirmed then [] else ONE_POINT
  {
    assert ONE_POINT[1..] == [];
  }

  lemma {:induction false} EarlyStage(shapes: seq<Depth>, i: nat, j: nat, from: nat, pr: Progress)
    requires from <= i < j < |shapes| && pr.findings == []
    ensures var next := Execute(Assign(shapes, Telltale(i, j))[from], ONE_POINT, 0, pr);
            next.findings == [] && (from == i ==> "k" in next.confirmed)
  {
  }

  /** In sequence, the finding of stage `j` is never made: by then its point is confirmed. */
  lemma {:induction false} DetectMissesLate(stages: seq<Stage>, depth: Depth, shapes: seq<Depth>, i: nat, j: nat, from: nat, pr: Progress)
    requires i < j < |shapes| && from <= |shapes| && stages == Assign(shapes, Telltale(i, j))
    requires ShouldRun(stages[i], depth) && pr.findings == []
    requires from > i ==> "k" in pr.confirmed
    ensures Detect(stages[from..], depth, ONE_POINT, pr).findings == []
    decreases |shapes| - from
  {
    NoneLeft(pr.confirmed);
    if from < |shapes| {
      assert stages[from..][0] == stages[from] && stages[from..][1..] == stages[from + 1..];
      if !ShouldRun(stages[from], depth) {
        DetectMissesLate(stages, depth, shapes, i, j, from + 1, pr);
      } else if "k" !in pr.confirmed {
        EarlyStage(shapes, i, j, from, pr);
        DetectMissesLate(stages, depth, shapes, i, j, from + 1, Execute(stages[from], ONE_POINT, 0, pr));
      }
    }
  }

  lemma {:induction false} SilentWave(stages: seq<Stage>, points: seq<Point>, pr: Progress)
    requires forall s :: s in stages ==> Silent(s)
    ensures Wave(stages, points, pr).confirmed == pr.confirmed
  {
    if stages != [] {
      assert Silent(stages[0]);
      SilentWave(stages[1..], points, Execute(stages[0], points, 0, pr));
    }
  }

  lemma {:induction false} WaveKeepsFindings(stages: seq<Stage>, points: seq<Point>, pr: Progress, f: Finding)
    requires f in pr.findings
    ensures f in Wave(stages, points, pr).findings
  {
    if stages != [] {
      WaveKeepsFindings(stages[1..], points, Execute(stages[0], points, 0, pr), f);
    }
  }

  lemma {:induction false} WaveReports(stages: seq<Stage>, points: seq<Point>, pr: Progress, s: Stage)
    requires s in stages && s.execute(points) == LOUD
    ensures "late" in Wave(stages, points, pr).findings
  {
    var next := Execute(stages[0], points, 0, pr);
    if s == stages[0] {
      WaveKeepsFindings(stages[1..], points, next, "late");
    } else {
      WaveReports(stages[1..], points, next, s);
    }
  }

  lemma {:induction false} LowerWavesAreSilent(shapes: seq<Depth>, i: nat, j: nat, wave: nat)
    requires i < |shapes| && j < |shapes| && wave < Level(shapes[i]) && wave < Level(shapes[j])
    ensures forall s :: s in WaveStages(Assign(shapes, Telltale(i, j)), wave) ==> Silent(s)
  {
    var stages := Assign(shapes, Telltale(i, j));
    WaveStagesLevel(stages, wave);
    forall s | s in WaveStages(stages, wave) ensures Silent(s) {
      var n :| 0 <= n < |stages| && stages[n] == s;
    }
  }

  lemma {:induction false} WavesKeepFindings(stages: seq<Stage>, depth: Depth, points: seq<Point>, wave: nat, pr: Progress, f: Finding)
    requires f in pr.findings
    ensures f in Waves(stages, depth, points, wave, pr).findings
    decreases 3 - wave
  {
    if wave <= Level(depth) {
      var remaining := Remaining(points, pr.confirmed);
      if remaining != [] {
        WaveKeepsFindings(WaveStages(stages, wave), remaining, pr, f);
        WavesKeepFindings(stages, depth, points, wave + 1, Wave(WaveStages(stages, wave), remaining, pr), f);
      }
    }
  }

  /** In waves it is: nothing below the wave of stage `j` confirms its point. */
  lemma {:induction false} WavesCatchLate(stages: seq<Stage>, depth: Depth, shapes: seq<Depth>, i: nat, j: nat, wave: nat, pr: Progress)
    requires i < j < |shapes| && stages == Assign(shapes, Telltale(i, j))
    requires wave <= Level(shapes[j]) <= Level(shapes[i]) && Level(shapes[j]) <= Level(depth)
    requires "k" !in pr.confirmed
    ensures "late" in Waves(stages, depth, ONE_POINT, wave, pr).findings
    decreases 3 - wave
  {
    NoneLeft(pr.confirmed);
    var ws := WaveStages(stages, wave);
    if wave == Level(shapes[j]) {
      WaveStagesLevel(stages, wave);
      WaveReports(ws, ONE_POINT, pr, stages[j]);
      WavesKeepFindings(stages, depth, ONE_POINT, wave + 1, Wave(ws, ONE_POINT, pr), "late");
    } else {
      LowerWavesAreSilent(shapes, i, j, wave);
      SilentWave(ws, ONE_POINT, pr);
      WavesCatchLate(stages, depth, shapes, i, j, wave + 1, Wave(ws, ONE_POINT, pr));
    }
  }

  /** The two chains, on every behaviour of the stages (failures included) and every list of points. */
  ghost predicate AlwaysAgree(shapes: seq<Depth>, depth: Depth) {
    forall b: nat -> Behaviour, points: seq<Point> ::
      Same(Detect(Assign(shapes, b), depth, points, NOTHING), Waves(Assign(shapes, b), depth, points, 0, NOTHING))
  }

  lemma {:induction false} WavesAgreeExactly(shapes: seq<Depth>, depth: Depth)
    ensures AlwaysAgree(shapes, depth) <==> LadderedShapes(shapes, depth)
  {
    if LadderedShapes(shapes, depth) {
      forall b: nat -> Behaviour, points: seq<Point>
        ensures Same(Detect(Assign(shapes, b), depth, points, NOTHING), Waves(Assign(shapes, b), depth, points, 0, NOTHING))
      {
        LadderAgrees(Assign(shapes, b), Assign(shapes, b), depth, points, 0, NOTHING);
      }
    } else {
      var i, j :| 0 <= i < j < |shapes| && Level(shapes[j]) <= Level(shapes[i]) <= Level(depth);
      var stages := Assign(shapes, Telltale(i, j));
      assert stages[0..] == stages;
      DetectMissesLate(stages, depth, shapes, i, j, 0, NOTHING);
      WavesCatchLate(stages, depth, shapes, i, j, 0, NOTHING);
      assert !Same(Detect(stages, depth, ONE_POINT, NOTHING), Waves(stages, depth, ONE_POINT, 0, NOTHING));
    }
  }

  /** What `chain_from_depth` yields under this clock. */
  function Timely(stages: seq<Stage>, depth: Depth, points: seq<Point>, budget: int, clock: nat -> int): Progress {
    RunWaves(stages, Limits(Fast, depth, budget), points, clock, 0, Timed(NOTHING, 0)).pr
  }

  ghost predicate AlwaysAgreeOnTime(shapes: seq<Depth>, depth: Depth, budget: int, clock: nat -> int) {
    forall b: nat -> Behaviour, points: seq<Point> ::
      Same(Detect(Assign(shapes, b), depth, points, NOTHING), Timely(Assign(shapes, b), depth, points, budget, clock))
  }

  /** Under any clock that stays below the budget, `chain_from_depth` yields the findings and
      confirmations of `DetectionChain` for every behaviour of the stages if and only if the stages that
      run at that depth come in strictly increasing depth. */
  lemma {:induction false} ChainsAgreeExactly(shapes: seq<Depth>, depth: Depth, budget: int, clock: nat -> int)
    requires forall i :: clock(i) < budget
    ensures AlwaysAgreeOnTime(shapes, depth, budget, clock) <==> LadderedShapes(shapes, depth)
  {
    WavesAgreeExactly(shapes, depth);
    forall b: nat -> Behaviour, points: seq<Point>
      ensures Same(Timely(Assign(shapes, b), depth, points, budget, clock), Waves(Assign(shapes, b), depth, points, 0, NOTHING))
    {
      UntimedWaves(Assign(shapes, b), depth, budget, points, clock, 0, Timed(NOTHING, 0), NOTHING);
    }
  }

  /** So a ladder of stages gives the same under every such clock. */
  lemma {:induction false} ChainFromDepthAgrees(shapes: seq<Depth>, depth: Depth, b: nat -> Behaviour, points: seq<Point>,
                                                budget: int, clock: nat -> int)
    requires LadderedShapes(shapes, depth) && forall i :: clock(i) < budget
    ensures Same(Detect(Assign(shapes, b), depth, points, NOTHING), Timely(Assign(shapes, b), depth, points, budget, clock))
  {
    ChainsAgreeExactly(shapes, depth, budget, clock);
  }

  // ----- the budget -----

  /** Whatever the clock does, every stage starts on a reading under the budget. */
  lemma {:induction false} NoStageAfterTheBudget(stages: seq<Stage>, l: Limits, points: seq<Point>, clock: nat -> int, wave: nat, t: Timed)
    requires StartedInTime(t, l.budget)
    ensures StartedInTime(RunWaves(stages, l, points, clock, wave, t), l.budget)
    decreases 3 - wave
  {
    if wave < 3 {
      if !DepthAllows(l, wave) {
        NoStageAfterTheBudget(stages, l, points, clock, wave + 1, t);
      } else if clock(t.readings) < l.budget {
        var remaining, t1 := Remaining(points, t.pr.confirmed), t.(readings := t.readings + 1);
        if remaining != [] {
          WaveStartsInTime(WaveStages(stages, wave), remaining, clock, l.budget, t1);
          NoStageAfterTheBudget(stages, l, points, clock, wave + 1,
                                RunWave(WaveStages(stages, wave), remaining, clock, l.budget, t1));
        }
      }
    }
  }

  ghost predicate StartedInTime(t: Timed, budget: int) {
    forall i :: 0 <= i < |t.pr.log| ==> t.pr.log[i].at < budget
  }

  lemma {:induction false} WaveStartsInTime(stages: seq<Stage>, points: seq<Point>, clock: nat -> int, budget: int, t: Timed)
    requires StartedInTime(t, budget)
    ensures StartedInTime(RunWave(stages, points, clock, budget, t), budget)
  {
    if stages != [] && clock(t.readings) < budget {
      WaveStartsInTime(stages[1..], points, clock, budget,
                       Timed(Execute(stages[0], points, clock(t.readings), t.pr), t.readings + 1));
    }
  }
}
