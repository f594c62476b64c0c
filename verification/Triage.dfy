/** The triage pipeline (pwnproxy/ai/triage/pipeline.py:54-179): a heuristic verdict for every finding,
    and a budgeted queue of findings for the judge. */
module Triage {
  import opened Wrappers
  import opened Heuristic

  /** What `set_triage` does: writes, finds no such finding, or raises. */
  datatype Store = Stored | Missing | Raises

  datatype Verdict = Verdict(verdict: string, method_: string, score: real)

  datatype Judgement = Judged(verdict: string, confidence: real) | JudgeFails

  /** A finding waiting for the judge; `score` is what the heuristic gave it. */
  datatype Item = Item(id: int, confidence: string, scanKey: string, score: real)

  /** `taken` counts the items of `accepted` the worker has taken; the rest is the queue. */
  datatype State = State(calls: map<string, int>, accepted: seq<Item>, taken: nat, triage: map<int, Verdict>)

  function ScanKey(f: Finding): string {
    if f.scanId != "" then f.scanId else "default"
  }

  predicate ShouldLlm(mode: string, confidence: string) {
    mode == "legacy_gray" || (mode == "enrich" && confidence in ["confirmed", "inferred"])
  }

  function CallsOf(calls: map<string, int>, key: string): int {
    if key in calls then calls[key] else 0
  }

  predicate BudgetAvailable(cfg: Config, calls: map<string, int>, key: string) {
    cfg.maxLlm > 0 && CallsOf(calls, key) < cfg.maxLlm
  }

  /** `asyncio.Queue(maxsize)`: no bound unless the size is positive. */
  predicate QueueFull(cfg: Config, s: State) {
    cfg.queueMax > 0 && |s.accepted| - s.taken >= cfg.queueMax
  }

  function HeuristicVerdict(cfg: Config, score: real): string {
    if score >= cfg.autoTrue then "true_positive"
    else if score <= cfg.autoFalse then "false_positive"
    else "uncertain"
  }

  function Write(s: State, id: int, v: Verdict, store: Store): State {
    if store.Stored? then s.(triage := s.triage[id := v]) else s
  }

  function ToItem(cfg: Config, id: int, f: Finding): Item {
    Item(id, f.confidence, ScanKey(f), Score(cfg, f))
  }

  /** Reserve a call and queue the finding, unless the budget is spent or the queue is full. */
  function EnqueueStep(cfg: Config, s: State, item: Item): State {
    if !BudgetAvailable(cfg, s.calls, item.scanKey) then s
    else if QueueFull(cfg, s) then s.(calls := s.calls[item.scanKey := CallsOf(s.calls, item.scanKey)])
    else s.(calls := s.calls[item.scanKey := CallsOf(s.calls, item.scanKey) + 1], accepted := s.accepted + [item])
  }

  predicate ForJudge(cfg: Config, judge: bool, f: Finding) {
    && judge && f.confidence !in cfg.skip && ShouldLlm(cfg.mode, f.confidence)
    && HeuristicVerdict(cfg, Score(cfg, f)) == "uncertain"
  }

  function HandleStep(cfg: Config, judge: bool, s: State, f: Finding, store: Store): State {
    if !cfg.enabled || f.id.None? then s
    else
      var score := Score(cfg, f);
      var written := Write(s, f.id.value, Verdict(HeuristicVerdict(cfg, score), "heuristic", score), store);
      if !store.Raises? && ForJudge(cfg, judge, f) then EnqueueStep(cfg, written, ToItem(cfg, f.id.value, f)) else written
  }

  predicate EnrichBlocksFp(cfg: Config, confidence: string, verdict: string, certainty: real) {
    verdict == "false_positive" && confidence in ["confirmed", "inferred"] && certainty < cfg.fpThreshold
  }

  function JudgeVerdict(cfg: Config, item: Item, verdict: string, certainty: real): Verdict {
    Verdict(if cfg.mode == "enrich" && EnrichBlocksFp(cfg, item.confidence, verdict, certainty) then "uncertain" else verdict,
            "llm", certainty)
  }

  /** The worker takes the next item; whatever the judge does, the item is spent. */
  function WorkStep(cfg: Config, s: State, j: Judgement, store: Store): State {
    if s.taken >= |s.accepted| then s
    else
      var item := s.accepted[s.taken];
      var t := s.(taken := s.taken + 1);
      match j
      case JudgeFails => t
      case Judged(verdict, certainty) => Write(t, item.id, JudgeVerdict(cfg, item, verdict, certainty), store)
  }

  class TriagePipeline {
    const cfg: Config
    const hasJudge: bool
    var llmCalls: map<string, int>
    var queue: seq<Item>
    var triage: map<int, Verdict>
    ghost var accepted: seq<Item>
    ghost var taken: nat

    ghost predicate Valid()
      reads this
    {
      taken <= |accepted| && queue == accepted[taken..] && Inv(cfg, hasJudge, Now())
    }

    ghost function Now(): State
      reads this
    {
      State(llmCalls, accepted, taken, triage)
    }

    constructor (cfg: Config, hasJudge: bool)
      ensures Valid() && Now() == State(map[], [], 0, map[])
      ensures this.cfg == cfg && this.hasJudge == hasJudge
    {
      this.cfg, this.hasJudge := cfg, hasJudge;
      llmCalls, queue, triage, accepted, taken := map[], [], map[], [], 0;
    }

    method Set(id: int, v: Verdict, store: Store) returns (raised: bool)
      modifies this`triage
      ensures triage == Write(old(Now()), id, v, store).triage && raised == store.Raises?
    {
      if store.Stored? {
        triage := triage[id := v];
      }
      raised := store.Raises?;
    }

    /** `_enqueue`, with the reservation taken before the queue is tried and given back when it is full. */
    method Enqueue(item: Item)
      requires Valid() && Fit(cfg, hasJudge, item)
      modifies this`llmCalls, this`queue, this`accepted
      ensures Valid() && Now() == EnqueueStep(cfg, old(Now()), item)
    {
      EnqueueKeepsInv(cfg, hasJudge, Now(), item);
      assert KeyInv(cfg, Now(), item.scanKey);
      if !BudgetAvailable(cfg, llmCalls, item.scanKey) {
        return;
      }
      llmCalls := llmCalls[item.scanKey := CallsOf(llmCalls, item.scanKey) + 1];
      if cfg.queueMax > 0 && |queue| >= cfg.queueMax {
        // the reserved call is there to be given back: the lower bound of 0 is never what decides
        assert CallsOf(llmCalls, item.scanKey) - 1 >= 0;
        var less := CallsOf(llmCalls, item.scanKey) - 1;
        llmCalls := llmCalls[item.scanKey := if less > 0 then less else 0];
        assert llmCalls == old(llmCalls)[item.scanKey := CallsOf(old(llmCalls), item.scanKey)];
      } else {
        queue := queue + [item];
        accepted := accepted + [item];
      }
    }

    /** `handle`, called for every saved finding. */
    method Handle(f: Finding, store: Store)
      requires Valid()
      modifies this`llmCalls, this`queue, this`accepted, this`triage
      ensures Valid() && Now() == HandleStep(cfg, hasJudge, old(Now()), f, store)
    {
      if !cfg.enabled {
        return;
      }
      var score, reasons := ScoreFinding(cfg, f);
      if f.id.None? {
        return;
      }
      var llmEligible := hasJudge && f.confidence !in cfg.skip;
      ghost var s := Now();
      var raised;
      if score >= cfg.autoTrue {
        raised := Set(f.id.value, Verdict("true_positive", "heuristic", score), store);
        InvIgnoresVerdicts(cfg, hasJudge, s, Now());
      } else if score <= cfg.autoFalse {
        raised := Set(f.id.value, Verdict("false_positive", "heuristic", score), store);
        InvIgnoresVerdicts(cfg, hasJudge, s, Now());
      } else {
        raised := Set(f.id.value, Verdict("uncertain", "heuristic", score), store);
        InvIgnoresVerdicts(cfg, hasJudge, s, Now());
        if !raised && llmEligible && ShouldLlm(cfg.mode, f.confidence) {
          ScoreRange(cfg, f);
          Enqueue(Item(f.id.value, f.confidence, ScanKey(f), score));
        }
      }
    }

    /** One turn of `_worker`, which waits while the queue is empty. */
    method Work(j: Judgement, store: Store) returns (evaluated: Option<Item>)
      requires Valid()
      modifies this`queue, this`taken, this`triage
      ensures Valid() && Now() == WorkStep(cfg, old(Now()), j, store)
      ensures evaluated == if old(queue) == [] then None else Some(old(queue)[0])
    {
      if queue == [] {
        return None;
      }
      ghost var s := Now();
      var item := queue[0];
      evaluated := Some(item);
      queue := queue[1..];
      taken := taken + 1;
      if j.Judged? {
        var verdict := j.verdict;
        if cfg.mode == "enrich" && EnrichBlocksFp(cfg, item.confidence, verdict, j.confidence) {
          verdict := "uncertain";
        }
        var raised := Set(item.id, Verdict(verdict, "llm", j.confidence), store);
      }
      InvIgnoresVerdicts(cfg, hasJudge, s, Now());
    }
  }

  // ----- the invariant -----

  function Count(items: seq<Item>, key: string): (n: nat)
    ensures n <= |items|
  {
    if items == [] then 0
    else Count(items[..|items| - 1], key) + if items[|items| - 1].scanKey == key then 1 else 0
  }

  /** What the judge may be shown: gray, not skipped, never a confirmed finding, and only in the two
      modes that use a judge; in enrich mode that leaves the inferred ones. */
  ghost predicate Fit(cfg: Config, judge: bool, item: Item) {
    && judge && item.confidence !in cfg.skip && item.confidence != "confirmed"
    && cfg.autoFalse < item.score < cfg.autoTrue
    && (cfg.mode == "legacy_gray" || (cfg.mode == "enrich" && item.confidence == "inferred"))
  }

  function Budget(cfg: Config): nat {
    if cfg.maxLlm > 0 then cfg.maxLlm else 0
  }

  ghost predicate KeyInv(cfg: Config, s: State, key: string) {
    CallsOf(s.calls, key) == Count(s.accepted, key) <= Budget(cfg)
  }

  ghost predicate Inv(cfg: Config, judge: bool, s: State) {
    && s.taken <= |s.accepted|
    && (forall key :: KeyInv(cfg, s, key))
    && (cfg.queueMax > 0 ==> |s.accepted| - s.taken <= cfg.queueMax)
    && (forall i :: 0 <= i < |s.accepted| ==> Fit(cfg, judge, s.accepted[i]))
  }

  lemma {:induction false} EnqueueKeepsInv(cfg: Config, judge: bool, s: State, item: Item)
    requires Inv(cfg, judge, s) && Fit(cfg, judge, item)
    ensures Inv(cfg, judge, EnqueueStep(cfg, s, item))
  {
    var t := EnqueueStep(cfg, s, item);
    assert KeyInv(cfg, s, item.scanKey);
    forall key ensures KeyInv(cfg, t, key) {
      assert KeyInv(cfg, s, key);
      assert (s.accepted + [item])[..|s.accepted|] == s.accepted;
    }
  }

  lemma {:induction false} ForJudgeFits(cfg: Config, judge: bool, id: int, f: Finding)
    requires ForJudge(cfg, judge, f)
    ensures Fit(cfg, judge, ToItem(cfg, id, f))
  {
    ScoreRange(cfg, f);
  }

  lemma {:induction false} InvIgnoresVerdicts(cfg: Config, judge: bool, s: State, t: State)
    requires Inv(cfg, judge, s) && t.calls == s.calls && t.accepted == s.accepted
    requires s.taken <= t.taken <= |s.accepted|
    ensures Inv(cfg, judge, t)
  {
    forall key ensures KeyInv(cfg, t, key) {
      assert KeyInv(cfg, s, key);
    }
  }

  // ----- whole runs -----

  datatype Event = Saved(finding: Finding, store: Store) | Turn(judgement: Judgement, store: Store)

  function Step(cfg: Config, judge: bool, s: State, e: Event): State {
    match e
    case Saved(f, store) => HandleStep(cfg, judge, s, f, store)
    case Turn(j, store) => WorkStep(cfg, s, j, store)
  }

  function Run(cfg: Config, judge: bool, events: seq<Event>): State {
    if events == [] then State(map[], [], 0, map[])
    else Step(cfg, judge, Run(cfg, judge, events[..|events| - 1]), events[|events| - 1])
  }

  lemma {:induction false} StepKeepsInv(cfg: Config, judge: bool, s: State, e: Event)
    requires Inv(cfg, judge, s)
    ensures Inv(cfg, judge, Step(cfg, judge, s, e))
  {
    match e
    case Saved(f, store) =>
      if cfg.enabled && f.id.Some? {
        var score := Score(cfg, f);
        var written := Write(s, f.id.value, Verdict(HeuristicVerdict(cfg, score), "heuristic", score), store);
        InvIgnoresVerdicts(cfg, judge, s, written);
        if !store.Raises? && ForJudge(cfg, judge, f) {
          ForJudgeFits(cfg, judge, f.id.value, f);
          EnqueueKeepsInv(cfg, judge, written, ToItem(cfg, f.id.value, f));
        }
      }
    case Turn(j, store) =>
      InvIgnoresVerdicts(cfg, judge, s, WorkStep(cfg, s, j, store));
  }

  /** After any run the counter of a scan is its findings queued plus taken, at most the budget, whatever
      the order of findings, turns and failures; and only fit findings were ever queued. */
  lemma {:induction false} BudgetHolds(cfg: Config, judge: bool, events: seq<Event>)
    ensures Inv(cfg, judge, Run(cfg, judge, events))
  {
    if events != [] {
      BudgetHolds(cfg, judge, events[..|events| - 1]);
      StepKeepsInv(cfg, judge, Run(cfg, judge, events[..|events| - 1]), events[|events| - 1]);
    }
  }

  lemma {:induction false} CountSplit(items: seq<Item>, n: nat, key: string)
    requires n <= |items|
    ensures Count(items, key) == Count(items[..n], key) + Count(items[n..], key)
    decreases |items|
  {
    if n < |items| {
      var front := items[..|items| - 1];
      CountSplit(front, n, key);
      assert front[..n] == items[..n] && items[n..][..|items| - n - 1] == front[n..];
    } else {
      assert items[..n] == items;
    }
  }

  /** The judge is asked about one scan at most `max_llm_per_scan` times, what is still queued included. */
  lemma {:induction false} JudgeCallsAreBounded(cfg: Config, judge: bool, events: seq<Event>, key: string)
    ensures var s := Run(cfg, judge, events);
            && s.taken <= |s.accepted|
            && Count(s.accepted[..s.taken], key) + Count(s.accepted[s.taken..], key) == CallsOf(s.calls, key) <= Budget(cfg)
  {
    BudgetHolds(cfg, judge, events);
    var s := Run(cfg, judge, events);
    assert KeyInv(cfg, s, key);
    CountSplit(s.accepted, s.taken, key);
  }

  lemma {:induction false} WithinBudget(cfg: Config, judge: bool, s: State, key: string)
    requires Inv(cfg, judge, s)
    ensures Count(s.accepted, key) <= Budget(cfg)
  {
    assert KeyInv(cfg, s, key);
  }

  /** Without a judge, in the modes `off` and `heuristic`, or with no budget the judge is never asked. */
  lemma {:induction false} NobodyToAsk(cfg: Config, judge: bool, events: seq<Event>)
    requires !judge || cfg.mode !in ["enrich", "legacy_gray"] || cfg.maxLlm <= 0
    ensures Run(cfg, judge, events).accepted == []
  {
    BudgetHolds(cfg, judge, events);
    var s := Run(cfg, judge, events);
    if s.accepted != [] {
      var item := s.accepted[|s.accepted| - 1];
      WithinBudget(cfg, judge, s, item.scanKey);
    }
  }

  /** The verdict of a finding is written at once, by its score alone: accepted from `auto_true` on, rejected
      up to `auto_false`, uncertain between. */
  lemma {:induction false} VerdictFollowsScore(cfg: Config, judge: bool, s: State, f: Finding)
    requires cfg.enabled && f.id.Some?
    ensures var t, score := HandleStep(cfg, judge, s, f, Stored), Score(cfg, f);
            && f.id.value in t.triage
            && (score >= cfg.autoTrue ==> t.triage[f.id.value] == Verdict("true_positive", "heuristic", score))
            && (cfg.autoFalse >= score && score < cfg.autoTrue ==> t.triage[f.id.value] == Verdict("false_positive", "heuristic", score))
            && (cfg.autoFalse < score < cfg.autoTrue ==> t.triage[f.id.value] == Verdict("uncertain", "heuristic", score))
            && forall id :: id != f.id.value ==> (id in t.triage <==> id in s.triage) && (id in s.triage ==> t.triage[id] == s.triage[id])
  {
  }

  /** A finding waits for the judge exactly if there is one, its confidence is not skipped, the mode shows it
      to the judge, its score is strictly between the thresholds, its verdict was written or the row is
      gone, and neither the calls of its scan nor the queue are used up. */
  lemma {:induction false} QueuedExactly(cfg: Config, judge: bool, s: State, f: Finding, store: Store)
    ensures var t, score := HandleStep(cfg, judge, s, f, store), Score(cfg, f);
            var scan := if f.scanId == "" then "default" else f.scanId;
            var queued := && cfg.enabled && f.id.Some? && store != Raises && judge && f.confidence !in cfg.skip
                          && (cfg.mode == "legacy_gray" || (cfg.mode == "enrich" && f.confidence == "inferred"))
                          && cfg.autoFalse < score < cfg.autoTrue
                          && (if scan in s.calls then s.calls[scan] else 0) < cfg.maxLlm && cfg.maxLlm > 0
                          && (cfg.queueMax > 0 ==> |s.accepted| - s.taken < cfg.queueMax);
            && t.accepted == s.accepted + (if queued then [Item(f.id.value, f.confidence, scan, score)] else [])
            && t.taken == s.taken
  {
    ScoreRange(cfg, f);
  }

  /** The judge's word, for an item it was shown: kept as it is, but in enrich mode a false positive it is not
      sure of leaves the finding uncertain. When it fails, or nobody keeps its word, nothing changes. */
  lemma {:induction false} JudgeDecides(cfg: Config, judge: bool, events: seq<Event>, j: Judgement, store: Store)
    requires var s := Run(cfg, judge, events); s.taken < |s.accepted|
    ensures var s := Run(cfg, judge, events);
            var id, t := s.accepted[s.taken].id, WorkStep(cfg, s, j, store);
            && t.taken == s.taken + 1 && t.accepted == s.accepted && t.calls == s.calls
            && t.triage == if j.JudgeFails? || store != Stored then s.triage
                           else s.triage[id := Verdict(if cfg.mode == "enrich" && j.verdict == "false_positive" && j.confidence < cfg.fpThreshold
                                                       then "uncertain" else j.verdict, "llm", j.confidence)]
  {
    BudgetHolds(cfg, judge, events);
    var s := Run(cfg, judge, events);
    assert Fit(cfg, judge, s.accepted[s.taken]);
  }

  /** A confirmed finding is a true positive the moment it is handled, in every mode and under every
      setting of weights and thresholds, and is never queued. */
  lemma {:induction false} ConfirmedIsTrue(cfg: Config, judge: bool, s: State, f: Finding)
    requires cfg.enabled && f.id.Some? && f.confidence == "confirmed"
    ensures HandleStep(cfg, judge, s, f, Stored)
            == s.(triage := s.triage[f.id.value := Verdict("true_positive", "heuristic", Score(cfg, f))])
    ensures forall store :: HandleStep(cfg, judge, s, f, store).accepted == s.accepted
  {
    ScoreRange(cfg, f);
  }

  /** In enrich mode the judge turns a finding into a false positive only when it is sure enough, because
      everything it is shown was inferred. */
  lemma {:induction false} EnrichNeedsCertainty(cfg: Config, judge: bool, events: seq<Event>, verdict: string, certainty: real)
    requires cfg.mode == "enrich"
    requires var s := Run(cfg, judge, events); s.taken < |s.accepted|
    ensures var s := Run(cfg, judge, events);
            var item := s.accepted[s.taken];
            var t := WorkStep(cfg, s, Judged(verdict, certainty), Stored);
            && item.id in t.triage
            && t.triage[item.id].verdict == (if verdict == "false_positive" && certainty < cfg.fpThreshold then "uncertain" else verdict)
            && forall id :: id != item.id && id in t.triage ==> id in s.triage && t.triage[id] == s.triage[id]
  {
    BudgetHolds(cfg, judge, events);
    var s := Run(cfg, judge, events);
    assert Fit(cfg, judge, s.accepted[s.taken]);
  }
}
