/** Directory bruteforce (pwnproxy/services/crawler/strategies/directory.py:53-168 and
    pwnproxy/services/crawler/wordlist.py:47-52): the plan of URLs, its cap, and the probing in batches
    with its counters. */
module Bruteforce {
  import opened Wrappers
  import Seqs

  const BATCH_SIZE := 50

  datatype Target = Target(url: string, base: string)

  /** `base.rstrip('/')`. */
  function TrimSlashes(s: string): string {
    if s != "" && s[|s| - 1] == '/' then TrimSlashes(s[..|s| - 1]) else s
  }

  /** It cuts off the slashes at the end, all of them and nothing else. */
  lemma {:induction false} TrimExactly(s: string)
    ensures var t := TrimSlashes(s);
            t <= s && (t != "" ==> t[|t| - 1] != '/') && forall i :: |t| <= i < |s| ==> s[i] == '/'
  {
    if s != "" && s[|s| - 1] == '/' {
      TrimExactly(s[..|s| - 1]);
    }
  }

  // ----- the plan -----

  /** The targets of one word: bare, then with each extension. */
  function WordTargets(base: string, word: string, exts: seq<string>): (r: seq<Target>)
    ensures |r| == 1 + |exts|
  {
    if exts == [] then [Target(base + "/" + word, base)]
    else WordTargets(base, word, exts[..|exts| - 1]) + [Target(base + "/" + word + exts[|exts| - 1], base)]
  }

  function BaseTargets(base: string, words: seq<string>, exts: seq<string>): (r: seq<Target>)
    ensures |r| == |words| * (1 + |exts|)
  {
    if words == [] then []
    else
      assert |words| * (1 + |exts|) == (|words| - 1) * (1 + |exts|) + (1 + |exts|);
      BaseTargets(base, words[..|words| - 1], exts) + WordTargets(base, words[|words| - 1], exts)
  }

  function Plan(bases: seq<string>, words: seq<string>, exts: seq<string>): (r: seq<Target>)
    ensures |r| == |bases| * (|words| * (1 + |exts|))
  {
    if bases == [] then []
    else
      var per := |words| * (1 + |exts|);
      assert |bases| * per == (|bases| - 1) * per + per;
      Plan(bases[..|bases| - 1], words, exts) + BaseTargets(TrimSlashes(bases[|bases| - 1]), words, exts)
  }

  function EstimateRequests(words: seq<string>, exts: seq<string>, bases: seq<string>): nat {
    |words| * (1 + |exts|) * |bases|
  }

  function Capped(plan: seq<Target>, cap: nat): seq<Target> {
    if |plan| > cap then plan[..cap] else plan
  }

  /** The two inner loops of the planner. */
  method PlanBase(base: string, words: seq<string>, exts: seq<string>) returns (urls: seq<Target>)
    ensures urls == BaseTargets(base, words, exts)
  {
    urls := [];
    for w := 0 to |words|
      invariant urls == BaseTargets(base, words[..w], exts)
    {
      var some := [Target(base + "/" + words[w], base)];
      for e := 0 to |exts|
        invariant some == WordTargets(base, words[w], exts[..e])
      {
        some := some + [Target(base + "/" + words[w] + exts[e], base)];
        assert exts[..e + 1][..e] == exts[..e];
      }
      assert exts[..|exts|] == exts && words[..w + 1][..w] == words[..w];
      urls := urls + some;
    }
    assert words[..|words|] == words;
  }

  lemma {:induction false} PlanSize(bases: seq<string>, words: seq<string>, exts: seq<string>)
    ensures |Plan(bases, words, exts)| == EstimateRequests(words, exts, bases)
  {
  }

  /** The planner: as many URLs as estimated, cut at the cap. */
  method BuildPlan(bases: seq<string>, words: seq<string>, exts: seq<string>, maxRequests: nat)
    returns (urls: seq<Target>, maxed: bool)
    ensures urls == Capped(Plan(bases, words, exts), maxRequests) <= Plan(bases, words, exts)
    ensures |urls| == if EstimateRequests(words, exts, bases) < maxRequests then EstimateRequests(words, exts, bases) else maxRequests
    ensures maxed <==> EstimateRequests(words, exts, bases) > maxRequests
  {
    urls := [];
    for b := 0 to |bases|
      invariant urls == Plan(bases[..b], words, exts)
    {
      var more := PlanBase(TrimSlashes(bases[b]), words, exts);
      PlanSnoc(bases, words, exts, b);
      urls := urls + more;
    }
    assert bases[..|bases|] == bases;
    PlanSize(bases, words, exts);
    maxed := |urls| > maxRequests;
    if maxed {
      urls := urls[..maxRequests];
    }
  }

  lemma {:induction false} PlanSnoc(bases: seq<string>, words: seq<string>, exts: seq<string>, b: nat)
    requires b < |bases|
    ensures Plan(bases[..b + 1], words, exts)
            == Plan(bases[..b], words, exts) + BaseTargets(TrimSlashes(bases[b]), words, exts)
  {
    assert bases[..b + 1][..b] == bases[..b];
  }

  lemma {:induction false} WordTargetAt(base: string, word: string, exts: seq<string>, e: nat)
    requires e <= |exts|
    ensures WordTargets(base, word, exts)[e] == Target(base + "/" + word + (if e == 0 then "" else exts[e - 1]), base)
  {
    if exts == [] {
      assert base + "/" + word + "" == base + "/" + word;
    } else if e < |exts| {
      WordTargetAt(base, word, exts[..|exts| - 1], e);
    }
  }

  lemma {:induction false} Row(i: nat, n: nat, k: nat, j: nat)
    requires i < n && j < k
    ensures 0 <= i * k + j < n * k
    ensures i + 1 < n ==> i * k + j < (n - 1) * k
  {
    assert i * k + k == (i + 1) * k;
    assert (i + 1) * k <= n * k;
    if i + 1 < n {
      assert (i + 1) * k <= (n - 1) * k;
    }
  }

  lemma {:induction false} BaseTargetAt(base: string, words: seq<string>, exts: seq<string>, w: nat, e: nat)
    requires w < |words| && e <= |exts|
    ensures w * (1 + |exts|) + e < |BaseTargets(base, words, exts)|
    ensures BaseTargets(base, words, exts)[w * (1 + |exts|) + e]
            == Target(base + "/" + words[w] + (if e == 0 then "" else exts[e - 1]), base)
  {
    var k, n := 1 + |exts|, |words|;
    Row(w, n, k, e);
    var front, back := BaseTargets(base, words[..n - 1], exts), WordTargets(base, words[n - 1], exts);
    if w < n - 1 {
      BaseTargetAt(base, words[..n - 1], exts, w, e);
      Seqs.IndexAppend(front, back, w * k + e);
    } else {
      WordTargetAt(base, words[w], exts, e);
      Seqs.IndexAppend(front, back, |front| + e);
    }
  }

  /** The targets of the b-th base stand together, `per` of them after those of each base before. */
  lemma {:induction false} PlanRow(bases: seq<string>, words: seq<string>, exts: seq<string>, b: nat, per: nat, j: nat)
    requires b < |bases| && per == |words| * (1 + |exts|) && j < per
    ensures 0 <= b * per + j < |Plan(bases, words, exts)|
    ensures Plan(bases, words, exts)[b * per + j] == BaseTargets(TrimSlashes(bases[b]), words, exts)[j]
  {
    var n := |bases|;
    Row(b, n, per, j);
    var front, back := Plan(bases[..n - 1], words, exts), BaseTargets(TrimSlashes(bases[n - 1]), words, exts);
    if b < n - 1 {
      PlanRow(bases[..n - 1], words, exts, b, per, j);
      Seqs.IndexAppend(front, back, b * per + j);
    } else {
      Seqs.IndexAppend(front, back, |front| + j);
    }
  }

  /** The index of the j-th place in the i-th stretch of `per` places. */
  function Place(i: nat, per: nat, j: nat): nat {
    i * per + j
  }

  /** Every base, word and extension, or none, has exactly one place in the plan: bases slowest,
      extensions fastest. With as many places as combinations, nothing else is planned. */
  lemma {:induction false} PlanAt(bases: seq<string>, words: seq<string>, exts: seq<string>, b: nat, w: nat, e: nat)
    requires b < |bases| && w < |words| && e <= |exts|
    ensures var i := Place(b, |words| * (1 + |exts|), Place(w, 1 + |exts|, e));
            var base := TrimSlashes(bases[b]);
            && i < |Plan(bases, words, exts)|
            && Plan(bases, words, exts)[i] == Target(base + "/" + words[w] + (if e == 0 then "" else exts[e - 1]), base)
  {
    var j := w * (1 + |exts|) + e;
    BaseTargetAt(TrimSlashes(bases[b]), words, exts, w, e);
    PlanRow(bases, words, exts, b, |words| * (1 + |exts|), j);
  }

  // ----- probing -----

  datatype Outcome = SkippedByStop | OutOfScope | ProbeError | Probed(status: int, length: int)

  /** What a run cannot know, by place in the plan: whether a stop was seen before a batch or by a probe,
      and what the fetcher brought back. */
  datatype Env = Env(stopBefore: nat -> bool, stopInside: nat -> bool, inScope: string -> bool,
                     fetch: nat -> Option<(int, int)>)

  datatype Config = Config(statusFilter: set<int>, detectSoft404: bool, baselines: map<string, set<(int, int)>>)

  datatype Stats = Stats(probed: nat, found: nat, errors: nat, skipped: nat, soft404: nat)

  /** `_probe_one` for the i-th target. */
  function Probe(env: Env, i: nat, t: Target): Outcome {
    if env.stopInside(i) then SkippedByStop
    else if !env.inScope(t.url) then OutOfScope
    else match env.fetch(i)
      case None => ProbeError
      case Some((status, length)) => Probed(status, length)
  }

  /** What becomes of a target. */
  datatype Fate = Stopped | Foreign | Errored | Unlisted | Soft | Hit

  function FateOf(env: Env, cfg: Config, i: nat, t: Target): Fate {
    match Probe(env, i, t)
    case SkippedByStop => Stopped
    case OutOfScope => Foreign
    case ProbeError => Errored
    case Probed(status, length) =>
      if status !in cfg.statusFilter then Unlisted
      else if cfg.detectSoft404 && t.base in cfg.baselines && (status, length) in cfg.baselines[t.base] then Soft
      else Hit
  }

  /** The fates of the first `n` targets. */
  function Fates(env: Env, cfg: Config, urls: seq<Target>, n: nat): (r: seq<Fate>)
    requires n <= |urls|
    ensures |r| == n
  {
    if n == 0 then [] else Fates(env, cfg, urls, n - 1) + [FateOf(env, cfg, n - 1, urls[n - 1])]
  }

  /** The hits among the first `n` targets, in plan order. */
  function Hits(env: Env, cfg: Config, urls: seq<Target>, n: nat): seq<Target>
    requires n <= |urls|
  {
    if n == 0 then []
    else
      Hits(env, cfg, urls, n - 1) + if FateOf(env, cfg, n - 1, urls[n - 1]).Hit? then [urls[n - 1]] else []
  }

  function Count(fates: seq<Fate>, f: Fate): nat {
    if fates == [] then 0
    else Count(fates[..|fates| - 1], f) + if fates[|fates| - 1] == f then 1 else 0
  }

  /** A stop was seen by one of the first `n` targets or before one of their batches. */
  predicate StopSeen(env: Env, n: nat) {
    n > 0 && (StopSeen(env, n - 1) || env.stopInside(n - 1) || ((n - 1) % BATCH_SIZE == 0 && env.stopBefore(n - 1)))
  }

  /** The counters are those of these fates. */
  ghost predicate Accounted(fates: seq<Fate>, s: Stats) {
    && s.probed == Count(fates, Unlisted) + Count(fates, Soft) + Count(fates, Hit)
    && s.errors == Count(fates, Errored)
    && s.skipped == Count(fates, Stopped) + Count(fates, Foreign)
    && s.soft404 == Count(fates, Soft)
    && s.found == Count(fates, Hit)
  }

  function Tally(s: Stats, f: Fate): Stats {
    match f
    case Stopped => s.(skipped := s.skipped + 1)
    case Foreign => s.(skipped := s.skipped + 1)
    case Errored => s.(errors := s.errors + 1)
    case Unlisted => s.(probed := s.probed + 1)
    case Soft => s.(probed := s.probed + 1, soft404 := s.soft404 + 1)
    case Hit => s.(probed := s.probed + 1, found := s.found + 1)
  }

  /** The counters after the first `n` targets. */
  function Totals(env: Env, cfg: Config, urls: seq<Target>, n: nat): Stats
    requires n <= |urls|
  {
    if n == 0 then Stats(0, 0, 0, 0, 0) else Tally(Totals(env, cfg, urls, n - 1), FateOf(env, cfg, n - 1, urls[n - 1]))
  }

  lemma {:induction false} CountSnoc(fates: seq<Fate>, f: Fate, g: Fate)
    ensures Count(fates + [f], g) == Count(fates, g) + if f == g then 1 else 0
  {
    Seqs.CutAppend(fates, [f]);
  }

  lemma {:induction false} TallyAccounts(fates: seq<Fate>, s: Stats, f: Fate)
    requires Accounted(fates, s)
    ensures Accounted(fates + [f], Tally(s, f))
  {
    CountSnoc(fates, f, Stopped);
    CountSnoc(fates, f, Foreign);
    CountSnoc(fates, f, Errored);
    CountSnoc(fates, f, Unlisted);
    CountSnoc(fates, f, Soft);
    CountSnoc(fates, f, Hit);
  }

  /** The counters count the fates. */
  lemma {:induction false} TotalsCountFates(env: Env, cfg: Config, urls: seq<Target>, n: nat)
    requires n <= |urls|
    ensures Accounted(Fates(env, cfg, urls, n), Totals(env, cfg, urls, n))
  {
    if n > 0 {
      TotalsCountFates(env, cfg, urls, n - 1);
      TallyAccounts(Fates(env, cfg, urls, n - 1), Totals(env, cfg, urls, n - 1), FateOf(env, cfg, n - 1, urls[n - 1]));
    }
  }

  // ----- which targets are hits -----

  /** The i-th target was asked for: no stop was seen by its probe, and its URL is in scope. */
  predicate Asked(env: Env, urls: seq<Target>, i: nat) {
    i < |urls| && !env.stopInside(i) && env.inScope(urls[i].url)
  }

  /** What came back for it has a status on the list. */
  predicate Listed(env: Env, cfg: Config, urls: seq<Target>, i: nat) {
    Asked(env, urls, i) && match env.fetch(i) case None => false case Some((status, _)) => status in cfg.statusFilter
  }

  /** What came back looks like the answers to made-up paths under the same base. */
  predicate LikeNothing(env: Env, cfg: Config, urls: seq<Target>, i: nat) {
    cfg.detectSoft404 && i < |urls| && urls[i].base in cfg.baselines && env.fetch(i).Some?
    && env.fetch(i).value in cfg.baselines[urls[i].base]
  }

  predicate IsHit(env: Env, cfg: Config, urls: seq<Target>, i: nat) {
    Listed(env, cfg, urls, i) && !LikeNothing(env, cfg, urls, i)
  }

  /** The places of the saved targets in the plan: in its order, and exactly the hits among the first `n`. */
  ghost predicate SavedAt(env: Env, cfg: Config, urls: seq<Target>, n: nat, saved: seq<Target>, at: seq<nat>) {
    && |at| == |saved|
    && (forall k :: 0 <= k < |at| ==> at[k] < n && at[k] < |urls| && saved[k] == urls[at[k]])
    && (forall j, k :: 0 <= j < k < |at| ==> at[j] < at[k])
    && (forall i :: 0 <= i < n ==> (IsHit(env, cfg, urls, i) <==> i in at))
  }

  ghost predicate SavedExactly(env: Env, cfg: Config, urls: seq<Target>, n: nat, saved: seq<Target>) {
    exists at: seq<nat> :: SavedAt(env, cfg, urls, n, saved, at)
  }

  lemma {:induction false} FateIsHit(env: Env, cfg: Config, urls: seq<Target>, i: nat)
    requires i < |urls|
    ensures FateOf(env, cfg, i, urls[i]).Hit? <==> IsHit(env, cfg, urls, i)
    ensures FateOf(env, cfg, i, urls[i]).Soft? <==> Listed(env, cfg, urls, i) && LikeNothing(env, cfg, urls, i)
    ensures FateOf(env, cfg, i, urls[i]).Errored? <==> Asked(env, urls, i) && env.fetch(i).None?
    ensures FateOf(env, cfg, i, urls[i]).Stopped? || FateOf(env, cfg, i, urls[i]).Foreign? <==> !Asked(env, urls, i)
  {
  }

  /** A target is saved, in plan order, exactly when its probe was not stopped, its URL is in scope, and it
      brought a listed status that no baseline of its base explains. */
  lemma {:induction false} HitsAreExact(env: Env, cfg: Config, urls: seq<Target>, n: nat) returns (at: seq<nat>)
    requires n <= |urls|
    ensures SavedAt(env, cfg, urls, n, Hits(env, cfg, urls, n), at)
  {
    at := [];
    if n > 0 {
      at := HitsAreExact(env, cfg, urls, n - 1);
      FateIsHit(env, cfg, urls, n - 1);
      if IsHit(env, cfg, urls, n - 1) {
        assert SavedAt(env, cfg, urls, n, Hits(env, cfg, urls, n - 1) + [urls[n - 1]], at + [n - 1]) by {
          forall i | 0 <= i < n ensures IsHit(env, cfg, urls, i) <==> i in at + [n - 1] {
            assert i in at + [n - 1] <==> i in at || i == n - 1;
          }
        }
        at := at + [n - 1];
      }
    }
  }

  /** The places among the first `n` with this property. */
  function Where(n: nat, p: nat -> bool): set<nat> {
    set i: nat | i < n && p(i)
  }

  lemma {:induction false} WhereNext(n: nat, p: nat -> bool)
    ensures |Where(n + 1, p)| == |Where(n, p)| + if p(n) then 1 else 0
  {
    assert Where(n + 1, p) == Where(n, p) + if p(n) then {n} else {};
  }

  /** The counters say how many of the first `n` targets were asked for and answered, in vain, not at all,
      taken for soft 404s, and hits. */
  ghost predicate CountedExactly(env: Env, cfg: Config, urls: seq<Target>, n: nat, s: Stats) {
    && s.probed == |Where(n, (i: nat) => Asked(env, urls, i) && env.fetch(i).Some?)|
    && s.errors == |Where(n, (i: nat) => Asked(env, urls, i) && env.fetch(i).None?)|
    && s.skipped == |Where(n, (i: nat) => !Asked(env, urls, i))|
    && s.soft404 == |Where(n, (i: nat) => Listed(env, cfg, urls, i) && LikeNothing(env, cfg, urls, i))|
    && s.found == |Where(n, (i: nat) => IsHit(env, cfg, urls, i))|
  }

  lemma {:induction false} TotalsAreExact(env: Env, cfg: Config, urls: seq<Target>, n: nat)
    requires n <= |urls|
    ensures CountedExactly(env, cfg, urls, n, Totals(env, cfg, urls, n))
  {
    if n == 0 {
      assert forall p: nat -> bool :: Where(0, p) == {};
    } else {
      TotalsAreExact(env, cfg, urls, n - 1);
      FateIsHit(env, cfg, urls, n - 1);
      WhereNext(n - 1, (i: nat) => Asked(env, urls, i) && env.fetch(i).Some?);
      WhereNext(n - 1, (i: nat) => Asked(env, urls, i) && env.fetch(i).None?);
      WhereNext(n - 1, (i: nat) => !Asked(env, urls, i));
      WhereNext(n - 1, (i: nat) => Listed(env, cfg, urls, i) && LikeNothing(env, cfg, urls, i));
      WhereNext(n - 1, (i: nat) => IsHit(env, cfg, urls, i));
    }
  }

  /** A stop was seen by one of these targets. */
  predicate StopInside(env: Env, from: nat, to: nat)
    decreases to
  {
    from < to && (StopInside(env, from, to - 1) || env.stopInside(to - 1))
  }

  /** The body of the loop over the results of a batch. */
  method ProcessResult(env: Env, cfg: Config, i: nat, t: Target, stats: Stats) returns (after: Stats, hit: bool, stopped: bool)
    ensures after == Tally(stats, FateOf(env, cfg, i, t))
    ensures hit <==> FateOf(env, cfg, i, t).Hit?
    ensures stopped <==> env.stopInside(i)
  {
    after, hit, stopped := stats, false, false;
    match Probe(env, i, t)
    case SkippedByStop =>
      stopped := true;
      after := after.(skipped := after.skipped + 1);
    case OutOfScope =>
      after := after.(skipped := after.skipped + 1);
    case ProbeError =>
      after := after.(errors := after.errors + 1);
    case Probed(status, length) =>
      after := after.(probed := after.probed + 1);
      if status in cfg.statusFilter {
        if cfg.detectSoft404 && t.base in cfg.baselines && (status, length) in cfg.baselines[t.base] {
          after := after.(soft404 := after.soft404 + 1);
        } else {
          after := after.(found := after.found + 1);
          hit := true;
        }
      }
  }

  /** The loop over the results of one batch. */
  method ProcessBatch(env: Env, cfg: Config, urls: seq<Target>, from: nat, to: nat, stats: Stats, saved: seq<Target>)
    returns (after: Stats, hits: seq<Target>, stopped: bool)
    requires from <= to <= |urls| && stats == Totals(env, cfg, urls, from) && saved == Hits(env, cfg, urls, from)
    ensures after == Totals(env, cfg, urls, to) && hits == Hits(env, cfg, urls, to)
    ensures stopped <==> StopInside(env, from, to)
  {
    after, hits, stopped := stats, saved, false;
    for i := from to to
      invariant after == Totals(env, cfg, urls, i)
      invariant hits == Hits(env, cfg, urls, i)
      invariant stopped <==> StopInside(env, from, i)
    {
      var hit, stoppedHere;
      after, hit, stoppedHere := ProcessResult(env, cfg, i, urls[i], after);
      if hit {
        hits := hits + [urls[i]];
      }
      stopped := stopped || stoppedHere;
    }
  }

  /** The batch loop of `run_bruteforce`. It reports final counters exactly when no stop was seen, and
      then they account for every planned target; what was saved are the hits of the batches reached. */
  method RunBruteforce(env: Env, cfg: Config, urls: seq<Target>) returns (final: Option<Stats>, saved: seq<Target>, ghost reached: nat)
    ensures final.Some? <==> !StopSeen(env, |urls|)
    ensures final.Some? ==> final.value == Totals(env, cfg, urls, |urls|) && reached == |urls|
    ensures final.Some? ==> CountedExactly(env, cfg, urls, |urls|, final.value)
    ensures reached <= |urls| && saved == Hits(env, cfg, urls, reached)
    ensures SavedExactly(env, cfg, urls, reached, saved)
    ensures reached == |urls| || (reached % BATCH_SIZE == 0 && env.stopBefore(reached))
    ensures forall b :: 0 <= b < reached && b % BATCH_SIZE == 0 ==> !env.stopBefore(b)
  {
    var stats := Stats(0, 0, 0, 0, 0);
    var stopped, i := false, 0;
    saved := [];
    while i < |urls|
      invariant i <= |urls| && (i % BATCH_SIZE == 0 || i == |urls|)
      invariant stats == Totals(env, cfg, urls, i)
      invariant saved == Hits(env, cfg, urls, i)
      invariant stopped <==> StopSeen(env, i)
      invariant forall b :: 0 <= b < i && b % BATCH_SIZE == 0 ==> !env.stopBefore(b)
    {
      if env.stopBefore(i) {
        StopStays(env, i + 1, |urls|);
        ghost var at := HitsAreExact(env, cfg, urls, i);
        return None, saved, i;
      }
      var to := if i + BATCH_SIZE < |urls| then i + BATCH_SIZE else |urls|;
      var stoppedHere;
      stats, saved, stoppedHere := ProcessBatch(env, cfg, urls, i, to, stats, saved);
      StopInBatch(env, i, to);
      OneBatch(i, to);
      stopped, i := stopped || stoppedHere, to;
    }
    reached := i;
    ghost var at := HitsAreExact(env, cfg, urls, i);
    TotalsAreExact(env, cfg, urls, |urls|);
    final := if stopped then None else Some(stats);
  }

  lemma {:induction false} OneBatch(from: nat, to: nat)
    requires from % BATCH_SIZE == 0 && from < to <= from + BATCH_SIZE
    ensures forall b :: from <= b < to && b % BATCH_SIZE == 0 ==> b == from
  {
  }

  /** In numbers: before every fiftieth target, and by each one. */
  lemma {:induction false} StopSeenExactly(env: Env, n: nat)
    ensures StopSeen(env, n) <==> exists i :: 0 <= i < n && StopAt(env, i)
  {
    if n > 0 {
      StopSeenExactly(env, n - 1);
      assert StopAt(env, n - 1) <==> env.stopInside(n - 1) || ((n - 1) % 50 == 0 && env.stopBefore(n - 1));
    }
  }

  predicate StopAt(env: Env, i: nat) {
    env.stopInside(i) || (i % 50 == 0 && env.stopBefore(i))
  }

  lemma {:induction false} StopStays(env: Env, n: nat, m: nat)
    requires n <= m && StopSeen(env, n)
    ensures StopSeen(env, m)
  {
    if n < m {
      StopStays(env, n, m - 1);
    }
  }

  lemma {:induction false} StopInBatch(env: Env, from: nat, to: nat)
    requires from <= to <= from + BATCH_SIZE && from % BATCH_SIZE == 0 && !env.stopBefore(from)
    ensures StopSeen(env, to) <==> StopSeen(env, from) || StopInside(env, from, to)
  {
    if from < to {
      StopInBatch(env, from, to - 1);
      var k := from / BATCH_SIZE;
      var d := to - 1 - from;
      assert to - 1 == k * BATCH_SIZE + d && 0 <= d < BATCH_SIZE;
      assert (to - 1) % BATCH_SIZE == d;
    }
  }

  // ----- conservation -----

  lemma {:induction false} EveryFateIsCounted(fates: seq<Fate>)
    ensures Count(fates, Stopped) + Count(fates, Foreign) + Count(fates, Errored)
            + Count(fates, Unlisted) + Count(fates, Soft) + Count(fates, Hit) == |fates|
  {
    if fates != [] {
      EveryFateIsCounted(fates[..|fates| - 1]);
    }
  }

  lemma {:induction false} HitsAreCounted(env: Env, cfg: Config, urls: seq<Target>, n: nat)
    requires n <= |urls|
    ensures |Hits(env, cfg, urls, n)| == Count(Fates(env, cfg, urls, n), Hit)
    ensures forall t :: t in Hits(env, cfg, urls, n) ==> t in urls && env.inScope(t.url)
  {
    if n > 0 {
      HitsAreCounted(env, cfg, urls, n - 1);
      assert Fates(env, cfg, urls, n)[..n - 1] == Fates(env, cfg, urls, n - 1);
    }
  }

  /** On a completed run probed, errors and skipped add up to what was planned, that is to the smaller of
      the cap and the estimate; hits and soft 404s are among the probed; and one hit was saved for each
      one counted, all of them planned and in scope. */
  lemma {:induction false} RunConserves(env: Env, cfg: Config, bases: seq<string>, words: seq<string>, exts: seq<string>, cap: nat)
    ensures var urls := Capped(Plan(bases, words, exts), cap);
            var s := Totals(env, cfg, urls, |urls|);
            var saved := Hits(env, cfg, urls, |urls|);
            && s.probed + s.errors + s.skipped == |urls| <= cap
            && (|urls| == cap || |urls| == EstimateRequests(words, exts, bases))
            && s.found + s.soft404 <= s.probed
            && s.found == |saved|
            && forall t :: t in saved ==> t in urls && env.inScope(t.url)
  {
    var urls := Capped(Plan(bases, words, exts), cap);
    TotalsCountFates(env, cfg, urls, |urls|);
    EveryFateIsCounted(Fates(env, cfg, urls, |urls|));
    HitsAreCounted(env, cfg, urls, |urls|);
    PlanSize(bases, words, exts);
  }
}
