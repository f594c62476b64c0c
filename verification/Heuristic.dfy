/** The heuristic scorer of findings (pwnproxy/ai/triage/heuristic.py:20-72) over exact arithmetic. */
module Heuristic {
  import opened Text
  import opened Wrappers

  const BASE_SCORE := 0.5
  const DETAILED_EVIDENCE_LEN := 120

  /** A finding as the scorer reads it: the confidence lower-cased, evidence and payload trimmed. */
  datatype Finding = Finding(id: Option<int>, confidence: string, evidence: string, payload: string,
                             hasRequest: bool, scanId: string)

  datatype Config = Config(enabled: bool, mode: string, autoTrue: real, autoFalse: real, queueMax: int,
                           weights: map<string, real>, maxLlm: int, skip: seq<string>, fpThreshold: real)

  const DEFAULT_WEIGHTS: map<string, real> :=
    map["no_evidence" := -0.45, "tentative_confidence" := -0.20, "inferred_confidence" := 0.10,
        "confirmed_confidence" := 0.20, "confident_confidence" := 0.15, "detailed_evidence" := 0.10,
        "payload_in_evidence" := 0.15, "request_context" := 0.05]

  function Weight(cfg: Config, key: string): real {
    if key in cfg.weights then cfg.weights[key] else 0.0
  }

  function Clamp(x: real): (r: real)
    ensures 0.0 <= r <= 1.0
  {
    var low := if x > 0.0 then x else 0.0;
    if low < 1.0 then low else 1.0
  }

  /** `round(x, 3)`: to the nearest thousandth, a tie to the even one. */
  function Round3(x: real): (r: real)
    ensures -0.0005 <= r - x <= 0.0005
  {
    var n := (x * 1000.0).Floor;
    var rest := x * 1000.0 - n as real;
    var m := if rest < 0.5 || (rest == 0.5 && n % 2 == 0) then n else n + 1;
    m as real / 1000.0
  }

  lemma {:induction false} RoundStaysInRange(x: real)
    requires 0.0 <= x <= 1.0
    ensures 0.0 <= Round3(x) <= 1.0
  {
    var n := (x * 1000.0).Floor;
    assert 0 <= n <= 1000;
    assert n == 1000 ==> x == 1.0;
  }

  /** The rounding is to the nearest whole thousandth, and to the even one where two are as near. */
  lemma {:induction false} RoundsToNearest(x: real) returns (m: int)
    ensures Round3(x) == m as real / 1000.0
    ensures m as real - 0.5 <= x * 1000.0 <= m as real + 0.5
    ensures x * 1000.0 == m as real - 0.5 || x * 1000.0 == m as real + 0.5 ==> m % 2 == 0
  {
    var n := (x * 1000.0).Floor;
    var rest := x * 1000.0 - n as real;
    m := if rest < 0.5 || (rest == 0.5 && n % 2 == 0) then n else n + 1;
  }

  // ----- the score -----

  function EvidenceWeight(cfg: Config, f: Finding): real {
    if f.evidence == "" then Weight(cfg, "no_evidence")
    else
      (if Detailed(f) then Weight(cfg, "detailed_evidence") else 0.0)
      + (if Echoes(f) then Weight(cfg, "payload_in_evidence") else 0.0)
  }

  function ConfidenceKey(confidence: string): Option<string> {
    if confidence == "tentative" then Some("tentative_confidence")
    else if confidence == "confirmed" then Some("confirmed_confidence")
    else if confidence == "inferred" then Some("inferred_confidence")
    else if confidence in ["confident", "certain", "firm"] then Some("confident_confidence")
    else None
  }

  /** The weights that apply, added up. */
  function Total(cfg: Config, f: Finding): real {
    var key := ConfidenceKey(f.confidence);
    BASE_SCORE + EvidenceWeight(cfg, f)
    + (if key.Some? then Weight(cfg, key.value) else 0.0)
    + (if f.hasRequest then Weight(cfg, "request_context") else 0.0)
  }

  function Score(cfg: Config, f: Finding): real {
    var rounded := Round3(Clamp(Total(cfg, f)));
    if f.confidence == "confirmed" && rounded < cfg.autoTrue then cfg.autoTrue else rounded
  }

  /** The list without repetitions, each reason where it first stood. */
  function Dedup(s: seq<string>): (r: seq<string>)
    ensures forall x :: x in r <==> x in s
    ensures forall i, j :: 0 <= i < j < |r| ==> r[i] != r[j]
  {
    if s == [] then []
    else
      var front, x := Dedup(s[..|s| - 1]), s[|s| - 1];
      assert s == s[..|s| - 1] + [x];
      if x in front then front else front + [x]
  }

  predicate Echoes(f: Finding) {
    f.payload != "" && Contains(f.evidence, f.payload)
  }

  predicate Detailed(f: Finding) {
    |f.evidence| >= DETAILED_EVIDENCE_LEN
  }

  function EvidenceReasons(f: Finding): seq<string> {
    if f.evidence == "" then ["no_evidence"]
    else (if Detailed(f) then ["strong_evidence"] else []) + (if Echoes(f) then ["strong_evidence"] else [])
  }

  function ConfidenceReasons(confidence: string): seq<string> {
    if confidence == "tentative" then ["scanner_noise"]
    else if confidence == "confirmed" then ["confirmed_scanner"]
    else if confidence == "inferred" then ["inferred_scanner"]
    else if confidence in ["confident", "certain", "firm"] then ["confident_scanner"]
    else []
  }

  predicate Floored(cfg: Config, f: Finding) {
    f.confidence == "confirmed" && Round3(Clamp(Total(cfg, f))) < cfg.autoTrue
  }

  function Reasons(cfg: Config, f: Finding): seq<string> {
    EvidenceReasons(f) + ConfidenceReasons(f.confidence)
    + (if f.hasRequest then ["request_context"] else []) + (if Floored(cfg, f) then ["confirmed_floor"] else [])
  }

  /** `score_finding`. */
  method ScoreFinding(cfg: Config, f: Finding) returns (score: real, reasons: seq<string>)
    ensures score == Score(cfg, f) && reasons == Dedup(Reasons(cfg, f))
  {
    score, reasons := BASE_SCORE, [];
    if f.evidence != "" {
      if Detailed(f) {
        score := score + Weight(cfg, "detailed_evidence");
        reasons := reasons + ["strong_evidence"];
      }
      if Echoes(f) {
        score := score + Weight(cfg, "payload_in_evidence");
        reasons := reasons + ["strong_evidence"];
      }
    } else {
      score := score + Weight(cfg, "no_evidence");
      reasons := reasons + ["no_evidence"];
    }
    assert score == BASE_SCORE + EvidenceWeight(cfg, f) && reasons == EvidenceReasons(f);
    var key := ConfidenceKey(f.confidence);
    if key.Some? {
      score := score + Weight(cfg, key.value);
    }
    reasons := reasons + ConfidenceReasons(f.confidence);
    if f.hasRequest {
      score := score + Weight(cfg, "request_context");
      reasons := reasons + ["request_context"];
    }
    score := Round3(Clamp(score));
    if f.confidence == "confirmed" && score < cfg.autoTrue {
      score := cfg.autoTrue;
      reasons := reasons + ["confirmed_floor"];
    }
    assert reasons == Reasons(cfg, f);
    reasons := Dedup(reasons);
  }

  // ----- what the score promises -----

  /** Under any weights and thresholds a confirmed finding scores at least `auto_true`; every other score
      lies between 0 and 1, within half a thousandth of the clamped total. */
  lemma {:induction false} ScoreRange(cfg: Config, f: Finding)
    ensures f.confidence == "confirmed" ==> Score(cfg, f) >= cfg.autoTrue
    ensures 0.0 <= Score(cfg, f) <= 1.0 || (f.confidence == "confirmed" && Score(cfg, f) == cfg.autoTrue)
    ensures f.confidence != "confirmed" ==> -0.0005 <= Score(cfg, f) - Clamp(Total(cfg, f)) <= 0.0005
  {
    RoundStaysInRange(Clamp(Total(cfg, f)));
  }

  /** With the shipped weights and thresholds: without evidence everything but a confirmed finding is
      rejected; a tentative finding is never accepted, and rejected when its evidence is neither long nor
      echoes the payload and no request came with it; an inferred finding is accepted exactly when
      something beyond a request speaks for it. */
  lemma {:induction false} ShippedVerdicts(cfg: Config, f: Finding)
    requires cfg.weights == DEFAULT_WEIGHTS && cfg.autoTrue == 0.7 && cfg.autoFalse == 0.3
    ensures f.evidence == "" && f.confidence != "confirmed" ==> Score(cfg, f) <= cfg.autoFalse
    ensures f.confidence == "tentative" ==> Score(cfg, f) < cfg.autoTrue
    ensures f.confidence == "tentative" && EvidenceWeight(cfg, f) <= 0.0 && !f.hasRequest ==> Score(cfg, f) <= cfg.autoFalse
    ensures f.confidence == "inferred" && f.evidence != "" ==>
              (Score(cfg, f) >= cfg.autoTrue <==> EvidenceWeight(cfg, f) > 0.0)
  {
    ExactThousandths(cfg, f);
  }

  /** A weight that is not configured counts as zero. */
  lemma {:induction false} AbsentWeightIsZero(cfg: Config, f: Finding, key: string)
    requires key !in cfg.weights
    ensures Score(cfg.(weights := cfg.weights[key := 0.0]), f) == Score(cfg, f)
  {
    var more := cfg.(weights := cfg.weights[key := 0.0]);
    assert forall k :: Weight(more, k) == Weight(cfg, k);
  }

  /** The shipped score in numbers, before the floor of a confirmed finding: from 0.5, down by 0.45 without
      evidence, or up by 0.10 for long evidence and 0.15 for evidence that holds the payload; by the
      confidence down 0.20 or up 0.20, 0.10 or 0.15; up 0.05 for a request; kept within 0 and 1. */
  lemma {:induction false} ShippedScoreExactly(cfg: Config, f: Finding)
    requires cfg.weights == DEFAULT_WEIGHTS && cfg.autoTrue == 0.7
    ensures var evidence := if f.evidence == "" then -0.45
                            else (if |f.evidence| >= 120 then 0.10 else 0.0)
                                 + (if f.payload != "" && Contains(f.evidence, f.payload) then 0.15 else 0.0);
            var confidence := if f.confidence == "tentative" then -0.20 else if f.confidence == "confirmed" then 0.20
                              else if f.confidence == "inferred" then 0.10
                              else if f.confidence in {"confident", "certain", "firm"} then 0.15 else 0.0;
            var sum := 0.5 + evidence + confidence + (if f.hasRequest then 0.05 else 0.0);
            var kept := if sum < 0.0 then 0.0 else if sum > 1.0 then 1.0 else sum;
            Score(cfg, f) == if f.confidence == "confirmed" && kept < 0.7 then 0.7 else kept
  {
    ExactThousandths(cfg, f);
  }

  lemma {:induction false} ConfidenceReasonIs(confidence: string, r: string)
    ensures r in ConfidenceReasons(confidence) <==>
            || (r == "scanner_noise" && confidence == "tentative")
            || (r == "confirmed_scanner" && confidence == "confirmed")
            || (r == "inferred_scanner" && confidence == "inferred")
            || (r == "confident_scanner" && confidence in {"confident", "certain", "firm"})
  {
  }

  lemma {:induction false} EvidenceReasonIs(f: Finding, r: string)
    ensures r in EvidenceReasons(f) <==>
            || (r == "no_evidence" && f.evidence == "")
            || (r == "strong_evidence" && f.evidence != ""
                && (|f.evidence| >= 120 || (f.payload != "" && Contains(f.evidence, f.payload))))
  {
  }

  lemma {:induction false} FlooredIs(cfg: Config, f: Finding)
    ensures Floored(cfg, f) <==> f.confidence == "confirmed" && Score(cfg, f) != Round3(Clamp(Total(cfg, f)))
  {
  }

  /** Where the reasons come from. */
  lemma {:induction false} ReasonsExactly(cfg: Config, f: Finding, r: string)
    ensures r in Dedup(Reasons(cfg, f)) <==>
            || (r == "no_evidence" && f.evidence == "")
            || (r == "strong_evidence" && f.evidence != ""
                && (|f.evidence| >= 120 || (f.payload != "" && Contains(f.evidence, f.payload))))
            || (r == "scanner_noise" && f.confidence == "tentative")
            || (r == "confirmed_scanner" && f.confidence == "confirmed")
            || (r == "inferred_scanner" && f.confidence == "inferred")
            || (r == "confident_scanner" && f.confidence in {"confident", "certain", "firm"})
            || (r == "request_context" && f.hasRequest)
            || (r == "confirmed_floor" && f.confidence == "confirmed" && Score(cfg, f) != Round3(Clamp(Total(cfg, f))))
  {
    var e, c := EvidenceReasons(f), ConfidenceReasons(f.confidence);
    var last := if f.hasRequest then ["request_context"] else [];
    var floor := if Floored(cfg, f) then ["confirmed_floor"] else [];
    EvidenceReasonIs(f, r);
    ConfidenceReasonIs(f.confidence, r);
    FlooredIs(cfg, f);
    assert Reasons(cfg, f) == e + c + last + floor;
    assert r in Reasons(cfg, f) <==> r in e || r in c || r in last || r in floor;
  }

  /** The shipped weights are whole twentieths, so rounding never moves a score. */
  lemma {:induction false} ExactThousandths(cfg: Config, f: Finding)
    requires cfg.weights == DEFAULT_WEIGHTS
    ensures Round3(Clamp(Total(cfg, f))) == Clamp(Total(cfg, f))
  {
    var e := EvidenceWeight(cfg, f);
    var a := if e == -0.45 then -9 else if e == 0.10 then 2 else if e == 0.15 then 3 else if e == 0.25 then 5 else 0;
    assert e == a as real / 20.0;
    var key := ConfidenceKey(f.confidence);
    var c := if key.None? then 0.0 else Weight(cfg, key.value);
    var b := if c == -0.20 then -4 else if c == 0.20 then 4 else if c == 0.10 then 2 else if c == 0.15 then 3 else 0;
    assert c == b as real / 20.0;
    var n := 10 + a + b + if f.hasRequest then 1 else 0;
    assert Total(cfg, f) == n as real / 20.0;
    RoundTwentieths(if n < 0 then 0 else if n > 20 then 20 else n);
  }

  lemma {:induction false} RoundTwentieths(n: int)
    ensures Round3(n as real / 20.0) == n as real / 20.0
  {
    var x := n as real / 20.0;
    var m := 50 * n;
    assert x * 1000.0 == m as real;
    assert (x * 1000.0).Floor == m;
    assert m as real / 1000.0 == x;
  }
}
