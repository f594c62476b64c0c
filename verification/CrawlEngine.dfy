/** The crawl engine itself (pwnproxy/services/crawler/engine.py): batches of concurrent fetches in
    any completion order, a page cap, and cancellation at any moment.  What a run leaves behind is
    the frontier of module Crawl for the order in which its pages came back. */
module CrawlEngine {
  import opened Crawl
  import opened CrawlBatches

  class CrawlEngine {
    const web: Web
    const cfg: Config
    var visited: set<Url>
    var visitedPaths: set<string>
    var queue: seq<Entry>
    var fetched: nat
    var queued: nat
    var discovered: nat
    var errors: nat
    var maxed: bool
    var cancelled: bool
    /** The sentinel at the end of the queue. */
    var drained: bool
    /** Positions, among everything enqueued, of the pages processed so far, in order. */
    ghost var order: seq<nat>
    /** The same batch by batch, for the batches that have ended. */
    ghost var rounds: seq<seq<nat>>
    /** How many entries have left the queue. */
    ghost var taken: nat
    /** Entries that left the queue and were not fetched, for a cancellation or the cap. */
    ghost var skipped: nat

    ghost function Enqueued(): seq<Entry>
      reads this`order
    {
      Frontier(web, cfg, order)
    }

    ghost function Now(): Fields
      reads this`visited, this`visitedPaths, this`queue, this`queued, this`discovered
    {
      Fields(visited, visitedPaths, queue, queued, discovered)
    }

    ghost predicate Consistent()
      reads this`order, this`taken, this`visited, this`visitedPaths, this`queue, this`queued, this`discovered
    {
      Tracks(web, cfg, order, taken, Now())
    }

    /** Between batches every entry taken off the queue is fetched, failed or skipped. */
    ghost predicate Settled()
      reads this
    {
      && Consistent()
      && |order| == fetched
      && fetched + errors + skipped == taken
      && SkipsExcused()
      && Sequential()
    }

    /** And the pages came back batch by batch; all of them, unless one failed or was cut. */
    ghost predicate Valid()
      reads this
    {
      Settled() && Batched(web, cfg, rounds, order, taken, Clean())
    }

    ghost predicate Clean()
      reads this`errors, this`skipped
    {
      errors == 0 && skipped == 0
    }

    constructor (web: Web, cfg: Config)
      ensures Valid() && this.web == web && this.cfg == cfg
      ensures fetched == 0 && order == [] && !maxed && !cancelled && !drained
    {
      this.web, this.cfg := web, cfg;
      visited, visitedPaths, queue := {}, {}, [];
      fetched, queued, discovered, errors := 0, 0, 0, 0;
      maxed, cancelled, drained := false, false, false;
      order, rounds, taken, skipped := [], [], 0, 0;
      new;
      AddSeeds();
      KeysAtDepth(web, cfg.seeds, 0);
    }

    method AddSeeds()
      requires queue == [] && visited == {} && visitedPaths == {}
      modifies this`visited, this`visitedPaths, this`queue
      ensures queue == AtDepth(cfg.seeds, 0)
      ensures visitedPaths == UrlKeys(web, cfg.seeds)
      ensures visited == UrlsOf(AtDepth(cfg.seeds, 0))
    {
      for i := 0 to |cfg.seeds|
        invariant queue == AtDepth(cfg.seeds[..i], 0)
        invariant visitedPaths == UrlKeys(web, cfg.seeds[..i])
        invariant visited == set u | u in cfg.seeds[..i]
      {
        var seed := cfg.seeds[i];
        visited, visitedPaths := visited + {seed}, visitedPaths + {web.key(seed)};
        queue := queue + [Entry(seed, 0)];
        UrlKeysSnoc(web, cfg.seeds[..i], seed);
        assert cfg.seeds[..i + 1] == cfg.seeds[..i] + [seed];
      }
      assert cfg.seeds[..|cfg.seeds|] == cfg.seeds;
      UrlsAppend([], cfg.seeds, 0);
      assert [] + AtDepth(cfg.seeds, 0) == AtDepth(cfg.seeds, 0);
    }

    /** The public entry point accepts a URL exactly when the crawl loop would, on the same state. */
    method QueueCandidate(url: Url, currentDepth: nat) returns (added: bool)
      requires forall u :: u in visited ==> web.key(u) in visitedPaths
      modifies this`visited, this`visitedPaths, this`queue, this`queued
      ensures added <==> && web.inScope(url) && !web.disallowed(url)
                         && web.key(url) !in old(visitedPaths) && currentDepth + 1 <= cfg.depth
      ensures queue == old(queue) + if added then [Entry(url, currentDepth + 1)] else []
      ensures visitedPaths == old(visitedPaths) + if added then {web.key(url)} else {}
      ensures visited == old(visited) + if added then {url} else {}
      ensures queued == old(queued) + if added then 1 else 0
    {
      if url in visited || !web.inScope(url) {
        return false;
      }
      if web.key(url) in visitedPaths || web.disallowed(url) {
        return false;
      }
      if currentDepth + 1 > cfg.depth {
        return false;
      }
      visited, visitedPaths := visited + {url}, visitedPaths + {web.key(url)};
      queue := queue + [Entry(url, currentDepth + 1)];
      queued := queued + 1;
      return true;
    }

    /** The updates for one candidate that is added. */
    method AddOne(url: Url, next: nat)
      modifies this`visited, this`visitedPaths, this`queue, this`queued, this`discovered
      ensures Now() == WithFound(web, old(Now()), [url], next)
    {
      visited, visitedPaths := visited + {url}, visitedPaths + {web.key(url)};
      queue := queue + [Entry(url, next)];
      queued, discovered := queued + 1, discovered + 1;
      UrlKeysSnoc(web, [], url);
      assert [] + [url] == [url] && UrlKeys(web, []) == {};
      assert (set u | u in [url]) == {url};
      assert AtDepth([url], next) == [Entry(url, next)];
    }

    /** The candidate loop of one page: the repeats it skips would not have been added anyway. */
    method AddCandidates(cands: seq<Url>, next: nat) returns (ghost found: seq<Url>)
      modifies this`visited, this`visitedPaths, this`queue, this`queued, this`discovered
      ensures found == if next <= cfg.depth then Discover(web, old(visitedPaths), cands) else []
      ensures Now() == WithFound(web, old(Now()), found, next)
    {
      var seen: set<Url> := {};
      found := [];
      ghost var start := Now();
      WithFoundNone(web, start, next);
      for k := 0 to |cands|
        invariant found == if next <= cfg.depth then Discover(web, start.visitedPaths, cands[..k]) else []
        invariant Now() == WithFound(web, start, found, next)
        invariant forall u :: u in seen && next <= cfg.depth ==> !Crawl.Fresh(web, visitedPaths, u)
      {
        var url := cands[k];
        assert visitedPaths == start.visitedPaths + UrlKeys(web, found);
        DiscoverSnoc(web, start.visitedPaths, cands, k);
        if url !in seen {
          seen := seen + {url};
          if web.inScope(url) && web.key(url) !in visitedPaths && !web.disallowed(url) && next <= cfg.depth {
            WithFoundSnoc(web, start, found, url, next);
            found := found + [url];
            AddOne(url, next);
            UrlKeysSnoc(web, [], url);
            assert [] + [url] == [url];
          }
        }
      }
      assert cands[..|cands|] == cands;
    }

    /** A fetched page extends the frontier. */
    method ProcessPage(entry: Entry, ghost position: nat)
      requires Consistent() && position < taken && position !in order && Enqueued()[position] == entry
      modifies this`visited, this`visitedPaths, this`queue, this`queued, this`discovered, this`order
      ensures Consistent() && order == old(order) + [position]
    {
      ghost var before := Now();
      ghost var found := AddCandidates(web.links(entry.url), entry.depth + 1);
      TracksNext(web, cfg, order, taken, before, position, found);
      order := order + [position];
    }

    /** The fetches of the batch that starts at `first`: none that is still open has been processed. */
    ghost predicate Open(first: nat, batch: seq<Entry>, stages: seq<Stage>)
      reads this`order, this`taken
    {
      && first + |batch| == taken <= |Enqueued()| && batch == Enqueued()[first..taken] && |stages| == |batch|
      && forall o :: 0 <= o < |stages| && stages[o] != Done ==> NotFetched(first + o)
    }

    ghost predicate NotFetched(position: nat)
      reads this`order
    {
      position !in order
    }

    ghost predicate Balanced(stages: seq<Stage>)
      reads this`fetched, this`errors, this`skipped, this`taken, this`order
    {
      && taken == |order| + errors + skipped + Sum(stages, IsOpen)
      && fetched == |order| + Sum(stages, HasArrived)
    }

    ghost predicate SkipsExcused()
      reads this`skipped, this`cancelled, this`fetched
    {
      skipped > 0 ==> cancelled || fetched >= cfg.maxUrls
    }

    /** Served one at a time, entries are fetched in queue order. */
    ghost predicate Sequential()
      reads this`order
    {
      cfg.concurrency == 1 ==> Increasing(order)
    }

    /** What holds at every scheduling point of a batch. */
    ghost predicate InBatch(first: nat, batch: seq<Entry>, stages: seq<Stage>)
      reads this
    {
      Consistent() && Open(first, batch, stages) && Balanced(stages) && SkipsExcused() && Sequential()
    }

    /** One open fetch has moved on without a page being processed, and the counters with it. */
    lemma {:induction false} FetchMoved(first: nat, batch: seq<Entry>, stages: seq<Stage>, o: nat, s: Stage)
      requires Consistent() && Open(first, batch, stages) && SkipsExcused() && Sequential()
      requires o < |stages| && stages[o] != Done && StepsLeft(s) < StepsLeft(stages[o])
      requires taken == |order| + errors + skipped + Sum(stages, IsOpen) - IsOpen(stages[o]) + IsOpen(s)
      requires fetched == |order| + Sum(stages, HasArrived) - HasArrived(stages[o]) + HasArrived(s)
      ensures var stages' := stages[o := s];
              && InBatch(first, batch, stages') && Work(stages') < Work(stages)
              && Sum(stages', IsUnfetched) == Sum(stages, IsUnfetched) - IsUnfetched(stages[o]) + IsUnfetched(s)
    {
      UpdateSums(stages, o, s);
    }

    /** A fetch checks for a cancellation and the cap before it starts. */
    method Start(ghost first: nat, ghost batch: seq<Entry>, stages: seq<Stage>, o: nat) returns (stages': seq<Stage>)
      requires InBatch(first, batch, stages) && o < |stages| && stages[o] == Waiting
      modifies this`skipped
      ensures InBatch(first, batch, stages') && Work(stages') < Work(stages) && old(skipped) <= skipped
      ensures Sum(stages', IsUnfetched) <= Sum(stages, IsUnfetched)
    {
      if cancelled || fetched >= cfg.maxUrls {
        stages' := stages[o := Done];
        skipped := skipped + 1;
      } else {
        stages' := stages[o := InFlight];
      }
      FetchMoved(first, batch, stages, o, stages'[o]);
    }

    /** The request: cut by a cancellation, failed, or answered. */
    method Answer(ghost first: nat, ghost batch: seq<Entry>, stages: seq<Stage>, o: nat) returns (stages': seq<Stage>)
      requires InBatch(first, batch, stages) && o < |stages| && stages[o] == InFlight
      modifies this`skipped, this`errors, this`fetched
      ensures InBatch(first, batch, stages') && Work(stages') < Work(stages)
      ensures old(fetched) <= fetched && old(errors) <= errors && old(skipped) <= skipped
      ensures fetched + Sum(stages', IsUnfetched) <= old(fetched) + Sum(stages, IsUnfetched)
    {
      var cut, failed: bool := *, *;
      if cancelled && cut {
        stages' := stages[o := Done];
        skipped := skipped + 1;
      } else if failed {
        stages' := stages[o := Done];
        errors := errors + 1;
      } else {
        stages' := stages[o := Arrived];
        fetched := fetched + 1;
      }
      FetchMoved(first, batch, stages, o, stages'[o]);
    }

    /** A page that has come back is processed while others may still be in flight. */
    method Collect(ghost first: nat, batch: seq<Entry>, stages: seq<Stage>, o: nat) returns (stages': seq<Stage>)
      requires InBatch(first, batch, stages) && o < |stages| && stages[o] == Arrived
      requires cfg.concurrency == 1 ==> |batch| == 1
      modifies this`visited, this`visitedPaths, this`queue, this`queued, this`discovered, this`order
      ensures InBatch(first, batch, stages') && Work(stages') < Work(stages)
      ensures Sum(stages', IsUnfetched) == Sum(stages, IsUnfetched) && OneMore(old(order), order, first)
    {
      ghost var p := first + o;
      assert NotFetched(p);
      assert batch[o] == Enqueued()[p];
      if cfg.concurrency == 1 {
        LastTakenComesLast(web, cfg, order, p);
      }
      stages' := stages[o := Done];
      ProcessPage(batch[o], p);
      PageDone(first, batch, stages, o, old(order));
    }

    /** One fetch of a batch is done and its page processed; `was` is the order before that. */
    lemma {:induction false} PageDone(first: nat, batch: seq<Entry>, stages: seq<Stage>, o: nat, was: seq<nat>)
      requires o < |stages| == |batch| && stages[o] == Arrived
      requires Consistent() && SkipsExcused() && Sequential() && order == was + [first + o]
      requires first + |batch| == taken <= |Frontier(web, cfg, was)| && batch == Frontier(web, cfg, was)[first..taken]
      requires forall k :: 0 <= k < |stages| && stages[k] != Done ==> first + k !in was
      requires taken == |was| + errors + skipped + Sum(stages, IsOpen) && fetched == |was| + Sum(stages, HasArrived)
      ensures var stages' := stages[o := Done];
              InBatch(first, batch, stages') && Work(stages') < Work(stages) && Sum(stages', IsUnfetched) == Sum(stages, IsUnfetched)
    {
      UpdateSums(stages, o, Done);
      BatchStays(web, cfg, was, first + o, first, taken);
    }

    /** The next step of one open fetch. */
    method StepTask(ghost first: nat, batch: seq<Entry>, stages: seq<Stage>, o: nat) returns (stages': seq<Stage>)
      requires InBatch(first, batch, stages) && o < |stages| && stages[o] != Done
      requires cfg.concurrency == 1 ==> |batch| == 1
      modifies this`visited, this`visitedPaths, this`queue, this`queued, this`discovered, this`order
      modifies this`skipped, this`errors, this`fetched
      ensures InBatch(first, batch, stages') && Work(stages') < Work(stages)
      ensures old(fetched) <= fetched
      ensures fetched + Sum(stages', IsUnfetched) <= old(fetched) + Sum(stages, IsUnfetched)
      ensures old(errors) <= errors && old(skipped) <= skipped
      ensures (order == old(order) && queue == old(queue)) || OneMore(old(order), order, first)
    {
      match stages[o] {
        case Waiting => stages' := Start(first, batch, stages, o);
        case InFlight => stages' := Answer(first, batch, stages, o);
        case Arrived => stages' := Collect(first, batch, stages, o);
      }
    }

    /** One moment of a batch: the crawl may be cancelled, and any open fetch takes its next step. */
    method StepAny(ghost first: nat, batch: seq<Entry>, stages: seq<Stage>) returns (stages': seq<Stage>)
      requires InBatch(first, batch, stages) && exists o :: 0 <= o < |stages| && stages[o] != Done
      requires cfg.concurrency == 1 ==> |batch| == 1
      modifies this`visited, this`visitedPaths, this`queue, this`queued, this`discovered, this`order
      modifies this`skipped, this`errors, this`fetched, this`cancelled
      ensures InBatch(first, batch, stages') && Work(stages') < Work(stages)
      ensures old(fetched) <= fetched && (old(cancelled) ==> cancelled)
      ensures fetched + Sum(stages', IsUnfetched) <= old(fetched) + Sum(stages, IsUnfetched)
      ensures old(errors) <= errors && old(skipped) <= skipped
      ensures (order == old(order) && queue == old(queue)) || OneMore(old(order), order, first)
    {
      if * {
        cancelled := true;
      }
      var o :| 0 <= o < |stages| && stages[o] != Done;
      stages' := StepTask(first, batch, stages, o);
    }

    /** Fetch one batch concurrently, one such moment after the other. */
    method RunFetches(ghost first: nat, batch: seq<Entry>)
      requires InBatch(first, batch, Repeat(|batch|))
      requires cfg.concurrency == 1 ==> |batch| == 1
      modifies this`visited, this`visitedPaths, this`queue, this`queued, this`discovered, this`order
      modifies this`skipped, this`errors, this`fetched, this`cancelled
      ensures Settled() && (old(cancelled) ==> cancelled)
      ensures old(fetched) <= fetched <= old(fetched) + |batch|
      ensures old(errors) <= errors && old(skipped) <= skipped
      ensures Since(old(order), order, first) && (fetched == old(fetched) ==> queue == old(queue))
    {
      var stages := Repeat(|batch|);
      RepeatSums(|batch|);
      while exists o :: 0 <= o < |stages| && stages[o] != Done
        invariant InBatch(first, batch, stages)
        invariant old(cancelled) ==> cancelled
        invariant old(fetched) <= fetched && fetched + Sum(stages, IsUnfetched) <= old(fetched) + |batch|
        invariant old(errors) <= errors && old(skipped) <= skipped
        invariant Since(old(order), order, first) && (order == old(order) ==> queue == old(queue))
        modifies this`visited, this`visitedPaths, this`queue, this`queued, this`discovered, this`order
        modifies this`skipped, this`errors, this`fetched, this`cancelled
        decreases Work(stages)
      {
        ghost var was := order;
        stages := StepAny(first, batch, stages);
        StillSince(old(order), was, order, first);
      }
      DoneSums(stages);
    }

    /** One batch from start to end. */
    method RunBatch(ghost first: nat, batch: seq<Entry>)
      requires InBatch(first, batch, Repeat(|batch|))
      requires cfg.concurrency == 1 ==> |batch| == 1
      requires Batched(web, cfg, rounds, order, first, Clean()) && taken == Reached(web, cfg, first, order)
      modifies this`visited, this`visitedPaths, this`queue, this`queued, this`discovered, this`order
      modifies this`skipped, this`errors, this`fetched, this`cancelled, this`rounds
      ensures Valid() && (old(cancelled) ==> cancelled)
      ensures old(fetched) <= fetched <= old(fetched) + |batch|
      ensures fetched == old(fetched) ==> queue == old(queue)
    {
      RunFetches(first, batch);
      rounds := BatchEnds(web, cfg, rounds, old(order), first, old(Clean()), order, taken, Clean());
    }

    /** The loop that fills a batch from the queue. */
    method PopBatch() returns (batch: seq<Entry>)
      modifies this`queue
      ensures |batch| == if |old(queue)| < cfg.concurrency then |old(queue)| else cfg.concurrency
      ensures batch == old(queue)[..|batch|] && queue == old(queue)[|batch|..]
    {
      batch := [];
      while queue != [] && |batch| < cfg.concurrency
        invariant |batch| <= cfg.concurrency && |batch| <= |old(queue)|
        invariant batch == old(queue)[..|batch|] && queue == old(queue)[|batch|..]
      {
        batch := batch + [queue[0]];
        queue := queue[1..];
      }
    }

    /** The next entries of the queue, up to the concurrency. */
    method TakeBatch() returns (batch: seq<Entry>)
      requires Settled()
      modifies this`queue, this`taken
      ensures InBatch(old(taken), batch, Repeat(|batch|))
      ensures taken == old(taken) + |batch|
      ensures |batch| == if |old(queue)| < cfg.concurrency then |old(queue)| else cfg.concurrency
      ensures queue == old(queue)[|batch|..]
    {
      ghost var before := Now();
      batch := PopBatch();
      taken := taken + |batch|;
      FreshBatch(old(taken), batch, before);
    }

    /** Entries just taken off the queue are a batch of waiting fetches. */
    lemma {:induction false} FreshBatch(first: nat, batch: seq<Entry>, before: Fields)
      requires Tracks(web, cfg, order, first, before) && SkipsExcused() && Sequential()
      requires |batch| <= |before.queue| && batch == before.queue[..|batch|] && taken == first + |batch|
      requires Now() == before.(queue := before.queue[|batch|..])
      requires |order| == fetched && fetched + errors + skipped == first
      ensures InBatch(first, batch, Repeat(|batch|))
    {
      TracksTake(web, cfg, order, first, before, |batch|);
      RepeatSums(|batch|);
    }

    /** One round of the crawl loop: take a batch and fetch it, unless there is none to take. */
    method NextBatch() returns (empty: bool)
      requires Valid()
      modifies this`visited, this`visitedPaths, this`queue, this`queued, this`discovered, this`order
      modifies this`skipped, this`errors, this`fetched, this`cancelled, this`rounds, this`taken
      ensures Valid() && (old(cancelled) ==> cancelled)
      ensures old(fetched) <= fetched <= old(fetched) + cfg.concurrency
      ensures empty <==> old(queue) == [] || cfg.concurrency == 0
      ensures empty ==> unchanged(this)
      ensures !empty ==> fetched > old(fetched) || |queue| < |old(queue)|
    {
      QueueIsTheRest(web, cfg, order, taken, Now());
      ghost var first := taken;
      var batch := TakeBatch();
      empty := batch == [];
      if !empty {
        RunBatch(first, batch);
      }
    }

    /** The whole crawl.  It always terminates: a batch either fetches something or shortens the queue. */
    method Run()
      requires Valid()
      modifies this
      ensures Valid() && drained
      ensures fetched <= old(fetched) || fetched <= cfg.maxUrls + cfg.concurrency - 1
      ensures maxed <==> old(maxed) || fetched >= cfg.maxUrls
      ensures cfg.concurrency > 0 && !cancelled && fetched < cfg.maxUrls ==> queue == [] && skipped == 0
    {
      while !cancelled && fetched < cfg.maxUrls
        invariant Valid() && maxed == old(maxed) && old(fetched) <= fetched
        invariant fetched <= old(fetched) || fetched <= cfg.maxUrls + cfg.concurrency - 1
        decreases cfg.maxUrls - fetched, |queue|
      {
        var empty := NextBatch();
        if empty {
          break;
        }
      }
      Finish();
    }

    /** Record the cap if the loop ended because of it, and put the sentinel. */
    method Finish()
      requires Valid()
      modifies this`maxed, this`drained
      ensures Valid() && drained
      ensures maxed <==> old(maxed) || fetched >= cfg.maxUrls
    {
      if fetched >= cfg.maxUrls {
        maxed := true;
      }
      drained := true;
    }
  }

  // ----- the stages of a fetch -----

  datatype Stage = Waiting | InFlight | Arrived | Done

  function IsOpen(s: Stage): nat { if s == Done then 0 else 1 }

  function HasArrived(s: Stage): nat { if s == Arrived then 1 else 0 }

  function IsUnfetched(s: Stage): nat { if s == Waiting || s == InFlight then 1 else 0 }

  function StepsLeft(s: Stage): nat {
    match s case Waiting => 3 case InFlight => 2 case Arrived => 1 case Done => 0
  }

  function Sum(stages: seq<Stage>, f: Stage -> nat): nat {
    if stages == [] then 0 else f(stages[0]) + Sum(stages[1..], f)
  }

  function Work(stages: seq<Stage>): nat {
    Sum(stages, StepsLeft)
  }

  function Repeat(n: nat): (stages: seq<Stage>)
    ensures |stages| == n && forall o :: 0 <= o < n ==> stages[o] == Waiting
  {
    if n == 0 then [] else [Waiting] + Repeat(n - 1)
  }

  lemma {:induction false} UpdateSum(stages: seq<Stage>, f: Stage -> nat, o: nat, s: Stage)
    requires o < |stages|
    ensures Sum(stages[o := s], f) == Sum(stages, f) - f(stages[o]) + f(s)
  {
    if o > 0 {
      UpdateSum(stages[1..], f, o - 1, s);
      assert stages[o := s][1..] == stages[1..][o - 1 := s];
    } else {
      assert stages[o := s][1..] == stages[1..];
    }
  }

  lemma {:induction false} BatchStays(w: Web, c: Config, order: seq<nat>, p: nat, first: nat, taken: nat)
    requires first <= taken <= |Frontier(w, c, order)|
    ensures taken <= |Frontier(w, c, order + [p])|
    ensures Frontier(w, c, order + [p])[first..taken] == Frontier(w, c, order)[first..taken]
  {
    assert (order + [p])[..|order|] == order;
    FrontierGrows(w, c, order + [p], |order|);
  }

  lemma {:induction false} UpdateSums(stages: seq<Stage>, o: nat, s: Stage)
    requires o < |stages|
    ensures var stages' := stages[o := s];
            && Sum(stages', IsOpen) == Sum(stages, IsOpen) - IsOpen(stages[o]) + IsOpen(s)
            && Sum(stages', HasArrived) == Sum(stages, HasArrived) - HasArrived(stages[o]) + HasArrived(s)
            && Sum(stages', IsUnfetched) == Sum(stages, IsUnfetched) - IsUnfetched(stages[o]) + IsUnfetched(s)
            && Work(stages') == Work(stages) - StepsLeft(stages[o]) + StepsLeft(s)
  {
    UpdateSum(stages, IsOpen, o, s);
    UpdateSum(stages, HasArrived, o, s);
    UpdateSum(stages, IsUnfetched, o, s);
    UpdateSum(stages, StepsLeft, o, s);
  }

  lemma {:induction false} RepeatSums(n: nat)
    ensures Sum(Repeat(n), IsOpen) == n && Sum(Repeat(n), HasArrived) == 0 && Sum(Repeat(n), IsUnfetched) == n
  {
    if n > 0 {
      RepeatSums(n - 1);
      assert Repeat(n)[1..] == Repeat(n - 1);
    }
  }

  lemma {:induction false} DoneSums(stages: seq<Stage>)
    requires forall o :: 0 <= o < |stages| ==> stages[o] == Done
    ensures Sum(stages, IsOpen) == 0 && Sum(stages, HasArrived) == 0
  {
    if stages != [] {
      DoneSums(stages[1..]);
    }
  }

  // ----- the pages of a batch -----

  /** One more page came back, from position `first` on. */
  ghost predicate OneMore(was: seq<nat>, order: seq<nat>, first: nat) {
    |order| == |was| + 1 && order == was + [order[|was|]] && first <= order[|was|]
  }

  lemma {:induction false} StillSince(start: seq<nat>, was: seq<nat>, order: seq<nat>, first: nat)
    requires Since(start, was, first) && (order == was || OneMore(was, order, first))
    ensures Since(start, order, first) && (order == start ==> was == start)
  {
  }

  lemma {:induction false} QueueIsTheRest(w: Web, c: Config, order: seq<nat>, taken: nat, f: Fields)
    requires Tracks(w, c, order, taken, f)
    ensures |Frontier(w, c, order)| == taken + |f.queue|
  {
  }

  // ----- what a finished run has done -----

  /** In every reachable state, for every concurrency, completion order, failure and cancellation:
      each page fetched is a seed or as many admissible links away as its depth, within the bound,
      and no two pages share a path unless both are seeds. */
  lemma {:induction false} EveryPageIsSound(e: CrawlEngine)
    requires e.Valid()
    ensures var pages := PagesOf(e.web, e.cfg, e.order);
            && |pages| == e.fetched && AllSound(e.web, e.cfg, pages)
            && forall i, j :: 0 <= i < j < |pages| && e.web.key(pages[i].url) == e.web.key(pages[j].url) ==>
                 pages[i].url in e.cfg.seeds && pages[j].url in e.cfg.seeds
  {
    PagesAreSound(e.web, e.cfg, e.order, e.taken);
  }

  /** In every reachable state: whatever is queued or was fetched, other than the seeds, is in scope and
      not disallowed, and the links of a fetched page above the bound that are so have been noted. */
  lemma {:induction false} StaysInScope(e: CrawlEngine)
    requires e.Valid()
    ensures forall x :: x in e.queue ==> (x.url in e.cfg.seeds && x.depth == 0) || (e.web.inScope(x.url) && !e.web.disallowed(x.url))
    ensures forall x :: x in PagesOf(e.web, e.cfg, e.order) ==>
              (x.url in e.cfg.seeds && x.depth == 0) || (e.web.inScope(x.url) && !e.web.disallowed(x.url))
  {
    var enq := e.Enqueued();
    forall x | x in enq
      ensures (x.url in e.cfg.seeds && x.depth == 0) || (e.web.inScope(x.url) && !e.web.disallowed(x.url))
    {
      var i :| 0 <= i < |enq| && enq[i] == x;
      InScopeOrSeed(e.web, e.cfg, e.order, i);
    }
    assert forall x :: x in e.queue ==> x in enq;
    assert forall x :: x in PagesOf(e.web, e.cfg, e.order) ==> x in enq;
  }

  lemma {:induction false} InScopeOrSeed(w: Web, c: Config, order: seq<nat>, i: nat)
    requires i < |Frontier(w, c, order)|
    ensures var x := Frontier(w, c, order)[i];
            (x.url in c.seeds && x.depth == 0) || (w.inScope(x.url) && !w.disallowed(x.url))
  {
    if i < |c.seeds| {
      SeedsAreInFront(w, c, order);
      assert AtDepth(c.seeds, 0)[i] == Frontier(w, c, order)[i];
    } else {
      OnlyInScopeIsEnqueued(w, c, order, i);
    }
  }

  /** Every link of a processed page above the bound that is in scope and not disallowed is noted. */
  lemma {:induction false} LinksAreFollowed(e: CrawlEngine, k: nat, u: Url)
    requires e.Valid() && k < |e.order|
    requires var page := PagesOf(e.web, e.cfg, e.order)[k];
             page.depth < e.cfg.depth && u in e.web.links(page.url) && e.web.inScope(u) && !e.web.disallowed(u)
    ensures e.web.key(u) in e.visitedPaths
  {
    assert Available(e.web, e.cfg, e.order, k);
    FrontierGrows(e.web, e.cfg, e.order, k);
    FetchedPagesAreExpanded(e.web, e.cfg, e.order, k, u);
  }

  /** A crawl that ran its queue dry at concurrency 1 without an error, a cancellation or the cap has
      fetched exactly the paths within `depth` admissible links of the seeds, each at its shortest
      distance, provided pages on one path lead to the same paths. */
  lemma {:induction false} CrawlIsBreadthFirst(e: CrawlEngine, k: string)
    requires e.Valid() && e.cfg.concurrency == 1 && e.queue == [] && e.errors == 0 && e.skipped == 0
    requires PathDetermined(e.web)
    ensures var pages := PagesOf(e.web, e.cfg, e.order);
            && (k in KeysOf(e.web, pages) <==> Within(e.web, e.cfg, k))
            && AllShortest(e.web, e.cfg, pages)
  {
    assert forall i :: 0 <= i < |e.order| ==> e.order[i] in e.order;
    IncreasingIsInOrder(e.order, e.taken);
    SequentialPagesAreExact(e.web, e.cfg, e.order, k);
  }

  lemma {:induction false} AllPagesAreThere(w: Web, c: Config, order: seq<nat>)
    requires Causal(w, c, order) && forall p :: 0 <= p < |Frontier(w, c, order)| ==> p in order
    ensures KeysOf(w, PagesOf(w, c, order)) == KeysOf(w, Frontier(w, c, order))
  {
    var pages, enq := PagesOf(w, c, order), Frontier(w, c, order);
    forall k | k in KeysOf(w, enq) ensures k in KeysOf(w, pages) {
      var p :| 0 <= p < |enq| && w.key(enq[p].url) == k;
      assert p in order;
      var i :| 0 <= i < |order| && order[i] == p;
      assert pages[i] == enq[p];
    }
    forall k | k in KeysOf(w, pages) ensures k in KeysOf(w, enq) {
      var i :| 0 <= i < |pages| && w.key(pages[i].url) == k;
      assert pages[i] == enq[order[i]];
    }
  }

  /** The same wherever the configuration allows it, for any concurrency: depths are the shortest
      distances at every moment between batches, and at the end exactly the paths within `depth` have
      been fetched. `CrawlDepths.DepthsAreExactExactly` shows that no other configuration allows it. */
  lemma {:induction false} CrawlIsExactWhen(e: CrawlEngine, k: string)
    requires e.Valid() && e.errors == 0 && e.skipped == 0 && PathDetermined(e.web) && DepthsExact(e.cfg)
    ensures AllShortest(e.web, e.cfg, e.Enqueued())
    ensures e.queue == [] ==> (k in KeysOf(e.web, PagesOf(e.web, e.cfg, e.order)) <==> Within(e.web, e.cfg, k))
  {
    ExactIsShortest(e.cfg);
    assert e.Enqueued() == Frontier(e.web, e.cfg, Flat(e.rounds));
    if e.queue == [] {
      ShortestIsComplete(e.cfg);
      assert Drained(e.web, e.cfg, e.rounds);
      assert FindsAll(e.web, e.cfg, e.Enqueued());
      forall p | 0 <= p < |e.Enqueued()| ensures p in e.order {
        TakenIsFetched(e.web, e.cfg, e.rounds, p);
      }
      AllPagesAreThere(e.web, e.cfg, e.order);
      if k in KeysOf(e.web, e.Enqueued()) {
        FinishedBfsIsSound(e.web, e.cfg, e.Enqueued(), k);
      }
    }
  }

  lemma {:induction false} UrlKeysSnoc(w: Web, us: seq<Url>, u: Url)
    ensures UrlKeys(w, us + [u]) == UrlKeys(w, us) + {w.key(u)}
  {
    var vs := us + [u];
    assert vs[|us|] == u;
    assert forall i :: 0 <= i < |us| ==> vs[i] == us[i];
  }
}
