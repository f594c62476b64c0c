/** The completion orders the crawl engine can produce (pwnproxy/services/crawler/engine.py:144-161), and
    exactly when they record every page at its shortest distance and miss no page within the bound. */
module CrawlBatches {
  import opened Crawl
  import Seqs

  // ----- batches -----

  /** The fetches of a crawl, batch by batch, as one order. */
  function Flat(rounds: seq<seq<nat>>): seq<nat> {
    if rounds == [] then [] else Flat(rounds[..|rounds| - 1]) + rounds[|rounds| - 1]
  }

  /** Up to which position the next batch is taken: the concurrency, or all that is enqueued. */
  function Reached(w: Web, c: Config, taken: nat, order: seq<nat>): (next: nat)
    ensures next <= taken + c.concurrency && next <= |Frontier(w, c, order)|
    ensures taken <= |Frontier(w, c, order)| ==> taken <= next
  {
    var all := |Frontier(w, c, order)|;
    if taken + c.concurrency < all then taken + c.concurrency else all
  }

  /** How many positions have been taken off the queue after these batches. */
  function Taken(w: Web, c: Config, rounds: seq<seq<nat>>): nat {
    if rounds == [] then 0
    else Reached(w, c, Taken(w, c, rounds[..|rounds| - 1]), Flat(rounds[..|rounds| - 1]))
  }

  /** Some positions of one batch, in any order. */
  ghost predicate IsRound(r: seq<nat>, from: nat, to: nat) {
    && (forall p :: p in r ==> from <= p < to)
    && (forall i, j :: 0 <= i < j < |r| ==> r[i] != r[j])
  }

  /** Batches of consecutive positions, each taken when the one before has ended; within a batch the
      pages that come back do so in any order. */
  ghost predicate Served(w: Web, c: Config, rounds: seq<seq<nat>>) {
    rounds == [] ||
    var init, r := rounds[..|rounds| - 1], rounds[|rounds| - 1];
    Served(w, c, init) && IsRound(r, Taken(w, c, init), Taken(w, c, rounds))
  }

  /** The same where every fetch brings its page. */
  ghost predicate FullyServed(w: Web, c: Config, rounds: seq<seq<nat>>) {
    rounds == [] ||
    var init, r := rounds[..|rounds| - 1], rounds[|rounds| - 1];
    && FullyServed(w, c, init)
    && IsRound(r, Taken(w, c, init), Taken(w, c, rounds)) && |r| == Taken(w, c, rounds) - Taken(w, c, init)
  }

  /** Nothing is left in the queue. */
  ghost predicate Drained(w: Web, c: Config, rounds: seq<seq<nat>>) {
    Taken(w, c, rounds) == |Frontier(w, c, Flat(rounds))|
  }

  lemma {:induction false} RoundSnoc(w: Web, c: Config, rounds: seq<seq<nat>>, r: seq<nat>)
    ensures Flat(rounds + [r]) == Flat(rounds) + r
    ensures Taken(w, c, rounds + [r]) == Reached(w, c, Taken(w, c, rounds), Flat(rounds))
    ensures Served(w, c, rounds) && IsRound(r, Taken(w, c, rounds), Taken(w, c, rounds + [r])) ==> Served(w, c, rounds + [r])
    ensures var from, to := Taken(w, c, rounds), Taken(w, c, rounds + [r]);
            FullyServed(w, c, rounds) && IsRound(r, from, to) && |r| == to - from ==> FullyServed(w, c, rounds + [r])
  {
    var next := rounds + [r];
    assert next[..|next| - 1] == rounds && next[|next| - 1] == r;
  }

  lemma {:induction false} FullIsServed(w: Web, c: Config, rounds: seq<seq<nat>>)
    requires FullyServed(w, c, rounds)
    ensures Served(w, c, rounds)
  {
    if rounds != [] {
      FullIsServed(w, c, rounds[..|rounds| - 1]);
    }
  }

  lemma {:induction false} ShorterRound(r: seq<nat>, from: nat, to: nat)
    requires IsRound(r, from, to) && r != []
    ensures IsRound(r[..|r| - 1], from, to) && from <= r[|r| - 1] < to && r[|r| - 1] !in r[..|r| - 1]
  {
    var front := r[..|r| - 1];
    assert r[|r| - 1] in r && forall i :: 0 <= i < |front| ==> front[i] == r[i];
    assert forall q :: q in front ==> q in r;
  }

  lemma {:induction false} OneMoreIsLegal(w: Web, c: Config, order: seq<nat>, front: seq<nat>, next: seq<nat>,
                                          p: nat, from: nat, to: nat)
    requires LegalOrder(w, c, order, from) && LegalOrder(w, c, order + front, to) && to <= |Frontier(w, c, order)|
    requires Frontier(w, c, order) <= Frontier(w, c, order + front)
    requires from <= p < to && p !in front && next == order + front + [p]
    ensures LegalOrder(w, c, next, to) && Frontier(w, c, order) <= Frontier(w, c, next)
  {
    FetchNext(w, c, order + front, to, p);
  }

  /** One batch keeps the order legal. */
  lemma {:induction false} RoundIsLegal(w: Web, c: Config, order: seq<nat>, r: seq<nat>, from: nat, to: nat)
    requires LegalOrder(w, c, order, from) && from <= to <= |Frontier(w, c, order)| && IsRound(r, from, to)
    ensures LegalOrder(w, c, order + r, to)
    ensures Frontier(w, c, order) <= Frontier(w, c, order + r)
    decreases |r|
  {
    if r == [] {
      assert order + r == order;
    } else {
      var front, p := r[..|r| - 1], r[|r| - 1];
      ShorterRound(r, from, to);
      RoundIsLegal(w, c, order, front, from, to);
      assert r == front + [p];
      Seqs.AppendAssoc(order, front, [p]);
      OneMoreIsLegal(w, c, order, front, order + r, p, from, to);
    }
  }

  /** Every such order is legal, and takes no more than is enqueued. */
  lemma {:induction false} ServedIsLegal(w: Web, c: Config, rounds: seq<seq<nat>>)
    requires Served(w, c, rounds)
    ensures LegalOrder(w, c, Flat(rounds), Taken(w, c, rounds))
    ensures Taken(w, c, rounds) <= |Frontier(w, c, Flat(rounds))|
  {
    if rounds != [] {
      var init, r := rounds[..|rounds| - 1], rounds[|rounds| - 1];
      ServedIsLegal(w, c, init);
      RoundIsLegal(w, c, Flat(init), r, Taken(w, c, init), Taken(w, c, rounds));
    }
  }

  // ----- a batch in progress -----

  /** Between batches: what came back, and what was taken; `clean` if nothing failed or was cut. */
  ghost predicate Batched(w: Web, c: Config, rounds: seq<seq<nat>>, order: seq<nat>, taken: nat, clean: bool) {
    && Served(w, c, rounds) && Flat(rounds) == order && Taken(w, c, rounds) == taken
    && (clean ==> FullyServed(w, c, rounds))
  }

  /** Since `was`, only pages from position `first` on came back. */
  ghost predicate Since(was: seq<nat>, order: seq<nat>, first: nat) {
    was <= order && forall i :: |was| <= i < |order| ==> first <= order[i]
  }

  /** The end of a batch that took up to `next`. */
  lemma {:induction false} BatchEnds(w: Web, c: Config, rounds: seq<seq<nat>>, was: seq<nat>, taken: nat, clean: bool,
                                     order: seq<nat>, next: nat, stillClean: bool) returns (rounds': seq<seq<nat>>)
    requires Batched(w, c, rounds, was, taken, clean) && next == Reached(w, c, taken, was)
    requires Since(was, order, taken) && LegalOrder(w, c, order, next)
    requires stillClean ==> clean && |order| == next
    ensures Batched(w, c, rounds', order, next, stillClean)
  {
    var r := order[|was|..];
    rounds' := rounds + [r];
    RestIsRound(w, c, was, order, taken, next);
    RoundSnoc(w, c, rounds, r);
    if clean {
      FullLength(w, c, rounds);
    }
  }

  lemma {:induction false} RestIsRound(w: Web, c: Config, was: seq<nat>, order: seq<nat>, first: nat, next: nat)
    requires Since(was, order, first) && LegalOrder(w, c, order, next)
    ensures IsRound(order[|was|..], first, next) && was + order[|was|..] == order
  {
    var r := order[|was|..];
    assert forall i :: 0 <= i < |r| ==> r[i] == order[|was| + i] && r[i] in order;
  }

  lemma {:induction false} FullLength(w: Web, c: Config, rounds: seq<seq<nat>>)
    requires FullyServed(w, c, rounds)
    ensures |Flat(rounds)| == Taken(w, c, rounds)
  {
    if rounds != [] {
      FullLength(w, c, rounds[..|rounds| - 1]);
    }
  }

  // ----- a full batch leaves nothing out -----

  function Range(from: nat, to: nat): set<nat> {
    if from >= to then {} else Range(from, to - 1) + {to - 1}
  }

  lemma {:induction false} InRange(from: nat, to: nat, p: nat)
    ensures p in Range(from, to) <==> from <= p < to
  {
    if from < to {
      InRange(from, to - 1, p);
    }
  }

  lemma {:induction false} RangeSize(from: nat, to: nat)
    requires from <= to
    ensures |Range(from, to)| == to - from
  {
    if from < to {
      RangeSize(from, to - 1);
      InRange(from, to - 1, to - 1);
    }
  }

  function Elements(r: seq<nat>): set<nat> {
    set p | p in r
  }

  lemma {:induction false} DistinctSize(r: seq<nat>)
    requires forall i, j :: 0 <= i < j < |r| ==> r[i] != r[j]
    ensures |Elements(r)| == |r|
  {
    if r != [] {
      var front, p := r[..|r| - 1], r[|r| - 1];
      DistinctSize(front);
      assert r == front + [p];
      assert Elements(r) == Elements(front) + {p} && p !in front;
    }
  }

  lemma {:induction false} SubsetSize(a: set<nat>, b: set<nat>)
    requires a <= b
    ensures |a| <= |b|
    decreases a
  {
    if a != {} {
      var x :| x in a;
      SubsetSize(a - {x}, b - {x});
    }
  }

  lemma {:induction false} FullRoundCovers(r: seq<nat>, from: nat, to: nat, p: nat)
    requires from <= p < to && IsRound(r, from, to) && |r| == to - from
    ensures p in r
  {
    DistinctSize(r);
    RangeSize(from, to);
    if p !in r {
      forall q | q in r ensures q in Range(from, to) {
        InRange(from, to, q);
      }
      InRange(from, to, p);
      SubsetSize(Elements(r), Range(from, to) - {p});
      assert false;
    }
  }

  /** Where every fetch brings its page, everything taken has been fetched. */
  lemma {:induction false} TakenIsFetched(w: Web, c: Config, rounds: seq<seq<nat>>, p: nat)
    requires FullyServed(w, c, rounds) && p < Taken(w, c, rounds)
    ensures p in Flat(rounds)
  {
    if rounds != [] {
      var init, r := rounds[..|rounds| - 1], rounds[|rounds| - 1];
      if p < Taken(w, c, init) {
        TakenIsFetched(w, c, init, p);
      } else {
        FullRoundCovers(r, Taken(w, c, init), Taken(w, c, rounds), p);
      }
    }
  }

  // ----- what a caller would want -----

  /** On every site whose links depend on the path alone, and in every order, the recorded depths are the
      shortest distances. */
  ghost predicate AlwaysShortest(c: Config) {
    forall w: Web, rounds: seq<seq<nat>> :: PathDetermined(w) && FullyServed(w, c, rounds) ==>
      AllShortest(w, c, Frontier(w, c, Flat(rounds)))
  }

  ghost predicate FindsAll(w: Web, c: Config, enq: seq<Entry>) {
    forall k :: Within(w, c, k) ==> k in KeysOf(w, enq)
  }

  /** And a crawl that comes to its end has enqueued every path within the bound. */
  ghost predicate AlwaysComplete(c: Config) {
    forall w: Web, rounds: seq<seq<nat>> :: PathDetermined(w) && FullyServed(w, c, rounds) && Drained(w, c, rounds) ==>
      FindsAll(w, c, Frontier(w, c, Flat(rounds)))
  }

  /** The seeds that fill whole batches; the last batch with seeds takes in other pages only if there are
      more seeds than fit into the first one. */
  function WholeBatches(c: Config): (b: nat)
    ensures b <= |c.seeds|
  {
    if |c.seeds| <= c.concurrency || c.concurrency == 0 then |c.seeds| else |c.seeds| - |c.seeds| % c.concurrency
  }

  /** Every seed left over for an incomplete batch repeats an earlier one. */
  predicate SeedsAligned(c: Config) {
    forall i :: WholeBatches(c) <= i < |c.seeds| ==> c.seeds[i] in c.seeds[..WholeBatches(c)]
  }

  /** The configurations under which no batch with links to follow mixes depths. */
  predicate DepthsExact(c: Config) {
    c.seeds == [] || c.concurrency <= 1 || c.depth <= 1 || (c.depth == 2 && SeedsAligned(c))
  }

  // ----- shortest depths find everything -----

  lemma {:induction false} ShortestFinds(w: Web, c: Config, rounds: seq<seq<nat>>, k: string, n: nat)
    requires PathDetermined(w) && FullyServed(w, c, rounds) && Drained(w, c, rounds)
    requires AllShortest(w, c, Frontier(w, c, Flat(rounds)))
    requires PathReach(w, c, k, n) && n <= Bound(c)
    ensures k in KeysOf(w, Frontier(w, c, Flat(rounds)))
    decreases n
  {
    var order := Flat(rounds);
    var enq := Frontier(w, c, order);
    if n == 0 {
      SeedsAreEnqueued(w, c, order, k);
    } else {
      var p := Predecessor(w, c, k, n);
      ShortestFinds(w, c, rounds, p, n - 1);
      var i :| 0 <= i < |enq| && w.key(enq[i].url) == p;
      assert Shortest(w, c, enq[i]);
      TakenIsFetched(w, c, rounds, i);
      FullIsServed(w, c, rounds);
      ServedIsLegal(w, c, rounds);
      PageLedOn(w, c, order, i, k);
    }
  }

  lemma {:induction false} ShortestIsComplete(c: Config)
    requires AlwaysShortest(c)
    ensures AlwaysComplete(c)
  {
    forall w: Web, rounds: seq<seq<nat>> | PathDetermined(w) && FullyServed(w, c, rounds) && Drained(w, c, rounds)
      ensures FindsAll(w, c, Frontier(w, c, Flat(rounds)))
    {
      forall k | Within(w, c, k) ensures k in KeysOf(w, Frontier(w, c, Flat(rounds))) {
        var n: nat :| n <= Bound(c) && PathReach(w, c, k, n);
        ShortestFinds(w, c, rounds, k, n);
      }
    }
  }

  // ----- one at a time -----

  lemma {:induction false} RoundOfOne(r: seq<nat>, t: nat, to: nat)
    requires IsRound(r, t, to) && |r| == to - t && to <= t + 1
    ensures InOrder(t) + r == InOrder(to)
  {
    if r == [] {
      assert InOrder(t) + r == InOrder(t);
    } else {
      assert r[0] in r;
      assert r == [t];
      assert InOrder(t) + [t] == InOrder(t + 1);
    }
  }

  lemma {:induction false} OneAtATime(w: Web, c: Config, rounds: seq<seq<nat>>)
    requires FullyServed(w, c, rounds) && c.concurrency <= 1
    ensures Flat(rounds) == InOrder(Taken(w, c, rounds))
  {
    if rounds != [] {
      var init, r := rounds[..|rounds| - 1], rounds[|rounds| - 1];
      OneAtATime(w, c, init);
      RoundOfOne(r, Taken(w, c, init), Taken(w, c, rounds));
    }
  }

  lemma {:induction false} SequentialIsShortest(w: Web, c: Config, rounds: seq<seq<nat>>)
    requires PathDetermined(w) && FullyServed(w, c, rounds) && c.concurrency <= 1
    ensures AllShortest(w, c, Frontier(w, c, Flat(rounds)))
  {
    OneAtATime(w, c, rounds);
    FullIsServed(w, c, rounds);
    ServedIsLegal(w, c, rounds);
    InOrderIsBfs(w, c, Taken(w, c, rounds));
  }

  lemma {:induction false} InOrderIsBfs(w: Web, c: Config, m: nat)
    requires PathDetermined(w) && Causal(w, c, InOrder(m))
    ensures AllShortest(w, c, Frontier(w, c, InOrder(m)))
  {
    forall k | 0 <= k < m ensures k < |Frontier(w, c, InOrder(k))| {
      assert Available(w, c, InOrder(m), k);
      assert InOrder(m)[..k] == InOrder(k);
    }
    SequentialIsBfs(w, c, m);
  }

  // ----- the first two levels -----

  ghost predicate ShallowShortest(w: Web, c: Config, enq: seq<Entry>) {
    forall i :: 0 <= i < |enq| && enq[i].depth <= 1 ==> Shortest(w, c, enq[i])
  }

  ghost predicate SeedsKnown(w: Web, c: Config, enq: seq<Entry>) {
    UrlKeys(w, c.seeds) <= KeysOf(w, enq)
  }

  /** A page one link from a seed, on a path no seed has, is at distance 1. */
  lemma {:induction false} NewShallowEntry(w: Web, c: Config, enq: seq<Entry>, e: Entry, a: Entry)
    requires SeedsKnown(w, c, enq) && Shortest(w, c, e) && a in NewEntries(w, c, enq, e) && a.depth <= 1
    ensures Shortest(w, c, a)
  {
    NewEntryFacts(w, c, enq, e);
    LinkIsSucc(w, e.url, a.url);
    assert PathReach(w, c, w.key(e.url), 0);
  }

  /** In every order, entries at depth 0 and 1 are at their shortest distance. */
  lemma {:induction false} ShallowIsShortest(w: Web, c: Config, order: seq<nat>)
    ensures ShallowShortest(w, c, Frontier(w, c, order)) && SeedsKnown(w, c, Frontier(w, c, order))
  {
    if order == [] {
      BfsStart(w, c);
      KeysAtDepth(w, c.seeds, 0);
    } else {
      var init, i := order[..|order| - 1], order[|order| - 1];
      ShallowIsShortest(w, c, init);
      var enq := Frontier(w, c, init);
      if i < |enq| {
        var added := NewEntries(w, c, enq, enq[i]);
        KeysAppend(w, enq, added);
        forall j | 0 <= j < |added| && added[j].depth <= 1 ensures Shortest(w, c, added[j]) {
          NewEntryFacts(w, c, enq, enq[i]);
          NewShallowEntry(w, c, enq, enq[i], added[j]);
        }
      }
    }
  }

  lemma {:induction false} ShallowCrawlIsShortest(w: Web, c: Config, order: seq<nat>)
    requires c.depth <= 1
    ensures AllShortest(w, c, Frontier(w, c, order))
  {
    ShallowIsShortest(w, c, order);
    FrontierIsSound(w, c, order);
    var enq := Frontier(w, c, order);
    forall i | 0 <= i < |enq| ensures Shortest(w, c, enq[i]) {
      assert SoundEntry(w, c, enq[i]);
    }
  }

  // ----- two levels behind whole batches of seeds -----

  /** Every path at distance 0 or 1 is enqueued. */
  ghost predicate SeedsExpanded(w: Web, c: Config, enq: seq<Entry>) {
    forall k :: PathReach(w, c, k, 0) || PathReach(w, c, k, 1) ==> k in KeysOf(w, enq)
  }

  lemma {:induction false} NewEntryFact(w: Web, c: Config, enq: seq<Entry>, e: Entry, a: Entry)
    requires a in NewEntries(w, c, enq, e)
    ensures a.depth == e.depth + 1 <= c.depth && w.key(a.url) !in KeysOf(w, enq) && Succ(w, w.key(e.url), w.key(a.url))
  {
    NewEntryFacts(w, c, enq, e);
    LinkIsSucc(w, e.url, a.url);
  }

  lemma {:induction false} DeepenEntry(w: Web, c: Config, enq: seq<Entry>, e: Entry, a: Entry)
    requires c.depth == 2 && SeedsExpanded(w, c, enq) && Shortest(w, c, e) && a in NewEntries(w, c, enq, e)
    ensures Shortest(w, c, a)
  {
    NewEntryFact(w, c, enq, e, a);
    OneFurther(w, c, w.key(e.url), w.key(a.url), e.depth);
  }

  /** What holds once the seeds are expanded: no entry comes too deep any more. */
  ghost predicate Deepens(w: Web, c: Config, enq: seq<Entry>) {
    SeedsExpanded(w, c, enq) && AllShortest(w, c, enq)
  }

  lemma {:induction false} DeepenStep(w: Web, c: Config, enq: seq<Entry>, e: Entry)
    requires c.depth == 2 && Deepens(w, c, enq) && e in enq
    ensures Deepens(w, c, enq + NewEntries(w, c, enq, e))
  {
    var added := NewEntries(w, c, enq, e);
    KeysAppend(w, enq, added);
    forall j | 0 <= j < |added| ensures Shortest(w, c, added[j]) {
      DeepenEntry(w, c, enq, e, added[j]);
    }
  }

  lemma {:induction false} DeepenOne(w: Web, c: Config, order: seq<nat>, p: nat)
    requires c.depth == 2 && Deepens(w, c, Frontier(w, c, order))
    ensures Deepens(w, c, Frontier(w, c, order + [p]))
  {
    assert (order + [p])[..|order|] == order;
    var enq := Frontier(w, c, order);
    if p < |enq| {
      DeepenStep(w, c, enq, enq[p]);
    }
  }

  lemma {:induction false} DeepenOn(w: Web, c: Config, order: seq<nat>, r: seq<nat>)
    requires c.depth == 2 && Deepens(w, c, Frontier(w, c, order))
    ensures Deepens(w, c, Frontier(w, c, order + r))
  {
    if r == [] {
      assert order + r == order;
    } else {
      var front, p := r[..|r| - 1], r[|r| - 1];
      DeepenOn(w, c, order, front);
      DeepenOne(w, c, order + front, p);
      assert r == front + [p];
      Seqs.AppendAssoc(order, front, [p]);
    }
  }

  lemma {:induction false} SeedsLeadToDepthOne(w: Web, c: Config, order: seq<nat>)
    requires forall p :: p in order ==> p < |c.seeds|
    ensures forall i :: 0 <= i < |Frontier(w, c, order)| ==> Frontier(w, c, order)[i].depth <= 1
    ensures AtDepth(c.seeds, 0) <= Frontier(w, c, order)
  {
    if order != [] {
      var init, p := order[..|order| - 1], order[|order| - 1];
      assert p in order && forall q :: q in init ==> q in order;
      SeedsLeadToDepthOne(w, c, init);
      var enq := Frontier(w, c, init);
      assert enq[p] == AtDepth(c.seeds, 0)[p];
      NewEntryFacts(w, c, enq, enq[p]);
    }
  }

  lemma {:induction false} TakenGrows(w: Web, c: Config, rounds: seq<seq<nat>>)
    requires Served(w, c, rounds) && rounds != []
    ensures Taken(w, c, rounds[..|rounds| - 1]) <= Taken(w, c, rounds)
  {
    ServedIsLegal(w, c, rounds[..|rounds| - 1]);
  }

  lemma {:induction false} SeedsAreInFront(w: Web, c: Config, order: seq<nat>)
    ensures AtDepth(c.seeds, 0) <= Frontier(w, c, order)
  {
    FrontierGrows(w, c, order, 0);
    assert order[..0] == [];
  }

  lemma {:induction false} NextMultiple(j: nat, q: nat, k: nat, t: nat)
    requires t == j * k < q * k
    ensures t + k == (j + 1) * k <= q * k
  {
    if j < q {
      Multiples(j + 1, q, k);
    } else {
      Multiples(q, j, k);
    }
  }

  lemma {:induction false} Multiples(i: nat, j: nat, k: nat)
    requires i <= j
    ensures i * k <= j * k
  {
  }

  /** While whole batches of seeds are served, each takes as many positions as the concurrency. */
  lemma {:induction false} TakenInSeeds(w: Web, c: Config, rounds: seq<seq<nat>>, q: nat)
    requires Served(w, c, rounds) && q * c.concurrency <= |c.seeds|
    ensures Taken(w, c, rounds) >= q * c.concurrency || Taken(w, c, rounds) == |rounds| * c.concurrency
  {
    if rounds != [] {
      var init := rounds[..|rounds| - 1];
      TakenInSeeds(w, c, init, q);
      TakenGrows(w, c, rounds);
      if Taken(w, c, init) < q * c.concurrency {
        NextMultiple(|init|, q, c.concurrency, Taken(w, c, init));
        SeedsAreInFront(w, c, Flat(init));
      }
    }
  }

  lemma {:induction false} FirstBatchHoldsTheSeeds(w: Web, c: Config, rounds: seq<seq<nat>>)
    requires Served(w, c, rounds) && rounds != [] && |c.seeds| <= c.concurrency
    ensures Taken(w, c, rounds) >= |c.seeds|
    ensures |rounds| == 1 ==> Taken(w, c, rounds) == |c.seeds|
  {
    var init := rounds[..|rounds| - 1];
    if init == [] {
      assert Flat(init) == [];
    } else {
      FirstBatchHoldsTheSeeds(w, c, init);
      TakenGrows(w, c, rounds);
    }
  }

  /** No batch reaches over the end of the whole batches of seeds. */
  lemma {:induction false} BatchesStopAtSeeds(w: Web, c: Config, rounds: seq<seq<nat>>)
    requires Served(w, c, rounds) && rounds != [] && c.concurrency > 0
    ensures Taken(w, c, rounds[..|rounds| - 1]) >= WholeBatches(c) || Taken(w, c, rounds) <= WholeBatches(c)
  {
    if |c.seeds| <= c.concurrency {
      if |rounds| > 1 {
        FirstBatchHoldsTheSeeds(w, c, rounds[..|rounds| - 1]);
      } else {
        FirstBatchHoldsTheSeeds(w, c, rounds);
      }
    } else {
      WholeBatchesCount(c);
      BatchesStopAt(w, c, rounds, |c.seeds| / c.concurrency);
    }
  }

  lemma {:induction false} WholeBatchesCount(c: Config)
    requires 0 < c.concurrency < |c.seeds|
    ensures WholeBatches(c) == |c.seeds| / c.concurrency * c.concurrency <= |c.seeds| && |c.seeds| / c.concurrency >= 1
  {
  }

  lemma {:induction false} BatchesStopAt(w: Web, c: Config, rounds: seq<seq<nat>>, q: nat)
    requires Served(w, c, rounds) && rounds != [] && q * c.concurrency <= |c.seeds|
    ensures Taken(w, c, rounds[..|rounds| - 1]) >= q * c.concurrency || Taken(w, c, rounds) <= q * c.concurrency
  {
    var init := rounds[..|rounds| - 1];
    TakenInSeeds(w, c, init, q);
    if Taken(w, c, init) < q * c.concurrency {
      NextMultiple(|init|, q, c.concurrency, Taken(w, c, init));
    }
  }

  /** Once the whole batches of seeds are fetched, so is everything they link to. */
  lemma {:induction false} WholeBatchesExpand(w: Web, c: Config, rounds: seq<seq<nat>>)
    requires PathDetermined(w) && FullyServed(w, c, rounds) && SeedsAligned(c) && c.depth == 2
    requires Taken(w, c, rounds) >= WholeBatches(c)
    ensures SeedsExpanded(w, c, Frontier(w, c, Flat(rounds)))
  {
    var order, enq := Flat(rounds), Frontier(w, c, Flat(rounds));
    FullIsServed(w, c, rounds);
    ServedIsLegal(w, c, rounds);
    ShallowIsShortest(w, c, order);
    SeedsAreInFront(w, c, order);
    forall k | PathReach(w, c, k, 1) ensures k in KeysOf(w, enq) {
      var p := Predecessor(w, c, k, 1);
      var i :| 0 <= i < |c.seeds| && w.key(c.seeds[i]) == p;
      var j := SeedInWholeBatches(c, i);
      TakenIsFetched(w, c, rounds, j);
      assert enq[j] == AtDepth(c.seeds, 0)[j];
      PageLedOn(w, c, order, j, k);
    }
  }

  lemma {:induction false} SeedInWholeBatches(c: Config, i: nat) returns (j: nat)
    requires SeedsAligned(c) && i < |c.seeds|
    ensures j < WholeBatches(c) && c.seeds[j] == c.seeds[i]
  {
    j := i;
    if i >= WholeBatches(c) {
      j :| 0 <= j < WholeBatches(c) && c.seeds[j] == c.seeds[i];
    }
  }

  lemma {:induction false} AlignedIsShortest(w: Web, c: Config, rounds: seq<seq<nat>>)
    requires PathDetermined(w) && FullyServed(w, c, rounds) && SeedsAligned(c) && c.depth == 2 && c.concurrency > 0
    ensures AllShortest(w, c, Frontier(w, c, Flat(rounds)))
  {
    var order := Flat(rounds);
    if rounds == [] {
      ShallowIsShortest(w, c, order);
    } else {
      var init, r := rounds[..|rounds| - 1], rounds[|rounds| - 1];
      FullIsServed(w, c, rounds);
      BatchesStopAtSeeds(w, c, rounds);
      if Taken(w, c, init) >= WholeBatches(c) {
        AlignedIsShortest(w, c, init);
        WholeBatchesExpand(w, c, init);
        DeepenOn(w, c, Flat(init), r);
      } else {
        ServedIsLegal(w, c, rounds);
        SeedsLeadToDepthOne(w, c, order);
        ShallowIsShortest(w, c, order);
      }
    }
  }

  lemma {:induction false} ExactIsShortest(c: Config)
    requires DepthsExact(c)
    ensures AlwaysShortest(c)
  {
    forall w: Web, rounds: seq<seq<nat>> | PathDetermined(w) && FullyServed(w, c, rounds)
      ensures AllShortest(w, c, Frontier(w, c, Flat(rounds)))
    {
      if c.concurrency <= 1 {
        SequentialIsShortest(w, c, rounds);
      } else if c.depth <= 1 {
        ShallowCrawlIsShortest(w, c, Flat(rounds));
      } else if c.seeds == [] {
        NothingFromNoSeeds(w, c, Flat(rounds));
      } else {
        AlignedIsShortest(w, c, rounds);
      }
    }
  }

  lemma {:induction false} NothingFromNoSeeds(w: Web, c: Config, order: seq<nat>)
    requires c.seeds == []
    ensures Frontier(w, c, order) == []
  {
    if order != [] {
      NothingFromNoSeeds(w, c, order[..|order| - 1]);
    }
  }
}
