/** Exactly when the crawl engine (pwnproxy/services/crawler/engine.py:144-198) records shortest distances
    and finds every page within its depth: two sites on which it does not, and the condition that rules
    all of them out. */
module CrawlDepths {
  import opened Crawl
  import opened CrawlBatches
  import Seqs

  // ----- pages no seed names -----

  function Length(seeds: seq<Url>): nat {
    if seeds == [] then 0 else |seeds[0]| + Length(seeds[1..])
  }

  function Run(n: nat): (s: string)
    ensures |s| == n
  {
    seq(n, i => 'x')
  }

  /** The i-th page of a site, longer than every seed. */
  function Page(c: Config, i: nat): (u: Url)
    ensures |u| == Length(c.seeds) + 1 + i
  {
    Run(Length(c.seeds) + 1 + i)
  }

  function Pages(c: Config, m: nat): (us: seq<Url>)
    ensures |us| == m && forall i :: 0 <= i < m ==> us[i] == Page(c, i)
  {
    seq(m, i requires 0 <= i < m => Page(c, i))
  }

  lemma {:induction false} SeedsAreShort(seeds: seq<Url>, u: Url)
    requires u in seeds
    ensures |u| <= Length(seeds)
  {
    if u != seeds[0] {
      assert seeds == [seeds[0]] + seeds[1..];
      SeedsAreShort(seeds[1..], u);
    }
  }

  lemma {:induction false} PageIsNoSeed(c: Config, i: nat)
    ensures Page(c, i) !in c.seeds
  {
    if Page(c, i) in c.seeds {
      SeedsAreShort(c.seeds, Page(c, i));
    }
  }

  /** Every link is in scope and every URL is its own path. */
  ghost predicate Plain(w: Web) {
    forall u :: w.key(u) == u && Admissible(w, u)
  }

  lemma {:induction false} PlainIsDetermined(w: Web)
    requires Plain(w)
    ensures PathDetermined(w)
  {
    forall u, u' | w.key(u) == w.key(u') ensures LeadsNoFurther(w, u, u') {
    }
  }

  // ----- what a page adds -----

  ghost predicate Known(w: Web, enq: seq<Entry>, us: seq<Url>) {
    forall u :: u in us ==> w.key(u) in KeysOf(w, enq)
  }

  lemma {:induction false} AddsNothing(w: Web, c: Config, enq: seq<Entry>, e: Entry)
    requires Known(w, enq, w.links(e.url))
    ensures NewEntries(w, c, enq, e) == []
  {
    if NewEntries(w, c, enq, e) != [] {
      AddedIsUnknown(w, c, enq, e);
    }
  }

  lemma {:induction false} AddedIsUnknown(w: Web, c: Config, enq: seq<Entry>, e: Entry)
    requires NewEntries(w, c, enq, e) != []
    ensures !Known(w, enq, w.links(e.url))
  {
    var added := NewEntries(w, c, enq, e);
    NewEntryFacts(w, c, enq, e);
    assert added[0].url in w.links(e.url) && Fresh(w, KeysOf(w, enq), added[0].url);
  }

  lemma {:induction false} DiscoverNew(w: Web, keys: set<string>, cands: seq<Url>)
    requires Plain(w)
    requires forall i :: 0 <= i < |cands| ==> cands[i] !in keys
    requires forall i, j :: 0 <= i < j < |cands| ==> cands[i] != cands[j]
    ensures Discover(w, keys, cands) == cands
  {
    if cands != [] {
      var front, u := cands[..|cands| - 1], cands[|cands| - 1];
      DiscoverNew(w, keys, front);
      assert cands == front + [u];
      assert w.key(u) == u && u !in UrlKeys(w, front);
    }
  }

  /** A page all of whose links are new. */
  lemma {:induction false} AddsAll(w: Web, c: Config, enq: seq<Entry>, e: Entry, us: seq<Url>)
    requires Plain(w) && w.links(e.url) == us && e.depth < c.depth
    requires forall i :: 0 <= i < |us| ==> us[i] !in KeysOf(w, enq)
    requires forall i, j :: 0 <= i < j < |us| ==> us[i] != us[j]
    ensures NewEntries(w, c, enq, e) == AtDepth(us, e.depth + 1)
  {
    DiscoverNew(w, KeysOf(w, enq), us);
  }

  lemma {:induction false} AddsOne(w: Web, c: Config, enq: seq<Entry>, e: Entry, u: Url)
    requires Plain(w) && w.links(e.url) == [u] && e.depth < c.depth && u !in KeysOf(w, enq)
    ensures NewEntries(w, c, enq, e) == [Entry(u, e.depth + 1)]
  {
    AddsAll(w, c, enq, e, [u]);
    assert AtDepth([u], e.depth + 1) == [Entry(u, e.depth + 1)];
  }

  lemma {:induction false} OneFetch(w: Web, c: Config, order: seq<nat>, p: nat, order': seq<nat>,
                                    enq: seq<Entry>, added: seq<Entry>, enq': seq<Entry>)
    requires Frontier(w, c, order) == enq && p < |enq| && NewEntries(w, c, enq, enq[p]) == added
    requires order' == order + [p] && enq' == enq + added
    ensures Frontier(w, c, order') == enq'
  {
    assert order'[..|order|] == order;
  }

  /** Pages that add nothing may be fetched in any order. */
  lemma {:induction false} QuietFetches(w: Web, c: Config, order: seq<nat>, ps: seq<nat>, order': seq<nat>, enq: seq<Entry>)
    requires Frontier(w, c, order) == enq && order' == order + ps
    requires forall i :: 0 <= i < |ps| ==> ps[i] < |enq| && Known(w, enq, w.links(enq[ps[i]].url))
    ensures Frontier(w, c, order') == enq
    decreases |ps|
  {
    if ps == [] {
      assert order' == order;
    } else {
      var front, p := ps[..|ps| - 1], ps[|ps| - 1];
      QuietFetches(w, c, order, front, order + front, enq);
      AddsNothing(w, c, enq, enq[p]);
      assert ps == front + [p] && enq + [] == enq;
      Seqs.AppendAssoc(order, front, [p]);
      OneFetch(w, c, order + front, p, order', enq, [], enq);
    }
  }

  // ----- batches served in queue order -----

  function Stretch(from: nat, to: nat): (ps: seq<nat>)
    requires from <= to
    ensures |ps| == to - from && forall i :: 0 <= i < |ps| ==> ps[i] == from + i
  {
    seq(to - from, i requires 0 <= i < to - from => from + i)
  }

  lemma {:induction false} StretchIsRound(from: nat, to: nat)
    requires from <= to
    ensures IsRound(Stretch(from, to), from, to) && InOrder(from) + Stretch(from, to) == InOrder(to)
  {
  }

  /** `j` batches, each served in queue order. */
  ghost function Orderly(w: Web, c: Config, j: nat): (rounds: seq<seq<nat>>)
    ensures |rounds| == j && FullyServed(w, c, rounds) && Flat(rounds) == InOrder(Taken(w, c, rounds))
  {
    if j == 0 then []
    else
      var init := Orderly(w, c, j - 1);
      var from, to := Taken(w, c, init), Reached(w, c, Taken(w, c, init), Flat(init));
      OrderlyNext(w, c, init, from, to);
      init + [Stretch(from, to)]
  }

  lemma {:induction false} OrderlyNext(w: Web, c: Config, init: seq<seq<nat>>, from: nat, to: nat)
    requires FullyServed(w, c, init) && Flat(init) == InOrder(from) && from == Taken(w, c, init)
    requires to == Reached(w, c, from, Flat(init))
    ensures from <= to
    ensures var rounds := init + [Stretch(from, to)];
            FullyServed(w, c, rounds) && Taken(w, c, rounds) == to && Flat(rounds) == InOrder(to)
  {
    FullIsServed(w, c, init);
    ServedIsLegal(w, c, init);
    StretchIsRound(from, to);
    RoundSnoc(w, c, init, Stretch(from, to));
  }

  lemma {:induction false} OrderlyTaken(w: Web, c: Config, j: nat)
    requires j > 0
    ensures Taken(w, c, Orderly(w, c, j)) == Reached(w, c, Taken(w, c, Orderly(w, c, j - 1)), InOrder(Taken(w, c, Orderly(w, c, j - 1))))
  {
    var init := Orderly(w, c, j - 1);
    var from, to := Taken(w, c, init), Reached(w, c, Taken(w, c, init), Flat(init));
    OrderlyNext(w, c, init, from, to);
  }

  /** Batches that fit into the seeds are whole. */
  lemma {:induction false} WholeSeedBatches(w: Web, c: Config, j: nat)
    requires j * c.concurrency <= |c.seeds|
    ensures Taken(w, c, Orderly(w, c, j)) == j * c.concurrency
  {
    if j > 0 {
      assert j * c.concurrency == (j - 1) * c.concurrency + c.concurrency;
      WholeSeedBatches(w, c, j - 1);
      OrderlyTaken(w, c, j);
      SeedsAreInFront(w, c, InOrder((j - 1) * c.concurrency));
    }
  }

  // ----- the chain behind a page recorded too deep -----

  ghost predicate LinksOn(w: Web, c: Config, i: nat) {
    w.links(Page(c, i)) == [Page(c, i + 1)]
  }

  ghost predicate ChainFrom(w: Web, c: Config, j: nat) {
    forall i {:trigger LinksOn(w, c, i)} :: i >= j ==> LinksOn(w, c, i)
  }

  /** Nothing here is as long as page `j` or a later one. */
  ghost predicate NoPageFrom(c: Config, enq: seq<Entry>, j: nat) {
    forall p :: 0 <= p < |enq| ==> |enq[p].url| <= Length(c.seeds) + j
  }

  lemma {:induction false} PageIsNew(w: Web, c: Config, enq: seq<Entry>, i: nat)
    requires Plain(w) && NoPageFrom(c, enq, i)
    ensures Page(c, i) !in KeysOf(w, enq)
  {
  }

  /** The queue holds one page of the chain, at depth `d`, and no later one was ever there. */
  ghost predicate AtChain(w: Web, c: Config, rounds: seq<seq<nat>>, enq: seq<Entry>, j: nat, d: nat) {
    && FullyServed(w, c, rounds) && Frontier(w, c, Flat(rounds)) == enq
    && |enq| == Taken(w, c, rounds) + 1 && enq[Taken(w, c, rounds)] == Entry(Page(c, j), d) && d <= c.depth
    && NoPageFrom(c, enq, j + 1)
  }

  /** A batch of one, the last entry of the queue. */
  lemma {:induction false} LoneFetch(w: Web, c: Config, rounds: seq<seq<nat>>, t: nat, enq: seq<Entry>, added: seq<Entry>)
      returns (next: seq<seq<nat>>)
    requires FullyServed(w, c, rounds) && Taken(w, c, rounds) == t && Frontier(w, c, Flat(rounds)) == enq && |enq| == t + 1
    requires NewEntries(w, c, enq, enq[t]) == added && c.concurrency > 0
    ensures FullyServed(w, c, next) && Taken(w, c, next) == t + 1 && Frontier(w, c, Flat(next)) == enq + added
  {
    var r: seq<nat> := [t];
    next := rounds + [r];
    OneFetch(w, c, Flat(rounds), t, Flat(rounds) + r, enq, added, enq + added);
    assert IsRound(r, t, t + 1);
    RoundSnoc(w, c, rounds, r);
  }

  lemma {:induction false} ChainAdds(w: Web, c: Config, enq: seq<Entry>, t: nat, j: nat, d: nat)
    requires Plain(w) && ChainFrom(w, c, j) && t < |enq| && enq[t] == Entry(Page(c, j), d) && d < c.depth
    requires NoPageFrom(c, enq, j + 1)
    ensures NewEntries(w, c, enq, enq[t]) == [Entry(Page(c, j + 1), d + 1)]
    ensures NoPageFrom(c, enq + [Entry(Page(c, j + 1), d + 1)], j + 2)
  {
    PageIsNew(w, c, enq, j + 1);
    assert LinksOn(w, c, j);
    AddsOne(w, c, enq, Entry(Page(c, j), d), Page(c, j + 1));
  }

  lemma {:induction false} NextOfChain(w: Web, c: Config, rounds: seq<seq<nat>>, enq: seq<Entry>, t: nat, j: nat, d: nat)
      returns (next: seq<seq<nat>>, enq': seq<Entry>)
    requires Plain(w) && ChainFrom(w, c, j) && AtChain(w, c, rounds, enq, j, d) && d < c.depth
    requires c.concurrency > 0 && t == Taken(w, c, rounds)
    ensures AtChain(w, c, next, enq', j + 1, d + 1)
  {
    var a := Entry(Page(c, j + 1), d + 1);
    ChainAdds(w, c, enq, t, j, d);
    next := LoneFetch(w, c, rounds, t, enq, [a]);
    enq' := enq + [a];
  }

  lemma {:induction false} EndOfChain(w: Web, c: Config, rounds: seq<seq<nat>>, enq: seq<Entry>, t: nat, j: nat, d: nat)
      returns (next: seq<seq<nat>>)
    requires Plain(w) && AtChain(w, c, rounds, enq, j, d) && d == c.depth && c.concurrency > 0 && t == Taken(w, c, rounds)
    ensures FullyServed(w, c, next) && Drained(w, c, next)
    ensures Page(c, j + 1) !in KeysOf(w, Frontier(w, c, Flat(next)))
  {
    PageIsNew(w, c, enq, j + 1);
    next := LoneFetch(w, c, rounds, t, enq, []);
    assert enq + [] == enq;
  }

  /** From a queue that holds one page of the chain, at depth `d`, the crawl follows the chain down to the
      bound and ends there; the next page of the chain is never enqueued. */
  lemma {:induction false} FollowChain(w: Web, c: Config, rounds: seq<seq<nat>>, enq: seq<Entry>,
                                       j: nat, d: nat, missed: nat)
      returns (all: seq<seq<nat>>)
    requires Plain(w) && ChainFrom(w, c, j) && AtChain(w, c, rounds, enq, j, d) && c.concurrency > 0
    requires missed == j + (c.depth - d) + 1
    ensures FullyServed(w, c, all) && Drained(w, c, all)
    ensures Page(c, missed) !in KeysOf(w, Frontier(w, c, Flat(all)))
    decreases c.depth - d
  {
    var t := Taken(w, c, rounds);
    if d == c.depth {
      all := EndOfChain(w, c, rounds, enq, t, j, d);
    } else {
      var next, enq' := NextOfChain(w, c, rounds, enq, t, j, d);
      all := FollowChain(w, c, next, enq', j + 1, d + 1, missed);
    }
  }

  /** Along the chain distances grow by one. */
  lemma {:induction false} ChainReach(w: Web, c: Config, j: nat, n: nat, i: nat)
    requires Plain(w) && ChainFrom(w, c, j) && PathReach(w, c, Page(c, j), n)
    ensures PathReach(w, c, Page(c, j + i), n + i)
  {
    if i > 0 {
      ChainReach(w, c, j, n, i - 1);
      assert LinksOn(w, c, j + i - 1);
      LinkIsSucc(w, Page(c, j + i - 1), Page(c, j + i));
      OneFurther(w, c, Page(c, j + i - 1), Page(c, j + i), n + i - 1);
    }
  }

  lemma {:induction false} SeedLinkReach(w: Web, c: Config, s: Url, u: Url)
    requires Plain(w) && s in c.seeds && u in w.links(s)
    ensures PathReach(w, c, u, 1)
  {
    var i :| 0 <= i < |c.seeds| && c.seeds[i] == s;
    assert w.key(c.seeds[i]) in UrlKeys(w, c.seeds);
    LinkIsSucc(w, s, u);
    assert PathReach(w, c, s, 0);
  }

  // ----- the seeds, and one batch of links -----

  /** The seeds, the first `m` pages one link away, and more. */
  function Stage(c: Config, m: nat, more: seq<Entry>): (enq: seq<Entry>)
    ensures |enq| == |c.seeds| + m + |more|
  {
    AtDepth(c.seeds, 0) + (AtDepth(Pages(c, m), 1) + more)
  }

  lemma {:induction false} StageAt(c: Config, m: nat, more: seq<Entry>, p: nat)
    requires p < |c.seeds| + m + |more|
    ensures var n := |c.seeds|;
            Stage(c, m, more)[p] == if p < n then Entry(c.seeds[p], 0)
                                    else if p < n + m then Entry(Page(c, p - n), 1)
                                    else more[p - n - m]
  {
  }

  lemma {:induction false} StageSnoc(c: Config, m: nat, more: seq<Entry>, e: Entry)
    ensures Stage(c, m, more + [e]) == Stage(c, m, more) + [e]
  {
    Seqs.AppendAssoc(AtDepth(Pages(c, m), 1), more, [e]);
    Seqs.AppendAssoc(AtDepth(c.seeds, 0), AtDepth(Pages(c, m), 1) + more, [e]);
  }

  lemma {:induction false} StageHolds(w: Web, c: Config, m: nat, more: seq<Entry>, i: nat)
    requires Plain(w)
    ensures i < m ==> Page(c, i) in KeysOf(w, Stage(c, m, more))
    ensures i < |more| ==> more[i].url in KeysOf(w, Stage(c, m, more))
  {
    var enq, n := Stage(c, m, more), |c.seeds|;
    if i < m {
      StageAt(c, m, more, n + i);
      assert w.key(enq[n + i].url) == Page(c, i);
    }
    if i < |more| {
      StageAt(c, m, more, n + m + i);
      assert w.key(enq[n + m + i].url) == more[i].url;
    }
  }

  lemma {:induction false} StageHoldsNoLaterPage(c: Config, m: nat, more: seq<Entry>, j: nat)
    requires j >= m && NoPageFrom(c, more, j)
    ensures NoPageFrom(c, Stage(c, m, more), j)
  {
    var enq := Stage(c, m, more);
    forall p | 0 <= p < |enq| ensures |enq[p].url| <= Length(c.seeds) + j {
      StageAt(c, m, more, p);
      if p < |c.seeds| {
        SeedsAreShort(c.seeds, c.seeds[p]);
      }
    }
  }

  /** The first seed links to the first `m` pages; the first `n` seeds link to nothing else. */
  ghost predicate SeedLinks(w: Web, c: Config, n: nat, m: nat)
    requires n <= |c.seeds|
  {
    && n > 0 && w.links(c.seeds[0]) == Pages(c, m)
    && forall i :: 0 <= i < n ==> w.links(c.seeds[i]) == [] || c.seeds[i] == c.seeds[0]
  }

  lemma {:induction false} FirstSeed(w: Web, c: Config, n: nat, m: nat)
    requires n <= |c.seeds| && Plain(w) && SeedLinks(w, c, n, m) && c.depth >= 1
    ensures Frontier(w, c, InOrder(1)) == Stage(c, m, [])
  {
    var enq := AtDepth(c.seeds, 0);
    assert Frontier(w, c, []) == enq;
    forall i | 0 <= i < m ensures Page(c, i) !in KeysOf(w, enq) {
      PageIsNoSeed(c, i);
    }
    AddsAll(w, c, enq, enq[0], Pages(c, m));
    assert [] + [0] == InOrder(1);
    assert AtDepth(Pages(c, m), 1) + [] == AtDepth(Pages(c, m), 1);
    OneFetch(w, c, [], 0, InOrder(1), enq, AtDepth(Pages(c, m), 1), Stage(c, m, []));
  }

  lemma {:induction false} AfterSeeds(w: Web, c: Config, n: nat, m: nat)
    requires n <= |c.seeds| && Plain(w) && SeedLinks(w, c, n, m) && c.depth >= 1
    ensures Frontier(w, c, InOrder(n)) == Stage(c, m, [])
  {
    FirstSeed(w, c, n, m);
    var enq, ps := Stage(c, m, []), Stretch(1, n);
    forall x | 0 <= x < |ps| ensures ps[x] < |enq| && Known(w, enq, w.links(enq[ps[x]].url)) {
      var p := ps[x];
      StageAt(c, m, [], p);
      forall u | u in w.links(enq[p].url) ensures w.key(u) in KeysOf(w, enq) {
        var i :| 0 <= i < m && Pages(c, m)[i] == u;
        StageHolds(w, c, m, [], i);
      }
    }
    StretchIsRound(1, n);
    QuietFetches(w, c, InOrder(1), ps, InOrder(n), enq);
  }

  // ----- three levels: a diamond -----

  /** How many pages one link away share a batch with the first of them. */
  function Beside(c: Config): (e: nat)
    requires c.concurrency > 0
    ensures 0 < e <= c.concurrency
  {
    if |c.seeds| <= c.concurrency then c.concurrency else c.concurrency - |c.seeds| % c.concurrency
  }

  /** Page 0 leads to page e + 1, which leads on like every page behind it; page e leads to page e + 2,
      which so is two links from the seed and three on the other way. */
  function DiamondLinks(c: Config, e: nat, i: int): seq<Url> {
    if i == 0 then [Page(c, e + 1)]
    else if i == e then [Page(c, e + 2)]
    else if i > e then [Page(c, i + 1)]
    else []
  }

  function DiamondSite(c: Config, e: nat): Web
    requires c.seeds != []
  {
    Web(u => if u == c.seeds[0] then Pages(c, e + 1)
             else if u in c.seeds then []
             else DiamondLinks(c, e, |u| - Length(c.seeds) - 1),
        u => u, u => true, u => false)
  }

  ghost predicate Diamond(w: Web, c: Config, e: nat) {
    && c.seeds != [] && e > 0 && Plain(w) && SeedLinks(w, c, |c.seeds|, e + 1) && ChainFrom(w, c, e + 1)
    && w.links(Page(c, 0)) == [Page(c, e + 1)] && w.links(Page(c, e)) == [Page(c, e + 2)]
    && forall i :: 0 < i < e ==> w.links(Page(c, i)) == []
  }

  lemma {:induction false} SiteLinks(c: Config, e: nat, i: nat)
    requires c.seeds != []
    ensures DiamondSite(c, e).links(Page(c, i)) == DiamondLinks(c, e, i)
  {
    PageIsNoSeed(c, i);
    var u := Page(c, i);
    assert |u| - Length(c.seeds) - 1 == i;
  }

  lemma {:induction false} SiteSeeds(c: Config, e: nat)
    requires c.seeds != []
    ensures Plain(DiamondSite(c, e)) && SeedLinks(DiamondSite(c, e), c, |c.seeds|, e + 1)
  {
  }

  lemma {:induction false} DiamondExists(c: Config, e: nat) returns (w: Web)
    requires c.seeds != [] && e > 0
    ensures Diamond(w, c, e)
  {
    w := DiamondSite(c, e);
    SiteSeeds(c, e);
    SiteLinks(c, e, 0);
    SiteLinks(c, e, e);
    forall i {:trigger LinksOn(w, c, i)} | i >= e + 1 ensures LinksOn(w, c, i) {
      SiteLinks(c, e, i);
    }
    forall i | 0 < i < e ensures w.links(Page(c, i)) == [] {
      SiteLinks(c, e, i);
    }
  }

  /** The first page one link away leads to the page behind all of them. */
  lemma {:induction false} DiamondFirst(w: Web, c: Config, e: nat, d: Entry)
    requires Diamond(w, c, e) && c.depth >= 3 && d == Entry(Page(c, e + 1), 2)
    ensures Frontier(w, c, InOrder(|c.seeds| + 1)) == Stage(c, e + 1, [d])
  {
    var n, enq := |c.seeds|, Stage(c, e + 1, []);
    AfterSeeds(w, c, n, e + 1);
    StageHoldsNoLaterPage(c, e + 1, [], e + 1);
    PageIsNew(w, c, enq, e + 1);
    StageAt(c, e + 1, [], n);
    AddsOne(w, c, enq, enq[n], Page(c, e + 1));
    assert InOrder(n) + [n] == InOrder(n + 1);
    StageSnoc(c, e + 1, [], d);
    assert [] + [d] == [d];
    OneFetch(w, c, InOrder(n), n, InOrder(n + 1), enq, [d], Stage(c, e + 1, [d]));
  }

  /** The pages next to it add nothing. */
  lemma {:induction false} DiamondTop(w: Web, c: Config, e: nat, n: nat, t: nat, d: Entry, enq: seq<Entry>)
    requires Diamond(w, c, e) && c.depth >= 3 && d == Entry(Page(c, e + 1), 2) && enq == Stage(c, e + 1, [d])
    requires n == |c.seeds| && t == n + e
    ensures Frontier(w, c, InOrder(t)) == enq
  {
    DiamondFirst(w, c, e, d);
    var ps := Stretch(n + 1, t);
    forall i | 0 <= i < |ps| ensures ps[i] < |enq| && Known(w, enq, w.links(enq[ps[i]].url)) {
      LeafLinksNowhere(w, c, e, d, ps[i]);
    }
    StretchIsRound(n + 1, t);
    QuietFetches(w, c, InOrder(n + 1), ps, InOrder(t), enq);
  }

  lemma {:induction false} LeafLinksNowhere(w: Web, c: Config, e: nat, d: Entry, p: nat)
    requires Diamond(w, c, e) && |c.seeds| < p < |c.seeds| + e
    ensures w.links(Stage(c, e + 1, [d])[p].url) == []
  {
    StageAt(c, e + 1, [d], p);
  }

  /** A number of batches, served in queue order, that ends right before page e. */
  lemma {:induction false} BatchesToDiamond(w: Web, c: Config, e: nat) returns (j: nat)
    requires Diamond(w, c, e) && c.concurrency >= 2 && e == Beside(c) && c.depth >= 3
    ensures Taken(w, c, Orderly(w, c, j)) == |c.seeds| + e
  {
    j := BatchesOfSeeds(w, c);
    BesideFills(c);
    OrderlyTaken(w, c, j + 1);
    NextBatch(w, c, e, WholeBatches(c));
    j := j + 1;
  }

  lemma {:induction false} BesideFills(c: Config)
    requires c.seeds != [] && c.concurrency > 0
    ensures 0 < WholeBatches(c) && WholeBatches(c) + c.concurrency == |c.seeds| + Beside(c)
  {
  }

  /** The whole batches of seeds, served in queue order. */
  lemma {:induction false} BatchesOfSeeds(w: Web, c: Config) returns (j: nat)
    requires c.seeds != [] && c.concurrency > 0
    ensures Taken(w, c, Orderly(w, c, j)) == WholeBatches(c)
  {
    if |c.seeds| <= c.concurrency {
      j := 1;
      FullIsServed(w, c, Orderly(w, c, 1));
      FirstBatchHoldsTheSeeds(w, c, Orderly(w, c, 1));
    } else {
      j := |c.seeds| / c.concurrency;
      WholeBatchesCount(c);
      WholeSeedBatches(w, c, j);
    }
  }

  lemma {:induction false} NextBatch(w: Web, c: Config, e: nat, b: nat)
    requires Diamond(w, c, e) && c.depth >= 1 && 0 < b <= |c.seeds| && b + c.concurrency == |c.seeds| + e
    ensures Reached(w, c, b, InOrder(b)) == |c.seeds| + e
  {
    AfterSeeds(w, c, b, e + 1);
  }

  /** Page e and the page behind it share a batch. The deeper one is back first, so what both link to is
      enqueued behind it. */
  /** The deep page comes back first: its link is recorded one deeper still. */
  lemma {:induction false} DiamondDeepens(w: Web, c: Config, e: nat, t: nat, d: Entry, k: Entry)
    requires Diamond(w, c, e) && c.depth >= 3 && t == |c.seeds| + e
    requires d == Entry(Page(c, e + 1), 2) && k == Entry(Page(c, e + 2), 3)
    ensures Frontier(w, c, InOrder(t) + [t + 1]) == Stage(c, e + 1, [d, k])
  {
    var enq, all := Stage(c, e + 1, [d]), Stage(c, e + 1, [d, k]);
    DiamondTop(w, c, e, |c.seeds|, t, d, enq);
    StageHoldsNoLaterPage(c, e + 1, [d], e + 2);
    PageIsNew(w, c, enq, e + 2);
    StageAt(c, e + 1, [d], t + 1);
    assert LinksOn(w, c, e + 1);
    AddsOne(w, c, enq, d, Page(c, e + 2));
    StageSnoc(c, e + 1, [d], k);
    assert [d] + [k] == [d, k];
    OneFetch(w, c, InOrder(t), t + 1, InOrder(t) + [t + 1], enq, [k], all);
  }

  lemma {:induction false} DiamondMeets(w: Web, c: Config, e: nat, t: nat, d: Entry, k: Entry)
    requires Diamond(w, c, e) && c.depth >= 3 && t == |c.seeds| + e
    requires d == Entry(Page(c, e + 1), 2) && k == Entry(Page(c, e + 2), 3)
    ensures Frontier(w, c, InOrder(t) + [t + 1, t]) == Stage(c, e + 1, [d, k])
  {
    var all := Stage(c, e + 1, [d, k]);
    DiamondDeepens(w, c, e, t, d, k);
    StageHolds(w, c, e + 1, [d, k], 1);
    StageAt(c, e + 1, [d, k], t);
    AddsNothing(w, c, all, all[t]);
    assert InOrder(t) + [t + 1] + [t] == InOrder(t) + [t + 1, t] && all + [] == all;
    OneFetch(w, c, InOrder(t) + [t + 1], t, InOrder(t) + [t + 1, t], all, [], all);
  }

  lemma {:induction false} DiamondChain(w: Web, c: Config, e: nat, rounds: seq<seq<nat>>, t: nat)
      returns (next: seq<seq<nat>>, enq: seq<Entry>)
    requires Diamond(w, c, e) && c.depth >= 3 && c.concurrency >= 2 && t == |c.seeds| + e
    requires FullyServed(w, c, rounds) && Taken(w, c, rounds) == t && Flat(rounds) == InOrder(t)
    ensures AtChain(w, c, next, enq, e + 2, 3)
  {
    var d, k := Entry(Page(c, e + 1), 2), Entry(Page(c, e + 2), 3);
    DiamondTop(w, c, e, |c.seeds|, t, d, Stage(c, e + 1, [d]));
    DiamondMeets(w, c, e, t, d, k);
    enq := Stage(c, e + 1, [d, k]);
    StageAt(c, e + 1, [d, k], t + 2);
    StageHoldsNoLaterPage(c, e + 1, [d, k], e + 3);
    next := BackwardsRound(w, c, rounds, t);
  }

  /** A batch of two, the later one back first. */
  lemma {:induction false} BackwardsRound(w: Web, c: Config, rounds: seq<seq<nat>>, t: nat) returns (next: seq<seq<nat>>)
    requires FullyServed(w, c, rounds) && Taken(w, c, rounds) == t && c.concurrency >= 2
    requires |Frontier(w, c, Flat(rounds))| == t + 2
    ensures FullyServed(w, c, next) && Taken(w, c, next) == t + 2 && Flat(next) == Flat(rounds) + [t + 1, t]
  {
    var r: seq<nat> := [t + 1, t];
    next := rounds + [r];
    assert IsRound(r, t, t + 2);
    RoundSnoc(w, c, rounds, r);
  }

  /** Beyond depth 2 every concurrency above 1 can miss a page that is within the bound. */
  lemma {:induction false} DiamondMisses(c: Config)
    requires c.seeds != [] && c.concurrency >= 2 && c.depth >= 3
    ensures !AlwaysComplete(c)
  {
    var e := Beside(c);
    var w := DiamondExists(c, e);
    var j := BatchesToDiamond(w, c, e);
    var rounds := Orderly(w, c, j);
    DiamondEnd(w, c, e, rounds);
  }

  lemma {:induction false} DiamondEnd(w: Web, c: Config, e: nat, rounds: seq<seq<nat>>)
    requires Diamond(w, c, e) && c.depth >= 3 && c.concurrency >= 2
    requires FullyServed(w, c, rounds) && Taken(w, c, rounds) == |c.seeds| + e && Flat(rounds) == InOrder(|c.seeds| + e)
    ensures !AlwaysComplete(c)
  {
    var next, enq := DiamondChain(w, c, e, rounds, |c.seeds| + e);
    DiamondDistance(w, c, e);
    ChainMisses(w, c, next, enq, e + 2, 3);
  }

  lemma {:induction false} DiamondDistance(w: Web, c: Config, e: nat)
    requires Diamond(w, c, e)
    ensures Nearer(w, c, e + 2, 3)
  {
    assert Pages(c, e + 1)[e] == Page(c, e);
    SeedLinkReach(w, c, c.seeds[0], Page(c, e));
    LinkIsSucc(w, Page(c, e), Page(c, e + 2));
    OneFurther(w, c, Page(c, e), Page(c, e + 2), 1);
  }

  ghost predicate InBound(w: Web, c: Config, k: Url) {
    Within(w, c, k)
  }

  lemma {:induction false} MissedPage(w: Web, c: Config, rounds: seq<seq<nat>>, k: Url)
    requires PathDetermined(w) && FullyServed(w, c, rounds) && Drained(w, c, rounds)
    requires InBound(w, c, k) && k !in KeysOf(w, Frontier(w, c, Flat(rounds)))
    ensures !AlwaysComplete(c)
  {
    assert !FindsAll(w, c, Frontier(w, c, Flat(rounds)));
  }

  /** Page `j` is less than `d` links away. */
  ghost predicate Nearer(w: Web, c: Config, j: nat, d: nat)
    requires d > 0
  {
    PathReach(w, c, Page(c, j), d - 1)
  }

  lemma {:induction false} ChainInBound(w: Web, c: Config, j: nat, d: nat, missed: nat)
    requires Plain(w) && ChainFrom(w, c, j) && 0 < d <= c.depth && Nearer(w, c, j, d) && missed == j + (c.depth - d) + 1
    ensures InBound(w, c, Page(c, missed))
  {
    ChainReach(w, c, j, d - 1, c.depth - d + 1);
  }

  /** A chain entered one level too deep ends before a page that is within the bound. */
  lemma {:induction false} ChainMisses(w: Web, c: Config, rounds: seq<seq<nat>>, enq: seq<Entry>, j: nat, d: nat)
    requires Plain(w) && ChainFrom(w, c, j) && AtChain(w, c, rounds, enq, j, d) && c.concurrency > 0
    requires d > 0 && Nearer(w, c, j, d)
    ensures !AlwaysComplete(c)
  {
    var missed := j + (c.depth - d) + 1;
    var all := FollowChain(w, c, rounds, enq, j, d, missed);
    ChainInBound(w, c, j, d, missed);
    PlainIsDetermined(w);
    MissedPage(w, c, all, Page(c, missed));
  }

  // ----- two levels: a batch of seeds and other pages -----

  /** The first seed leads to page 0 and so to page 1; a seed outside the whole batches leads to page 1 at
      once, unless it repeats one of theirs. */
  function MixedSite(c: Config): Web
    requires c.seeds != []
  {
    Web(u => if u == c.seeds[0] then Pages(c, 1)
             else if u in c.seeds[..WholeBatches(c)] then []
             else if u in c.seeds then [Page(c, 1)]
             else if |u| > Length(c.seeds) then [Page(c, |u| - Length(c.seeds))]
             else [],
        u => u, u => true, u => false)
  }

  ghost predicate Mixed(w: Web, c: Config, b: nat) {
    && 0 < b < |c.seeds| && Plain(w) && SeedLinks(w, c, b, 1) && ChainFrom(w, c, 0)
    && (forall i :: b <= i < |c.seeds| ==> forall u :: u in w.links(c.seeds[i]) ==> u == Page(c, 0) || u == Page(c, 1))
    && (exists i :: b <= i < |c.seeds| && Page(c, 1) in w.links(c.seeds[i]))
  }

  lemma {:induction false} UnalignedHasBatches(c: Config)
    requires !SeedsAligned(c)
    ensures 0 < WholeBatches(c) < |c.seeds| < WholeBatches(c) + c.concurrency
  {
  }

  lemma {:induction false} MixedExists(c: Config) returns (w: Web)
    requires !SeedsAligned(c)
    ensures Mixed(w, c, WholeBatches(c))
  {
    var b := WholeBatches(c);
    UnalignedHasBatches(c);
    w := MixedSite(c);
    MixedSeeds(c, w, b);
    forall i {:trigger LinksOn(w, c, i)} | i >= 0 ensures LinksOn(w, c, i) {
      MixedPage(c, i);
    }
    var i :| b <= i < |c.seeds| && c.seeds[i] !in c.seeds[..b];
    assert c.seeds[0] == c.seeds[..b][0];
    assert w.links(c.seeds[i]) == [Page(c, 1)] && Page(c, 1) in w.links(c.seeds[i]);
  }

  lemma {:induction false} MixedPage(c: Config, i: nat)
    requires c.seeds != []
    ensures MixedSite(c).links(Page(c, i)) == [Page(c, i + 1)]
  {
    PageIsNoSeed(c, i);
    assert forall s :: s in c.seeds[..WholeBatches(c)] ==> s in c.seeds;
  }

  lemma {:induction false} MixedSeeds(c: Config, w: Web, b: nat)
    requires 0 < b < |c.seeds| && b == WholeBatches(c) && w == MixedSite(c)
    ensures Plain(w) && SeedLinks(w, c, b, 1)
    ensures forall i :: b <= i < |c.seeds| ==> forall u :: u in w.links(c.seeds[i]) ==> u == Page(c, 0) || u == Page(c, 1)
  {
    forall i | 0 <= i < b ensures w.links(c.seeds[i]) == [] || c.seeds[i] == c.seeds[0] {
      assert c.seeds[i] == c.seeds[..b][i];
    }
    assert Pages(c, 1) == [Page(c, 0)];
  }

  /** Page 0 comes back first, then the seeds it shares the batch with. */
  lemma {:induction false} MixedMeets(w: Web, c: Config, b: nat, n: nat, k: Entry, enq: seq<Entry>, order: seq<nat>)
    requires Mixed(w, c, b) && c.depth >= 2 && n == |c.seeds| && k == Entry(Page(c, 1), 2) && enq == Stage(c, 1, [k])
    requires order == InOrder(b) + ([n] + Stretch(b, n))
    ensures Frontier(w, c, order) == enq
  {
    var before := Stage(c, 1, []);
    AfterSeeds(w, c, b, 1);
    StageHoldsNoLaterPage(c, 1, [], 1);
    PageIsNew(w, c, before, 1);
    StageAt(c, 1, [], n);
    assert LinksOn(w, c, 0);
    AddsOne(w, c, before, Entry(Page(c, 0), 1), Page(c, 1));
    StageSnoc(c, 1, [], k);
    assert [] + [k] == [k];
    OneFetch(w, c, InOrder(b), n, InOrder(b) + [n], before, [k], enq);
    var ps := Stretch(b, n);
    forall i | 0 <= i < |ps| ensures ps[i] < |enq| && Known(w, enq, w.links(enq[ps[i]].url)) {
      LateSeedAddsNothing(w, c, b, k, ps[i]);
    }
    Seqs.AppendAssoc(InOrder(b), [n], ps);
    QuietFetches(w, c, InOrder(b) + [n], ps, order, enq);
  }

  lemma {:induction false} LateSeedAddsNothing(w: Web, c: Config, b: nat, k: Entry, p: nat)
    requires Mixed(w, c, b) && k == Entry(Page(c, 1), 2) && b <= p < |c.seeds|
    ensures Known(w, Stage(c, 1, [k]), w.links(Stage(c, 1, [k])[p].url))
  {
    StageAt(c, 1, [k], p);
    StageHolds(w, c, 1, [k], 0);
  }

  lemma {:induction false} MixedChain(w: Web, c: Config, b: nat, n: nat, rounds: seq<seq<nat>>)
      returns (next: seq<seq<nat>>, enq: seq<Entry>)
    requires Mixed(w, c, b) && c.depth >= 2 && n == |c.seeds| && n < b + c.concurrency
    requires FullyServed(w, c, rounds) && Taken(w, c, rounds) == b && Flat(rounds) == InOrder(b)
    ensures AtChain(w, c, next, enq, 1, 2)
  {
    var k := Entry(Page(c, 1), 2);
    enq := Stage(c, 1, [k]);
    next := LastSeedsRound(w, c, b, n, rounds);
    MixedMeets(w, c, b, n, k, enq, Flat(next));
    StageAt(c, 1, [k], n + 1);
    StageHoldsNoLaterPage(c, 1, [k], 2);
  }

  /** The batch of the last seeds and page 0, which is back first. */
  lemma {:induction false} LastSeedsRound(w: Web, c: Config, b: nat, n: nat, rounds: seq<seq<nat>>) returns (next: seq<seq<nat>>)
    requires Mixed(w, c, b) && c.depth >= 2 && n == |c.seeds| && n < b + c.concurrency
    requires FullyServed(w, c, rounds) && Taken(w, c, rounds) == b && Flat(rounds) == InOrder(b)
    ensures FullyServed(w, c, next) && Taken(w, c, next) == n + 1 && Flat(next) == InOrder(b) + ([n] + Stretch(b, n))
  {
    AfterSeeds(w, c, b, 1);
    var r: seq<nat> := [n] + Stretch(b, n);
    next := rounds + [r];
    assert Reached(w, c, b, InOrder(b)) == n + 1;
    RoundWithLastFirst(r, b, n);
    RoundSnoc(w, c, rounds, r);
  }

  lemma {:induction false} RoundWithLastFirst(r: seq<nat>, b: nat, n: nat)
    requires b <= n && r == [n] + Stretch(b, n)
    ensures IsRound(r, b, n + 1) && |r| == n + 1 - b
  {
  }

  /** At depth 2 a crawl can miss a page when a batch mixes new seeds with pages one link away. */
  lemma {:induction false} MixedMisses(c: Config)
    requires !SeedsAligned(c) && c.concurrency >= 2 && c.depth >= 2
    ensures !AlwaysComplete(c)
  {
    var b := WholeBatches(c);
    UnalignedHasBatches(c);
    var w := MixedExists(c);
    var j := BatchesOfSeeds(w, c);
    var next, enq := MixedChain(w, c, b, |c.seeds|, Orderly(w, c, j));
    MixedDistance(w, c, b);
    MixedEnd(w, c, b, next, enq);
  }

  lemma {:induction false} MixedDistance(w: Web, c: Config, b: nat)
    requires Mixed(w, c, b)
    ensures Nearer(w, c, 1, 2)
  {
    var i :| b <= i < |c.seeds| && Page(c, 1) in w.links(c.seeds[i]);
    SeedLinkReach(w, c, c.seeds[i], Page(c, 1));
  }

  lemma {:induction false} MixedEnd(w: Web, c: Config, b: nat, next: seq<seq<nat>>, enq: seq<Entry>)
    requires Mixed(w, c, b) && AtChain(w, c, next, enq, 1, 2) && c.concurrency > 0 && Nearer(w, c, 1, 2)
    ensures !AlwaysComplete(c)
  {
    ChainMisses(w, c, next, enq, 1, 2);
  }

  // ----- the condition -----

  /** For every configuration: the crawl records shortest distances on every site and in every completion
      order if and only if there is nothing to fetch together or too little depth for it to matter:
      without seeds, with at most one fetch at a time, at depth 1 or less, or at depth 2 when no seed
      outside the whole batches is new. */
  lemma {:induction false} DepthsAreExactExactly(c: Config)
    ensures AlwaysShortest(c) <==> DepthsExact(c)
  {
    if DepthsExact(c) {
      ExactIsShortest(c);
    } else if AlwaysShortest(c) {
      ShortestIsComplete(c);
      CrawlIsCompleteExactly(c);
    }
  }

  /** From one seed: with more than one fetch at a time depths are exact just when the depth is at most 2. */
  lemma {:induction false} OneSeedExactly(c: Config)
    requires |c.seeds| == 1
    ensures AlwaysShortest(c) <==> c.concurrency <= 1 || c.depth <= 2
  {
    DepthsAreExactExactly(c);
  }

  /** Under exactly the same condition a crawl that comes to its end has found every path within the
      bound: what is recorded too deep at the bound is never followed. */
  lemma {:induction false} CrawlIsCompleteExactly(c: Config)
    ensures AlwaysComplete(c) <==> DepthsExact(c)
  {
    if DepthsExact(c) {
      ExactIsShortest(c);
      ShortestIsComplete(c);
    } else if c.depth >= 3 {
      DiamondMisses(c);
    } else {
      MixedMisses(c);
    }
  }
}
