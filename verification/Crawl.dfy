/** The crawl frontier (pwnproxy/services/crawler/engine.py), as a function of the order in which
    queue entries are fetched: what is enqueued, how deep, and when the traversal is breadth-first. */
module Crawl {
  type Url = string

  /** The outside world: the links a page yields, the path of a URL, the scope test and the robots
      test (false everywhere unless robots.txt is respected and disallows something). */
  datatype Web = Web(links: Url -> seq<Url>, key: Url -> string, inScope: Url -> bool, disallowed: Url -> bool)

  datatype Config = Config(seeds: seq<Url>, depth: int, concurrency: nat, maxUrls: int)

  datatype Entry = Entry(url: Url, depth: nat)

  predicate Admissible(w: Web, u: Url) {
    w.inScope(u) && !w.disallowed(u)
  }

  // ----- the frontier -----

  function KeysOf(w: Web, enq: seq<Entry>): set<string> {
    set i | 0 <= i < |enq| :: w.key(enq[i].url)
  }

  function UrlKeys(w: Web, us: seq<Url>): set<string> {
    set i | 0 <= i < |us| :: w.key(us[i])
  }

  function UrlsOf(enq: seq<Entry>): set<Url> {
    set i | 0 <= i < |enq| :: enq[i].url
  }

  predicate Fresh(w: Web, keys: set<string>, u: Url) {
    Admissible(w, u) && w.key(u) !in keys
  }

  /** The candidates of a page that are enqueued: the first admissible one for each added path. */
  function Discover(w: Web, keys: set<string>, cands: seq<Url>): seq<Url> {
    if cands == [] then []
    else
      var before, u := Discover(w, keys, cands[..|cands| - 1]), cands[|cands| - 1];
      if Fresh(w, keys + UrlKeys(w, before), u) then before + [u] else before
  }

  function AtDepth(us: seq<Url>, depth: nat): (es: seq<Entry>)
    ensures |es| == |us|
  {
    seq(|us|, i requires 0 <= i < |us| => Entry(us[i], depth))
  }

  function NewEntries(w: Web, c: Config, enq: seq<Entry>, e: Entry): seq<Entry> {
    if e.depth + 1 > c.depth then []
    else AtDepth(Discover(w, KeysOf(w, enq), w.links(e.url)), e.depth + 1)
  }

  /** Everything enqueued once the entries at the positions of `order` have been fetched and
      processed, in that order. */
  function Frontier(w: Web, c: Config, order: seq<nat>): seq<Entry> {
    if order == [] then AtDepth(c.seeds, 0)
    else
      var enq, i := Frontier(w, c, order[..|order| - 1]), order[|order| - 1];
      if i < |enq| then enq + NewEntries(w, c, enq, enq[i]) else enq
  }

  lemma {:induction false} DiscoverFacts(w: Web, keys: set<string>, cands: seq<Url>)
    ensures var us := Discover(w, keys, cands);
            && (forall i :: 0 <= i < |us| ==>
                  us[i] in cands && Fresh(w, keys, us[i]) && w.inScope(us[i]) && !w.disallowed(us[i]) && w.key(us[i]) !in keys)
            && (forall i, j :: 0 <= i < j < |us| ==> w.key(us[i]) != w.key(us[j]))
            && (forall u :: u in cands && w.inScope(u) && !w.disallowed(u) ==> w.key(u) in keys || w.key(u) in UrlKeys(w, us))
  {
    if cands != [] {
      var n := |cands| - 1;
      DiscoverFacts(w, keys, cands[..n]);
      var before, us := Discover(w, keys, cands[..n]), Discover(w, keys, cands);
      assert UrlKeys(w, before) <= UrlKeys(w, us) by {
        assert forall i :: 0 <= i < |before| ==> us[i] == before[i];
      }
      forall u | u in cands && Admissible(w, u) ensures w.key(u) in keys || w.key(u) in UrlKeys(w, us) {
        if u !in cands[..n] {
          assert u == cands[n];
          assert |us| > |before| ==> us[|before|] == u;
        }
      }
    }
  }

  /** They keep the order of the page, and each is the first candidate in scope on its path. */
  lemma {:induction false} DiscoverIsFirst(w: Web, keys: set<string>, cands: seq<Url>) returns (at: seq<nat>)
    ensures var us := Discover(w, keys, cands);
            && |at| == |us|
            && (forall i :: 0 <= i < |at| ==> at[i] < |cands| && cands[at[i]] == us[i])
            && (forall i, j :: 0 <= i < j < |at| ==> at[i] < at[j])
            && forall i, q :: 0 <= i < |at| && 0 <= q < at[i] && w.inScope(cands[q]) && !w.disallowed(cands[q]) ==>
                 w.key(cands[q]) != w.key(us[i])
  {
    at := [];
    if cands != [] {
      var n := |cands| - 1;
      at := DiscoverIsFirst(w, keys, cands[..n]);
      var before := Discover(w, keys, cands[..n]);
      if Fresh(w, keys + UrlKeys(w, before), cands[n]) {
        FirstOnItsPath(w, keys, cands);
        at := at + [n];
      }
    }
  }

  lemma {:induction false} FirstOnItsPath(w: Web, keys: set<string>, cands: seq<Url>)
    requires cands != []
    requires Fresh(w, keys + UrlKeys(w, Discover(w, keys, cands[..|cands| - 1])), cands[|cands| - 1])
    ensures forall q :: 0 <= q < |cands| - 1 && w.inScope(cands[q]) && !w.disallowed(cands[q]) ==>
              w.key(cands[q]) != w.key(cands[|cands| - 1])
  {
    var n := |cands| - 1;
    DiscoverFacts(w, keys, cands[..n]);
    forall q | 0 <= q < n && w.inScope(cands[q]) && !w.disallowed(cands[q]) ensures w.key(cands[q]) != w.key(cands[n]) {
      assert cands[..n][q] in cands[..n];
    }
  }

  lemma {:induction false} KeysAppend(w: Web, a: seq<Entry>, b: seq<Entry>)
    ensures KeysOf(w, a + b) == KeysOf(w, a) + KeysOf(w, b)
  {
    var ab := a + b;
    assert forall i :: 0 <= i < |a| ==> ab[i] == a[i];
    assert forall i :: 0 <= i < |b| ==> ab[|a| + i] == b[i];
  }

  lemma {:induction false} KeysAtDepth(w: Web, us: seq<Url>, depth: nat)
    ensures KeysOf(w, AtDepth(us, depth)) == UrlKeys(w, us)
  {
    var es := AtDepth(us, depth);
    assert forall i :: 0 <= i < |us| ==> es[i].url == us[i];
  }

  lemma {:induction false} UrlsAppend(a: seq<Entry>, us: seq<Url>, depth: nat)
    ensures UrlsOf(a + AtDepth(us, depth)) == UrlsOf(a) + set u | u in us
  {
    var all := a + AtDepth(us, depth);
    assert forall i :: 0 <= i < |a| ==> all[i] == a[i];
    assert forall i :: 0 <= i < |us| ==> all[|a| + i].url == us[i];
  }

  /** The new entries of a page: one level deeper, linked from it, each on a path nobody has. */
  lemma {:induction false} NewEntryFacts(w: Web, c: Config, enq: seq<Entry>, e: Entry)
    ensures var added := NewEntries(w, c, enq, e);
            && (forall i :: 0 <= i < |added| ==>
                  && added[i].depth == e.depth + 1 <= c.depth
                  && added[i].url in w.links(e.url) && Fresh(w, KeysOf(w, enq), added[i].url))
            && (forall i, j :: 0 <= i < j < |added| ==> w.key(added[i].url) != w.key(added[j].url))
            && (e.depth < c.depth ==> forall u :: u in w.links(e.url) && Admissible(w, u) ==>
                  w.key(u) in KeysOf(w, enq) || w.key(u) in KeysOf(w, added))
  {
    var keys, links := KeysOf(w, enq), w.links(e.url);
    var us := Discover(w, keys, links);
    DiscoverFacts(w, keys, links);
    KeysAtDepth(w, us, e.depth + 1);
    var added := NewEntries(w, c, enq, e);
    if e.depth < c.depth {
      assert added == AtDepth(us, e.depth + 1);
      forall i | 0 <= i < |added|
        ensures added[i].depth == e.depth + 1 && added[i].url in links && Fresh(w, keys, added[i].url)
      {
        assert us[i] in links;
        assert w.key(us[i]) !in keys;
        assert Fresh(w, keys, us[i]);
        assert added[i] == Entry(us[i], e.depth + 1);
      }
      forall i, j | 0 <= i < j < |added| ensures w.key(added[i].url) != w.key(added[j].url) {
        assert added[i].url == us[i] && added[j].url == us[j];
      }
    }
  }

  /** The j-th fetch is of something enqueued by then. */
  ghost predicate Available(w: Web, c: Config, order: seq<nat>, j: nat)
    requires j < |order|
  {
    order[j] < |Frontier(w, c, order[..j])|
  }

  ghost predicate Causal(w: Web, c: Config, order: seq<nat>) {
    forall j {:trigger Available(w, c, order, j)} :: 0 <= j < |order| ==> Available(w, c, order, j)
  }

  /** An order of fetches: no position twice, and only what was enqueued by then. */
  ghost predicate LegalOrder(w: Web, c: Config, order: seq<nat>, taken: nat) {
    && (forall p :: p in order ==> p < taken)
    && Causal(w, c, order)
    && (forall i, j :: 0 <= i < j < |order| ==> order[i] != order[j])
  }

  lemma {:induction false} FetchNext(w: Web, c: Config, order: seq<nat>, taken: nat, p: nat)
    requires LegalOrder(w, c, order, taken)
    requires p < taken && p !in order && p < |Frontier(w, c, order)|
    ensures LegalOrder(w, c, order + [p], taken)
    ensures Frontier(w, c, order + [p])
         == Frontier(w, c, order) + NewEntries(w, c, Frontier(w, c, order), Frontier(w, c, order)[p])
  {
    var next := order + [p];
    assert next[..|order|] == order;
    forall j | 0 <= j < |next| ensures Available(w, c, next, j) {
      assert next[..j] == order[..j];
      assert j < |order| ==> Available(w, c, order, j);
    }
  }

  /** The engine's fields, as the frontier determines them. */
  datatype Fields = Fields(visited: set<Url>, visitedPaths: set<string>, queue: seq<Entry>, queued: nat, discovered: nat)

  ghost predicate Mirrors(w: Web, c: Config, enq: seq<Entry>, taken: nat, f: Fields) {
    && taken <= |enq| && f.queue == enq[taken..]
    && f.visitedPaths == KeysOf(w, enq) && f.visited == UrlsOf(enq)
    && |c.seeds| + f.queued == |enq| && f.discovered == f.queued
  }

  ghost predicate Tracks(w: Web, c: Config, order: seq<nat>, taken: nat, f: Fields) {
    Mirrors(w, c, Frontier(w, c, order), taken, f) && LegalOrder(w, c, order, taken)
  }

  function WithFound(w: Web, f: Fields, found: seq<Url>, depth: nat): Fields {
    Fields(f.visited + (set u | u in found), f.visitedPaths + UrlKeys(w, found), f.queue + AtDepth(found, depth),
           f.queued + |found|, f.discovered + |found|)
  }

  lemma {:induction false} MirrorsNext(w: Web, c: Config, enq: seq<Entry>, next: seq<Entry>, taken: nat, f: Fields,
                                       found: seq<Url>, depth: nat)
    requires Mirrors(w, c, enq, taken, f) && next == enq + AtDepth(found, depth)
    ensures Mirrors(w, c, next, taken, WithFound(w, f, found, depth))
  {
    KeysAtDepth(w, found, depth);
    KeysAppend(w, enq, AtDepth(found, depth));
    UrlsAppend(enq, found, depth);
  }

  lemma {:induction false} TracksNext(w: Web, c: Config, order: seq<nat>, taken: nat, f: Fields, p: nat, found: seq<Url>)
    requires Tracks(w, c, order, taken, f)
    requires p < taken && p !in order
    requires var e := Frontier(w, c, order)[p];
             found == if e.depth + 1 <= c.depth then Discover(w, f.visitedPaths, w.links(e.url)) else []
    ensures Tracks(w, c, order + [p], taken, WithFound(w, f, found, Frontier(w, c, order)[p].depth + 1))
  {
    var enq := Frontier(w, c, order);
    FetchNext(w, c, order, taken, p);
    MirrorsFetch(w, c, order, taken, f, p, found, enq, enq[p]);
  }

  lemma {:induction false} MirrorsFetch(w: Web, c: Config, order: seq<nat>, taken: nat, f: Fields, p: nat, found: seq<Url>,
                                        enq: seq<Entry>, e: Entry)
    requires enq == Frontier(w, c, order) && Mirrors(w, c, enq, taken, f) && p < taken && e == enq[p]
    requires found == if e.depth + 1 <= c.depth then Discover(w, f.visitedPaths, w.links(e.url)) else []
    ensures Mirrors(w, c, Frontier(w, c, order + [p]), taken, WithFound(w, f, found, e.depth + 1))
  {
    FoundAreNew(w, c, enq, e, found);
    assert (order + [p])[..|order|] == order;
    MirrorsNext(w, c, enq, Frontier(w, c, order + [p]), taken, f, found, e.depth + 1);
  }

  lemma {:induction false} FoundAreNew(w: Web, c: Config, enq: seq<Entry>, e: Entry, found: seq<Url>)
    requires found == if e.depth + 1 <= c.depth then Discover(w, KeysOf(w, enq), w.links(e.url)) else []
    ensures NewEntries(w, c, enq, e) == AtDepth(found, e.depth + 1)
  {
  }

  lemma {:induction false} DiscoverSnoc(w: Web, keys: set<string>, cands: seq<Url>, k: nat)
    requires k < |cands|
    ensures var before := Discover(w, keys, cands[..k]);
            Discover(w, keys, cands[..k + 1])
            == if Fresh(w, keys + UrlKeys(w, before), cands[k]) then before + [cands[k]] else before
  {
    assert cands[..k + 1][..k] == cands[..k];
  }

  lemma {:induction false} WithFoundNone(w: Web, f: Fields, depth: nat)
    ensures WithFound(w, f, [], depth) == f
  {
    var none: seq<Url> := [];
    assert UrlKeys(w, none) == {} && (set u | u in none) == {} && AtDepth(none, depth) == [];
  }

  lemma {:induction false} WithFoundSnoc(w: Web, f: Fields, found: seq<Url>, u: Url, depth: nat)
    ensures WithFound(w, f, found + [u], depth)
         == WithFound(w, WithFound(w, f, found, depth), [u], depth)
  {
    var more := found + [u];
    assert AtDepth(more, depth) == AtDepth(found, depth) + AtDepth([u], depth);
    assert UrlKeys(w, more) == UrlKeys(w, found) + UrlKeys(w, [u]) by {
      assert forall i :: 0 <= i < |found| ==> more[i] == found[i];
      assert more[|found|] == u == [u][0];
    }
    assert (set x | x in more) == (set x | x in found) + (set x | x in [u]);
  }

  /** Taking `k` entries off the queue. */
  lemma {:induction false} TracksTake(w: Web, c: Config, order: seq<nat>, taken: nat, f: Fields, k: nat)
    requires Tracks(w, c, order, taken, f) && k <= |f.queue|
    ensures Tracks(w, c, order, taken + k, f.(queue := f.queue[k..]))
    ensures Frontier(w, c, order)[taken..taken + k] == f.queue[..k]
    ensures forall p :: taken <= p ==> p !in order
  {
  }

  /** The pages fetched, in the order they came back. */
  ghost function PagesOf(w: Web, c: Config, order: seq<nat>): (pages: seq<Entry>)
    requires Causal(w, c, order)
    ensures |pages| == |order|
    ensures forall i :: 0 <= i < |order| ==> order[i] < |Frontier(w, c, order)| && pages[i] == Frontier(w, c, order)[order[i]]
  {
    CausalIsInside(w, c, order);
    seq(|order|, i requires 0 <= i < |order| => Frontier(w, c, order)[order[i]])
  }

  lemma {:induction false} CausalIsInside(w: Web, c: Config, order: seq<nat>)
    requires Causal(w, c, order)
    ensures forall i :: 0 <= i < |order| ==> order[i] < |Frontier(w, c, order)|
  {
    forall i | 0 <= i < |order| ensures order[i] < |Frontier(w, c, order)| {
      assert Available(w, c, order, i);
      FrontierGrows(w, c, order, i);
    }
  }

  // ----- soundness for every order -----

  /** `u` is a seed, or `n` admissible links away from one. */
  ghost predicate Reach(w: Web, c: Config, u: Url, n: nat)
    decreases n
  {
    if n == 0 then u in c.seeds
    else Admissible(w, u) && exists p :: Reach(w, c, p, n - 1) && u in w.links(p)
  }

  ghost predicate SoundEntry(w: Web, c: Config, e: Entry) {
    Reach(w, c, e.url, e.depth) && (e.depth == 0 || e.depth <= c.depth)
  }

  ghost predicate AllSound(w: Web, c: Config, enq: seq<Entry>) {
    forall i :: 0 <= i < |enq| ==> SoundEntry(w, c, enq[i])
  }

  /** Beyond the seeds no path appears twice. */
  ghost predicate NoRepeats(w: Web, c: Config, enq: seq<Entry>) {
    forall i, j :: 0 <= i < j < |enq| && |c.seeds| <= j ==> w.key(enq[i].url) != w.key(enq[j].url)
  }

  lemma {:induction false} NewEntriesAreSound(w: Web, c: Config, enq: seq<Entry>, e: Entry)
    requires SoundEntry(w, c, e)
    ensures AllSound(w, c, NewEntries(w, c, enq, e))
  {
    NewEntryFacts(w, c, enq, e);
  }

  lemma {:induction false} NewEntriesDoNotRepeat(w: Web, c: Config, enq: seq<Entry>, e: Entry)
    requires NoRepeats(w, c, enq) && |c.seeds| <= |enq|
    ensures NoRepeats(w, c, enq + NewEntries(w, c, enq, e))
  {
    NewEntryFacts(w, c, enq, e);
    assert forall i :: 0 <= i < |enq| ==> w.key(enq[i].url) in KeysOf(w, enq);
  }

  /** Whatever order pages come back in: every entry is a seed or as many admissible links away as
      its depth says, within the bound, and beyond the seeds no path is enqueued twice. */
  lemma {:induction false} FrontierIsSound(w: Web, c: Config, order: seq<nat>)
    ensures |c.seeds| <= |Frontier(w, c, order)|
    ensures AllSound(w, c, Frontier(w, c, order)) && NoRepeats(w, c, Frontier(w, c, order))
  {
    if order != [] {
      var init, i := order[..|order| - 1], order[|order| - 1];
      FrontierIsSound(w, c, init);
      var enq := Frontier(w, c, init);
      if i < |enq| {
        assert SoundEntry(w, c, enq[i]);
        NewEntriesAreSound(w, c, enq, enq[i]);
        NewEntriesDoNotRepeat(w, c, enq, enq[i]);
      }
    }
  }

  /** Nothing but the seeds is ever enqueued out of scope or against robots.txt. */
  lemma {:induction false} OnlyInScopeIsEnqueued(w: Web, c: Config, order: seq<nat>, i: nat)
    requires |c.seeds| <= i < |Frontier(w, c, order)|
    ensures var e := Frontier(w, c, order)[i]; e.depth > 0 && w.inScope(e.url) && !w.disallowed(e.url)
  {
    if order != [] {
      var init, p := order[..|order| - 1], order[|order| - 1];
      var enq := Frontier(w, c, init);
      if i < |enq| {
        OnlyInScopeIsEnqueued(w, c, init, i);
      } else {
        NewEntryFacts(w, c, enq, enq[p]);
      }
    }
  }

  lemma {:induction false} SeedsComeFirst(w: Web, c: Config, order: seq<nat>)
    ensures |c.seeds| <= |Frontier(w, c, order)|
    ensures forall i :: 0 <= i < |c.seeds| ==> Frontier(w, c, order)[i].url == c.seeds[i]
  {
    FrontierGrows(w, c, order, 0);
    assert order[..0] == [];
    assert forall i :: 0 <= i < |c.seeds| ==> AtDepth(c.seeds, 0)[i].url == c.seeds[i];
  }

  /** Each page fetched is sound, and no two pages share a path unless both are seeds. */
  lemma {:induction false} PagesAreSound(w: Web, c: Config, order: seq<nat>, taken: nat)
    requires LegalOrder(w, c, order, taken)
    ensures AllSound(w, c, PagesOf(w, c, order))
    ensures forall i, j :: 0 <= i < j < |order| && w.key(PagesOf(w, c, order)[i].url) == w.key(PagesOf(w, c, order)[j].url) ==>
              PagesOf(w, c, order)[i].url in c.seeds && PagesOf(w, c, order)[j].url in c.seeds
  {
    var enq, pages := Frontier(w, c, order), PagesOf(w, c, order);
    FrontierIsSound(w, c, order);
    SeedsComeFirst(w, c, order);
    forall i, j | 0 <= i < j < |order| && w.key(pages[i].url) == w.key(pages[j].url)
      ensures pages[i].url in c.seeds && pages[j].url in c.seeds
    {
      var p, q := order[i], order[j];
      assert pages[i] == enq[p] && pages[j] == enq[q] && p != q;
      assert p < q ==> q < |c.seeds|;
      assert q < p ==> p < |c.seeds|;
    }
  }

  lemma {:induction false} FrontierGrows(w: Web, c: Config, order: seq<nat>, k: nat)
    requires k <= |order|
    ensures Frontier(w, c, order[..k]) <= Frontier(w, c, order)
  {
    if k == |order| {
      assert order[..k] == order;
    } else {
      var init := order[..|order| - 1];
      FrontierGrows(w, c, init, k);
      assert init[..k] == order[..k];
    }
  }

  /** Nothing that can be followed is forgotten: the links in scope of every fetched page above the
      depth bound, unless robots.txt disallows them, are enqueued, by path. */
  lemma {:induction false} FetchedPagesAreExpanded(w: Web, c: Config, order: seq<nat>, k: nat, u: Url)
    requires k < |order| && order[k] < |Frontier(w, c, order[..k])|
    requires var e := Frontier(w, c, order[..k])[order[k]];
             e.depth < c.depth && u in w.links(e.url) && w.inScope(u) && !w.disallowed(u)
    ensures w.key(u) in KeysOf(w, Frontier(w, c, order))
  {
    var enq := Frontier(w, c, order[..k]);
    LinkIsEnqueued(w, c, enq, enq[order[k]], u);
    assert order[..k + 1][..k] == order[..k];
    FrontierGrows(w, c, order, k + 1);
    KeysGrow(w, Frontier(w, c, order[..k + 1]), Frontier(w, c, order));
  }

  lemma {:induction false} KeysGrow(w: Web, some: seq<Entry>, all: seq<Entry>)
    requires some <= all
    ensures KeysOf(w, some) <= KeysOf(w, all)
  {
    assert all == some + all[|some|..];
    KeysAppend(w, some, all[|some|..]);
  }

  lemma {:induction false} LinkIsEnqueued(w: Web, c: Config, enq: seq<Entry>, e: Entry, u: Url)
    requires e.depth < c.depth && u in w.links(e.url) && Admissible(w, u)
    ensures w.key(u) in KeysOf(w, enq + NewEntries(w, c, enq, e))
  {
    NewEntryFacts(w, c, enq, e);
    KeysAppend(w, enq, NewEntries(w, c, enq, e));
  }

  // ----- breadth-first order -----

  /** A page on path `k` links to an admissible page on path `l`. */
  ghost predicate Succ(w: Web, k: string, l: string) {
    exists u, v :: w.key(u) == k && v in w.links(u) && Admissible(w, v) && w.key(v) == l
  }

  /** Path `k` is `n` admissible links away from the path of a seed. */
  ghost predicate PathReach(w: Web, c: Config, k: string, n: nat)
    decreases n
  {
    if n == 0 then k in UrlKeys(w, c.seeds)
    else exists p :: PathReach(w, c, p, n - 1) && Succ(w, p, k)
  }

  /** Every path an admissible link of `u` leads to is also one a link of `u'` leads to. */
  ghost predicate LeadsNoFurther(w: Web, u: Url, u': Url) {
    forall v :: v in w.links(u) && Admissible(w, v) ==>
      exists v' :: v' in w.links(u') && Admissible(w, v') && w.key(v') == w.key(v)
  }

  /** Two pages on one path lead to the same paths. */
  ghost predicate PathDetermined(w: Web) {
    forall u, u' {:trigger LeadsNoFurther(w, u, u')} :: w.key(u) == w.key(u') ==> LeadsNoFurther(w, u, u')
  }

  /** So every step of the path graph is a link of the very page that was fetched. */
  lemma {:induction false} FollowFrom(w: Web, u: Url, k: string) returns (v: Url)
    requires PathDetermined(w) && Succ(w, w.key(u), k)
    ensures v in w.links(u) && Admissible(w, v) && w.key(v) == k
  {
    var p, q :| w.key(p) == w.key(u) && q in w.links(p) && Admissible(w, q) && w.key(q) == k;
    assert LeadsNoFurther(w, p, u);
    v :| v in w.links(u) && Admissible(w, v) && w.key(v) == k;
  }

  function Bound(c: Config): nat {
    if c.depth < 0 then 0 else c.depth
  }

  ghost predicate Has(w: Web, enq: seq<Entry>, k: string, depth: nat) {
    exists i :: 0 <= i < |enq| && w.key(enq[i].url) == k && enq[i].depth <= depth
  }

  ghost predicate Sorted(enq: seq<Entry>) {
    forall i, j :: 0 <= i < j < |enq| ==> enq[i].depth <= enq[j].depth
  }

  ghost predicate HasSeeds(w: Web, c: Config, enq: seq<Entry>) {
    forall k :: k in UrlKeys(w, c.seeds) ==> Has(w, enq, k, 0)
  }

  /** What the first `m` entries lead to, unless the bound cuts it, is enqueued one level deeper at most. */
  ghost predicate Closed(w: Web, c: Config, enq: seq<Entry>, m: nat)
    requires m <= |enq|
  {
    forall i, k :: 0 <= i < m && enq[i].depth < Bound(c) && Succ(w, w.key(enq[i].url), k) ==> Has(w, enq, k, enq[i].depth + 1)
  }

  ghost predicate AllShortest(w: Web, c: Config, enq: seq<Entry>) {
    forall i :: 0 <= i < |enq| ==> Shortest(w, c, enq[i])
  }

  /** The state of a breadth-first traversal that has processed the first `m` entries. */
  ghost predicate Bfs(w: Web, c: Config, enq: seq<Entry>, m: nat) {
    && m <= |enq|
    && Sorted(enq)
    && (m < |enq| ==> enq[|enq| - 1].depth <= enq[m].depth + 1)
    && HasSeeds(w, c, enq)
    && Closed(w, c, enq, m)
    && AllShortest(w, c, enq)
  }

  /** The recorded depth is the distance of the entry's path from the seeds, within the bound. */
  ghost predicate Shortest(w: Web, c: Config, e: Entry) {
    && e.depth <= Bound(c)
    && PathReach(w, c, w.key(e.url), e.depth)
    && forall n: nat :: n < e.depth ==> !PathReach(w, c, w.key(e.url), n)
  }

  lemma {:induction false} Predecessor(w: Web, c: Config, k: string, n: nat) returns (p: string)
    requires n > 0 && PathReach(w, c, k, n)
    ensures PathReach(w, c, p, n - 1) && Succ(w, p, k)
  {
    p :| PathReach(w, c, p, n - 1) && Succ(w, p, k);
  }

  lemma {:induction false} LedTo(w: Web, c: Config, enq: seq<Entry>, m: nat, p: string, k: string, depth: nat)
    requires m <= |enq| && Closed(w, c, enq, m) && Has(w, enq, p, depth) && Succ(w, p, k) && depth < Bound(c)
    requires Sorted(enq) && (m < |enq| ==> depth < enq[m].depth)
    ensures Has(w, enq, k, depth + 1)
  {
    var i :| 0 <= i < |enq| && w.key(enq[i].url) == p && enq[i].depth <= depth;
    assert i < m;
    assert Succ(w, w.key(enq[i].url), k);
    assert Has(w, enq, k, enq[i].depth + 1);
  }

  /** Every path nearer than what is still to be processed is already enqueued, at its distance or less. */
  lemma {:induction false} BallIsEnqueued(w: Web, c: Config, enq: seq<Entry>, m: nat, k: string, n: nat)
    requires m <= |enq| && Sorted(enq) && HasSeeds(w, c, enq) && Closed(w, c, enq, m)
    requires PathReach(w, c, k, n) && n <= Bound(c)
    requires m < |enq| ==> n <= enq[m].depth
    ensures Has(w, enq, k, n)
    decreases n
  {
    if n > 0 {
      var p := Predecessor(w, c, k, n);
      BallIsEnqueued(w, c, enq, m, p, n - 1);
      LedTo(w, c, enq, m, p, k, n - 1);
    }
  }

  lemma {:induction false} HasAppend(w: Web, a: seq<Entry>, b: seq<Entry>, k: string, depth: nat)
    requires Has(w, a, k, depth)
    ensures Has(w, a + b, k, depth)
  {
    var i :| 0 <= i < |a| && w.key(a[i].url) == k && a[i].depth <= depth;
    assert (a + b)[i] == a[i];
  }

  lemma {:induction false} HasIsKey(w: Web, enq: seq<Entry>, k: string, depth: nat)
    requires Has(w, enq, k, depth)
    ensures k in KeysOf(w, enq)
  {
  }

  lemma {:induction false} NotReachedSooner(w: Web, c: Config, enq: seq<Entry>, m: nat, k: string, n: nat)
    requires m < |enq| && Sorted(enq) && HasSeeds(w, c, enq) && Closed(w, c, enq, m)
    requires k !in KeysOf(w, enq) && n <= enq[m].depth <= Bound(c)
    ensures !PathReach(w, c, k, n)
  {
    if PathReach(w, c, k, n) {
      BallIsEnqueued(w, c, enq, m, k, n);
      HasIsKey(w, enq, k, n);
    }
  }

  lemma {:induction false} OneFurther(w: Web, c: Config, p: string, k: string, n: nat)
    requires PathReach(w, c, p, n) && Succ(w, p, k)
    ensures PathReach(w, c, k, n + 1)
  {
  }

  lemma {:induction false} LinkIsSucc(w: Web, u: Url, v: Url)
    requires v in w.links(u) && Admissible(w, v)
    ensures Succ(w, w.key(u), w.key(v))
  {
  }

  lemma {:induction false} NewEntryIsShortest(w: Web, c: Config, enq: seq<Entry>, m: nat, e: Entry)
    requires Bfs(w, c, enq, m) && m < |enq| && e in NewEntries(w, c, enq, enq[m])
    ensures Shortest(w, c, e)
  {
    NewEntryFacts(w, c, enq, enq[m]);
    LinkIsSucc(w, enq[m].url, e.url);
    assert Shortest(w, c, enq[m]);
    OneFurther(w, c, w.key(enq[m].url), w.key(e.url), enq[m].depth);
    forall n: nat | n < e.depth ensures !PathReach(w, c, w.key(e.url), n) {
      NotReachedSooner(w, c, enq, m, w.key(e.url), n);
    }
  }

  lemma {:induction false} ProcessedIsClosed(w: Web, c: Config, enq: seq<Entry>, m: nat, k: string)
    requires PathDetermined(w) && m < |enq| && enq[|enq| - 1].depth <= enq[m].depth + 1 && Sorted(enq)
    requires enq[m].depth < Bound(c) && Succ(w, w.key(enq[m].url), k)
    ensures Has(w, enq + NewEntries(w, c, enq, enq[m]), k, enq[m].depth + 1)
  {
    var e, added := enq[m], NewEntries(w, c, enq, enq[m]);
    NewEntryFacts(w, c, enq, e);
    var v := FollowFrom(w, e.url, k);
    if k in KeysOf(w, enq) {
      var i :| 0 <= i < |enq| && w.key(enq[i].url) == k;
      assert enq[i].depth <= enq[|enq| - 1].depth;
      HasAppend(w, enq, added, k, e.depth + 1);
    } else {
      assert k in KeysOf(w, added);
      var i :| 0 <= i < |added| && w.key(added[i].url) == k;
      assert (enq + added)[|enq| + i] == added[i];
    }
  }

  lemma {:induction false} ClosedStep(w: Web, c: Config, enq: seq<Entry>, m: nat)
    requires PathDetermined(w) && m < |enq| && enq[|enq| - 1].depth <= enq[m].depth + 1 && Sorted(enq)
    requires Closed(w, c, enq, m)
    ensures Closed(w, c, enq + NewEntries(w, c, enq, enq[m]), m + 1)
  {
    var added := NewEntries(w, c, enq, enq[m]);
    var all := enq + added;
    forall i, k | 0 <= i < m + 1 && all[i].depth < Bound(c) && Succ(w, w.key(all[i].url), k)
      ensures Has(w, all, k, all[i].depth + 1)
    {
      if i < m {
        assert all[i] == enq[i];
        HasAppend(w, enq, added, k, enq[i].depth + 1);
      } else {
        ProcessedIsClosed(w, c, enq, m, k);
      }
    }
  }

  lemma {:induction false} SortedStep(w: Web, c: Config, enq: seq<Entry>, m: nat)
    requires m < |enq| && Sorted(enq) && enq[|enq| - 1].depth <= enq[m].depth + 1
    ensures var all := enq + NewEntries(w, c, enq, enq[m]);
            Sorted(all) && (m + 1 < |all| ==> all[|all| - 1].depth <= all[m + 1].depth + 1)
  {
    NewEntryFacts(w, c, enq, enq[m]);
  }

  lemma {:induction false} BfsStep(w: Web, c: Config, enq: seq<Entry>, m: nat)
    requires PathDetermined(w) && Bfs(w, c, enq, m) && m < |enq|
    ensures Bfs(w, c, enq + NewEntries(w, c, enq, enq[m]), m + 1)
  {
    var added := NewEntries(w, c, enq, enq[m]);
    var all := enq + added;
    SortedStep(w, c, enq, m);
    ClosedStep(w, c, enq, m);
    forall k | k in UrlKeys(w, c.seeds) ensures Has(w, all, k, 0) {
      HasAppend(w, enq, added, k, 0);
    }
    forall i | 0 <= i < |all| ensures Shortest(w, c, all[i]) {
      if i >= |enq| {
        NewEntryIsShortest(w, c, enq, m, added[i - |enq|]);
      }
    }
  }

  lemma {:induction false} BfsStart(w: Web, c: Config)
    ensures Bfs(w, c, AtDepth(c.seeds, 0), 0)
  {
    var enq := AtDepth(c.seeds, 0);
    KeysAtDepth(w, c.seeds, 0);
    forall k | k in UrlKeys(w, c.seeds) ensures Has(w, enq, k, 0) {
      var i :| 0 <= i < |c.seeds| && w.key(c.seeds[i]) == k;
      assert enq[i].url == c.seeds[i];
    }
    forall i | 0 <= i < |enq| ensures Shortest(w, c, enq[i]) {
      assert w.key(enq[i].url) in KeysOf(w, enq);
    }
  }

  /** The order in which a queue served one entry at a time is fetched. */
  function InOrder(m: nat): (order: seq<nat>)
    ensures |order| == m
  {
    seq(m, i requires 0 <= i < m => i)
  }

  ghost predicate Increasing(order: seq<nat>) {
    forall i, j :: 0 <= i < j < |order| ==> order[i] < order[j]
  }

  lemma {:induction false} LastTakenComesLast(w: Web, c: Config, order: seq<nat>, p: nat)
    requires LegalOrder(w, c, order, p + 1) && p !in order && Increasing(order)
    ensures Increasing(order + [p])
  {
    assert forall i :: 0 <= i < |order| ==> order[i] in order;
  }

  lemma {:induction false} IncreasingIsInOrder(order: seq<nat>, n: nat)
    requires Increasing(order) && |order| == n && (forall i :: 0 <= i < |order| ==> order[i] < n)
    ensures order == InOrder(n)
  {
    if n > 0 {
      var init := order[..n - 1];
      forall i | 0 <= i < n - 1 ensures init[i] < n - 1 {
        assert order[i] < order[n - 1];
      }
      IncreasingIsInOrder(init, n - 1);
      assert n > 1 ==> order[n - 2] == InOrder(n - 1)[n - 2];
      assert forall i :: 0 <= i < n - 1 ==> order[i] == InOrder(n - 1)[i];
    }
  }

  lemma {:induction false} SequentialIsBfs(w: Web, c: Config, m: nat)
    requires PathDetermined(w)
    requires forall k | 0 <= k < m :: k < |Frontier(w, c, InOrder(k))|
    ensures Bfs(w, c, Frontier(w, c, InOrder(m)), m)
  {
    if m == 0 {
      BfsStart(w, c);
    } else {
      SequentialIsBfs(w, c, m - 1);
      assert InOrder(m)[..m - 1] == InOrder(m - 1);
      BfsStep(w, c, Frontier(w, c, InOrder(m - 1)), m - 1);
    }
  }

  /** Path `k` is within the bound. */
  ghost predicate Within(w: Web, c: Config, k: string) {
    exists n: nat :: n <= Bound(c) && PathReach(w, c, k, n)
  }

  lemma {:induction false} FinishedBfsIsSound(w: Web, c: Config, enq: seq<Entry>, k: string)
    requires AllShortest(w, c, enq) && k in KeysOf(w, enq)
    ensures Within(w, c, k)
  {
    var i :| 0 <= i < |enq| && w.key(enq[i].url) == k;
    assert Shortest(w, c, enq[i]);
  }

  lemma {:induction false} FinishedBfsIsComplete(w: Web, c: Config, enq: seq<Entry>, k: string)
    requires Sorted(enq) && HasSeeds(w, c, enq) && Closed(w, c, enq, |enq|) && Within(w, c, k)
    ensures k in KeysOf(w, enq)
  {
    var n: nat :| n <= Bound(c) && PathReach(w, c, k, n);
    BallIsEnqueued(w, c, enq, |enq|, k, n);
    HasIsKey(w, enq, k, n);
  }

  /** Breadth-first exactness: served one at a time until the queue is empty, the crawl enqueues
      exactly the paths within `depth` admissible links of the seeds, each at its shortest distance. */
  lemma {:induction false} SequentialCrawlIsExact(w: Web, c: Config, m: nat, k: string)
    requires PathDetermined(w)
    requires forall j | 0 <= j < m :: j < |Frontier(w, c, InOrder(j))|
    requires m == |Frontier(w, c, InOrder(m))|
    ensures k in KeysOf(w, Frontier(w, c, InOrder(m))) <==> Within(w, c, k)
    ensures forall i :: 0 <= i < m ==> Shortest(w, c, Frontier(w, c, InOrder(m))[i])
  {
    SequentialIsBfs(w, c, m);
    if k in KeysOf(w, Frontier(w, c, InOrder(m))) {
      FinishedBfsIsSound(w, c, Frontier(w, c, InOrder(m)), k);
    } else if Within(w, c, k) {
      FinishedBfsIsComplete(w, c, Frontier(w, c, InOrder(m)), k);
    }
  }

  /** The same for the pages of a run. */
  lemma {:induction false} SequentialPagesAreExact(w: Web, c: Config, order: seq<nat>, k: string)
    requires PathDetermined(w) && Causal(w, c, order) && order == InOrder(|Frontier(w, c, order)|)
    ensures PagesOf(w, c, order) == Frontier(w, c, order)
    ensures k in KeysOf(w, PagesOf(w, c, order)) <==> Within(w, c, k)
    ensures AllShortest(w, c, PagesOf(w, c, order))
  {
    var m := |Frontier(w, c, order)|;
    forall j | 0 <= j < m ensures j < |Frontier(w, c, InOrder(j))| {
      assert Available(w, c, order, j);
      assert order[..j] == InOrder(j);
    }
    SequentialCrawlIsExact(w, c, m, k);
  }

  // ----- any order, when the depth bound never bites -----

  /** What a fetched page above the bound leads to is enqueued. */
  lemma {:induction false} PageLedOn(w: Web, c: Config, order: seq<nat>, i: nat, k: string)
    requires PathDetermined(w) && Causal(w, c, order) && i in order && i < |Frontier(w, c, order)|
    requires var e := Frontier(w, c, order)[i]; e.depth < c.depth && Succ(w, w.key(e.url), k)
    ensures k in KeysOf(w, Frontier(w, c, order))
  {
    var e := Frontier(w, c, order)[i];
    var j :| 0 <= j < |order| && order[j] == i;
    assert Available(w, c, order, j);
    FrontierGrows(w, c, order, j);
    assert Frontier(w, c, order[..j])[order[j]] == e;
    var v := FollowFrom(w, e.url, k);
    FetchedPagesAreExpanded(w, c, order, j, v);
  }

  lemma {:induction false} EveryPageLedOn(w: Web, c: Config, order: seq<nat>, p: string, k: string)
    requires PathDetermined(w) && Succ(w, p, k) && p in KeysOf(w, Frontier(w, c, order))
    requires Causal(w, c, order)
    requires forall i :: 0 <= i < |Frontier(w, c, order)| ==> i in order && Frontier(w, c, order)[i].depth < c.depth
    ensures k in KeysOf(w, Frontier(w, c, order))
  {
    var enq := Frontier(w, c, order);
    var i :| 0 <= i < |enq| && w.key(enq[i].url) == p;
    PageLedOn(w, c, order, i, k);
  }

  lemma {:induction false} SeedsAreEnqueued(w: Web, c: Config, order: seq<nat>, k: string)
    requires k in UrlKeys(w, c.seeds)
    ensures k in KeysOf(w, Frontier(w, c, order))
  {
    var seeds, enq := AtDepth(c.seeds, 0), Frontier(w, c, order);
    FrontierGrows(w, c, order, 0);
    assert order[..0] == [];
    KeysAtDepth(w, c.seeds, 0);
    assert enq == seeds + enq[|seeds|..];
    KeysAppend(w, seeds, enq[|seeds|..]);
  }

  /** However completions interleave, a crawl that fetched everything it enqueued and never reached
      the depth bound has found every path reachable from the seeds, at whatever distance. */
  lemma {:induction false} UncutCrawlIsComplete(w: Web, c: Config, order: seq<nat>, k: string, n: nat)
    requires PathDetermined(w)
    requires Causal(w, c, order)
    requires forall i :: 0 <= i < |Frontier(w, c, order)| ==> i in order && Frontier(w, c, order)[i].depth < c.depth
    requires PathReach(w, c, k, n)
    ensures k in KeysOf(w, Frontier(w, c, order))
    decreases n
  {
    if n == 0 {
      SeedsAreEnqueued(w, c, order, k);
    } else {
      var p := Predecessor(w, c, k, n);
      UncutCrawlIsComplete(w, c, order, p, n - 1);
      EveryPageLedOn(w, c, order, p, k);
    }
  }
}
