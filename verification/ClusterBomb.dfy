/** The cluster-bomb attack (pwnproxy/services/intruder/generator.py:42-74): every combination of the
    words, one wordlist per marker. */
module ClusterBomb {
  import opened Wrappers
  import opened Text
  import opened Intruder

  /** `total_requests`: the empty product counts as none. */
  function TotalRequests(lists: seq<seq<string>>): nat {
    if lists == [] then 0 else Size(lists)
  }

  function Size(lists: seq<seq<string>>): nat {
    if lists == [] then 1 else |lists[0]| * Size(lists[1..])
  }

  function Prefixed(w: string, tails: seq<seq<string>>): (r: seq<seq<string>>)
    ensures |r| == |tails|
  {
    seq(|tails|, i requires 0 <= i < |tails| => [w] + tails[i])
  }

  function Cross(words: seq<string>, tails: seq<seq<string>>): seq<seq<string>> {
    if words == [] then [] else Prefixed(words[0], tails) + Cross(words[1..], tails)
  }

  /** `itertools.product`. */
  function Product(lists: seq<seq<string>>): seq<seq<string>> {
    if lists == [] then [[]] else Cross(lists[0], Product(lists[1..]))
  }

  // ----- positions and choices -----

  /** A choice of one word per list. */
  ghost predicate IsChoice(lists: seq<seq<string>>, ix: seq<nat>) {
    |ix| == |lists| && forall i :: 0 <= i < |ix| ==> ix[i] < |lists[i]|
  }

  function Pick(lists: seq<seq<string>>, ix: seq<nat>): (combo: seq<string>)
    requires |ix| == |lists| && forall i :: 0 <= i < |ix| ==> ix[i] < |lists[i]|
    ensures |combo| == |lists|
  {
    seq(|ix|, i requires 0 <= i < |ix| => lists[i][ix[i]])
  }

  function Rank(lists: seq<seq<string>>, ix: seq<nat>): nat
    requires |ix| == |lists|
  {
    if lists == [] then 0 else ix[0] * Size(lists[1..]) + Rank(lists[1..], ix[1..])
  }

  /** `ix` comes before `jx` in lexicographic order. */
  ghost predicate Before(ix: seq<nat>, jx: seq<nat>)
    requires |ix| == |jx|
  {
    ix != [] && (ix[0] < jx[0] || (ix[0] == jx[0] && Before(ix[1..], jx[1..])))
  }

  lemma {:induction false} CrossAt(words: seq<string>, tails: seq<seq<string>>, i: nat, j: nat)
    requires i < |words| && j < |tails|
    ensures |Cross(words, tails)| == |words| * |tails|
    ensures i * |tails| + j < |words| * |tails|
    ensures Cross(words, tails)[i * |tails| + j] == [words[i]] + tails[j]
  {
    CrossSize(words, tails);
    var n := |tails|;
    CrossSize(words[1..], tails);
    RowFits(i, j, n, |words|);
    if i > 0 {
      CrossAt(words[1..], tails, i - 1, j);
      RowShift(i, n);
      assert Cross(words, tails)[n + ((i - 1) * n + j)] == Cross(words[1..], tails)[(i - 1) * n + j];
    }
  }

  lemma {:induction false} RowFits(i: nat, j: nat, n: nat, rows: nat)
    requires i < rows && j < n
    ensures i * n + j < rows * n
  {
    assert (i + 1) * n <= rows * n;
  }

  lemma {:induction false} RowShift(i: nat, n: nat)
    requires i > 0
    ensures i * n == n + (i - 1) * n
  {
  }

  lemma {:induction false} CrossSize(words: seq<string>, tails: seq<seq<string>>)
    ensures |Cross(words, tails)| == |words| * |tails|
  {
    if words != [] {
      CrossSize(words[1..], tails);
      assert |words| * |tails| == |tails| + (|words| - 1) * |tails|;
    }
  }

  lemma {:induction false} ProductSize(lists: seq<seq<string>>)
    ensures |Product(lists)| == Size(lists)
  {
    if lists != [] {
      ProductSize(lists[1..]);
      CrossSize(lists[0], Product(lists[1..]));
    }
  }

  /** Every choice has its place in the product, and that place holds it. */
  lemma {:induction false} ProductAtRank(lists: seq<seq<string>>, ix: seq<nat>)
    requires IsChoice(lists, ix)
    ensures Rank(lists, ix) < Size(lists) == |Product(lists)|
    ensures Product(lists)[Rank(lists, ix)] == Pick(lists, ix)
  {
    ProductSize(lists);
    if lists != [] {
      var rest, jx := lists[1..], ix[1..];
      ProductSize(rest);
      ProductAtRank(rest, jx);
      CrossAt(lists[0], Product(rest), ix[0], Rank(rest, jx));
      assert Pick(lists, ix) == [lists[0][ix[0]]] + Pick(rest, jx);
    }
  }

  /** Earlier choices come earlier; so no place holds two choices. */
  lemma {:induction false} RankFollowsOrder(lists: seq<seq<string>>, ix: seq<nat>, jx: seq<nat>)
    requires IsChoice(lists, ix) && IsChoice(lists, jx) && Before(ix, jx)
    ensures Rank(lists, ix) < Rank(lists, jx)
  {
    var rest := lists[1..];
    ProductAtRank(rest, ix[1..]);
    if ix[0] < jx[0] {
      RowBefore(ix[0], jx[0], Size(rest), Rank(rest, ix[1..]));
    } else {
      RankFollowsOrder(rest, ix[1..], jx[1..]);
    }
  }

  lemma {:induction false} RowBefore(i: nat, j: nat, s: nat, r: nat)
    requires i < j && r < s
    ensures i * s + r < j * s
  {
    assert (i + 1) * s <= j * s;
    assert (i + 1) * s == i * s + s;
  }

  lemma {:induction false} OrderIsTotal(ix: seq<nat>, jx: seq<nat>)
    requires |ix| == |jx| && ix != jx
    ensures Before(ix, jx) || Before(jx, ix)
  {
    if ix[0] == jx[0] {
      assert ix == [ix[0]] + ix[1..] && jx == [jx[0]] + jx[1..];
      OrderIsTotal(ix[1..], jx[1..]);
    }
  }

  function Unrank(lists: seq<seq<string>>, n: nat): (ix: seq<nat>)
    requires n < Size(lists)
    ensures |ix| == |lists|
  {
    if lists == [] then []
    else
      var s := Size(lists[1..]);
      assert s != 0;
      [n / s] + Unrank(lists[1..], n % s)
  }

  lemma {:induction false} RankCons(lists: seq<seq<string>>, i: nat, r: nat, ix: seq<nat>)
    requires lists != [] && i < |lists[0]| && IsChoice(lists[1..], ix) && Rank(lists[1..], ix) == r
    ensures IsChoice(lists, [i] + ix) && Rank(lists, [i] + ix) == i * Size(lists[1..]) + r
  {
    assert ([i] + ix)[1..] == ix;
  }

  lemma {:induction false} DivideBy(n: nat, s: nat)
    requires s > 0
    ensures 0 <= n / s && 0 <= n % s < s && (n / s) * s + n % s == n
  {
  }

  lemma {:induction false} UnrankIsChoice(lists: seq<seq<string>>, n: nat)
    requires n < Size(lists)
    ensures IsChoice(lists, Unrank(lists, n)) && Rank(lists, Unrank(lists, n)) == n
  {
    if lists != [] {
      var s := Size(lists[1..]);
      DivideBy(n, s);
      QuotientIsSmall(n, |lists[0]|, s);
      UnrankIsChoice(lists[1..], n % s);
      RankCons(lists, n / s, n % s, Unrank(lists[1..], n % s));
    }
  }

  lemma {:induction false} MultiplesOrdered(a: nat, b: nat, s: nat)
    requires a <= b
    ensures a * s <= b * s
  {
  }

  lemma {:induction false} QuotientIsSmall(n: nat, a: nat, s: nat)
    requires s > 0 && n < a * s
    ensures n / s < a
  {
    var q := n / s;
    assert q * s <= n;
    if q >= a {
      MultiplesOrdered(a, q, s);
    }
  }

  /** The product lists every choice exactly once, in lexicographic order. */
  lemma {:induction false} EveryChoiceOnce(lists: seq<seq<string>>, n: nat)
    requires n < |Product(lists)|
    ensures exists ix :: IsChoice(lists, ix) && Rank(lists, ix) == n && Product(lists)[n] == Pick(lists, ix)
    ensures forall ix, jx :: IsChoice(lists, ix) && IsChoice(lists, jx) && Rank(lists, ix) == n == Rank(lists, jx) ==> ix == jx
  {
    ProductSize(lists);
    UnrankIsChoice(lists, n);
    ProductAtRank(lists, Unrank(lists, n));
    forall ix, jx | IsChoice(lists, ix) && IsChoice(lists, jx) && Rank(lists, ix) == n == Rank(lists, jx) ensures ix == jx {
      if ix != jx {
        OrderIsTotal(ix, jx);
        if Before(ix, jx) {
          RankFollowsOrder(lists, ix, jx);
        } else {
          RankFollowsOrder(lists, jx, ix);
        }
      }
    }
  }

  /** The requests, or None where the wordlists do not match the markers. Where `format` raises, ok is
      false and the requests are those yielded before that combination. */
  method Generate(template: string, markers: seq<Marker>, lists: seq<seq<string>>)
    returns (out: Option<seq<Request>>, ok: bool)
    ensures out.None? <==> |lists| != |markers|
    ensures out.Some? && ok ==> |out.value| == |Product(lists)| == Size(lists)
    ensures out.Some? ==> |out.value| <= |Product(lists)|
    ensures out.Some? ==> forall n :: 0 <= n < |out.value| ==>
              && out.value[n].payload == Join(Product(lists)[n], ", ")
              && Format(template, Product(lists)[n]) == Some(out.value[n].text)
    ensures out.Some? && !ok ==>
              |out.value| < |Product(lists)| && Format(template, Product(lists)[|out.value|]) == None
  {
    ok := true;
    if |lists| != |markers| {
      return None, ok;
    }
    var combos := Product(lists);
    var requests: seq<Request> := [];
    ProductSize(lists);
    for n := 0 to |combos|
      invariant |requests| == n
      invariant forall k :: 0 <= k < n ==>
                  && requests[k].payload == Join(combos[k], ", ")
                  && Format(template, combos[k]) == Some(requests[k].text)
    {
      var request := Format(template, combos[n]);
      if request.None? {
        return Some(requests), false;
      }
      requests := requests + [Request(Join(combos[n], ", "), request.value)];
    }
    out := Some(requests);
  }

  /** The announced total is the number of combinations exactly when there is a wordlist: without any,
      zero is announced and one request is generated. */
  lemma {:induction false} TotalIsExact(lists: seq<seq<string>>)
    ensures TotalRequests(lists) == |Product(lists)| <==> lists != []
  {
    ProductSize(lists);
  }

  /** On a request without braces outside its markers no combination fails, and the request of each
      choice is the text with the chosen words filled in. */
  lemma {:induction false} ClusterFillsEveryMarker(raw: string, lists: seq<seq<string>>, ix: seq<nat>)
    requires OutsideBraces(Parse(raw, 0).outside) == 0 && |lists| == |Parse(raw, 0).bases| && IsChoice(lists, ix)
    ensures Rank(lists, ix) < |Product(lists)|
    ensures Format(Template(Parse(raw, 0).outside, 0), Product(lists)[Rank(lists, ix)])
         == Some(Fill(Parse(raw, 0).outside, Pick(lists, ix)))
  {
    ProductAtRank(lists, ix);
    RoundTripExactly(raw);
    assert FillsIn(Parse(raw, 0).outside, Pick(lists, ix));
  }
}
