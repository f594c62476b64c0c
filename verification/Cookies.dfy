/** Injection points of a Cookie header (pwnproxy/shared/scan/params.py:169-187) and the injector that
    rewrites one of them (pwnproxy/shared/scan/replayer.py:183-195); the cookie-string of section 4.2.1
    of RFC 6265. */
module Cookies {
  import opened Wrappers
  import opened Text
  import Seqs

  datatype Cookie = Cookie(name: string, value: string)

  // ----- strip and partition -----

  /** `str.isspace` of one character. */
  predicate IsSpace(c: char) {
    '\t' <= c <= '\r' || 0x1c as char <= c <= ' ' || c == 0x85 as char || c == 0xa0 as char || c == 0x1680 as char
    || 0x2000 as char <= c <= 0x200a as char || c == 0x2028 as char || c == 0x2029 as char || c == 0x202f as char
    || c == 0x205f as char || c == 0x3000 as char
  }

  function LStrip(s: string): string {
    if s != "" && IsSpace(s[0]) then LStrip(s[1..]) else s
  }

  function RStrip(s: string): string {
    if s != "" && IsSpace(s[|s| - 1]) then RStrip(s[..|s| - 1]) else s
  }

  function Strip(s: string): string {
    RStrip(LStrip(s))
  }

  /** The two ends of `s.partition(c)`. */
  function Before(s: string, c: char): string {
    if s == "" || s[0] == c then "" else [s[0]] + Before(s[1..], c)
  }

  function Behind(s: string, c: char): string {
    if s == "" then "" else if s[0] == c then s[1..] else Behind(s[1..], c)
  }

  // ----- extraction and injection -----

  function PairOf(part: string): Option<Cookie> {
    var pair := Strip(part);
    if '=' in pair then Some(Cookie(Strip(Before(pair, '=')), Strip(Behind(pair, '=')))) else None
  }

  function Pairs(parts: seq<string>): seq<Cookie> {
    if parts == [] then []
    else match PairOf(parts[0])
      case Some(c) => [c] + Pairs(parts[1..])
      case None => Pairs(parts[1..])
  }

  function Extract(header: string): seq<Cookie> {
    Pairs(Split(header, ';'))
  }

  function Rewrite(part: string, param: string, payload: string): string {
    var pair := Strip(part);
    if '=' in pair && Strip(Before(pair, '=')) == param then param + "=" + payload else pair
  }

  function RewriteAll(parts: seq<string>, param: string, payload: string): (r: seq<string>)
    ensures |r| == |parts|
  {
    if parts == [] then [] else [Rewrite(parts[0], param, payload)] + RewriteAll(parts[1..], param, payload)
  }

  function Inject(header: string, param: string, payload: string): string {
    Join(RewriteAll(Split(header, ';'), param, payload), "; ")
  }

  /** `_extract_cookies`. */
  method ExtractCookies(raw: string) returns (points: seq<Cookie>)
    ensures points == Extract(raw)
  {
    points := [];
    if raw == "" {
      return;
    }
    var parts := Split(raw, ';');
    for i := 0 to |parts|
      invariant points + Pairs(parts[i..]) == Pairs(parts)
    {
      assert parts[i..][0] == parts[i] && parts[i..][1..] == parts[i + 1..];
      var pair := Strip(parts[i]);
      if '=' in pair {
        var name, val := Before(pair, '='), Behind(pair, '=');
        points := points + [Cookie(Strip(name), Strip(val))];
      }
    }
    assert parts[|parts|..] == [];
  }

  /** `_inject_cookie`. */
  method InjectCookie(header: string, param: string, payload: string) returns (out: string)
    ensures out == Inject(header, param, payload)
  {
    var parts: seq<string> := [];
    var split := Split(header, ';');
    for i := 0 to |split|
      invariant parts + RewriteAll(split[i..], param, payload) == RewriteAll(split, param, payload)
    {
      assert split[i..][0] == split[i] && split[i..][1..] == split[i + 1..];
      Seqs.AppendAssoc(parts, [Rewrite(split[i], param, payload)], RewriteAll(split[i + 1..], param, payload));
      var pair := Strip(split[i]);
      if '=' in pair {
        var name := Before(pair, '=');
        if Strip(name) == param {
          parts := parts + [Strip(name) + "=" + payload];
        } else {
          parts := parts + [pair];
        }
      } else {
        parts := parts + [pair];
      }
    }
    assert split[|split|..] == [] && parts + [] == parts;
    out := Join(parts, "; ");
  }

  // ----- laws of strip -----

  lemma {:induction false} LStripKeeps(s: string)
    ensures forall c :: c in LStrip(s) ==> c in s
    ensures LStrip(s) != "" ==> !IsSpace(LStrip(s)[0])
    ensures forall c :: c in s && !IsSpace(c) ==> c in LStrip(s)
  {
    if s != "" {
      LStripKeeps(s[1..]);
      assert s == [s[0]] + s[1..];
    }
  }

  lemma {:induction false} RStripKeeps(s: string)
    ensures forall c :: c in RStrip(s) ==> c in s
    ensures RStrip(s) != "" ==> !IsSpace(RStrip(s)[|RStrip(s)| - 1])
    ensures forall c :: c in s && !IsSpace(c) ==> c in RStrip(s)
  {
    if s != "" {
      RStripKeeps(s[..|s| - 1]);
      assert s == s[..|s| - 1] + [s[|s| - 1]];
    }
  }

  /** Stripping takes away spaces and nothing else, and leaves none at its end. */
  lemma {:induction false} StripKeeps(s: string)
    ensures forall c :: c in LStrip(s) ==> c in s
    ensures forall c :: c in RStrip(s) ==> c in s
    ensures LStrip(s) != "" ==> !IsSpace(LStrip(s)[0])
    ensures RStrip(s) != "" ==> !IsSpace(RStrip(s)[|RStrip(s)| - 1])
    ensures forall c :: c in s && !IsSpace(c) ==> c in LStrip(s) && c in RStrip(s)
  {
    LStripKeeps(s);
    RStripKeeps(s);
  }

  lemma {:induction false} RStripBehind(a: string, b: string)
    requires a != "" && !IsSpace(a[|a| - 1])
    ensures RStrip(a + b) == a + RStrip(b)
    decreases |b|
  {
    if b == "" {
      assert a + b == a;
    } else if IsSpace(b[|b| - 1]) {
      assert (a + b)[..|a + b| - 1] == a + b[..|b| - 1];
      RStripBehind(a, b[..|b| - 1]);
    }
  }

  lemma {:induction false} RStripCons(c: char, s: string)
    ensures RStrip([c] + s) == if RStrip(s) == "" && IsSpace(c) then "" else [c] + RStrip(s)
    decreases |s|
  {
    if s == "" {
      assert [c] + s == [c] && [c][..0] == "";
    } else if IsSpace(s[|s| - 1]) {
      assert ([c] + s)[..|s|] == [c] + s[..|s| - 1];
      RStripCons(c, s[..|s| - 1]);
    }
  }

  lemma {:induction false} StripsCommute(s: string)
    ensures LStrip(RStrip(s)) == RStrip(LStrip(s))
  {
    if s != "" {
      RStripCons(s[0], s[1..]);
      assert [s[0]] + s[1..] == s;
      if IsSpace(s[0]) {
        StripsCommute(s[1..]);
        assert RStrip(s) != "" ==> RStrip(s)[1..] == RStrip(s[1..]);
      }
    }
  }

  lemma {:induction false} StripIdempotent(s: string)
    ensures Strip(Strip(s)) == Strip(s) && Strip(RStrip(s)) == Strip(s)
    ensures Strip([' '] + s) == Strip(s)
  {
    StripKeeps(s);
    StripKeeps(LStrip(s));
    StripsCommute(LStrip(s));
    StripsCommute(s);
    assert ([' '] + s)[1..] == s;
  }

  lemma {:induction false} PartitionAt(name: string, c: char, value: string)
    requires c !in name
    ensures Before(name + [c] + value, c) == name && Behind(name + [c] + value, c) == value
  {
    var s := name + [c] + value;
    if name != "" {
      PartitionAt(name[1..], c, value);
      assert s[1..] == name[1..] + [c] + value;
    } else {
      assert s[1..] == value;
    }
  }

  lemma {:induction false} PartitionKeeps(s: string, c: char)
    ensures c !in Before(s, c) && forall x :: x in Before(s, c) || x in Behind(s, c) ==> x in s
  {
    if s != "" {
      PartitionKeeps(s[1..], c);
    }
  }

  // ----- one part -----

  function Replaced(c: Cookie, param: string, value: string): Cookie {
    if c.name == param then Cookie(param, value) else c
  }

  function ReplacedPair(c: Option<Cookie>, param: string, value: string): Option<Cookie> {
    match c case Some(x) => Some(Replaced(x, param, value)) case None => None
  }

  predicate Names(part: string, param: string) {
    PairOf(part).Some? && PairOf(part).value.name == param
  }

  /** A written pair reads back with its name and the stripped payload. */
  lemma {:induction false} WrittenPair(name: string, payload: string)
    requires Strip(name) == name && '=' !in name
    ensures PairOf(name + "=" + payload) == Some(Cookie(name, Strip(payload)))
  {
    var front := name + "=";
    var s := front + payload;
    assert s[0] == front[0] && !IsSpace(s[0]) by {
      StripKeeps(LStrip(name));
      StripsCommute(name);
      StripKeeps(RStrip(name));
    }
    RStripBehind(front, payload);
    assert Strip(s) == name + ['='] + RStrip(payload);
    PartitionAt(name, '=', RStrip(payload));
    StripIdempotent(payload);
  }

  lemma {:induction false} RewrittenPair(part: string, param: string, payload: string)
    ensures PairOf(Rewrite(part, param, payload)) == ReplacedPair(PairOf(part), param, Strip(payload))
  {
    var pair := Strip(part);
    StripIdempotent(part);
    if Names(part, param) {
      NameIsClean(part, param);
      WrittenPair(param, payload);
    }
  }

  /** The names extraction finds are stripped and hold neither `=` nor `;`. */
  lemma {:induction false} NameIsClean(part: string, param: string)
    requires Names(part, param)
    ensures Strip(param) == param && '=' !in param
    ensures ';' !in part ==> ';' !in param
  {
    var pair := Strip(part);
    var name := Before(pair, '=');
    StripIdempotent(name);
    PartitionKeeps(pair, '=');
    StripKeeps(part);
    StripKeeps(LStrip(part));
    StripKeeps(name);
    StripKeeps(LStrip(name));
  }

  lemma {:induction false} StripDropsNoSemicolon(part: string)
    requires ';' !in part
    ensures ';' !in Strip(part)
  {
    StripKeeps(part);
    StripKeeps(LStrip(part));
  }

  // ----- whole headers -----

  function ReplacedAll(cookies: seq<Cookie>, param: string, value: string): (r: seq<Cookie>)
    ensures |r| == |cookies|
    ensures forall i :: 0 <= i < |r| ==> r[i] == Replaced(cookies[i], param, value)
  {
    seq(|cookies|, i requires 0 <= i < |cookies| => Replaced(cookies[i], param, value))
  }

  ghost predicate NoSemicolon(parts: seq<string>) {
    forall p :: p in parts ==> ';' !in p
  }

  lemma {:induction false} PairsAppend(a: seq<string>, b: seq<string>)
    ensures Pairs(a + b) == Pairs(a) + Pairs(b)
  {
    if a == [] {
      assert a + b == b;
    } else {
      assert (a + b)[1..] == a[1..] + b;
      PairsAppend(a[1..], b);
    }
  }

  /** What is joined by "; " reads like its parts, each split at its own semicolons. */
  lemma {:induction false} SplitJoined(parts: seq<string>)
    requires |parts| > 1
    ensures Split(Join(parts, "; "), ';') == Split(parts[0], ';') + Split([' '] + Join(parts[1..], "; "), ';')
  {
    var rest := Join(parts[1..], "; ");
    assert parts[0] + "; " + rest == parts[0] + [';'] + ([' '] + rest);
    SplitAppend(parts[0], [' '] + rest, ';');
  }

  /** A leading space is seen by no reader of the header. */
  lemma {:induction false} LeadingSpace(s: string, param: string, payload: string)
    ensures var a, b := Split([' '] + s, ';'), Split(s, ';');
            && Pairs(a) == Pairs(b)
            && RewriteAll(a, param, payload) == RewriteAll(b, param, payload)
  {
    var b := Split(s, ';');
    assert ([' '] + s)[1..] == s;
    StripIdempotent(b[0]);
    var a := Split([' '] + s, ';');
    assert a == [[' '] + b[0]] + b[1..] && a[1..] == b[1..];
  }

  lemma {:induction false} RewrittenPart(part: string, param: string, payload: string)
    requires ';' !in part && ';' !in payload
    ensures Split(Rewrite(part, param, payload), ';') == [Rewrite(part, param, payload)]
    ensures Pairs([Rewrite(part, param, payload)]) == ReplacedAll(Pairs([part]), param, Strip(payload))
  {
    RewrittenPair(part, param, payload);
    StripDropsNoSemicolon(part);
    if Names(part, param) {
      NameIsClean(part, param);
    }
    SplitJoin([Rewrite(part, param, payload)], ';');
  }

  /** The cookies of what is joined by "; " are those of its first part and those of the rest. */
  lemma {:induction false} ExtractJoined(parts: seq<string>)
    requires |parts| > 1
    ensures Extract(Join(parts, "; ")) == Extract(parts[0]) + Extract(Join(parts[1..], "; "))
  {
    var rest := Join(parts[1..], "; ");
    SplitJoined(parts);
    LeadingSpace(rest, "", "");
    PairsAppend(Split(parts[0], ';'), Split([' '] + rest, ';'));
  }

  lemma {:induction false} ReplacedAppend(a: seq<Cookie>, b: seq<Cookie>, param: string, value: string)
    ensures ReplacedAll(a + b, param, value) == ReplacedAll(a, param, value) + ReplacedAll(b, param, value)
  {
  }

  lemma {:induction false} ExtractInFront(first: string, rest: seq<string>)
    requires rest != [] && Split(first, ';') == [first]
    ensures Extract(Join([first] + rest, "; ")) == Pairs([first]) + Extract(Join(rest, "; "))
  {
    assert ([first] + rest)[1..] == rest;
    ExtractJoined([first] + rest);
  }

  lemma {:induction false} RewrittenPairs(parts: seq<string>, param: string, payload: string)
    requires parts != [] && NoSemicolon(parts) && ';' !in payload
    ensures Extract(Join(RewriteAll(parts, param, payload), "; ")) == ReplacedAll(Pairs(parts), param, Strip(payload))
  {
    var part, tail := parts[0], parts[1..];
    assert part in parts && parts == [part] + tail;
    RewrittenPart(part, param, payload);
    if tail == [] {
      assert RewriteAll(parts, param, payload) == [Rewrite(part, param, payload)];
    } else {
      assert NoSemicolon(tail);
      RewrittenPairs(tail, param, payload);
      ExtractInFront(Rewrite(part, param, payload), RewriteAll(tail, param, payload));
      PairsAppend([part], tail);
      ReplacedAppend(Pairs([part]), Pairs(tail), param, Strip(payload));
    }
  }

  lemma {:induction false} ExtractedHoldNoSemicolon(parts: seq<string>)
    requires NoSemicolon(parts)
    ensures forall c :: c in Pairs(parts) ==> ';' !in c.value
  {
    if parts != [] {
      assert parts[0] in parts;
      var pair := Strip(parts[0]);
      StripDropsNoSemicolon(parts[0]);
      PartitionKeeps(pair, '=');
      StripDropsNoSemicolon(Behind(pair, '='));
      assert NoSemicolon(parts[1..]);
      ExtractedHoldNoSemicolon(parts[1..]);
    }
  }

  /** Injecting and extracting again gives the original cookies with every value of that name replaced by
      the stripped payload, exactly when the payload holds no `;` or no cookie has the name. */
  lemma {:induction false} InjectThenExtractExactly(header: string, param: string, payload: string)
    ensures Extract(Inject(header, param, payload)) == ReplacedAll(Extract(header), param, Strip(payload))
       <==> ';' !in payload || forall c :: c in Extract(header) ==> c.name != param
  {
    var parts := Split(header, ';');
    JoinSplit(header, ';');
    if ';' !in payload {
      RewrittenPairs(parts, param, payload);
    } else if forall c :: c in Extract(header) ==> c.name != param {
      UnnamedRewrite(parts, param, payload, "");
      RewrittenPairs(parts, param, "");
      assert ReplacedAll(Pairs(parts), param, Strip("")) == Pairs(parts) == ReplacedAll(Pairs(parts), param, Strip(payload));
    } else {
      var c :| c in Extract(header) && c.name == param;
      var i :| 0 <= i < |Extract(header)| && Extract(header)[i] == c;
      StripKeeps(payload);
      StripKeeps(LStrip(payload));
      assert ReplacedAll(Extract(header), param, Strip(payload))[i].value == Strip(payload);
      assert ';' in Strip(payload);
      var injected := Inject(header, param, payload);
      JoinSplit(injected, ';');
      ExtractedHoldNoSemicolon(Split(injected, ';'));
    }
  }

  lemma {:induction false} UnnamedRewrite(parts: seq<string>, param: string, p: string, q: string)
    requires forall c :: c in Pairs(parts) ==> c.name != param
    ensures RewriteAll(parts, param, p) == RewriteAll(parts, param, q)
  {
    if parts != [] {
      assert PairOf(parts[0]).Some? ==> PairOf(parts[0]).value in Pairs(parts);
      assert forall c :: c in Pairs(parts[1..]) ==> c in Pairs(parts);
      UnnamedRewrite(parts[1..], param, p, q);
    }
  }

  // ----- two injections -----

  /** How many pieces the rewritten parts fall into once joined. */
  function Pieces(parts: seq<string>, param: string, payload: string): nat {
    if parts == [] then 0
    else |Split(Rewrite(parts[0], param, payload), ';')| + Pieces(parts[1..], param, payload)
  }

  lemma {:induction false} PiecesAppend(a: seq<string>, b: seq<string>, param: string, payload: string)
    ensures Pieces(a + b, param, payload) == Pieces(a, param, payload) + Pieces(b, param, payload)
    ensures RewriteAll(a + b, param, payload) == RewriteAll(a, param, payload) + RewriteAll(b, param, payload)
    ensures Pieces(b, param, payload) >= |b|
  {
    if a != [] {
      assert (a + b)[1..] == a[1..] + b;
      PiecesAppend(a[1..], b, param, payload);
    } else {
      assert a + b == b;
      if b != [] {
        PiecesAppend([], b[1..], param, payload);
      }
    }
  }

  lemma {:induction false} PiecesOfJoin(parts: seq<string>, param: string, payload: string)
    requires parts != []
    ensures |Split(Join(RewriteAll(parts, param, payload), "; "), ';')| == Pieces(parts, param, payload)
  {
    var written := RewriteAll(parts, param, payload);
    if |parts| > 1 {
      PiecesOfJoin(parts[1..], param, payload);
      assert written[1..] == RewriteAll(parts[1..], param, payload);
      SplitJoined(written);
      var rest := Join(written[1..], "; ");
      assert ([' '] + rest)[1..] == rest;
    } else {
      assert parts[1..] == [];
    }
  }

  /** A second pass over one part written with `p` writes as many pieces as one pass, and more when the
      part was rewritten and `p` holds a semicolon. */
  lemma {:induction false} PiecesOfRewritten(part: string, param: string, p: string, q: string)
    requires ';' !in part
    ensures var again := Split(Rewrite(part, param, p), ';');
            && Pieces(again, param, q) >= Pieces([part], param, q)
            && (Names(part, param) && ';' in p ==> Pieces(again, param, q) > Pieces([part], param, q))
            && (!Names(part, param) || ';' !in p ==> RewriteAll(again, param, q) == RewriteAll([part], param, q))
  {
    var pair := Strip(part);
    if Names(part, param) {
      NameIsClean(part, param);
      var front, cut := param + "=", Split(p, ';');
      SplitPrefix(front, p, ';');
      var again := Split(Rewrite(part, param, p), ';');
      assert again == [front + cut[0]] + cut[1..];
      WrittenPair(param, cut[0]);
      PiecesAppend([front + cut[0]], cut[1..], param, q);
      assert Rewrite(front + cut[0], param, q) == Rewrite(part, param, q);
      JoinSplit(p, ';');
      if |cut| == 1 {
        assert cut[0] in cut && p == cut[0] && cut[1..] == [];
      } else {
        SplitFindsSemicolon(p);
      }
    } else {
      StripDropsNoSemicolon(part);
      SplitJoin([pair], ';');
      StripIdempotent(part);
    }
  }

  lemma {:induction false} SplitFindsSemicolon(s: string)
    ensures |Split(s, ';')| > 1 <==> ';' in s
  {
    if s != "" {
      SplitFindsSemicolon(s[1..]);
      assert s == [s[0]] + s[1..];
    }
  }

  lemma {:induction false} SecondPass(parts: seq<string>, param: string, p: string, q: string)
    requires parts != [] && NoSemicolon(parts)
    ensures var again := Split(Join(RewriteAll(parts, param, p), "; "), ';');
            && Pieces(again, param, q) >= Pieces(parts, param, q)
            && (';' in p && (exists part :: part in parts && Names(part, param)) ==>
                 Pieces(again, param, q) > Pieces(parts, param, q))
            && (';' !in p || !(exists part :: part in parts && Names(part, param)) ==>
                 RewriteAll(again, param, q) == RewriteAll(parts, param, q))
  {
    var part, tail := parts[0], parts[1..];
    assert part in parts && parts == [part] + tail;
    var written := RewriteAll(parts, param, p);
    PiecesOfRewritten(part, param, p, q);
    PiecesAppend([part], tail, param, q);
    if tail != [] {
      assert forall x :: x in tail ==> x in parts;
      SecondPass(tail, param, p, q);
      assert written[1..] == RewriteAll(tail, param, p);
      SplitJoined(written);
      var rest := Join(written[1..], "; ");
      SpacePieces(rest, param, q);
      PiecesAppend(Split(written[0], ';'), Split([' '] + rest, ';'), param, q);
    }
  }

  lemma {:induction false} SpacePieces(s: string, param: string, payload: string)
    ensures var a, b := Split([' '] + s, ';'), Split(s, ';');
            && RewriteAll(a, param, payload) == RewriteAll(b, param, payload)
            && Pieces(a, param, payload) == Pieces(b, param, payload)
  {
    LeadingSpace(s, param, payload);
    var b := Split(s, ';');
    assert ([' '] + s)[1..] == s;
    var a := Split([' '] + s, ';');
    assert a == [[' '] + b[0]] + b[1..] && a[1..] == b[1..];
    assert RewriteAll(a, param, payload)[0] == RewriteAll(b, param, payload)[0];
  }

  lemma {:induction false} NamedPartIsExtracted(parts: seq<string>, param: string)
    ensures (exists part :: part in parts && Names(part, param)) <==> (exists c :: c in Pairs(parts) && c.name == param)
  {
    if parts != [] {
      var part, tail := parts[0], parts[1..];
      NamedPartIsExtracted(tail, param);
      assert parts == [part] + tail && part in parts;
      if PairOf(part).Some? {
        assert Pairs(parts) == [PairOf(part).value] + Pairs(tail);
        assert PairOf(part).value in Pairs(parts);
      }
      if exists c :: c in Pairs(tail) && c.name == param {
        var c :| c in Pairs(tail) && c.name == param;
        assert c in Pairs(parts);
        var found :| found in tail && Names(found, param);
        assert found in parts;
      }
    }
  }

  /** The last of two injections wins, to the character, exactly when the first payload holds no `;` or
      no cookie has the name: otherwise the first leaves cookies of its own behind. */
  lemma {:induction false} LastInjectionWinsExactly(header: string, param: string, p: string, q: string)
    ensures Inject(Inject(header, param, p), param, q) == Inject(header, param, q)
       <==> ';' !in p || forall c :: c in Extract(header) ==> c.name != param
  {
    var parts := Split(header, ';');
    JoinSplit(header, ';');
    SecondPass(parts, param, p, q);
    NamedPartIsExtracted(parts, param);
    var again := Split(Inject(header, param, p), ';');
    PiecesOfJoin(again, param, q);
    PiecesOfJoin(parts, param, q);
  }
}
