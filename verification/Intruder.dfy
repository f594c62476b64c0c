/** Marked requests (pwnproxy/services/intruder/parser.py and generator.py): a raw request whose
    § pairs become numbered fields of a format string, filled in again by the attack modes. */
module Intruder {
  import opened Wrappers
  import opened Text
  import Seqs

  const MARK: char := '\U{A7}'

  // ----- the marker pattern -----

  /** Where the marker opened just before `i` closes: at the next mark, unless the line ends first. */
  function Closing(raw: string, i: nat): (r: Option<nat>)
    requires i <= |raw|
    ensures r.Some? ==> i <= r.value < |raw| && raw[r.value] == MARK && forall k :: i <= k < r.value ==> raw[k] != MARK
    decreases |raw| - i
  {
    if i == |raw| || raw[i] == '\n' then None
    else if raw[i] == MARK then Some(i)
    else Closing(raw, i + 1)
  }

  /** The leftmost match of the pattern at or after `i`: the positions of its two marks. */
  function NextMatch(raw: string, i: nat): (r: Option<(nat, nat)>)
    requires i <= |raw|
    ensures r.Some? ==> i <= r.value.0 < r.value.1 < |raw| && raw[r.value.0] == MARK == raw[r.value.1]
    decreases |raw| - i
  {
    if i == |raw| then None
    else if raw[i] == MARK && Closing(raw, i + 1).Some? then Some((i, Closing(raw, i + 1).value))
    else NextMatch(raw, i + 1)
  }

  /** The text around the markers, one piece more than there are markers, and their base values. */
  datatype Parsed = Parsed(outside: seq<string>, bases: seq<string>)

  function Parse(raw: string, cursor: nat): (p: Parsed)
    requires cursor <= |raw|
    ensures |p.outside| == |p.bases| + 1
    decreases |raw| - cursor
  {
    match NextMatch(raw, cursor)
    case None => Parsed([raw[cursor..]], [])
    case Some((open, close)) =>
      var rest := Parse(raw, close + 1);
      Parsed([raw[cursor..open]] + rest.outside, [raw[open + 1..close]] + rest.bases)
  }

  /** The pieces with a value between each two. */
  function Fill(outside: seq<string>, values: seq<string>): string
    requires |outside| == |values| + 1
  {
    if values == [] then outside[0] else outside[0] + values[0] + Fill(outside[1..], values[1..])
  }

  function Field(k: nat): string {
    "{" + Decimal(k) + "}"
  }

  /** The format string, its fields numbered from `k`. */
  function Template(outside: seq<string>, k: nat): string
    requires |outside| >= 1
  {
    if |outside| == 1 then outside[0] else outside[0] + Field(k) + Template(outside[1..], k + 1)
  }

  function Marked(bases: seq<string>): (ms: seq<string>)
    ensures |ms| == |bases|
  {
    seq(|bases|, i requires 0 <= i < |bases| => [MARK] + bases[i] + [MARK])
  }

  lemma {:induction false} ParseStep(raw: string, cursor: nat) returns (next: Parsed)
    requires cursor <= |raw| && NextMatch(raw, cursor).Some?
    ensures var (open, close) := NextMatch(raw, cursor).value;
            && next == Parse(raw, close + 1) && |next.outside| >= 1
            && Parse(raw, cursor).outside == [raw[cursor..open]] + next.outside
            && Parse(raw, cursor).bases == [raw[open + 1..close]] + next.bases
  {
    next := Parse(raw, NextMatch(raw, cursor).value.1 + 1);
  }

  lemma {:induction false} MarkedCons(base: string, bases: seq<string>)
    ensures Marked([base] + bases) == [[MARK] + base + [MARK]] + Marked(bases)
  {
  }

  lemma {:induction false} FillMarked(p: Parsed, outer: string, base: string, rest: Parsed)
    requires |rest.outside| == |rest.bases| + 1
    requires p.outside == [outer] + rest.outside && p.bases == [base] + rest.bases
    ensures Fill(p.outside, Marked(p.bases)) == outer + ([MARK] + base + [MARK]) + Fill(rest.outside, Marked(rest.bases))
  {
    MarkedCons(base, rest.bases);
    FillCons(outer, rest.outside, [MARK] + base + [MARK], Marked(rest.bases));
  }

  /** Nothing is lost and nothing invented: putting the marks back around the base values gives the
      raw request. */
  lemma {:induction false} ParseIsFaithful(raw: string, cursor: nat)
    requires cursor <= |raw|
    ensures var p := Parse(raw, cursor);
            Fill(p.outside, Marked(p.bases)) == raw[cursor..]
    decreases |raw| - cursor
  {
    var m := NextMatch(raw, cursor);
    if m.Some? {
      var (open, close) := m.value;
      ParseIsFaithful(raw, close + 1);
      var rest := ParseStep(raw, cursor);
      FillMarked(Parse(raw, cursor), raw[cursor..open], raw[open + 1..close], rest);
      SliceAround(raw, cursor, open, close);
    }
  }

  lemma {:induction false} BasesAreUnmarked(raw: string, cursor: nat)
    requires cursor <= |raw|
    ensures forall base :: base in Parse(raw, cursor).bases ==> MARK !in base && '\n' !in base
    decreases |raw| - cursor
  {
    var m := NextMatch(raw, cursor);
    if m.Some? {
      var (open, close) := m.value;
      var rest := ParseStep(raw, cursor);
      MatchCloses(raw, cursor);
      SliceUnmarked(raw, open + 1, close);
      BasesAreUnmarked(raw, close + 1);
    }
  }

  /** Between `from` and `to` some line ends. */
  ghost predicate LineEnds(s: string, from: nat, to: nat) {
    exists k :: from <= k < to && k < |s| && s[k] == '\n'
  }

  /** No two marks of this text stand on one line. */
  ghost predicate NoPairs(s: string) {
    forall i, j :: 0 <= i < j < |s| && s[i] == MARK == s[j] ==> LineEnds(s, i, j)
  }

  /** After every mark of this text a line ends. */
  ghost predicate MarksAreCut(s: string) {
    forall i :: 0 <= i < |s| && s[i] == MARK ==> LineEnds(s, i, |s|)
  }

  /** An unpaired mark is followed by the end of its line before the next mark. */
  lemma {:induction false} NoClosing(raw: string, i: nat, j: nat)
    requires i <= j < |raw| && raw[j] == MARK && Closing(raw, i).None?
    ensures LineEnds(raw, i, j)
    decreases |raw| - i
  {
    if raw[i] != '\n' {
      assert i < j;
      NoClosing(raw, i + 1, j);
    }
  }

  /** What the search passes over holds no pair. */
  lemma {:induction false} PassedOver(raw: string, cursor: nat, i: nat)
    requires cursor <= i < |raw| && raw[i] == MARK
    requires var m := NextMatch(raw, cursor); m.Some? ==> i < m.value.0
    ensures Closing(raw, i + 1).None?
    decreases |raw| - cursor
  {
    if cursor < i {
      PassedOver(raw, cursor + 1, i);
    }
  }

  lemma {:induction false} PieceHoldsNoPairs(raw: string, cursor: nat, end: nat)
    requires cursor <= end <= |raw|
    requires var m := NextMatch(raw, cursor); if m.Some? then end == m.value.0 else end == |raw|
    ensures NoPairs(raw[cursor..end]) && (end < |raw| ==> MarksAreCut(raw[cursor..end]))
  {
    var s := raw[cursor..end];
    forall i, j | 0 <= i < j < |s| && s[i] == MARK == s[j] ensures LineEnds(s, i, j) {
      PassedOver(raw, cursor, cursor + i);
      NoClosing(raw, cursor + i + 1, cursor + j);
      var k :| cursor + i + 1 <= k < cursor + j && raw[k] == '\n';
      assert s[k - cursor] == '\n';
    }
    if end < |raw| {
      forall i | 0 <= i < |s| && s[i] == MARK ensures LineEnds(s, i, |s|) {
        PassedOver(raw, cursor, cursor + i);
        NoClosing(raw, cursor + i + 1, end);
        var k :| cursor + i + 1 <= k < end && raw[k] == '\n';
        assert s[k - cursor] == '\n';
      }
    }
  }

  /** Every marked pair is found: what stays outside holds no two marks on one line, and no mark on the line
      of the marker that follows. */
  lemma {:induction false} EveryPairIsFound(raw: string, cursor: nat)
    requires cursor <= |raw|
    ensures var outside := Parse(raw, cursor).outside;
            && (forall i :: 0 <= i < |outside| ==> NoPairs(outside[i]))
            && (forall i :: 0 <= i < |outside| - 1 ==> MarksAreCut(outside[i]))
    decreases |raw| - cursor
  {
    var m := NextMatch(raw, cursor);
    if m.Some? {
      var (open, close) := m.value;
      var rest := ParseStep(raw, cursor);
      PieceHoldsNoPairs(raw, cursor, open);
      EveryPairIsFound(raw, close + 1);
      assert Parse(raw, cursor).outside == [raw[cursor..open]] + rest.outside;
    } else {
      PieceHoldsNoPairs(raw, cursor, |raw|);
      assert raw[cursor..|raw|] == raw[cursor..];
    }
  }

  lemma {:induction false} SliceUnmarked(raw: string, from: nat, to: nat)
    requires from <= to <= |raw| && forall k :: from <= k < to ==> raw[k] != MARK && raw[k] != '\n'
    ensures MARK !in raw[from..to] && '\n' !in raw[from..to]
  {
  }

  lemma {:induction false} FillCons(piece: string, outside: seq<string>, value: string, values: seq<string>)
    requires |outside| == |values| + 1
    ensures Fill([piece] + outside, [value] + values) == piece + value + Fill(outside, values)
  {
    assert ([piece] + outside)[1..] == outside && ([value] + values)[1..] == values;
  }

  lemma {:induction false} SliceAround(raw: string, cursor: nat, open: nat, close: nat)
    requires cursor <= open < close < |raw| && raw[open] == MARK == raw[close]
    ensures raw[cursor..open] + ([MARK] + raw[open + 1..close] + [MARK]) + raw[close + 1..] == raw[cursor..]
  {
  }

  lemma {:induction false} MatchCloses(raw: string, i: nat)
    requires i <= |raw| && NextMatch(raw, i).Some?
    ensures var (open, close) := NextMatch(raw, i).value;
            forall k :: open < k < close ==> raw[k] != MARK && raw[k] != '\n'
    decreases |raw| - i
  {
    if raw[i] == MARK && Closing(raw, i + 1).Some? {
      ClosingIsOnTheLine(raw, i + 1);
    } else {
      MatchCloses(raw, i + 1);
    }
  }

  lemma {:induction false} ClosingIsOnTheLine(raw: string, i: nat)
    requires i <= |raw| && Closing(raw, i).Some?
    ensures forall k :: i <= k < Closing(raw, i).value ==> raw[k] != '\n'
    decreases |raw| - i
  {
    if raw[i] != MARK {
      ClosingIsOnTheLine(raw, i + 1);
    }
  }

  datatype Marker = Marker(position: nat, base: string)

  function MarkersOf(bases: seq<string>): (ms: seq<Marker>)
    ensures |ms| == |bases|
  {
    seq(|bases|, i requires 0 <= i < |bases| => Marker(i, bases[i]))
  }

  /** The loop of the parser as a recursion on its own state. */
  function ParseOn(raw: string, cursor: nat, template: string, markers: seq<Marker>): (r: (string, seq<Marker>))
    requires cursor <= |raw|
    decreases |raw| - cursor
  {
    match NextMatch(raw, cursor)
    case None => (template + raw[cursor..], markers)
    case Some((open, close)) =>
      ParseOn(raw, close + 1, template + raw[cursor..open] + Field(|markers|), markers + [Marker(|markers|, raw[open + 1..close])])
  }

  lemma {:induction false} ParseOnStep(raw: string, cursor: nat, template: string, markers: seq<Marker>, open: nat, close: nat)
    requires cursor <= |raw| && NextMatch(raw, cursor) == Some((open, close))
    ensures ParseOn(raw, cursor, template, markers)
         == ParseOn(raw, close + 1, template + raw[cursor..open] + Field(|markers|), markers + [Marker(|markers|, raw[open + 1..close])])
  {
  }

  lemma {:induction false} ParseOnTemplate(raw: string, cursor: nat, template: string, markers: seq<Marker>)
    requires cursor <= |raw|
    ensures ParseOn(raw, cursor, template, markers).0 == template + Template(Parse(raw, cursor).outside, |markers|)
    decreases |raw| - cursor
  {
    var m := NextMatch(raw, cursor);
    if m.Some? {
      var (open, close) := m.value;
      var more := markers + [Marker(|markers|, raw[open + 1..close])];
      var rest := ParseStep(raw, cursor);
      ParseOnStep(raw, cursor, template, markers, open, close);
      ParseOnTemplate(raw, close + 1, template + raw[cursor..open] + Field(|markers|), more);
      TemplateStep(template, Parse(raw, cursor).outside, raw[cursor..open], rest.outside, |markers|);
    }
  }

  lemma {:induction false} ParseOnMarkers(raw: string, cursor: nat, template: string, found: seq<string>)
    requires cursor <= |raw|
    ensures ParseOn(raw, cursor, template, MarkersOf(found)).1 == MarkersOf(found + Parse(raw, cursor).bases)
    decreases |raw| - cursor
  {
    var m := NextMatch(raw, cursor);
    if m.Some? {
      var (open, close) := m.value;
      var base := raw[open + 1..close];
      var rest := ParseStep(raw, cursor);
      ParseOnStep(raw, cursor, template, MarkersOf(found), open, close);
      MarkersSnoc(found, base);
      ParseOnMarkers(raw, close + 1, template + raw[cursor..open] + Field(|found|), found + [base]);
      Seqs.AppendAssoc(found, [base], rest.bases);
      assert found + Parse(raw, cursor).bases == found + [base] + rest.bases;
    } else {
      assert Parse(raw, cursor).bases == [] && found + [] == found;
    }
  }

  lemma {:induction false} MarkersSnoc(bases: seq<string>, base: string)
    ensures MarkersOf(bases + [base]) == MarkersOf(bases) + [Marker(|bases|, base)]
  {
  }

  /** The state of the loop leads to this result. */
  ghost predicate Leads(raw: string, cursor: nat, template: string, markers: seq<Marker>, t: string, ms: seq<Marker>) {
    cursor <= |raw| && ParseOn(raw, cursor, template, markers).0 == t && ParseOn(raw, cursor, template, markers).1 == ms
  }

  lemma {:induction false} LeadsFromStart(raw: string)
    ensures Leads(raw, 0, "", [], Template(Parse(raw, 0).outside, 0), MarkersOf(Parse(raw, 0).bases))
  {
    var p, none: seq<Marker> := Parse(raw, 0), [];
    ParseOnTemplate(raw, 0, "", none);
    ParseOnMarkers(raw, 0, "", []);
    assert MarkersOf([]) == none && [] + p.bases == p.bases;
    assert "" + Template(p.outside, 0) == Template(p.outside, 0);
  }

  lemma {:induction false} LeadsToEnd(raw: string, cursor: nat, template: string, markers: seq<Marker>, t: string, ms: seq<Marker>)
    requires Leads(raw, cursor, template, markers, t, ms) && NextMatch(raw, cursor).None?
    ensures template + raw[cursor..] == t && markers == ms
  {
  }

  /** One turn of the loop: the next match, or else the rest of the text. */
  method AddMarker(raw: string, cursor: nat, before: string, found: seq<Marker>, ghost t: string, ghost ms: seq<Marker>)
    returns (more: bool, next: nat, template: string, markers: seq<Marker>)
    requires Leads(raw, cursor, before, found, t, ms)
    ensures more <==> NextMatch(raw, cursor).Some?
    ensures more ==> cursor < next && Leads(raw, next, template, markers, t, ms)
    ensures !more ==> template == t && markers == ms
  {
    var m := NextMatch(raw, cursor);
    more, next, template, markers := m.Some?, cursor, before, found;
    if more {
      var (open, close) := m.value;
      var base := raw[open + 1..close];
      template := before + raw[cursor..open] + Field(|found|);
      markers := found + [Marker(|found|, base)];
      next := close + 1;
      ParseOnStep(raw, cursor, before, found, open, close);
    } else {
      template := before + raw[cursor..];
      LeadsToEnd(raw, cursor, before, found, t, ms);
    }
  }

  /** `parse_markers`. */
  method ParseMarkers(raw: string) returns (template: string, markers: seq<Marker>)
    ensures template == Template(Parse(raw, 0).outside, 0)
    ensures markers == MarkersOf(Parse(raw, 0).bases)
  {
    template, markers := "", [];
    var cursor, more := 0, true;
    ghost var t, ms := Template(Parse(raw, 0).outside, 0), MarkersOf(Parse(raw, 0).bases);
    LeadsFromStart(raw);
    while more
      invariant if more then Leads(raw, cursor, template, markers, t, ms) else template == t && markers == ms
      decreases more, |raw| - cursor
    {
      more, cursor, template, markers := AddMarker(raw, cursor, template, markers, t, ms);
    }
  }

  /** One piece and one field of the format string, printed. */
  lemma {:induction false} TemplateStep(before: string, outside: seq<string>, piece: string, rest: seq<string>, k: nat)
    requires |rest| >= 1 && outside == [piece] + rest
    ensures before + Template(outside, k) == before + piece + Field(k) + Template(rest, k + 1)
  {
    Seqs.CutAppend([piece], rest);
    assert Template(outside, k) == piece + Field(k) + Template(rest, k + 1);
    Seqs.AppendAssoc(before, piece + Field(k), Template(rest, k + 1));
    Seqs.AppendAssoc(before, piece, Field(k));
  }

  // ----- str.format with positional arguments -----

  function DigitRun(s: string): (n: nat)
    ensures n <= |s| && (forall c :: c in s[..n] ==> IsDigit(c)) && (n < |s| ==> !IsDigit(s[n]))
  {
    if s == "" || !IsDigit(s[0]) then 0
    else
      var n := 1 + DigitRun(s[1..]);
      assert s[..n] == [s[0]] + s[1..][..n - 1];
      n
  }

  /** The length of the numbered field at the head of `t`, if there is one. */
  function FieldLength(t: string): (n: nat)
    requires t != ""
    ensures n > 0 ==> 3 <= n <= |t| && t[0] == '{' && t[n - 1] == '}' && forall c :: c in t[1..n - 1] ==> IsDigit(c)
  {
    var d := DigitRun(t[1..]);
    if t[0] == '{' && d > 0 && 1 + d < |t| && t[1 + d] == '}' then
      assert t[1..1 + d] == t[1..][..d];
      d + 2
    else 0
  }

  /** None stands for the exceptions of `str.format`: a stray or unclosed brace, a field that is not a
      number, an index out of range. */
  function Format(t: string, args: seq<string>): Option<string> {
    if t == "" then Some("")
    else if t[0] == '{' || t[0] == '}' then
      if |t| > 1 && t[1] == t[0] then Prepend([t[0]], Format(t[2..], args))
      else
        var n := FieldLength(t);
        if n == 0 then None
        else
          var k := ParseDecimal(t[1..n - 1]);
          if k < |args| then Prepend(args[k], Format(t[n..], args)) else None
    else Prepend([t[0]], Format(t[1..], args))
  }

  function Prepend(s: string, o: Option<string>): Option<string> {
    match o case None => None case Some(t) => Some(s + t)
  }

  function Braces(s: string): nat {
    if s == "" then 0 else (if s[0] == '{' || s[0] == '}' then 1 else 0) + Braces(s[1..])
  }

  lemma {:induction false} BracesAppend(a: string, b: string)
    ensures Braces(a + b) == Braces(a) + Braces(b)
  {
    if a == "" {
      assert a + b == b;
    } else {
      BracesAppend(a[1..], b);
      assert (a + b)[1..] == a[1..] + b;
    }
  }

  lemma {:induction false} DigitsHaveNoBraces(s: string)
    requires forall c :: c in s ==> IsDigit(c)
    ensures Braces(s) == 0
  {
    if s != "" {
      assert s[0] in s;
      DigitsHaveNoBraces(s[1..]);
    }
  }

  lemma {:induction false} FormatPlain(p: string, t: string, args: seq<string>)
    requires Braces(p) == 0
    ensures Format(p + t, args) == Prepend(p, Format(t, args))
  {
    if p == "" {
      assert p + t == t;
      assert Format(t, args).Some? ==> "" + Format(t, args).value == Format(t, args).value;
    } else {
      FormatPlain(p[1..], t, args);
      assert (p + t)[1..] == p[1..] + t;
      assert [p[0]] + p[1..] == p;
      if Format(t, args).Some? {
        Seqs.AppendAssoc([p[0]], p[1..], Format(t, args).value);
      }
    }
  }

  lemma {:induction false} DigitRunStops(d: string, t: string)
    requires (forall c :: c in d ==> IsDigit(c)) && (t != "" ==> !IsDigit(t[0]))
    ensures DigitRun(d + t) == |d|
  {
    if d == "" {
      assert d + t == t;
    } else {
      assert d[0] in d;
      DigitRunStops(d[1..], t);
      assert (d + t)[1..] == d[1..] + t;
    }
  }

  lemma {:induction false} DelimitedRun(s: string, d: string, t: string)
    requires s == "{" + (d + ("}" + t))
    ensures s[1..] == d + ("}" + t) && s[1..|d| + 1] == d && s[|d| + 1] == '}' && s[|d| + 2..] == t
  {
  }

  lemma {:induction false} FieldAtHead(k: nat, t: string)
    ensures var d, s := Decimal(k), Field(k) + t;
            && |s| > 1 && s[0] == '{' && s[1] != '{' && FieldLength(s) == |d| + 2
            && s[1..|d| + 1] == d && s[|d| + 2..] == t
  {
    var d, rest := Decimal(k), "}" + t;
    Seqs.AppendAssoc("{" + d, "}", t);
    Seqs.AppendAssoc("{", d, rest);
    DigitRunStops(d, rest);
    DelimitedRun(Field(k) + t, d, t);
    assert d[0] in d;
  }

  /** A printed field is read back as its own number. */
  lemma {:induction false} FormatField(k: nat, t: string, args: seq<string>)
    requires k < |args|
    ensures Format(Field(k) + t, args) == Prepend(args[k], Format(t, args))
  {
    FieldAtHead(k, t);
    DecimalRoundTrip(k);
  }

  function OutsideBraces(outside: seq<string>): nat {
    if outside == [] then 0 else Braces(outside[0]) + OutsideBraces(outside[1..])
  }

  lemma {:induction false} FormatStep(piece: string, k: nat, rest: string, args: seq<string>, filled: string)
    requires Braces(piece) == 0 && k < |args| && Format(rest, args) == Some(filled)
    ensures Format(piece + Field(k) + rest, args) == Some(piece + args[k] + filled)
  {
    FormatField(k, rest, args);
    FormatPlain(piece, Field(k) + rest, args);
    Seqs.AppendAssoc(piece, Field(k), rest);
    Seqs.AppendAssoc(piece, args[k], filled);
  }

  lemma {:induction false} FormatFillsFrom(outside: seq<string>, k: nat, args: seq<string>)
    requires |outside| >= 1 && k + |outside| == |args| + 1 && OutsideBraces(outside) == 0
    ensures Format(Template(outside, k), args) == Some(Fill(outside, args[k..]))
  {
    if |outside| == 1 {
      FormatPlain(outside[0], "", args);
      assert outside[0] + "" == outside[0];
      assert Format("", args) == Some("");
    } else {
      var rest := Template(outside[1..], k + 1);
      FormatFillsFrom(outside[1..], k + 1, args);
      FormatStep(outside[0], k, rest, args, Fill(outside[1..], args[k + 1..]));
      assert args[k..][1..] == args[k + 1..] && args[k..][0] == args[k];
    }
  }

  // ----- the round trip, and exactly when it holds -----

  /** Formatting the template of a request fills its markers in, whatever the values. */
  ghost predicate AlwaysFills(p: Parsed)
    requires |p.outside| == |p.bases| + 1
  {
    forall values: seq<string> :: |values| == |p.bases| ==> FillsIn(p.outside, values)
  }

  ghost predicate FillsIn(outside: seq<string>, values: seq<string>)
    requires |outside| == |values| + 1
  {
    Format(Template(outside, 0), values) == Some(Fill(outside, values))
  }

  /** What `Format` does to a template: fields replaced, doubled braces halved, other characters kept. */
  datatype Tally = Tally(fields: nat, escapes: nat, plain: nat)

  function Count(t: string): Tally {
    if t == "" then Tally(0, 0, 0)
    else if t[0] == '{' || t[0] == '}' then
      if |t| > 1 && t[1] == t[0] then var c := Count(t[2..]); c.(escapes := c.escapes + 1)
      else
        var n := FieldLength(t);
        if n == 0 then Tally(0, 0, 0) else var c := Count(t[n..]); c.(fields := c.fields + 1)
    else var c := Count(t[1..]); c.(plain := c.plain + 1)
  }

  ghost predicate AllAre(args: seq<string>, v: string) {
    forall i :: 0 <= i < |args| ==> args[i] == v
  }

  /** If all values are one brace-free text, the length and the braces of the result are determined
      by the tally. */
  lemma {:induction false} FormatTally(t: string, args: seq<string>, v: string)
    requires Format(t, args).Some? && AllAre(args, v) && Braces(v) == 0
    ensures var c, out := Count(t), Format(t, args).value;
            && |out| == |v| * c.fields + c.escapes + c.plain
            && Braces(out) == c.escapes && Braces(t) == 2 * c.escapes + 2 * c.fields
            && 2 * c.escapes + 3 * c.fields + c.plain <= |t|
    decreases |t|, 1
  {
    if t != "" {
      if t[0] == '{' || t[0] == '}' {
        if |t| > 1 && t[1] == t[0] {
          FormatTally(t[2..], args, v);
          BracesAppend([t[0]], Format(t[2..], args).value);
          BracesAppend([t[0], t[0]], t[2..]);
          assert t == [t[0], t[0]] + t[2..];
          assert [t[0], t[0]][1..] == [t[0]];
        } else {
          FieldTally(t, args, v);
        }
      } else {
        FormatTally(t[1..], args, v);
        BracesAppend([t[0]], Format(t[1..], args).value);
      }
    }
  }

  lemma {:induction false} FieldBraces(t: string, n: nat)
    requires t != "" && n == FieldLength(t) && n > 0
    ensures Braces(t) == 2 + Braces(t[n..])
  {
    var d := t[1..n - 1];
    assert t == "{" + (d + ("}" + t[n..]));
    BracesAppend("{", d + ("}" + t[n..]));
    BracesAppend(d, "}" + t[n..]);
    BracesAppend("}", t[n..]);
    DigitsHaveNoBraces(d);
  }

  lemma {:induction false} FieldTally(t: string, args: seq<string>, v: string)
    requires t != "" && (t[0] == '{' || t[0] == '}') && !(|t| > 1 && t[1] == t[0])
    requires Format(t, args).Some? && AllAre(args, v) && Braces(v) == 0
    ensures var c, out := Count(t), Format(t, args).value;
            && |out| == |v| * c.fields + c.escapes + c.plain
            && Braces(out) == c.escapes && Braces(t) == 2 * c.escapes + 2 * c.fields
            && 2 * c.escapes + 3 * c.fields + c.plain <= |t|
    decreases |t|, 0
  {
    var n := FieldLength(t);
    FormatTally(t[n..], args, v);
    FieldBraces(t, n);
    var c := Count(t[n..]);
    assert |v| * (c.fields + 1) == |v| * c.fields + |v|;
    BracesAppend(v, Format(t[n..], args).value);
  }

  function Total(outside: seq<string>): nat {
    if outside == [] then 0 else |outside[0]| + Total(outside[1..])
  }

  lemma {:induction false} TemplateTally(outside: seq<string>, k: nat)
    requires |outside| >= 1
    ensures Braces(Template(outside, k)) == OutsideBraces(outside) + 2 * (|outside| - 1)
    ensures Total(outside) <= |Template(outside, k)|
  {
    if |outside| == 1 {
      assert OutsideBraces(outside[1..]) == 0 && Total(outside[1..]) == 0;
    } else {
      var rest, d := Template(outside[1..], k + 1), Decimal(k);
      TemplateTally(outside[1..], k + 1);
      assert Template(outside, k) == outside[0] + (Field(k) + rest);
      BracesAppend(outside[0], Field(k) + rest);
      BracesAppend(Field(k), rest);
      assert Field(k) == "{" + (d + "}");
      BracesAppend("{", d + "}");
      BracesAppend(d, "}");
      DigitsHaveNoBraces(d);
    }
  }

  lemma {:induction false} FillTally(outside: seq<string>, values: seq<string>, v: string)
    requires |outside| == |values| + 1 && AllAre(values, v) && Braces(v) == 0
    ensures |Fill(outside, values)| == |v| * |values| + Total(outside)
    ensures Braces(Fill(outside, values)) == OutsideBraces(outside)
  {
    if values == [] {
      assert OutsideBraces(outside[1..]) == 0 && Total(outside[1..]) == 0;
    } else {
      FillTally(outside[1..], values[1..], v);
      assert |v| * |values| == |v| * (|values| - 1) + |v|;
      var rest := Fill(outside[1..], values[1..]);
      assert Fill(outside, values) == outside[0] + (v + rest);
      BracesAppend(outside[0], v + rest);
      BracesAppend(v, rest);
    }
  }

  function Filler(n: nat): (v: string)
    ensures |v| == n && Braces(v) == 0
  {
    if n == 0 then "" else ['x'] + Filler(n - 1)
  }

  /** Long enough values betray every brace outside the markers: a field short shows in the length,
      a halved brace in the count. */
  lemma {:induction false} BracesSpoilTheFill(outside: seq<string>, values: seq<string>)
    requires |outside| == |values| + 1 && AllAre(values, Filler(|Template(outside, 0)| + 1))
    requires FillsIn(outside, values)
    ensures OutsideBraces(outside) == 0
  {
    var t := Template(outside, 0);
    var v := Filler(|t| + 1);
    FormatTally(t, values, v);
    TemplateTally(outside, 0);
    FillTally(outside, values, v);
    var c := Count(t);
    SameQuotient(|v|, c.fields, c.escapes + c.plain, |values|, Total(outside));
  }

  lemma {:induction false} SameQuotient(n: nat, a: nat, x: nat, b: nat, y: nat)
    requires n * a + x == n * b + y && x < n && y < n
    ensures a == b
  {
    if a < b {
      MultiplesApart(n, a, b);
    } else if b < a {
      MultiplesApart(n, b, a);
    }
  }

  lemma {:induction false} MultiplesApart(n: nat, a: nat, b: nat)
    requires a < b
    ensures n * a + n <= n * b
  {
    assert n * (a + 1) <= n * b;
  }

  /** The intruder round trip holds for every choice of values exactly when the text outside the
      markers has no brace; the base values may contain any. */
  lemma {:induction false} RoundTripExactly(raw: string)
    ensures AlwaysFills(Parse(raw, 0)) <==> OutsideBraces(Parse(raw, 0).outside) == 0
  {
    var p := Parse(raw, 0);
    if OutsideBraces(p.outside) == 0 {
      forall values: seq<string> | |values| == |p.bases| ensures FillsIn(p.outside, values) {
        FormatFillsFrom(p.outside, 0, values);
        assert values[0..] == values;
      }
    } else {
      var v := Filler(|Template(p.outside, 0)| + 1);
      var values := seq(|p.bases|, _ => v);
      if FillsIn(p.outside, values) {
        BracesSpoilTheFill(p.outside, values);
      }
    }
  }

  // ----- the attack modes -----

  datatype Request = Request(payload: string, text: string)

  /** `total_requests` of the sniper. */
  function SniperTotal(markers: seq<Marker>, words: seq<string>): nat {
    |markers| * |words|
  }

  /** One payload at a time in one marker at a time. Where `format` raises, ok is false and `out` holds
      the requests yielded before that one. */
  method Sniper(template: string, markers: seq<Marker>, words: seq<string>) returns (out: seq<Request>, ok: bool)
    requires forall i :: 0 <= i < |markers| ==> markers[i].position == i
    ensures ok ==> |out| == SniperTotal(markers, words)
    ensures ok ==> forall i, j :: 0 <= i < |markers| && 0 <= j < |words| ==> Place(words, i, j) < |out|
    ensures AllShots(template, markers, words, out)
    ensures !ok ==> exists i, j :: Fails(template, markers, words, |out|, i, j)
  {
    out, ok := [], true;
    for i := 0 to |markers|
      invariant ok && |out| == Place(words, i, 0)
      invariant AllShots(template, markers, words, out)
    {
      for j := 0 to |words|
        invariant ok && |out| == Place(words, i, j)
        invariant AllShots(template, markers, words, out)
      {
        var args := seq(|markers|, n requires 0 <= n < |markers| =>
          if n == markers[i].position then words[j] else markers[n].base);
        assert args == Shot(markers, i, words[j]);
        var request := Format(template, args);
        if request.None? {
          assert Fails(template, markers, words, |out|, i, j);
          return out, false;
        }
        OneMoreShot(template, markers, words, out, i, j, Request(words[j], request.value));
        out := out + [Request(words[j], request.value)];
      }
      assert Place(words, i, |words|) == Place(words, i + 1, 0);
    }
    forall i, j | 0 <= i < |markers| && 0 <= j < |words| ensures Place(words, i, j) < |out| {
      PlacesApart(words, i, j, |markers|, 0);
    }
  }

  /** Where the request for marker `i` and word `j` stands: words run fastest. */
  function Place(words: seq<string>, i: nat, j: nat): nat {
    i * |words| + j
  }

  /** Everything yielded so far is the request that belongs at its place. */
  ghost predicate AllShots(template: string, markers: seq<Marker>, words: seq<string>, out: seq<Request>) {
    forall i, j :: 0 <= i < |markers| && 0 <= j < |words| && Place(words, i, j) < |out| ==>
      IsShot(template, markers, words, out, i, j)
  }

  ghost predicate Fails(template: string, markers: seq<Marker>, words: seq<string>, at: nat, i: nat, j: nat) {
    && i < |markers| && j < |words| && Place(words, i, j) == at
    && Format(template, Shot(markers, i, words[j])) == None
  }

  lemma {:induction false} PlacesApart(words: seq<string>, i: nat, j: nat, k: nat, l: nat)
    requires j < |words| && (i < k || (i == k && j < l))
    ensures Place(words, i, j) < Place(words, k, l)
  {
    if i < k {
      assert (i + 1) * |words| <= k * |words|;
      assert (i + 1) * |words| == i * |words| + |words|;
    }
  }

  lemma {:induction false} OneMoreShot(template: string, markers: seq<Marker>, words: seq<string>, out: seq<Request>,
                                       i: nat, j: nat, request: Request)
    requires AllShots(template, markers, words, out) && i < |markers| && j < |words| && |out| == Place(words, i, j)
    requires request.payload == words[j] && Format(template, Shot(markers, i, words[j])) == Some(request.text)
    ensures AllShots(template, markers, words, out + [request])
  {
    var more := out + [request];
    forall k, l | 0 <= k < |markers| && 0 <= l < |words| && Place(words, k, l) < |more|
      ensures IsShot(template, markers, words, more, k, l)
    {
      if i < k || (i == k && j < l) {
        PlacesApart(words, i, j, k, l);
      } else if k < i || l < j {
        PlacesApart(words, k, l, i, j);
        assert IsShot(template, markers, words, out, k, l);
      }
    }
  }

  function Shot(markers: seq<Marker>, i: nat, word: string): (args: seq<string>)
    ensures |args| == |markers|
  {
    seq(|markers|, n requires 0 <= n < |markers| => if n == i then word else markers[n].base)
  }

  /** The request for marker `i` and word `j` is at its place in the sequence. */
  ghost predicate IsShot(template: string, markers: seq<Marker>, words: seq<string>, out: seq<Request>, i: nat, j: nat)
    requires j < |words|
  {
    && Place(words, i, j) < |out|
    && out[Place(words, i, j)].payload == words[j]
    && Format(template, Shot(markers, i, words[j])) == Some(out[Place(words, i, j)].text)
  }

  /** A sniper request is the baseline, the request with its marks removed, except at one marker. */
  lemma {:induction false} FillChangesOnePlace(outside: seq<string>, bases: seq<string>, i: nat, word: string)
    returns (before: string, after: string)
    requires |outside| == |bases| + 1 && i < |bases|
    ensures Fill(outside, bases) == before + bases[i] + after
    ensures Fill(outside, bases[i := word]) == before + word + after
  {
    if i == 0 {
      before, after := outside[0], Fill(outside[1..], bases[1..]);
      assert bases[i := word][1..] == bases[1..];
    } else {
      var b, a := FillChangesOnePlace(outside[1..], bases[1..], i - 1, word);
      before, after := outside[0] + bases[0] + b, a;
      assert bases[i := word][1..] == bases[1..][i - 1 := word];
      assert outside[0] + bases[0] + (b + bases[i] + a) == before + bases[i] + after;
      assert outside[0] + bases[0] + (b + word + a) == before + word + after;
    }
  }

  /** So the sniper never fails on a request without braces outside its markers, and each of its
      requests differs from the baseline at one marker only. */
  lemma {:induction false} SniperDiffersAtOneMarker(raw: string, i: nat, word: string) returns (before: string, after: string)
    requires OutsideBraces(Parse(raw, 0).outside) == 0 && i < |Parse(raw, 0).bases|
    ensures var p := Parse(raw, 0);
            && Fill(p.outside, p.bases) == before + p.bases[i] + after
            && Format(Template(p.outside, 0), Shot(MarkersOf(p.bases), i, word)) == Some(before + word + after)
  {
    var p := Parse(raw, 0);
    before, after := FillChangesOnePlace(p.outside, p.bases, i, word);
    assert Shot(MarkersOf(p.bases), i, word) == p.bases[i := word];
    RoundTripExactly(raw);
    assert FillsIn(p.outside, p.bases[i := word]);
  }
}
