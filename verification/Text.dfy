/** Splitting, joining and decimal printing of strings, as Python's str methods do them. */
module Text {
  // ----- split and join -----

  /** `s.split(c)`: never empty; the empty string splits into one empty part. */
  function Split(s: string, c: char): (parts: seq<string>)
    ensures |parts| >= 1
  {
    if s == "" then [""]
    else
      var rest := Split(s[1..], c);
      if s[0] == c then [""] + rest else [[s[0]] + rest[0]] + rest[1..]
  }

  function Join(parts: seq<string>, sep: string): string {
    if parts == [] then ""
    else if |parts| == 1 then parts[0]
    else parts[0] + sep + Join(parts[1..], sep)
  }

  lemma {:induction false} FirstGrows(p: string, first: string, more: seq<string>, parts: seq<string>)
    requires p != "" && parts == [p[1..] + first] + more
    ensures [[p[0]] + parts[0]] + parts[1..] == [p + first] + more
  {
    assert [p[0]] + (p[1..] + first) == p + first;
    assert parts[1..] == more;
  }

  lemma {:induction false} SplitPrefix(p: string, s: string, c: char)
    requires c !in p
    ensures Split(p + s, c) == [p + Split(s, c)[0]] + Split(s, c)[1..]
  {
    if p == "" {
      assert p + s == s;
      assert p + Split(s, c)[0] == Split(s, c)[0];
    } else {
      var first, more := Split(s, c)[0], Split(s, c)[1..];
      SplitPrefix(p[1..], s, c);
      assert p[0] in p && (p + s)[0] == p[0] && (p + s)[1..] == p[1..] + s;
      FirstGrows(p, first, more, Split(p[1..] + s, c));
    }
  }

  /** Parts without the separator come back from the joined string, and every string is the join of
      its parts. */
  lemma {:induction false} SplitJoin(parts: seq<string>, c: char)
    requires |parts| >= 1 && forall p :: p in parts ==> c !in p
    ensures Split(Join(parts, [c]), c) == parts
  {
    assert parts[0] in parts;
    if |parts| == 1 {
      SplitPrefix(parts[0], "", c);
      assert parts[0] + "" == parts[0];
    } else {
      SplitJoin(parts[1..], c);
      var rest := Join(parts[1..], [c]);
      SplitPrefix(parts[0], [c] + rest, c);
      assert ([c] + rest)[1..] == rest;
      assert Split([c] + rest, c) == [""] + Split(rest, c);
      assert parts[0] + [c] + rest == parts[0] + ([c] + rest);
      assert parts[0] + "" == parts[0];
    }
  }

  lemma {:induction false} JoinSplit(s: string, c: char)
    ensures Join(Split(s, c), [c]) == s
    ensures forall p :: p in Split(s, c) ==> c !in p
  {
    if s != "" {
      JoinSplit(s[1..], c);
      var rest := Split(s[1..], c);
      if s[0] == c {
        assert ([""] + rest)[1..] == rest;
      } else {
        var parts := [[s[0]] + rest[0]] + rest[1..];
        assert parts[1..] == rest[1..];
        assert rest[0] in rest;
        if |rest| > 1 {
          assert [s[0]] + rest[0] + [c] + Join(rest[1..], [c]) == [s[0]] + (rest[0] + [c] + Join(rest[1..], [c]));
        }
      }
    }
  }

  lemma {:induction false} JoinAppend(a: seq<string>, b: seq<string>, sep: string)
    requires a != [] && b != []
    ensures Join(a + b, sep) == Join(a, sep) + sep + Join(b, sep)
    decreases |a|
  {
    if |a| == 1 {
      assert (a + b)[1..] == b;
    } else {
      JoinAppend(a[1..], b, sep);
      assert (a + b)[1..] == a[1..] + b;
    }
  }

  lemma {:induction false} SplitAppend(a: string, b: string, c: char)
    ensures Split(a + [c] + b, c) == Split(a, c) + Split(b, c)
  {
    JoinSplit(a, c);
    JoinSplit(b, c);
    JoinAppend(Split(a, c), Split(b, c), [c]);
    SplitJoin(Split(a, c) + Split(b, c), c);
  }

  /** `sub in s`. */
  predicate Contains(s: string, sub: string) {
    sub <= s || (s != "" && Contains(s[1..], sub))
  }

  predicate StandsAt(s: string, sub: string, i: nat) {
    i + |sub| <= |s| && s[i..i + |sub|] == sub
  }

  lemma {:induction false} SliceOfRest(s: string, i: nat, j: nat)
    requires i <= j < |s|
    ensures s[1..][i..j] == s[i + 1..j + 1]
  {
  }

  /** Containment means standing somewhere. */
  lemma {:induction false} ContainsExactly(s: string, sub: string)
    ensures Contains(s, sub) <==> exists i :: StandsAt(s, sub, i)
  {
    if sub <= s {
      assert StandsAt(s, sub, 0);
    } else if s != "" {
      ContainsExactly(s[1..], sub);
      if i: nat :| StandsAt(s[1..], sub, i) {
        SliceOfRest(s, i, i + |sub|);
        assert StandsAt(s, sub, i + 1);
      }
      if i: nat :| StandsAt(s, sub, i) {
        assert s[0..|sub|] == s[..|sub|] && i > 0;
        SliceOfRest(s, i - 1, i - 1 + |sub|);
        assert StandsAt(s[1..], sub, i - 1);
      }
    }
  }

  // ----- decimal numbers -----

  predicate IsDigit(c: char) {
    '0' <= c <= '9'
  }

  function DigitValue(c: char): (d: nat)
    requires IsDigit(c)
    ensures d < 10
  {
    (c as int) - ('0' as int)
  }

  function DigitChar(d: nat): (c: char)
    requires d < 10
    ensures IsDigit(c) && DigitValue(c) == d
  {
    (d + ('0' as int)) as char
  }

  /** `str(n)`. */
  function Decimal(n: nat): (s: string)
    ensures |s| >= 1 && forall c :: c in s ==> IsDigit(c)
  {
    if n < 10 then [DigitChar(n)] else Decimal(n / 10) + [DigitChar(n % 10)]
  }

  /** `int(s)` on a run of ASCII digits. */
  function ParseDecimal(s: string): nat
    requires forall c :: c in s ==> IsDigit(c)
  {
    if s == "" then 0
    else
      assert s[|s| - 1] in s;
      ParseDecimal(s[..|s| - 1]) * 10 + DigitValue(s[|s| - 1])
  }

  lemma {:induction false} DecimalRoundTrip(n: nat)
    ensures ParseDecimal(Decimal(n)) == n
  {
    if n >= 10 {
      DecimalRoundTrip(n / 10);
      var s := Decimal(n);
      assert s[..|s| - 1] == Decimal(n / 10);
    } else {
      assert Decimal(n)[..0] == "";
    }
  }
}
