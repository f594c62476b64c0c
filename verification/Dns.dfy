/** The DNS callback server's packet codec (pwnproxy/shared/dns_server.py:131-205; sections 4.1.1 to
    4.1.4 of RFC 1035). */
module Dns {
  import opened Wrappers
  import opened Text
  import Seqs

  type byte = b: int | 0 <= b < 256

  datatype Query = Query(qname: string, qtype: nat, id: nat)

  // ----- numbers and ASCII -----

  /** `struct.pack("!H", n)`. */
  function Pack16(n: nat): (b: seq<byte>)
    requires n < 0x1_0000
    ensures |b| == 2
  {
    [n / 256, n % 256]
  }

  function Unpack16(b: seq<byte>): nat
    requires |b| == 2
  {
    var hi: nat, lo: nat := b[0], b[1];
    hi * 256 + lo
  }

  lemma {:induction false} PackRoundTrip(n: nat)
    requires n < 0x1_0000
    ensures Unpack16(Pack16(n)) == n
  {
  }

  predicate IsAscii(s: string) {
    forall i :: 0 <= i < |s| ==> s[i] < 128 as char
  }

  /** `s.encode("ascii")`. */
  function EncodeAscii(s: string): (b: seq<byte>)
    requires IsAscii(s)
    ensures |b| == |s|
  {
    if s == "" then [] else [s[0] as int] + EncodeAscii(s[1..])
  }

  /** `b.decode("ascii", errors="ignore")`: bytes above 127 are dropped. */
  function DecodeAscii(b: seq<byte>): string {
    if b == [] then ""
    else if b[0] < 128 then [b[0] as char] + DecodeAscii(b[1..])
    else DecodeAscii(b[1..])
  }

  lemma {:induction false} DecodedIsAscii(b: seq<byte>)
    ensures IsAscii(DecodeAscii(b)) && |DecodeAscii(b)| <= |b|
  {
    if b != [] {
      DecodedIsAscii(b[1..]);
    }
  }

  lemma {:induction false} AsciiRoundTrip(s: string)
    requires IsAscii(s)
    ensures DecodeAscii(EncodeAscii(s)) == s
  {
    if s != "" {
      AsciiRoundTrip(s[1..]);
      assert EncodeAscii(s)[1..] == EncodeAscii(s[1..]);
    }
  }

  // ----- parsing -----

  /** What a slice from `offset` leaves, which may start past the end. */
  function From(data: seq<byte>, offset: nat): (rest: seq<byte>)
    ensures |rest| <= |data| && (offset > 0 && data != [] ==> |rest| < |data|)
  {
    if offset <= |data| then data[offset..] else []
  }

  function UpTo(data: seq<byte>, n: nat): (part: seq<byte>)
    ensures |part| <= n
  {
    if n <= |data| then data[..n] else data
  }

  /** The labels a name starts with, and how many bytes it claims. A length of 64 or more is a length
      here, never a compression pointer. */
  function Scan(data: seq<byte>): (r: (seq<string>, nat))
    decreases |data|
  {
    if data == [] then ([], 0)
    else if data[0] == 0 then ([], 1)
    else
      var length: nat := data[0];
      var rest := Scan(From(data, 1 + length));
      ([DecodeAscii(UpTo(data[1..], length))] + rest.0, 1 + length + rest.1)
  }

  function Parse(data: seq<byte>): Option<Query> {
    if |data| < 12 then None
    else
      var (labels, n) := Scan(data[12..]);
      if 12 + n + 4 > |data| then None
      else Some(Query(Join(labels, "."), Unpack16(data[12 + n..14 + n]), Unpack16(data[..2])))
  }

  /** `_parse_dns_query`: on any bytes it ends, with every index in range. */
  method ParseDnsQuery(data: seq<byte>) returns (query: Option<Query>)
    ensures query == Parse(data)
  {
    if |data| < 12 {
      return None;
    }
    var id := Unpack16(data[0..2]);
    var offset, labels := ParseName(data);
    ScanOnStart(data);
    var qname := Join(labels, ".");
    if offset + 4 > |data| {
      return None;
    }
    var qtype := Unpack16(data[offset..offset + 2]);
    query := Some(Query(qname, qtype, id));
  }

  /** The label at an offset, and where it claims to end. */
  function LabelAt(data: seq<byte>, offset: nat): string
    requires offset < |data|
  {
    DecodeAscii(UpTo(From(data, offset + 1), data[offset]))
  }

  function After(data: seq<byte>, offset: nat): nat
    requires offset < |data|
  {
    var length: nat := data[offset];
    offset + 1 + length
  }

  lemma {:induction false} ScanOneLabel(data: seq<byte>, offset: nat)
    requires offset < |data| && data[offset] != 0
    ensures Scan(From(data, offset)).0 == [LabelAt(data, offset)] + Scan(From(data, After(data, offset))).0
    ensures Scan(From(data, offset)).1 == After(data, offset) - offset + Scan(From(data, After(data, offset))).1
  {
    var length: nat := data[offset];
    FromFrom(data, offset, 1);
    FromFrom(data, offset, 1 + length);
    ScanLabel(From(data, offset), length, From(data, offset + 1), From(data, After(data, offset)));
  }

  lemma {:induction false} ScanLabel(data: seq<byte>, length: nat, behind: seq<byte>, rest: seq<byte>)
    requires data != [] && data[0] == length != 0
    requires behind == From(data, 1) && rest == From(data, 1 + length)
    ensures Scan(data).0 == [DecodeAscii(UpTo(behind, length))] + Scan(rest).0
    ensures Scan(data).1 == 1 + length + Scan(rest).1
  {
  }

  lemma {:induction false} FromFrom(data: seq<byte>, a: nat, b: nat)
    ensures From(From(data, a), b) == From(data, a + b)
  {
  }

  /** The loop of the parser as a recursion on its own state. */
  function ScanOn(data: seq<byte>, offset: nat, labels: seq<string>): (r: (nat, seq<string>))
    decreases |data| - offset
  {
    if offset >= |data| then (offset, labels)
    else if data[offset] == 0 then (offset + 1, labels)
    else ScanOn(data, After(data, offset), labels + [LabelAt(data, offset)])
  }

  lemma {:induction false} ScanOnIsScan(data: seq<byte>, offset: nat, labels: seq<string>)
    ensures ScanOn(data, offset, labels).1 == labels + Scan(From(data, offset)).0
    ensures ScanOn(data, offset, labels).0 == offset + Scan(From(data, offset)).1
    decreases |data| - offset
  {
    if offset < |data| && data[offset] != 0 {
      ScanOneLabel(data, offset);
      ScanOnIsScan(data, After(data, offset), labels + [LabelAt(data, offset)]);
      Seqs.AppendAssoc(labels, [LabelAt(data, offset)], Scan(From(data, After(data, offset))).0);
    } else {
      assert Scan(From(data, offset)).0 == [];
    }
  }

  lemma {:induction false} ScanOnStart(data: seq<byte>)
    requires |data| >= 12
    ensures ScanOn(data, 12, []).1 == Scan(data[12..]).0 && ScanOn(data, 12, []).0 == 12 + Scan(data[12..]).1
  {
    ScanOnIsScan(data, 12, []);
    assert From(data, 12) == data[12..];
    assert [] + Scan(data[12..]).0 == Scan(data[12..]).0;
  }

  /** The loop of `_parse_dns_query` over the question's name. */
  method ParseName(data: seq<byte>) returns (offset: nat, labels: seq<string>)
    requires |data| >= 12
    ensures (offset, labels) == ScanOn(data, 12, [])
  {
    offset, labels := 12, [];
    while offset < |data|
      invariant ScanOn(data, offset, labels) == ScanOn(data, 12, [])
      decreases |data| - offset
    {
      var length: nat := data[offset];
      if length == 0 {
        offset := offset + 1;
        return;
      }
      labels := labels + [LabelAt(data, offset)];
      offset := offset + 1 + length;
    }
  }

  // ----- exactly which packets are read, and as what -----

  /** Decoding keeps the ASCII bytes, in order, and drops the others. */
  lemma {:induction false} DecodeKeepsAscii(b: seq<byte>, keep: byte -> bool)
    requires forall x :: keep(x) <==> x < 128
    ensures IsAscii(DecodeAscii(b)) && EncodeAscii(DecodeAscii(b)) == Seqs.Filter(b, keep)
  {
    DecodedIsAscii(b);
    if b != [] {
      DecodeKeepsAscii(b[1..], keep);
      if b[0] < 128 {
        DecodedIsAscii(b[1..]);
        assert DecodeAscii(b)[1..] == DecodeAscii(b[1..]);
      }
    }
  }

  /** Labels of 1 to 255 bytes, whatever these are. */
  predicate AreLabels(labels: seq<seq<byte>>) {
    forall i :: 0 <= i < |labels| ==> 1 <= |labels[i]| < 256
  }

  /** A name on the wire: each label behind its length, and a zero. */
  function Wire(labels: seq<seq<byte>>): seq<byte>
    requires AreLabels(labels)
  {
    if labels == [] then [0] else [|labels[0]|] + labels[0] + Wire(labels[1..])
  }

  function Decoded(labels: seq<seq<byte>>): seq<string> {
    if labels == [] then [] else [DecodeAscii(labels[0])] + Decoded(labels[1..])
  }

  lemma {:induction false} LabelInFront(n: byte, part: seq<byte>, rest: seq<byte>)
    ensures var data := [n] + part + rest;
            data[0] == n && data[1..] == part + rest && data[1..][..|part|] == part && data[1 + |part|..] == rest
  {
    assert [n] + part + rest == [n] + (part + rest);
    Seqs.CutAppend(part, rest);
  }

  lemma {:induction false} WireFront(labels: seq<seq<byte>>, after: seq<byte>)
    requires AreLabels(labels) && labels != []
    ensures var data := Wire(labels) + after;
            && data[0] == |labels[0]| && UpTo(data[1..], |labels[0]|) == labels[0]
            && From(data, 1 + |labels[0]|) == Wire(labels[1..]) + after
  {
    var n: byte := |labels[0]|;
    LabelInFront(n, labels[0], Wire(labels[1..]) + after);
    Seqs.AppendAssoc([n] + labels[0], Wire(labels[1..]), after);
  }

  lemma {:induction false} ScanWire(labels: seq<seq<byte>>, after: seq<byte>)
    requires AreLabels(labels)
    ensures Scan(Wire(labels) + after).0 == Decoded(labels) && Scan(Wire(labels) + after).1 == |Wire(labels)|
    decreases |labels|
  {
    if labels == [] {
      assert (Wire(labels) + after)[0] == 0;
    } else {
      var data, n := Wire(labels) + after, |labels[0]|;
      WireFront(labels, after);
      ScanWire(labels[1..], after);
      ScanLabel(data, n, data[1..], Wire(labels[1..]) + after);
    }
  }

  lemma {:induction false} CutLabel(data: seq<byte>, n: nat)
    requires 1 + n <= |data| && data[0] == n
    ensures data == [n as byte] + data[1..1 + n] + data[1 + n..]
  {
  }

  lemma {:induction false} ConsLabel(first: seq<byte>, labels: seq<seq<byte>>, after: seq<byte>)
    requires 1 <= |first| < 256 && AreLabels(labels)
    ensures AreLabels([first] + labels)
    ensures Wire([first] + labels) + after == [|first| as byte] + first + (Wire(labels) + after)
  {
    var all := [first] + labels;
    assert forall i :: 0 < i < |all| ==> all[i] == labels[i - 1];
    assert all[1..] == labels;
    Seqs.AppendAssoc([|first| as byte] + first, Wire(labels), after);
  }

  /** Where no name ends within the data, the scan claims all of it or more. */
  lemma {:induction false} ScanSplits(data: seq<byte>) returns (labels: seq<seq<byte>>, after: seq<byte>, ends: bool)
    ensures ends ==> AreLabels(labels) && data == Wire(labels) + after
    ensures !ends ==> Scan(data).1 >= |data|
    decreases |data|
  {
    labels, after, ends := [], [], false;
    if data != [] && data[0] == 0 {
      after, ends := data[1..], true;
      assert data == [0] + data[1..];
    } else if data != [] && 1 + data[0] as nat <= |data| {
      var n := data[0] as nat;
      var rest := data[1 + n..];
      assert From(data, 1 + n) == rest;
      labels, after, ends := ScanSplits(rest);
      if ends {
        CutLabel(data, n);
        ConsLabel(data[1..1 + n], labels, after);
        labels := [data[1..1 + n]] + labels;
      }
    }
  }

  /** A packet with a header of twelve bytes, a name, and at least a type and a class behind it. */
  ghost predicate IsQuery(data: seq<byte>, labels: seq<seq<byte>>, after: seq<byte>) {
    |data| >= 12 && AreLabels(labels) && data[12..] == Wire(labels) + after && |after| >= 4
  }

  /** Exactly such packets are read, and as their labels joined by dots, the type behind the name and the
      identifier in front. */
  lemma {:induction false} ParseExactly(data: seq<byte>)
    ensures Parse(data).Some? <==> exists labels, after :: IsQuery(data, labels, after)
    ensures forall labels, after :: IsQuery(data, labels, after) ==>
              Parse(data) == Some(Query(Join(Decoded(labels), "."), Unpack16(after[..2]), Unpack16(data[..2])))
  {
    forall labels, after | IsQuery(data, labels, after)
      ensures Parse(data) == Some(Query(Join(Decoded(labels), "."), Unpack16(after[..2]), Unpack16(data[..2])))
    {
      ReadsQuery(data, labels, after);
    }
    if Parse(data).Some? {
      var labels, after, ends := ScanSplits(data[12..]);
      if ends {
        ScanWire(labels, after);
        assert IsQuery(data, labels, after);
      }
    }
  }

  lemma {:induction false} ParseFrom(data: seq<byte>, n: nat, labels: seq<string>)
    requires 12 + n + 4 <= |data| && Scan(data[12..]).0 == labels && Scan(data[12..]).1 == n
    ensures Parse(data) == Some(Query(Join(labels, "."), Unpack16(data[12 + n..14 + n]), Unpack16(data[..2])))
  {
  }

  lemma {:induction false} ReadsQuery(data: seq<byte>, labels: seq<seq<byte>>, after: seq<byte>)
    requires IsQuery(data, labels, after)
    ensures Parse(data) == Some(Query(Join(Decoded(labels), "."), Unpack16(after[..2]), Unpack16(data[..2])))
  {
    var name := Wire(labels);
    var n := |name|;
    ScanWire(labels, after);
    ParseFrom(data, n, Decoded(labels));
    assert |data[12..]| == n + |after|;
    Seqs.SliceOfRest(data, 12, n, n + 2);
    Seqs.SliceBehind(name, after, 0, 2);
  }

  // ----- building -----

  /** What `struct.pack("B", ..)` and the ASCII encoder take. */
  predicate Encodable(part: string) {
    |part| < 256 && IsAscii(part)
  }

  predicate AllEncodable(labels: seq<string>) {
    forall i :: 0 <= i < |labels| ==> Encodable(labels[i])
  }

  function Name(labels: seq<string>): seq<byte>
    requires AllEncodable(labels)
  {
    if labels == [] then [0]
    else [|labels[0]|] + EncodeAscii(labels[0]) + Name(labels[1..])
  }

  function Header(id: nat): (b: seq<byte>)
    requires id < 0x1_0000
    ensures |b| == 12
  {
    Pack16(id) + Pack16(0x8180) + Pack16(1) + Pack16(1) + Pack16(0) + Pack16(0)
  }

  /** A pointer to the question's name, type A, class IN, 300 seconds, 127.0.0.1. */
  function Answer(): (b: seq<byte>)
    ensures |b| == 16
  {
    Pack16(0xC00C) + Pack16(1) + Pack16(1) + Pack16(0) + Pack16(300) + Pack16(4) + [127, 0, 0, 1]
  }

  /** QTYPE A, QCLASS IN and the answer. */
  function Trailer(): (b: seq<byte>)
    ensures |b| == 20
  {
    Pack16(1) + (Pack16(1) + Answer())
  }

  function Response(id: nat, qname: string): seq<byte>
    requires id < 0x1_0000 && AllEncodable(Split(qname, '.'))
  {
    Header(id) + (Name(Split(qname, '.')) + Trailer())
  }

  /** `_build_dns_response`. */
  method BuildDnsResponse(id: nat, qname: string) returns (response: Result<seq<byte>, string>)
    ensures id < 0x1_0000 && AllEncodable(Split(qname, '.')) ==> response == Success(Response(id, qname))
    ensures !(id < 0x1_0000 && AllEncodable(Split(qname, '.'))) ==> response.Failure?
  {
    if id >= 0x1_0000 {
      return Failure("struct.error");
    }
    var packet := Pack16(id);
    packet := packet + Pack16(0x8180);
    packet := packet + Pack16(1);
    packet := packet + Pack16(1);
    packet := packet + Pack16(0);
    packet := packet + Pack16(0);
    var question := BuildName(Split(qname, '.'));
    if question.Failure? {
      return Failure(question.error);
    }
    ghost var name := question.value;
    assert packet == Header(id);
    packet := packet + question.value;
    packet := packet + Pack16(1);
    packet := packet + Pack16(1);
    var answer := BuildAnswer();
    Seqs.AppendAssoc(Pack16(1), Pack16(1), answer);
    Seqs.AppendAssoc(Header(id) + name, Pack16(1), Pack16(1));
    Seqs.AppendAssoc(Header(id) + name, Pack16(1) + Pack16(1), answer);
    Seqs.AppendAssoc(Header(id), name, Trailer());
    response := Success(packet + answer);
  }

  /** The end of `_build_dns_response`. */
  method BuildAnswer() returns (answer: seq<byte>)
    ensures answer == Answer()
  {
    answer := Pack16(0xC00C);
    answer := answer + Pack16(1);
    answer := answer + Pack16(1);
    answer := answer + Pack16(0) + Pack16(300);
    answer := answer + Pack16(4);
    answer := answer + [127, 0, 0, 1];
  }

  lemma {:induction false} NameOn(labels: seq<string>, built: seq<byte>, i: nat)
    requires AllEncodable(labels) && i < |labels| && built + Name(labels[i..]) == Name(labels)
    ensures built + [|labels[i]|] + EncodeAscii(labels[i]) + Name(labels[i + 1..]) == Name(labels)
  {
    var head, code, rest := [|labels[i]| as byte], EncodeAscii(labels[i]), Name(labels[i + 1..]);
    assert labels[i..][1..] == labels[i + 1..];
    Seqs.AppendAssoc(built, head, code + rest);
    Seqs.AppendAssoc(built + head, code, rest);
    Seqs.AppendAssoc(head, code, rest);
  }

  /** The loop of `_build_dns_response` over the labels. */
  method BuildName(labels: seq<string>) returns (name: Result<seq<byte>, string>)
    ensures AllEncodable(labels) ==> name == Success(Name(labels))
    ensures !AllEncodable(labels) ==> name.Failure?
  {
    var built: seq<byte>, i := [], 0;
    while i < |labels|
      invariant i <= |labels|
      invariant AllEncodable(labels[..i])
      invariant AllEncodable(labels) ==> built + Name(labels[i..]) == Name(labels)
    {
      var part := labels[i];
      if AllEncodable(labels) {
        NameOn(labels, built, i);
      }
      if |part| >= 256 {
        return Failure("struct.error");
      }
      built := built + [|part|];
      if !IsAscii(part) {
        return Failure("UnicodeEncodeError");
      }
      built := built + EncodeAscii(part);
      assert labels[..i + 1] == labels[..i] + [part];
      i := i + 1;
    }
    assert labels[..i] == labels && labels[i..] == [];
    name := Success(built + [0]);
  }

  // ----- the two together -----

  lemma {:induction false} NameLength(labels: seq<string>)
    requires AllEncodable(labels)
    ensures |Name(labels)| == if labels == [] then 1 else |Join(labels, ".")| + 2
  {
    if labels != [] {
      NameLength(labels[1..]);
    }
  }

  /** One label read off the front of a name. */
  lemma {:induction false} ScanStep(part: string, rest: seq<byte>)
    requires Encodable(part) && part != ""
    ensures Scan([|part|] + EncodeAscii(part) + rest).0 == [part] + Scan(rest).0
    ensures Scan([|part|] + EncodeAscii(part) + rest).1 == 1 + |part| + Scan(rest).1
  {
    var n, text := |part|, EncodeAscii(part);
    var data := [n] + text + rest;
    assert data[0] == n && data != [];
    assert data[1..] == text + rest;
    assert UpTo(data[1..], n) == text && From(data, 1 + n) == rest;
    AsciiRoundTrip(part);
  }

  /** Labels that are not empty come back, and the scan stops right behind the name. */
  lemma {:induction false} ScanName(labels: seq<string>, after: seq<byte>)
    requires AllEncodable(labels) && "" !in labels
    ensures Scan(Name(labels) + after).0 == labels
    ensures Scan(Name(labels) + after).1 == |Name(labels)|
    decreases |labels|
  {
    if labels == [] {
      assert (Name(labels) + after)[0] == 0;
    } else {
      var part, tail := labels[0], labels[1..];
      assert part in labels && labels == [part] + tail;
      ScanName(tail, after);
      ScanStep(part, Name(tail) + after);
      NameFront(labels, after);
    }
  }

  lemma {:induction false} NameFront(labels: seq<string>, after: seq<byte>)
    requires AllEncodable(labels) && labels != []
    ensures Name(labels) + after == [|labels[0]|] + EncodeAscii(labels[0]) + (Name(labels[1..]) + after)
  {
  }

  /** The scan of a name with an empty label stops at the first one. */
  lemma {:induction false} ScanStopsAtEmpty(labels: seq<string>, after: seq<byte>)
    requires AllEncodable(labels) && "" in labels
    ensures Scan(Name(labels) + after).0 < labels
    decreases |labels|
  {
    var part, tail := labels[0], labels[1..];
    assert labels == [part] + tail;
    NameFront(labels, after);
    if part != "" {
      ScanStopsAtEmpty(tail, after);
      ScanStep(part, Name(tail) + after);
    } else {
      assert (Name(labels) + after)[0] == 0;
    }
  }

  /** A well-formed query, whatever its flags, counts and trailing bytes, reads as its labels joined by
      dots, its type and its identifier. */
  lemma {:induction false} ParseWellFormed(header: seq<byte>, labels: seq<string>, qtype: nat, tail: seq<byte>)
    requires |header| == 12 && qtype < 0x1_0000 && |tail| >= 2
    requires AllEncodable(labels) && "" !in labels
    ensures Parse(header + (Name(labels) + (Pack16(qtype) + tail))) == Some(Query(Join(labels, "."), qtype, Unpack16(header[..2])))
  {
    var name, after := Name(labels), Pack16(qtype) + tail;
    var n := |name|;
    ScanName(labels, after);
    Seqs.CutAppend(header, name + after);
    Seqs.SliceBefore(header, name + after, 0, 2);
    Seqs.SliceBehind(header, name + after, n, n + 2);
    Seqs.SliceBehind(name, after, 0, 2);
    Seqs.CutAppend(Pack16(qtype), tail);
    PackRoundTrip(qtype);
  }

  lemma {:induction false} HeaderId(id: nat)
    requires id < 0x1_0000
    ensures Header(id)[..2] == Pack16(id) && Unpack16(Header(id)[..2]) == id
    ensures Header(id)[2..] == [0x81, 0x80, 0, 1, 0, 1, 0, 0, 0, 0]
  {
    PackRoundTrip(id);
  }

  /** The packet is the name and 34 bytes: the identifier, flags and counts, the encoded name from offset
      12, and a fixed answer whose pointer 0xC00C means that same offset. */
  lemma {:induction false} ResponseLayout(id: nat, qname: string)
    requires id < 0x1_0000 && AllEncodable(Split(qname, '.'))
    ensures var r := Response(id, qname);
            && |r| == |qname| + 34
            && Unpack16(r[..2]) == id
            && r[2..12] == [0x81, 0x80, 0, 1, 0, 1, 0, 0, 0, 0]
            && r[12..|qname| + 14] == Name(Split(qname, '.'))
            && r[|qname| + 14..] == [0, 1, 0, 1, 0xC0, 12, 0, 1, 0, 1, 0, 0, 1, 44, 0, 4, 127, 0, 0, 1]
  {
    var name := Name(Split(qname, '.'));
    var front := Header(id) + name;
    NameLength(Split(qname, '.'));
    JoinSplit(qname, '.');
    HeaderId(id);
    TrailerBytes();
    Seqs.AppendAssoc(Header(id), name, Trailer());
    Seqs.SliceBefore(Header(id), name + Trailer(), 0, 2);
    Seqs.SliceBefore(Header(id), name + Trailer(), 2, 12);
    Seqs.CutAppend(Header(id), name);
    Seqs.SliceBefore(front, Trailer(), 12, |front|);
    Seqs.CutAppend(front, Trailer());
  }

  lemma {:induction false} TrailerBytes()
    ensures Trailer() == [0, 1, 0, 1, 0xC0, 12, 0, 1, 0, 1, 0, 0, 1, 44, 0, 4, 127, 0, 0, 1]
  {
  }

  lemma {:induction false} FewerLabelsShorterName(some: seq<string>, labels: seq<string>)
    requires some < labels && |labels| > 1
    ensures |Join(some, ".")| < |Join(labels, ".")|
    decreases |some|
  {
    if |some| > 1 {
      FewerLabelsShorterName(some[1..], labels[1..]);
    } else if |some| == 1 {
      assert some[0] == labels[0];
    }
  }

  /** The server's own response parses back to the query it answers exactly when the name has no empty
      label, so neither the root name nor a trailing dot survives. */
  lemma {:induction false} ParseBuildExactly(id: nat, qname: string)
    requires id < 0x1_0000 && AllEncodable(Split(qname, '.'))
    ensures Parse(Response(id, qname)) == Some(Query(qname, 1, id)) <==> "" !in Split(qname, '.')
  {
    var labels := Split(qname, '.');
    JoinSplit(qname, '.');
    if "" !in labels {
      ParseWellFormed(Header(id), labels, 1, Pack16(1) + Answer());
      HeaderId(id);
    } else {
      EmptyLabelShows(id, qname);
    }
  }

  lemma {:induction false} EmptyLabelShows(id: nat, qname: string)
    requires id < 0x1_0000 && AllEncodable(Split(qname, '.')) && "" in Split(qname, '.')
    ensures Parse(Response(id, qname)) != Some(Query(qname, 1, id))
  {
    var labels := Split(qname, '.');
    JoinSplit(qname, '.');
    ScanStopsAtEmpty(labels, Trailer());
    var body := Name(labels) + Trailer();
    Seqs.CutAppend(Header(id), body);
    if |labels| > 1 {
      FewerLabelsShorterName(Scan(body).0, labels);
    } else {
      RootNameShows(labels);
      Seqs.SliceBehind(Header(id), body, 1, 3);
    }
  }

  lemma {:induction false} RootNameShows(labels: seq<string>)
    requires |labels| == 1 && labels[0] == ""
    ensures AllEncodable(labels)
    ensures Scan(Name(labels) + Trailer()).1 == 1
    ensures |Name(labels)| == 2 && Unpack16((Name(labels) + Trailer())[1..3]) == 0
  {
    assert labels == [""] && Name(labels[1..]) == [0];
    assert Name(labels) == [0, 0];
    assert (Name(labels) + Trailer())[1..3] == [0, 0];
  }

  // ----- the callback path -----

  /** `_extract_token`. */
  function ExtractToken(domain: string, qname: string): string {
    var suffix := "." + domain;
    var q := if |suffix| <= |qname| && qname[|qname| - |suffix|..] == suffix then qname[..|qname| - |suffix|] else qname;
    Split(q, '.')[0]
  }

  /** The token is the first label of the name under any domain at all: the suffix test never changes
      the answer. */
  lemma {:induction false} TokenIsFirstLabel(domain: string, qname: string)
    ensures ExtractToken(domain, qname) == Split(qname, '.')[0]
  {
    var n := |qname| - |domain| - 1;
    if n >= 0 && qname[n..] == "." + domain {
      SplitAppend(qname[..n], domain, '.');
      assert qname == qname[..n] + "." + domain;
    }
  }

  /** Under the server's domain it is what stood in front, exactly when that has no dot. */
  lemma {:induction false} TokenRoundTripExactly(domain: string, token: string)
    ensures ExtractToken(domain, token + "." + domain) == token <==> '.' !in token
  {
    TokenIsFirstLabel(domain, token + "." + domain);
    SplitAppend(token, domain, '.');
    JoinSplit(token, '.');
    if '.' !in token {
      SplitJoin([token], '.');
    }
  }

  /** A query for a token under any domain confirms that token. */
  lemma {:induction false} QueryYieldsToken(header: seq<byte>, token: string, domain: seq<string>, qtype: nat, tail: seq<byte>)
    requires |header| == 12 && qtype < 0x1_0000 && |tail| >= 2
    requires AllEncodable([token] + domain) && "" !in [token] + domain && '.' !in token
    ensures var query := Parse(header + (Name([token] + domain) + (Pack16(qtype) + tail)));
            query.Some? && forall d :: ExtractToken(d, query.value.qname) == token
  {
    ParseWellFormed(header, [token] + domain, qtype, tail);
    var qname := Join([token] + domain, ".");
    SplitJoin([token], '.');
    if domain == [] {
      assert [token] + domain == [token];
    } else {
      assert ([token] + domain)[1..] == domain;
      SplitAppend(token, Join(domain, "."), '.');
    }
    forall d ensures ExtractToken(d, qname) == token {
      TokenIsFirstLabel(d, qname);
    }
  }

  lemma {:induction false} PartsAreEncodable(s: string)
    requires Encodable(s)
    ensures AllEncodable(Split(s, '.'))
  {
    if s != "" {
      PartsAreEncodable(s[1..]);
      PartsAreShort(s, '.');
    }
  }

  lemma {:induction false} PartsAreShort(s: string, c: char)
    ensures forall p :: p in Split(s, c) ==> |p| <= |s|
  {
    if s != "" {
      PartsAreShort(s[1..], c);
      assert Split(s[1..], c)[0] in Split(s[1..], c);
    }
  }

  lemma {:induction false} JoinedLabelsEncodable(labels: seq<string>)
    requires AllEncodable(labels)
    ensures AllEncodable(Split(Join(labels, "."), '.'))
    decreases |labels|
  {
    if labels != [] {
      PartsAreEncodable(labels[0]);
      if |labels| > 1 {
        JoinedLabelsEncodable(labels[1..]);
        SplitAppend(labels[0], Join(labels[1..], "."), '.');
      }
    }
  }

  lemma {:induction false} LabelsEncodable(data: seq<byte>)
    ensures AllEncodable(Scan(data).0)
    decreases |data|
  {
    if data != [] && data[0] != 0 {
      var length: nat := data[0];
      LabelsEncodable(From(data, 1 + length));
      DecodedIsAscii(UpTo(data[1..], length));
    }
  }

  /** Whatever bytes were parsed, the response to them can be built: the answer never fails on a name
      that came off the wire, odd bytes, inner dots and oversized labels included. */
  lemma {:induction false} EveryParsedQueryIsAnswered(data: seq<byte>)
    requires Parse(data).Some?
    ensures var q := Parse(data).value; q.id < 0x1_0000 && AllEncodable(Split(q.qname, '.'))
  {
    LabelsEncodable(data[12..]);
    JoinedLabelsEncodable(Scan(data[12..]).0);
  }
}
