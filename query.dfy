/** The query builder: one DNS query (section 4.1 of RFC 1035) as hexadecimal
    text, a 12-byte header followed by a single question. */
module Query {
  import opened Hex

  /** The record type the user asks for: -mx, -ns, or neither. */
  datatype RequestType = A | NS | MX

  /** str.split('.'): always at least one part; empty parts are kept. */
  function Split(s: string): (r: seq<string>)
    ensures |r| >= 1
    ensures forall k :: 0 <= k < |r| ==> '.' !in r[k]
  {
    if s == [] then [[]]
    else
      var rest := Split(s[1..]);
      if s[0] == '.' then [[]] + rest
      else [[s[0]] + rest[0]] + rest[1..]
  }

  /** '.'.join(parts) */
  function Join(parts: seq<string>): string
  {
    if parts == [] then []
    else if |parts| == 1 then parts[0]
    else parts[0] + "." + Join(parts[1..])
  }

  /** A name without dots is a single part. */
  lemma {:induction false} SplitWithoutDots(s: string)
    requires '.' !in s
    ensures Split(s) == [s]
  {
    if s != [] {
      assert s[1..] == s[|s| - |s[1..]|..];
      SplitWithoutDots(s[1..]);
      assert s == [s[0]] + s[1..];
    }
  }

  /** Splitting on dots and joining again gives back the name. */
  lemma {:induction false} JoinSplit(s: string)
    ensures Join(Split(s)) == s
  {
    if s != [] {
      var rest := Split(s[1..]);
      JoinSplit(s[1..]);
      if s[0] == '.' {
        assert Split(s) == [[]] + rest;
        assert Join(Split(s)) == [] + "." + Join(rest);
        assert s == "." + s[1..];
      } else {
        if |rest| == 1 {
          assert Join(Split(s)) == [s[0]] + rest[0];
        } else {
          assert Split(s)[1..] == rest[1..];
          assert Join(Split(s)) == ([s[0]] + rest[0]) + "." + Join(rest[1..]);
          assert Join(rest) == rest[0] + "." + Join(rest[1..]);
        }
        assert s == [s[0]] + s[1..];
      }
    }
  }

  /** The two hex digits of every character of a segment. */
  function CharsText(segment: string): Digits
  {
    if segment == [] then [] else Field(segment[0] as int, 2) + CharsText(segment[1..])
  }

  /** One segment: its length, then its characters. */
  function LabelText(segment: string): Digits
  {
    Field(|segment|, 2) + CharsText(segment)
  }

  function LabelsText(segments: seq<string>): Digits
  {
    if segments == [] then [] else LabelText(segments[0]) + LabelsText(segments[1..])
  }

  /** The QNAME of a name: every dot-separated part as a segment, then the root segment 00. */
  function QName(name: string): Digits
  {
    LabelsText(Split(name)) + [0, 0]
  }

  /** QTYPE: A is 1, NS is 2, anything else is written as MX, 15. */
  function QType(t: RequestType): (r: Digits)
    ensures |r| == 4 && r[..3] == [0, 0, 0]
    ensures Value(r) == match t case A => 1 case NS => 2 case MX => 15
  {
    var r := match t
      case A => [0, 0, 0, 1]
      case NS => [0, 0, 0, 2]
      case MX => [0, 0, 0, 15];
    assert r == [0, 0, 0] + [r[3]];
    ValueAppend([0, 0, 0], r[3]);
    assert Value([0, 0, 0]) == 0 by {
      assert [0, 0, 0] == Zeros(3);
      ValueOfZeros(3);
    }
    r
  }

  /** QCLASS IN. */
  const QClass: Digits := [0, 0, 0, 1]

  /** The second header row: QR=0, OPCODE=0, AA=0, TC=0, RD=1, RA=0, Z=0, RCODE=0. */
  const Flags: Digits := [0, 1, 0, 0]

  /** QDCOUNT=1, ANCOUNT=NSCOUNT=ARCOUNT=0. */
  const Counts: Digits := [0, 0, 0, 1] + Zeros(12)

  function Header(id: nat): Digits
  {
    Field(id, 4) + Flags + Counts
  }

  /** The whole query that make_query returns. */
  function QueryText(id: nat, name: string, t: RequestType): Digits
  {
    Header(id) + QName(name) + QType(t) + QClass
  }

  /** Every part of the name has a length and characters that fit two hex digits. */
  predicate ShortLabels(name: string)
  {
    forall k :: 0 <= k < |Split(name)| ==> ShortLabel(Split(name)[k])
  }

  predicate ShortLabel(segment: string)
  {
    |segment| < 256 && forall i :: 0 <= i < |segment| ==> segment[i] as int < 256
  }

  lemma {:induction false} CharsTextLength(segment: string)
    requires forall i :: 0 <= i < |segment| ==> segment[i] as int < 256
    ensures |CharsText(segment)| == 2 * |segment|
  {
    if segment != [] {
      FieldRoundTrip(segment[0] as int, 2);
      CharsTextLength(segment[1..]);
    }
  }

  lemma {:induction false} LabelsTextLength(segments: seq<string>)
    requires |segments| >= 1
    requires forall k :: 0 <= k < |segments| ==> ShortLabel(segments[k])
    ensures |LabelsText(segments)| == 2 * |Join(segments)| + 2
  {
    FieldRoundTrip(|segments[0]|, 2);
    CharsTextLength(segments[0]);
    if |segments| > 1 {
      LabelsTextLength(segments[1..]);
    }
  }

  /** With segments and characters below 256, the QNAME takes two digits per
      character of the name, two for the first segment length and two for the root. */
  lemma {:induction false} QNameLength(name: string)
    requires ShortLabels(name)
    ensures |QName(name)| == 2 * |name| + 4
  {
    LabelsTextLength(Split(name));
    JoinSplit(name);
  }

  /** The header: a 4-digit ID, flags 0100 (only RD set), QDCOUNT 0001 and
      three zero counts, 24 digits in all. */
  lemma {:induction false} HeaderLayout(id: nat)
    requires id < 0x10000
    ensures var h := Header(id);
      && |h| == 24
      && Value(h[..4]) == id
      && h[4..8] == Flags && Value(Flags) == 0x0100
      && h[8..12] == [0, 0, 0, 1]
      && h[12..] == Zeros(12)
  {
    assert Pow16(4) == 0x10000;
    FieldRoundTrip(id, 4);
    var h := Header(id);
    assert h == Field(id, 4) + Flags + ([0, 0, 0, 1] + Zeros(12));
    assert h[..4] == Field(id, 4);
    assert Value(Flags) == 0x0100 by {
      ValueAppend([0, 1, 0], 0);
      ValueAppend([0, 1], 0);
      ValueAppend([0], 1);
      ValueAppend([], 0);
      assert [0, 1, 0, 0] == [0, 1, 0] + [0];
      assert [0, 1, 0] == [0, 1] + [0];
      assert [0, 1] == [0] + [1];
      assert [0] == [] + [0];
    }
  }

  /** The query is the header, then QNAME from digit 24 on, then QTYPE and QCLASS 0001. */
  lemma {:induction false} QueryLayout(id: nat, name: string, t: RequestType)
    requires id < 0x10000
    ensures var q := QueryText(id, name, t);
      && |q| == 24 + |QName(name)| + 8
      && q[..24] == Header(id)
      && q[24..24 + |QName(name)|] == QName(name)
      && q[24 + |QName(name)|..] == QType(t) + QClass
  {
    HeaderLayout(id);
    var q := QueryText(id, name, t);
    assert q == Header(id) + QName(name) + (QType(t) + QClass);
  }

  /** With short segments the whole query is 36 digits plus two per character. */
  lemma {:induction false} QueryLength(id: nat, name: string, t: RequestType)
    requires id < 0x10000 && ShortLabels(name)
    ensures |QueryText(id, name, t)| == 2 * |name| + 36
  {
    QueryLayout(id, name, t);
    QNameLength(name);
  }

  /** "abc" is written as 03 61 62 63 followed by the root segment 00. */
  lemma {:induction false} QNameOfAbc()
    ensures QName("abc") == [0, 3, 6, 1, 6, 2, 6, 3, 0, 0]
  {
    SplitWithoutDots("abc");
    LabelOfAbc();
    assert LabelsText(["abc"]) == LabelText("abc") + LabelsText([]) by {
      assert ["abc"][1..] == [];
    }
  }

  lemma {:induction false} LabelOfAbc()
    ensures LabelText("abc") == [0, 3, 6, 1, 6, 2, 6, 3]
  {
    assert Field(3, 2) == [0, 3] by {
      assert HexDigits(3) == [3] by {
        assert HexDigits(0) == [];
      }
      assert Zeros(1) == [0];
    }
    CharsOfAbc();
  }

  lemma {:induction false} CharsOfAbc()
    ensures CharsText("abc") == [6, 1, 6, 2, 6, 3]
  {
    assert HexDigits(0x61) == [6, 1] && HexDigits(0x62) == [6, 2] && HexDigits(0x63) == [6, 3] by {
      assert HexDigits(6) == [6] by {
        assert HexDigits(0) == [];
      }
    }
    assert CharsText("c") == [6, 3] by {
      assert "c"[0] as int == 0x63 && "c"[1..] == [];
    }
    assert CharsText("bc") == [6, 2, 6, 3] by {
      assert "bc"[0] as int == 0x62 && "bc"[1..] == "c";
    }
    assert "abc"[0] as int == 0x61 && "abc"[1..] == "bc";
  }

  lemma {:induction false} LabelsTextAppend(segments: seq<string>, segment: string)
    ensures LabelsText(segments + [segment]) == LabelsText(segments) + LabelText(segment)
  {
    if segments != [] {
      assert (segments + [segment])[1..] == segments[1..] + [segment];
      LabelsTextAppend(segments[1..], segment);
    }
  }

  lemma {:induction false} CharsTextAppend(segment: string, c: char)
    ensures CharsText(segment + [c]) == CharsText(segment) + Field(c as int, 2)
  {
    if segment != [] {
      assert (segment + [c])[1..] == segment[1..] + [c];
      CharsTextAppend(segment[1..], c);
    }
  }

  /** One character more of the segment being written. */
  lemma {:induction false} CharStep(before: Digits, part: string, j: nat)
    requires j < |part|
    ensures before + Field(|part|, 2) + CharsText(part[..j]) + Field(part[j] as int, 2)
         == before + Field(|part|, 2) + CharsText(part[..j + 1])
  {
    CharsTextAppend(part[..j], part[j]);
    assert part[..j + 1] == part[..j] + [part[j]];
  }

  /** One segment more of the name being written. */
  lemma {:induction false} SegmentStep(parts: seq<string>, k: nat)
    requires k < |parts|
    ensures LabelsText(parts[..k]) + Field(|parts[k]|, 2) + CharsText(parts[k][..|parts[k]|])
         == LabelsText(parts[..k + 1])
  {
    assert parts[k][..|parts[k]|] == parts[k];
    LabelsTextAppend(parts[..k], parts[k]);
    assert parts[..k + 1] == parts[..k] + [parts[k]];
  }

  /** The QNAME loop of make_query: a length field per part of the name, two
      digits per character, and the root segment at the end. */
  method EncodeQName(name: string) returns (qname: Digits)
    ensures qname == QName(name)
  {
    var parts := Split(name);
    qname := [];
    for k := 0 to |parts|
      invariant qname == LabelsText(parts[..k])
    {
      var part := parts[k];
      ghost var before := qname;
      qname := qname + Field(|part|, 2);
      for j := 0 to |part|
        invariant qname == before + Field(|part|, 2) + CharsText(part[..j])
      {
        CharStep(before, part, j);
        qname := qname + Field(part[j] as int, 2);
      }
      SegmentStep(parts, k);
    }
    assert parts[..|parts|] == parts;
    qname := qname + [0, 0];
  }
}
