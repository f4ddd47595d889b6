/** What the name decoders do on the texts the query builder writes, how they
    read the fields of a compression pointer, and the ways they depart from
    section 4.1.4 of RFC 1035. */
module NameProperties {
  import opened Errors
  import opened Hex
  import opened Query
  import opened Names

  /** A segment the query builder writes in one length byte that does not look
      like a pointer (at most 63 characters, as RFC 1035 allows), each character
      in one byte. */
  predicate Segment(s: string)
  {
    |s| < 64 && OneByteChars(s)
  }

  predicate OneByteChars(s: string)
  {
    forall i :: 0 <= i < |s| ==> s[i] as int < 256
  }

  /** A name whose every dot-separated part is a non-empty segment. */
  predicate WellFormedName(name: string)
  {
    forall k :: 0 <= k < |Split(name)| ==> Split(name)[k] != [] && Segment(Split(name)[k])
  }

  /** What the fetch_compressed loop accumulates over the segments: each one followed by a dot. */
  function Dotted(segments: seq<string>): string
  {
    if segments == [] then [] else segments[0] + "." + Dotted(segments[1..])
  }

  /** The number of digits a name takes when written segment by segment, root segment included. */
  function Span(segments: seq<string>): nat
  {
    if segments == [] then 2 else 2 + 2 * |segments[0]| + Span(segments[1..])
  }

  // ---------------------------------------------------------------------------
  // Reading digits

  /** Byte reads what int(text[p:p+2], 16) reads. */
  lemma {:induction false} ByteIsValue(d: Digits, p: nat)
    requires p < |d|
    ensures Byte(d, p) == Value(Slice(d, p, p + 2))
  {
    ValueAppend([], d[p]);
    assert [] + [d[p]] == [d[p]];
    if p + 1 < |d| {
      assert Slice(d, p, p + 2) == [d[p]] + [d[p + 1]];
      ValueAppend([d[p]], d[p + 1]);
    } else {
      assert Slice(d, p, p + 2) == [d[p]];
    }
  }

  /** Word reads what int(text[p:p+4], 16) reads. */
  lemma {:induction false} WordIsValue(d: Digits, p: nat)
    requires p < |d|
    ensures Word(d, p) == Value(Slice(d, p, p + 4))
  {
    ByteIsValue(d, p);
    var two := Slice(d, p, p + 2);
    if p + 3 < |d| {
      assert Slice(d, p, p + 4) == two + [d[p + 2]] + [d[p + 3]];
      ValueAppend(two, d[p + 2]);
      ValueAppend(two + [d[p + 2]], d[p + 3]);
    } else if p + 2 < |d| {
      assert Slice(d, p, p + 4) == two + [d[p + 2]];
      ValueAppend(two, d[p + 2]);
    } else {
      assert Slice(d, p, p + 4) == two;
    }
  }

  /** The pointer test on the high digit is the test "top two bits of the byte set". */
  lemma {:induction false} PointerIffTopBitsSet(d: Digits, p: nat)
    requires p + 1 < |d|
    ensures IsPointer(d[p]) <==> Byte(d, p) >= 0xC0
  {
  }

  // ---------------------------------------------------------------------------
  // Where the query builder's text sits in a buffer

  /** From digit q on, d holds the characters of `segment`, two digits each. */
  predicate CharsAt(d: Digits, q: nat, segment: string)
  {
    && q + 2 * |segment| <= |d|
    && forall i :: 0 <= i < |segment| ==>
         d[q + 2 * i] == segment[i] as int / 16 && d[q + 2 * i + 1] == segment[i] as int % 16
  }

  /** From digit p on, d holds the name made of `segments`: for each one a length
      byte and its characters, then the root segment 00. */
  predicate NameAt(d: Digits, p: nat, segments: seq<string>)
    decreases |segments|
  {
    if segments == [] then p + 1 < |d| && d[p] == 0 && d[p + 1] == 0
    else
      var s := segments[0];
      && p + 1 < |d| && d[p] == |s| / 16 && d[p + 1] == |s| % 16
      && CharsAt(d, p + 2, s)
      && NameAt(d, p + 2 + 2 * |s|, segments[1..])
  }

  /** The two digits the query builder writes for a value below 256. */
  lemma {:induction false} FieldDigits(n: nat)
    requires n < 256
    ensures Field(n, 2) == [n / 16, n % 16]
  {
    if n == 0 {
    } else if n < 16 {
      assert HexDigits(n / 16) == [];
    } else {
      assert HexDigits(n / 16 / 16) == [];
      assert HexDigits(n / 16) == [n / 16];
    }
  }

  lemma {:induction false} CharsTextIndex(segment: string, i: nat)
    requires OneByteChars(segment) && i < |segment|
    ensures 2 * i + 1 < |CharsText(segment)|
    ensures CharsText(segment)[2 * i] == segment[i] as int / 16
    ensures CharsText(segment)[2 * i + 1] == segment[i] as int % 16
  {
    CharsTextLength(segment);
    FieldDigits(segment[0] as int);
    if i > 0 {
      CharsTextIndex(segment[1..], i - 1);
    }
  }

  lemma {:induction false} CharsTextAt(d: Digits, pre: Digits, segment: string, post: Digits)
    requires OneByteChars(segment) && d == pre + CharsText(segment) + post
    ensures CharsAt(d, |pre|, segment)
  {
    CharsTextLength(segment);
    forall i | 0 <= i < |segment|
      ensures d[|pre| + 2 * i] == segment[i] as int / 16 && d[|pre| + 2 * i + 1] == segment[i] as int % 16
    {
      CharsTextIndex(segment, i);
    }
  }

  /** The text the query builder writes for a name is that name, wherever it sits. */
  lemma {:induction false} NameTextAt(d: Digits, pre: Digits, segments: seq<string>, post: Digits)
    requires forall k :: 0 <= k < |segments| ==> Segment(segments[k])
    requires d == pre + LabelsText(segments) + [0, 0] + post
    ensures NameAt(d, |pre|, segments)
    decreases |segments|
  {
    if segments == [] {
      assert d == pre + [0, 0] + post;
    } else {
      var s := segments[0];
      var rest := segments[1..];
      var next := pre + LabelText(s);
      FirstSegmentTextAt(d, pre, segments, post, next);
      NameTextAt(d, next, rest, post);
      NameAtStep(d, |pre|, segments, |next|);
    }
  }

  /** The first segment of a name written by the query builder, and the text after it. */
  lemma {:induction false} FirstSegmentTextAt(d: Digits, pre: Digits, segments: seq<string>, post: Digits, next: Digits)
    requires segments != [] && Segment(segments[0])
    requires d == pre + LabelsText(segments) + [0, 0] + post && next == pre + LabelText(segments[0])
    ensures d == next + LabelsText(segments[1..]) + [0, 0] + post
    ensures |next| == |pre| + 2 + 2 * |segments[0]| && |pre| + 1 < |d|
    ensures d[|pre|] == |segments[0]| / 16 && d[|pre| + 1] == |segments[0]| % 16
    ensures CharsAt(d, |pre| + 2, segments[0])
  {
    var s, rest := segments[0], segments[1..];
    assert LabelsText(segments) == LabelText(s) + LabelsText(rest);
    Regroup(pre, LabelText(s), LabelsText(rest), [0, 0], post);
    SegmentTextAt(d, pre, s, LabelsText(rest) + [0, 0] + post, next);
  }

  lemma {:induction false} Regroup<T>(a: seq<T>, b: seq<T>, c: seq<T>, e: seq<T>, f: seq<T>)
    ensures a + (b + c) + e + f == a + b + c + e + f == a + b + (c + e + f)
  {
  }

  /** One segment as the query builder writes it, wherever it sits. */
  lemma {:induction false} SegmentTextAt(d: Digits, pre: Digits, s: string, post: Digits, next: Digits)
    requires Segment(s) && d == pre + LabelText(s) + post && next == pre + LabelText(s)
    ensures |next| == |pre| + 2 + 2 * |s| && |pre| + 1 < |d|
    ensures d[|pre|] == |s| / 16 && d[|pre| + 1] == |s| % 16
    ensures CharsAt(d, |pre| + 2, s)
  {
    FieldDigits(|s|);
    CharsTextLength(s);
    var head := pre + [|s| / 16, |s| % 16];
    assert d == head + CharsText(s) + post;
    CharsTextAt(d, head, s, post);
  }

  lemma {:induction false} NameAtStep(d: Digits, p: nat, segments: seq<string>, q: nat)
    requires segments != [] && p + 1 < |d|
    requires d[p] == |segments[0]| / 16 && d[p + 1] == |segments[0]| % 16
    requires CharsAt(d, p + 2, segments[0])
    requires q == p + 2 + 2 * |segments[0]| && NameAt(d, q, segments[1..])
    ensures NameAt(d, p, segments)
  {
  }

  lemma {:induction false} SpanOfText(segments: seq<string>)
    requires forall k :: 0 <= k < |segments| ==> Segment(segments[k])
    ensures Span(segments) == |LabelsText(segments)| + 2
  {
    if segments != [] {
      FieldDigits(|segments[0]|);
      CharsTextLength(segments[0]);
      SpanOfText(segments[1..]);
    }
  }

  // ---------------------------------------------------------------------------
  // Decoding what sits there

  /** One character of the character loop, followed by the rest of the segment. */
  lemma {:induction false} ReadCharsStep(d: Digits, q: nat, c: char, q2: nat, rest: string)
    requires q < |d| && Byte(d, q) == c as int && q2 == q + 2
    requires ReadChars(d, q2, |rest|) == Ok(rest)
    ensures ReadChars(d, q, |rest| + 1) == Ok([c] + rest)
  {
  }

  /** The character loop reads back the characters that sit at q. */
  lemma {:induction false} ReadCharsAt(d: Digits, q: nat, segment: string)
    requires CharsAt(d, q, segment)
    ensures ReadChars(d, q, |segment|) == Ok(segment)
    decreases |segment|
  {
    if segment != [] {
      var c := segment[0];
      var rest := segment[1..];
      assert CharsAt(d, q + 2, rest) by {
        forall i | 0 <= i < |rest|
          ensures d[q + 2 + 2 * i] == rest[i] as int / 16 && d[q + 2 + 2 * i + 1] == rest[i] as int % 16
        {
          assert rest[i] == segment[i + 1];
          assert q + 2 + 2 * i == q + 2 * (i + 1);
        }
      }
      ReadCharsAt(d, q + 2, rest);
      assert d[q] == c as int / 16 && d[q + 1] == c as int % 16;
      ReadCharsStep(d, q, c, q + 2, rest);
      assert [c] + rest == segment;
    }
  }

  /** The root segment 00 ends fetch_compressed's loop. */
  lemma {:induction false} LabelsRoot(d: Digits, p: nat, fuel: nat)
    requires p + 1 < |d| && d[p] == 0 && d[p + 1] == 0
    ensures Labels(d, p, fuel) == Ok([])
  {
  }

  /** One segment of fetch_compressed's loop, followed by the rest of the name. */
  lemma {:induction false} LabelsSegmentStep(d: Digits, p: nat, s: string, q: nat, tail: string, fuel: nat)
    requires p + 1 < |d| && !IsPointer(d[p])
    requires Byte(d, p) == |s| > 0 && ReadChars(d, p + 2, |s|) == Ok(s)
    requires q == p + 2 + 2 * |s| && Labels(d, q, fuel) == Ok(tail)
    ensures Labels(d, p, fuel) == Ok(s + "." + tail)
  {
  }

  /** fetch_compressed's loop reads a name without pointers as its segments, each followed by a dot. */
  lemma {:induction false} LabelsAt(d: Digits, p: nat, segments: seq<string>, fuel: nat)
    requires forall k :: 0 <= k < |segments| ==> segments[k] != [] && |segments[k]| < 64
    requires NameAt(d, p, segments)
    ensures Labels(d, p, fuel) == Ok(Dotted(segments))
    decreases |segments|
  {
    if segments == [] {
      LabelsRoot(d, p, fuel);
    } else {
      var s := segments[0];
      var q := p + 2 + 2 * |s|;
      ReadCharsAt(d, p + 2, s);
      LabelsAt(d, q, segments[1..], fuel);
      LabelsSegmentStep(d, p, s, q, Dotted(segments[1..]), fuel);
    }
  }

  lemma {:induction false} DottedIsJoinWithDot(segments: seq<string>)
    requires |segments| >= 1
    ensures Dotted(segments) == Join(segments) + "."
  {
    if |segments| > 1 {
      DottedIsJoinWithDot(segments[1..]);
    } else {
      assert segments[1..] == [];
    }
  }

  /** A well-formed name written by the query builder, wherever it sits in a
      text, is read back by fetch_compressed as the same name. */
  lemma {:induction false} QNameRoundTrip(d: Digits, pre: Digits, name: string, post: Digits, fuel: nat)
    requires WellFormedName(name) && d == pre + QName(name) + post
    ensures Fetch(d, |pre|, fuel) == Ok(name)
  {
    var segments := Split(name);
    assert d == pre + LabelsText(segments) + [0, 0] + post;
    NameTextAt(d, pre, segments, post);
    LabelsAt(d, |pre|, segments, fuel);
    DottedIsJoinWithDot(segments);
    JoinSplit(name);
    assert (name + ".")[..|name|] == name;
  }

  /** The question of a query, read from digit 24 (byte 12), is the queried name. */
  lemma {:induction false} QuestionNameRoundTrip(d: Digits, id: nat, name: string, t: RequestType, post: Digits, fuel: nat)
    requires id < 0x10000 && WellFormedName(name) && d == QueryText(id, name, t) + post
    ensures Fetch(d, 24, fuel) == Ok(name)
  {
    QueryTextParts(d, id, name, t, post);
    QNameRoundTrip(d, Header(id), name, QType(t) + QClass + post, fuel);
  }

  /** A query followed by more text: the 24-digit header, the name, the rest. */
  lemma {:induction false} QueryTextParts(d: Digits, id: nat, name: string, t: RequestType, post: Digits)
    requires id < 0x10000 && d == QueryText(id, name, t) + post
    ensures |Header(id)| == 24 && d == Header(id) + QName(name) + (QType(t) + QClass + post)
  {
    HeaderLayout(id);
  }

  // ---------------------------------------------------------------------------
  // Budget of nested calls

  /** A result other than running out of budget does not change with a larger budget. */
  lemma {:induction false} LabelsFuelMonotone(d: Digits, p: nat, fuel: nat, more: nat)
    requires fuel <= more
    requires Labels(d, p, fuel) != Err(RecursionError)
    ensures Labels(d, p, more) == Labels(d, p, fuel)
    decreases fuel, |d| - p, 2
  {
    if p < |d| {
      if IsPointer(d[p]) {
        TargetFuelMonotone(d, p, fuel, more);
        RestFuelMonotone(d, p, fuel, more);
        PointerFuel(d, p, fuel, more);
      } else {
        LabelFuelMonotone(d, p, fuel, more);
      }
    }
  }

  /** LabelsFuelMonotone for the call a pointer makes. */
  lemma {:induction false} TargetFuelMonotone(d: Digits, p: nat, fuel: nat, more: nat)
    requires p < |d| && fuel <= more
    ensures fuel > 0 && Labels(d, PointerTarget(d, p), fuel - 1) != Err(RecursionError) ==>
      Labels(d, PointerTarget(d, p), more - 1) == Labels(d, PointerTarget(d, p), fuel - 1)
    decreases fuel, |d| - p, 0
  {
    if fuel > 0 && Labels(d, PointerTarget(d, p), fuel - 1) != Err(RecursionError) {
      LabelsFuelMonotone(d, PointerTarget(d, p), fuel - 1, more - 1);
    }
  }

  /** LabelsFuelMonotone for what follows a pointer. */
  lemma {:induction false} RestFuelMonotone(d: Digits, p: nat, fuel: nat, more: nat)
    requires p < |d| && fuel <= more
    ensures Labels(d, p + 4, fuel) != Err(RecursionError) ==> Labels(d, p + 4, more) == Labels(d, p + 4, fuel)
    decreases fuel, |d| - p, 0
  {
    if Labels(d, p + 4, fuel) != Err(RecursionError) {
      LabelsFuelMonotone(d, p + 4, fuel, more);
    }
  }

  /** LabelsFuelMonotone at a label: the rest. */
  lemma {:induction false} LabelFuelMonotone(d: Digits, p: nat, fuel: nat, more: nat)
    requires p < |d| && !IsPointer(d[p]) && fuel <= more
    requires Labels(d, p, fuel) != Err(RecursionError)
    ensures Labels(d, p, more) == Labels(d, p, fuel)
    decreases fuel, |d| - p, 1
  {
    var next := p + 2 + 2 * Byte(d, p);
    if Labels(d, next, fuel) != Err(RecursionError) {
      LabelsFuelMonotone(d, next, fuel, more);
    }
    LabelFuel(d, p, fuel, more);
  }

  /** LabelsFuelMonotone over a pointer, given the results of the nested call and of the rest. */
  lemma {:induction false} PointerFuel(d: Digits, p: nat, fuel: nat, more: nat)
    requires p < |d| && IsPointer(d[p]) && fuel <= more
    requires fuel > 0 && Labels(d, PointerTarget(d, p), fuel - 1) != Err(RecursionError) ==>
      Labels(d, PointerTarget(d, p), more - 1) == Labels(d, PointerTarget(d, p), fuel - 1)
    requires Labels(d, p + 4, fuel) != Err(RecursionError) ==> Labels(d, p + 4, more) == Labels(d, p + 4, fuel)
    requires Labels(d, p, fuel) != Err(RecursionError)
    ensures Labels(d, p, more) == Labels(d, p, fuel)
  {
  }

  /** LabelsFuelMonotone over a label, given the result of the rest. */
  lemma {:induction false} LabelFuel(d: Digits, p: nat, fuel: nat, more: nat)
    requires p < |d| && !IsPointer(d[p]) && fuel <= more
    requires Labels(d, p + 2 + 2 * Byte(d, p), fuel) != Err(RecursionError) ==>
      Labels(d, p + 2 + 2 * Byte(d, p), more) == Labels(d, p + 2 + 2 * Byte(d, p), fuel)
    requires Labels(d, p, fuel) != Err(RecursionError)
    ensures Labels(d, p, more) == Labels(d, p, fuel)
  {
  }

  lemma {:induction false} FetchFuelMonotone(d: Digits, p: nat, fuel: nat, more: nat)
    requires fuel <= more
    requires Fetch(d, p, fuel) != Err(RecursionError)
    ensures Fetch(d, p, more) == Fetch(d, p, fuel)
  {
    LabelsFuelMonotone(d, p, fuel, more);
  }

  /** A pointer to itself recurses until the budget runs out, whatever the budget. */
  lemma {:induction false} SelfPointerExhaustsBudget(d: Digits, p: nat, fuel: nat)
    requires p < |d| && IsPointer(d[p]) && PointerTarget(d, p) == p
    ensures Fetch(d, p, fuel) == Err(RecursionError)
  {
    if fuel > 0 {
      SelfPointerExhaustsBudget(d, p, fuel - 1);
    }
  }

  // ---------------------------------------------------------------------------
  // Departures from RFC 1035

  /** The pointer C003 inside fetch_compressed is followed to digit 3, which reads
      the empty name, where byte 3 (digit 6) holds the name "a". */
  lemma {:induction false} NestedPointerNotDoubled(d: Digits)
    requires d == [0, 0, 0, 0, 0, 0, 0, 1, 6, 1, 0, 0, 12, 0, 0, 3, 0, 0]
    ensures Fetch(d, 12, 1) == Ok("") && Fetch(d, 6, 0) == Ok("a")
  {
    assert PointerTarget(d, 12) == 3;
    LabelsRoot(d, 3, 0);
    LabelsRoot(d, 16, 1);
    assert Fetch(d, 3, 0) == Ok("");
    LabelsAfterPointer(d, 12, 1, "", "");
    assert "" + "" == "";
    assert Labels(d, 12, 1) == Ok("");
    NameAAt(d, 6, 0);
  }

  /** Digits p to p + 5 hold the name "a": the segment 01 61 and the root 00. */
  lemma {:induction false} NameAAt(d: Digits, p: nat, fuel: nat)
    requires p + 5 < |d|
    requires d[p] == 0 && d[p + 1] == 1 && d[p + 2] == 6 && d[p + 3] == 1 && d[p + 4] == 0 && d[p + 5] == 0
    ensures Labels(d, p, fuel) == Ok("a.") && Fetch(d, p, fuel) == Ok("a")
  {
    assert Byte(d, p) == 1 && Byte(d, p + 2) == 0x61 && Byte(d, p + 4) == 0;
    assert ReadChars(d, p + 2, 1) == Ok("a") by {
      assert Chr(0x61) == 'a';
      assert ['a'] + [] == "a";
    }
    assert Labels(d, p + 4, fuel) == Ok([]);
    assert "a" + "." + [] == "a.";
    assert "a."[..1] == "a";
  }

  /** After the pointer C000 to the name "a", fetch_compressed goes on to read
      the segment "b" that follows, and joins the two without a dot. */
  lemma {:induction false} PointerDoesNotEndName(d: Digits)
    requires d == [0, 1, 6, 1, 0, 0, 12, 0, 0, 0, 0, 1, 6, 2, 0, 0]
    ensures Fetch(d, 6, 1) == Ok("ab")
  {
    assert PointerTarget(d, 6) == 0;
    NameAAt(d, 0, 0);
    NameBAt(d, 10, 1);
    LabelsAfterPointer(d, 6, 1, "a", "b.");
    assert "a" + "b." == "ab.";
    assert "ab."[..2] == "ab";
  }

  /** A pointer whose name is `inner`, followed by labels that read `rest`, reads inner + rest. */
  lemma {:induction false} LabelsAfterPointer(d: Digits, p: nat, fuel: nat, inner: string, rest: string)
    requires p < |d| && IsPointer(d[p]) && fuel > 0
    requires Fetch(d, PointerTarget(d, p), fuel - 1) == Ok(inner) && Labels(d, p + 4, fuel) == Ok(rest)
    ensures Labels(d, p, fuel) == Ok(inner + rest)
  {
  }

  /** Digits p to p + 5 hold the name "b". */
  lemma {:induction false} NameBAt(d: Digits, p: nat, fuel: nat)
    requires p + 5 < |d|
    requires d[p] == 0 && d[p + 1] == 1 && d[p + 2] == 6 && d[p + 3] == 2 && d[p + 4] == 0 && d[p + 5] == 0
    ensures Labels(d, p, fuel) == Ok("b.")
  {
    assert Byte(d, p) == 1 && Byte(d, p + 2) == 0x62 && Byte(d, p + 4) == 0;
    assert ReadChars(d, p + 2, 1) == Ok("b") by {
      assert Chr(0x62) == 'b';
      assert ['b'] + [] == "b";
    }
    assert Labels(d, p + 4, fuel) == Ok([]);
    assert "b" + "." + [] == "b.";
  }

  // ---------------------------------------------------------------------------
  // The alias loop

  /** RDATA that is one pointer reads as the name the pointer designates, with the
      offset doubled into a digit index. */
  lemma {:induction false} AliasOfPointer(ans: Digits, data: Digits, fuel: nat)
    requires |ans| > 24 && IsPointer(ans[24])
    ensures Alias(ans, data, 24, 2, fuel) == Fetch(data, 2 * PointerTarget(ans, 24), fuel)
  {
    var r := Fetch(data, 2 * PointerTarget(ans, 24), fuel);
    if r.Ok? {
      assert r.value + [] == r.value;
    }
  }

  /** An answer whose RDATA is the pointer C00C names the question of the query it answers. */
  lemma {:induction false} AliasOfQuestion(ans: Digits, data: Digits, id: nat, name: string, t: RequestType, post: Digits, fuel: nat)
    requires |ans| >= 28 && ans[24..28] == [12, 0, 0, 12]
    requires id < 0x10000 && WellFormedName(name) && data == QueryText(id, name, t) + post
    ensures Alias(ans, data, 24, 2, fuel) == Ok(name)
  {
    assert ans[24] == 12 && ans[25] == 0 && ans[26] == 0 && ans[27] == 12;
    assert PointerTarget(ans, 24) == 12;
    AliasOfPointer(ans, data, fuel);
    QuestionNameRoundTrip(data, id, name, t, post, fuel);
  }

  /** The root segment 00 at the end of RDATA: the alias loop reads it as an
      empty segment and, as it does not end two digits before the end of RDATA,
      writes a dot for it. */
  lemma {:induction false} AliasRoot(ans: Digits, data: Digits, p: nat, rdlength: nat, fuel: nat)
    requires p + 2 == 24 + 2 * rdlength && p + 1 < |ans| && ans[p] == 0 && ans[p + 1] == 0
    ensures Alias(ans, data, p, rdlength, fuel) == Ok(".")
  {
    assert [] + "." + [] == ".";
  }

  /** One segment of the alias loop: its characters, with a dot unless it ends
      two digits before the end of RDATA, go in front of what the rest reads. */
  lemma {:induction false} AliasSegmentUnfold(ans: Digits, data: Digits, p: nat, s: string, q: nat, rdlength: nat, fuel: nat, written: string)
    requires p < 24 + 2 * rdlength && p + 1 < |ans| && !IsPointer(ans[p])
    requires Byte(ans, p) == |s| && ReadChars(ans, p + 2, |s|) == Ok(s) && q == p + 2 + 2 * |s|
    requires written == if q != 22 + 2 * rdlength then s + "." else s
    ensures Alias(ans, data, p, rdlength, fuel) == Prepend(written, Alias(ans, data, q, rdlength, fuel))
  {
  }

  /** One segment of the alias loop, followed by the rest of RDATA. */
  lemma {:induction false} AliasSegmentStep(ans: Digits, data: Digits, p: nat, s: string, q: nat, tail: string, rdlength: nat, fuel: nat)
    requires p < 24 + 2 * rdlength && p + 1 < |ans| && !IsPointer(ans[p])
    requires Byte(ans, p) == |s| && ReadChars(ans, p + 2, |s|) == Ok(s)
    requires q == p + 2 + 2 * |s| && Alias(ans, data, q, rdlength, fuel) == Ok(tail)
    ensures Alias(ans, data, p, rdlength, fuel) == Ok((if q != 22 + 2 * rdlength then s + "." else s) + tail)
  {
    AliasSegmentUnfold(ans, data, p, s, q, rdlength, fuel, if q != 22 + 2 * rdlength then s + "." else s);
  }

  /** Uncompressed RDATA: the segments are joined with dots, and the root segment
      adds one more dot at the end, which the alias loop keeps. */
  lemma {:induction false} AliasAt(ans: Digits, data: Digits, p: nat, segments: seq<string>, rdlength: nat, fuel: nat)
    requires forall k :: 0 <= k < |segments| ==> |segments[k]| < 64
    requires NameAt(ans, p, segments) && 24 + 2 * rdlength == p + Span(segments)
    ensures Alias(ans, data, p, rdlength, fuel) == Ok(Join(segments) + ".")
    decreases |segments|
  {
    if segments == [] {
      AliasRoot(ans, data, p, rdlength, fuel);
      assert Join(segments) + "." == ".";
    } else {
      AliasAt(ans, data, p + 2 + 2 * |segments[0]|, segments[1..], rdlength, fuel);
      AliasFirstSegment(ans, data, p, segments, rdlength, fuel);
    }
  }

  /** AliasAt for the first segment, given what the alias loop reads after it. */
  lemma {:induction false} AliasFirstSegment(ans: Digits, data: Digits, p: nat, segments: seq<string>, rdlength: nat, fuel: nat)
    requires |segments| > 0 && |segments[0]| < 64
    requires NameAt(ans, p, segments) && 24 + 2 * rdlength == p + Span(segments)
    requires Alias(ans, data, p + 2 + 2 * |segments[0]|, rdlength, fuel) == Ok(Join(segments[1..]) + ".")
    ensures Alias(ans, data, p, rdlength, fuel) == Ok(Join(segments) + ".")
  {
    var s := segments[0];
    var q := p + 2 + 2 * |s|;
    ReadCharsAt(ans, p + 2, s);
    AliasSegmentStep(ans, data, p, s, q, Join(segments[1..]) + ".", rdlength, fuel);
    JoinFirst(segments);
    assert q == 22 + 2 * rdlength <==> |segments| == 1 by {
      if |segments| > 1 {
        assert Span(segments[1..]) >= 4;
      }
    }
  }

  /** Joining with dots, then adding the final dot, puts a dot after every segment. */
  lemma {:induction false} JoinFirst(segments: seq<string>)
    requires |segments| > 0
    ensures Join(segments) + "." == (if |segments| == 1 then segments[0] else segments[0] + ".") + (Join(segments[1..]) + ".")
  {
    if |segments| == 1 {
      assert segments[1..] == [];
    }
  }

  /** RDATA holding a name written without compression, from digit p of the
      record to the end of RDATA, reads as the name with a trailing dot. */
  lemma {:induction false} UncompressedAlias(ans: Digits, data: Digits, p: nat, name: string, post: Digits, rdlength: nat, fuel: nat)
    requires forall k :: 0 <= k < |Split(name)| ==> Segment(Split(name)[k])
    requires p <= |ans| && ans[p..] == QName(name) + post
    requires 24 + 2 * rdlength == p + 2 * |name| + 4
    ensures Alias(ans, data, p, rdlength, fuel) == Ok(name + ".")
  {
    var segments := Split(name);
    assert ans == ans[..p] + LabelsText(segments) + [0, 0] + post;
    NameTextAt(ans, ans[..p], segments, post);
    SpanOfText(segments);
    QNameLength(name);
    AliasAt(ans, data, p, segments, rdlength, fuel);
    JoinSplit(name);
  }
}
