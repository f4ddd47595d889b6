/** What one round of the Answer and Additional loops does with a resource
    record a server wrote where the cursor stands: the line the record's TYPE
    selects, and the cursor moved past the record's RDATA. */
module WalkProperties {
  import opened Errors
  import opened Hex
  import opened Query
  import opened Names
  import opened NameProperties
  import opened Records
  import opened RecordProperties
  import opened Response

  /** The output of the record rec whose TYPE is rtype, as a number: A, NS, MX
      and CNAME select ip_output, ns_output, mx_output and cname_output. */
  function OutputOf(rtype: nat, rec: Digits, data: Digits, fuel: nat, auth: Authority): Result<Option<Line>>
  {
    if rtype == 1 then Found(IpRecord(rec, auth))
    else if rtype == 2 then Found(NsRecord(rec, data, fuel, auth))
    else if rtype == 15 then Found(MxRecord(rec, data, fuel, auth))
    else if rtype == 5 then Found(CnameRecord(rec, data, fuel, auth))
    else Ok(None)
  }

  /** The fields of a record that sits inside a longer response. */
  predicate Placed(data: Digits, pre: Digits, rec: Digits, post: Digits, pointer: nat, rtype: nat, rclass: nat, ttl: nat, rdata: Digits)
  {
    && pointer < 0x4000 && rtype < 0x10000 && rclass < 0x10000 && ttl < 0x1_0000_0000
    && |rdata| < 0x20000 && |rdata| % 2 == 0
    && rec == RecordText(pointer, rtype, rclass, ttl, rdata)
    && data == pre + rec + post
  }

  /** A slice of the middle part of pre + rec + post. */
  lemma {:induction false} MiddleSlice(data: Digits, pre: Digits, rec: Digits, post: Digits, i: nat, j: nat)
    requires data == pre + rec + post && i <= j <= |rec|
    ensures Slice(data, |pre| + i, |pre| + j) == rec[i..j]
  {
    SliceInside(data, |pre| + i, |pre| + j);
    assert data[|pre| + i..|pre| + j] == rec[i..j];
  }

  /** A record at digit |pre| ends where its RDATA ends, and the loop reads its
      TYPE, its CLASS and its whole text from the response. */
  lemma {:induction false} RecordAt(data: Digits, pre: Digits, rec: Digits, post: Digits, pointer: nat, rtype: nat, rclass: nat, ttl: nat, rdata: Digits)
    requires Placed(data, pre, rec, post, pointer, rtype, rclass, ttl, rdata)
    ensures RecordEnd(data, |pre|) == Ok(|pre| + 24 + |rdata|)
    ensures Slice(data, |pre|, |pre| + 24 + |rdata|) == rec
    ensures Slice(data, |pre| + 4, |pre| + 8) == Field(rtype, 4)
    ensures Slice(data, |pre| + 8, |pre| + 12) == Field(rclass, 4)
  {
    RecordLayout(rec, pointer, rtype, rclass, ttl, rdata);
    LayoutAt(data, pre, rec, post, rtype, rclass, rdata);
  }

  /** RecordAt once the record's layout is known. */
  lemma {:induction false} LayoutAt(data: Digits, pre: Digits, rec: Digits, post: Digits, rtype: nat, rclass: nat, rdata: Digits)
    requires data == pre + rec + post && |rdata| % 2 == 0 && |rec| == 24 + |rdata|
    requires rec[4..8] == Field(rtype, 4) && rec[8..12] == Field(rclass, 4) && Value(rec[20..24]) == |rdata| / 2
    ensures RecordEnd(data, |pre|) == Ok(|pre| + 24 + |rdata|)
    ensures Slice(data, |pre|, |pre| + 24 + |rdata|) == rec
    ensures Slice(data, |pre| + 4, |pre| + 8) == Field(rtype, 4)
    ensures Slice(data, |pre| + 8, |pre| + 12) == Field(rclass, 4)
  {
    FieldsAt(data, pre, rec, post, |rdata|);
  }

  /** The fields of the record rec that sits at digit |pre|. */
  lemma {:induction false} FieldsAt(data: Digits, pre: Digits, rec: Digits, post: Digits, n: nat)
    requires data == pre + rec + post && |rec| == 24 + n && n % 2 == 0 && Value(rec[20..24]) == n / 2
    ensures RecordEnd(data, |pre|) == Ok(|pre| + 24 + n)
    ensures Slice(data, |pre|, |pre| + 24 + n) == rec
    ensures Slice(data, |pre| + 4, |pre| + 8) == rec[4..8]
    ensures Slice(data, |pre| + 8, |pre| + 12) == rec[8..12]
  {
    MiddleSlice(data, pre, rec, post, 0, |rec|);
    assert rec[0..|rec|] == rec;
    MiddleSlice(data, pre, rec, post, 4, 8);
    MiddleSlice(data, pre, rec, post, 8, 12);
    MiddleSlice(data, pre, rec, post, 20, 24);
    var field := Slice(data, |pre| + 20, |pre| + 24);
    assert field == rec[20..24] && |field| == 4;
    assert ParseHex(field) == Ok(n / 2);
    assert 2 * (n / 2) == n;
  }

  /** The TYPE and CLASS codes the loops compare against, as Field writes them. */
  lemma {:induction false} CodeFields()
    ensures Field(1, 4) == TypeA && Field(2, 4) == TypeNs && Field(15, 4) == TypeMx && Field(5, 4) == TypeCname
    ensures Field(1, 4) == ClassIn
  {
    assert HexDigits(0) == [];
    assert HexDigits(1) == [] + [1];
    assert HexDigits(2) == [] + [2];
    assert HexDigits(5) == [] + [5];
    assert HexDigits(15) == [] + [15];
    assert Zeros(3) == [0, 0, 0];
  }

  /** A four-digit code equals the Field of n only when its value is n. */
  lemma {:induction false} CodeIs(code: Digits, n: nat, m: nat)
    requires n < 0x10000 && m < 0x10000 && code == Field(m, 4)
    ensures code == Field(n, 4) <==> n == m
  {
    assert Pow16(4) == 0x10000;
    FieldRoundTrip(n, 4);
    FieldRoundTrip(m, 4);
  }

  /** Dispatch on a record whose TYPE field holds rtype runs the output function
      rtype names. */
  lemma {:induction false} DispatchAt(data: Digits, s: nat, next: nat, rec: Digits, rtype: nat, fuel: nat, auth: Authority)
    requires rtype < 0x10000 && Slice(data, s + 4, s + 8) == Field(rtype, 4) && Slice(data, s, next) == rec
    ensures Dispatch(data, s, next, fuel, auth) == OutputOf(rtype, rec, data, fuel, auth)
  {
    CodeFields();
    var code := Field(rtype, 4);
    CodeIs(code, 1, rtype);
    CodeIs(code, 2, rtype);
    CodeIs(code, 15, rtype);
    CodeIs(code, 5, rtype);
  }

  /** A round of the Answer loop at digit s once the record's end, TYPE and
      CLASS are known. */
  lemma {:induction false} AnswerStepAt(data: Digits, s: nat, next: nat, rec: Digits, rtype: nat, rclass: nat, fuel: nat, auth: Authority)
    requires rtype < 0x10000 && rclass < 0x10000 && RecordEnd(data, s) == Ok(next) && Slice(data, s, next) == rec
    requires Slice(data, s + 4, s + 8) == Field(rtype, 4) && Slice(data, s + 8, s + 12) == Field(rclass, 4)
    ensures rclass == 1 ==> AnswerStep(data, s, fuel, auth) == Emit(OutputOf(rtype, rec, data, fuel, auth), next, [])
    ensures rclass != 1 ==> AnswerStep(data, s, fuel, auth) == Walk([UnexpectedClass(Field(rclass, 4))], Ok(s))
  {
    DispatchAt(data, s, next, rec, rtype, fuel, auth);
    CodeFields();
    CodeIs(Field(rclass, 4), 1, rclass);
  }

  /** One round of the Answer loop on a record of CLASS IN shows the record's
      output and moves the cursor past its RDATA; on any other CLASS it reports
      the class code and leaves the cursor on the record. */
  lemma {:induction false} AnswerStepOfRecord(data: Digits, pre: Digits, rec: Digits, post: Digits, pointer: nat, rtype: nat, rclass: nat, ttl: nat, rdata: Digits, fuel: nat, auth: Authority)
    requires Placed(data, pre, rec, post, pointer, rtype, rclass, ttl, rdata)
    ensures rclass == 1 ==> AnswerStep(data, |pre|, fuel, auth) == Emit(OutputOf(rtype, rec, data, fuel, auth), |pre| + 24 + |rdata|, [])
    ensures rclass != 1 ==> AnswerStep(data, |pre|, fuel, auth) == Walk([UnexpectedClass(Field(rclass, 4))], Ok(|pre|))
  {
    RecordAt(data, pre, rec, post, pointer, rtype, rclass, ttl, rdata);
    AnswerStepAt(data, |pre|, |pre| + 24 + |rdata|, rec, rtype, rclass, fuel, auth);
  }

  /** One round of the Additional loop shows the record's output whatever its
      CLASS, reports an unknown TYPE with its code, and moves past the RDATA. */
  lemma {:induction false} AdditionalStepOfRecord(data: Digits, pre: Digits, rec: Digits, post: Digits, pointer: nat, rtype: nat, rclass: nat, ttl: nat, rdata: Digits, index: nat, fuel: nat, auth: Authority)
    requires Placed(data, pre, rec, post, pointer, rtype, rclass, ttl, rdata)
    ensures AdditionalStep(data, |pre|, index, fuel, auth)
      == Emit(OutputOf(rtype, rec, data, fuel, auth), |pre| + 24 + |rdata|, [UnsupportedType(index, Field(rtype, 4))])
  {
    RecordAt(data, pre, rec, post, pointer, rtype, rclass, ttl, rdata);
    AdditionalStepAt(data, |pre|, |pre| + 24 + |rdata|, rec, rtype, index, fuel, auth);
  }

  /** A round of the Additional loop at digit s once the record's end and TYPE
      are known. */
  lemma {:induction false} AdditionalStepAt(data: Digits, s: nat, next: nat, rec: Digits, rtype: nat, index: nat, fuel: nat, auth: Authority)
    requires rtype < 0x10000 && RecordEnd(data, s) == Ok(next) && Slice(data, s, next) == rec
    requires Slice(data, s + 4, s + 8) == Field(rtype, 4)
    ensures AdditionalStep(data, s, index, fuel, auth) == Emit(OutputOf(rtype, rec, data, fuel, auth), next, [UnsupportedType(index, Field(rtype, 4))])
  {
    DispatchAt(data, s, next, rec, rtype, fuel, auth);
  }

  /** When the first i rounds of the Answer loop leave the cursor on a record of
      CLASS IN whose output is a line, round i + 1 adds that line and moves the
      cursor past the record. */
  lemma {:induction false} AnswersNextRecord(data: Digits, start: nat, i: nat, events: seq<Event>, pre: Digits, rec: Digits, post: Digits, pointer: nat, rtype: nat, ttl: nat, rdata: Digits, fuel: nat, auth: Authority, line: Line)
    requires Placed(data, pre, rec, post, pointer, rtype, 1, ttl, rdata)
    requires Answers(data, start, i, fuel, auth) == Walk(events, Ok(|pre|))
    requires OutputOf(rtype, rec, data, fuel, auth) == Ok(Some(line))
    ensures Answers(data, start, i + 1, fuel, auth) == Walk(events + [Output(line)], Ok(|pre| + 24 + |rdata|))
  {
    AnswerStepOfRecord(data, pre, rec, post, pointer, rtype, 1, ttl, rdata, fuel, auth);
    assert AnswerRound(data, fuel, auth)(|pre|, i + 1) == AnswerStep(data, |pre|, fuel, auth);
  }

  /** A round of the Answer loop on a record of CLASS IN whose output function
      returns a line shows that line and moves past the record. */
  lemma {:induction false} AnswerShowsLine(data: Digits, pre: Digits, rec: Digits, post: Digits, pointer: nat, rtype: nat, ttl: nat, rdata: Digits, fuel: nat, auth: Authority, line: Line)
    requires Placed(data, pre, rec, post, pointer, rtype, 1, ttl, rdata)
    requires OutputOf(rtype, rec, data, fuel, auth) == Ok(Some(line))
    ensures AnswerStep(data, |pre|, fuel, auth) == Walk([Output(line)], Ok(|pre| + 24 + |rdata|))
  {
    AnswerStepOfRecord(data, pre, rec, post, pointer, rtype, 1, ttl, rdata, fuel, auth);
  }

  lemma {:induction false} EvenText(d: Digits, n: nat)
    requires |d| == 2 * n
    ensures |d| % 2 == 0 && |d| / 2 == n
  {
  }

  /** An A record in the Answer section: the address line, and the cursor 32
      digits on. */
  lemma {:induction false} AnswerA(data: Digits, pre: Digits, rec: Digits, post: Digits, pointer: nat, ttl: nat, a: nat, b: nat, c: nat, x: nat, rdata: Digits, fuel: nat, auth: Authority)
    requires pointer < 0x4000 && ttl < 0x1_0000_0000 && a < 256 && b < 256 && c < 256 && x < 256
    requires rdata == Field(a, 2) + Field(b, 2) + Field(c, 2) + Field(x, 2)
    requires rec == RecordText(pointer, 1, 1, ttl, rdata) && data == pre + rec + post
    ensures AnswerStep(data, |pre|, fuel, auth)
      == Walk([Output(IpLine(ByteDecimal(a) + "." + ByteDecimal(b) + "." + ByteDecimal(c), ttl, auth))], Ok(|pre| + 32))
  {
    FieldDigits(a);
    FieldDigits(b);
    FieldDigits(c);
    FieldDigits(x);
    EvenText(rdata, 4);
    ARecord(rec, pointer, ttl, a, b, c, x, auth);
    assert OutputOf(1, rec, data, fuel, auth) == Found(IpRecord(rec, auth));
    AnswerShowsLine(data, pre, rec, post, pointer, 1, ttl, rdata, fuel, auth, IpLine(ByteDecimal(a) + "." + ByteDecimal(b) + "." + ByteDecimal(c), ttl, auth));
  }

  /** An NS record whose name server is written without compression: the name
      server line, and the cursor past the name's labels. */
  lemma {:induction false} AnswerNs(data: Digits, pre: Digits, rec: Digits, post: Digits, pointer: nat, ttl: nat, name: string, rdata: Digits, fuel: nat, auth: Authority)
    requires pointer < 0x4000 && ttl < 0x1_0000_0000 && |name| < 0xFFFE
    requires forall k :: 0 <= k < |Split(name)| ==> Segment(Split(name)[k])
    requires rdata == QName(name) && rec == RecordText(pointer, 2, 1, ttl, rdata) && data == pre + rec + post
    ensures AnswerStep(data, |pre|, fuel, auth) == Walk([Output(NsLine(name + ".", ttl, auth))], Ok(|pre| + 24 + |rdata|))
  {
    QNameLength(name);
    EvenText(rdata, |name| + 2);
    NsRecordOfName(rec, data, pointer, ttl, name, fuel, auth);
    assert OutputOf(2, rec, data, fuel, auth) == Found(NsRecord(rec, data, fuel, auth));
    AnswerShowsLine(data, pre, rec, post, pointer, 2, ttl, rdata, fuel, auth, NsLine(name + ".", ttl, auth));
  }

  /** An MX record whose exchange is written without compression: the mail
      exchange line, and the cursor past the preference and the exchange. */
  lemma {:induction false} AnswerMx(data: Digits, pre: Digits, rec: Digits, post: Digits, pointer: nat, ttl: nat, preference: nat, name: string, rdata: Digits, fuel: nat, auth: Authority)
    requires pointer < 0x4000 && ttl < 0x1_0000_0000 && preference < 0x10000 && |name| < 0xFFFC
    requires forall k :: 0 <= k < |Split(name)| ==> Segment(Split(name)[k])
    requires rdata == Field(preference, 4) + QName(name) && rec == RecordText(pointer, 15, 1, ttl, rdata) && data == pre + rec + post
    ensures AnswerStep(data, |pre|, fuel, auth) == Walk([Output(MxLine(name + ".", preference, ttl, auth))], Ok(|pre| + 24 + |rdata|))
  {
    assert |rdata| == 2 * (|name| + 4) by {
      assert Pow16(4) == 0x10000;
      FieldRoundTrip(preference, 4);
      QNameLength(name);
    }
    EvenText(rdata, |name| + 4);
    MxRecordOfName(rec, data, pointer, ttl, preference, name, fuel, auth);
    assert OutputOf(15, rec, data, fuel, auth) == Found(MxRecord(rec, data, fuel, auth));
    AnswerShowsLine(data, pre, rec, post, pointer, 15, ttl, rdata, fuel, auth, MxLine(name + ".", preference, ttl, auth));
  }

  /** A CNAME record whose alias points back at the question name: the alias
      line, and the cursor 28 digits on. */
  lemma {:induction false} AnswerCname(data: Digits, pre: Digits, rec: Digits, post: Digits, pointer: nat, ttl: nat, id: nat, name: string, t: RequestType, rest: Digits, rdata: Digits, fuel: nat, auth: Authority)
    requires pointer < 0x4000 && ttl < 0x1_0000_0000
    requires id < 0x10000 && WellFormedName(name) && data == QueryText(id, name, t) + rest
    requires rdata == [12, 0, 0, 12] && rec == RecordText(pointer, 5, 1, ttl, rdata) && data == pre + rec + post
    ensures AnswerStep(data, |pre|, fuel, auth) == Walk([Output(CnameLine(name, ttl, auth))], Ok(|pre| + 28))
  {
    CnameRecordOfQuestion(rec, data, pointer, ttl, id, name, t, rest, fuel, auth);
    assert OutputOf(5, rec, data, fuel, auth) == Found(CnameRecord(rec, data, fuel, auth));
    AnswerShowsLine(data, pre, rec, post, pointer, 5, ttl, rdata, fuel, auth, CnameLine(name, ttl, auth));
  }
}
