/** What the record output functions read from a resource record laid out as
    section 4.1.3 of RFC 1035 describes it, with its NAME compressed to a
    pointer, and the departures of ip_output from an IPv4 address. */
module RecordProperties {
  import opened Errors
  import opened Hex
  import opened Query
  import opened Names
  import opened NameProperties
  import opened Records

  /** The text of a resource record as a server writes it: NAME as a pointer to
      the given offset, then TYPE, CLASS, TTL, RDLENGTH and RDATA. */
  function RecordText(pointer: nat, rtype: nat, rclass: nat, ttl: nat, rdata: Digits): Digits
  {
    Field(0xC000 + pointer, 4) + Field(rtype, 4) + Field(rclass, 4) + Field(ttl, 8) + Field(|rdata| / 2, 4) + rdata
  }

  /** Where each field of a record lands, and what it holds. */
  lemma {:induction false} RecordLayout(rec: Digits, pointer: nat, rtype: nat, rclass: nat, ttl: nat, rdata: Digits)
    requires pointer < 0x4000 && rtype < 0x10000 && rclass < 0x10000 && ttl < 0x1_0000_0000 && |rdata| < 0x20000
    requires rec == RecordText(pointer, rtype, rclass, ttl, rdata)
    ensures |rec| == 24 + |rdata|
    ensures rec[4..8] == Field(rtype, 4) && rec[8..12] == Field(rclass, 4)
    ensures Value(rec[12..20]) == ttl && Value(rec[20..24]) == |rdata| / 2
    ensures rec[24..] == rdata
  {
    assert Pow16(4) == 0x10000 && Pow16(8) == 0x1_0000_0000;
    FieldRoundTrip(0xC000 + pointer, 4);
    FieldRoundTrip(rtype, 4);
    FieldRoundTrip(rclass, 4);
    FieldRoundTrip(ttl, 8);
    FieldRoundTrip(|rdata| / 2, 4);
    FieldsSplit(rec, Field(0xC000 + pointer, 4), Field(rtype, 4), Field(rclass, 4), Field(ttl, 8), Field(|rdata| / 2, 4), rdata);
  }

  /** Slicing a record back into its fields. */
  lemma {:induction false} FieldsSplit(rec: Digits, f0: Digits, f1: Digits, f2: Digits, f3: Digits, f4: Digits, rdata: Digits)
    requires |f0| == 4 && |f1| == 4 && |f2| == 4 && |f3| == 8 && |f4| == 4
    requires rec == f0 + f1 + f2 + f3 + f4 + rdata
    ensures |rec| == 24 + |rdata|
    ensures rec[4..8] == f1 && rec[8..12] == f2 && rec[12..20] == f3 && rec[20..24] == f4 && rec[24..] == rdata
  {
  }

  /** The TTL field read as an unsigned number, once the record reaches past it. */
  lemma {:induction false} TtlOfText(ans: Digits)
    requires |ans| >= 20
    ensures Ttl(ans) == Ok(Value(ans[12..20]))
  {
    SliceInside(ans, 12, 20);
  }

  /** The RDLENGTH field read as an unsigned number, once the record reaches past it. */
  lemma {:induction false} RdLengthOfText(ans: Digits)
    requires |ans| >= 24
    ensures RdLength(ans) == Ok(Value(ans[20..24]))
  {
    SliceInside(ans, 20, 24);
  }

  /** A TTL of 0000012C is 300 seconds. */
  lemma {:induction false} TtlExample(ans: Digits)
    requires |ans| >= 20 && ans[12..20] == [0, 0, 0, 0, 0, 1, 2, 12]
    ensures Ttl(ans) == Ok(300)
  {
    TtlOfText(ans);
    assert Value(ans[12..20]) == 300 by {
      assert ans[12..20] == Zeros(5) + [1, 2, 12];
      ValueZerosPrefix(5, [1, 2, 12]);
      ValueAppend([1, 2], 12);
      ValueAppend([1], 2);
      ValueAppend([], 1);
      assert [] + [1] == [1] && [1] + [2] == [1, 2] && [1, 2] + [12] == [1, 2, 12];
    }
  }

  /** ip_output fails with IndexError exactly when the record has four digits or fewer. */
  lemma {:induction false} IpIndexError(ans: Digits)
    ensures IpAddress(ans).Err? <==> |ans| <= 4
    ensures IpAddress(ans).Err? ==> IpAddress(ans).error == IndexError
  {
  }

  /** A pair of digits written by Field reads back as the byte. */
  lemma {:induction false} ByteOfField(d: Digits, p: nat, n: nat)
    requires n < 256 && p + 2 <= |d| && d[p..p + 2] == Field(n, 2)
    ensures Byte(d, p) == n
  {
    FieldDigits(n);
    assert d[p] == d[p..p + 2][0] && d[p + 1] == d[p..p + 2][1];
  }

  /** Slicing eight digits back into four pairs. */
  lemma {:induction false} PairsSplit(h: Digits, f0: Digits, f1: Digits, f2: Digits, f3: Digits)
    requires |f0| == 2 && |f1| == 2 && |f2| == 2 && |f3| == 2 && h == f0 + f1 + f2 + f3
    ensures |h| == 8 && h[0..2] == f0 && h[2..4] == f1 && h[4..6] == f2
  {
  }

  /** The address ip_output prints is the decimal of the first three bytes of
      the last four, joined by dots: the fourth byte x is never printed. */
  lemma {:induction false} IpOfOctets(ans: Digits, a: nat, b: nat, c: nat, x: nat)
    requires a < 256 && b < 256 && c < 256 && x < 256
    requires |ans| >= 8 && ans[|ans| - 8..] == Field(a, 2) + Field(b, 2) + Field(c, 2) + Field(x, 2)
    ensures IpAddress(ans) == Ok(ByteDecimal(a) + "." + ByteDecimal(b) + "." + ByteDecimal(c))
  {
    var o := Last8Start(ans);
    var h := ans[o..];
    BytesOfSuffix(ans, o);
    assert Byte(h, 0) == a && Byte(h, 2) == b && Byte(h, 4) == c by {
      FieldDigits(a);
      FieldDigits(b);
      FieldDigits(c);
      FieldDigits(x);
      PairsSplit(h, Field(a, 2), Field(b, 2), Field(c, 2), Field(x, 2));
      ByteOfField(h, 0, a);
      ByteOfField(h, 2, b);
      ByteOfField(h, 4, c);
    }
  }

  /** The address record C0A80001 (192.168.0.1) prints as 192.168.0. */
  lemma {:induction false} IpExample(h: Digits)
    requires h == [12, 0, 10, 8, 0, 0, 0, 1]
    ensures IpAddress(h) == Ok("192.168.0")
  {
    ExampleBytes(h);
    IpOfBytes(h, 192, 168, 0);
    ExampleOctets();
    ExampleDotted(ByteDecimal(192), ByteDecimal(168), ByteDecimal(0));
  }

  lemma {:induction false} ExampleBytes(h: Digits)
    requires h == [12, 0, 10, 8, 0, 0, 0, 1]
    ensures |h| == 8 && Byte(h, 0) == 192 && Byte(h, 2) == 168 && Byte(h, 4) == 0
  {
  }

  /** On a record of exactly eight digits the address is read from its first six. */
  lemma {:induction false} IpOfBytes(h: Digits, a: nat, b: nat, c: nat)
    requires |h| == 8 && Byte(h, 0) == a && Byte(h, 2) == b && Byte(h, 4) == c
    ensures IpAddress(h) == Ok(ByteDecimal(a) + "." + ByteDecimal(b) + "." + ByteDecimal(c))
  {
    assert Last8Start(h) == 0;
  }

  lemma {:induction false} ExampleDotted(a: string, b: string, c: string)
    requires a == "192" && b == "168" && c == "0"
    ensures a + "." + b + "." + c == "192.168.0"
  {
  }

  lemma {:induction false} ExampleOctets()
    ensures ByteDecimal(192) == "192" && ByteDecimal(168) == "168" && ByteDecimal(0) == "0"
  {
    assert ByteDecimal(1) == "1";
    assert ByteDecimal(19) == "1" + "9";
    assert ByteDecimal(192) == "19" + "2";
    assert ByteDecimal(16) == "1" + "6";
    assert ByteDecimal(168) == "16" + "8";
  }

  /** An A record: ip_output shows the first three octets of the address and the TTL. */
  lemma {:induction false} ARecord(rec: Digits, pointer: nat, ttl: nat, a: nat, b: nat, c: nat, x: nat, auth: Authority)
    requires pointer < 0x4000 && ttl < 0x1_0000_0000 && a < 256 && b < 256 && c < 256 && x < 256
    requires rec == RecordText(pointer, 1, 1, ttl, Field(a, 2) + Field(b, 2) + Field(c, 2) + Field(x, 2))
    ensures IpRecord(rec, auth) == Ok(IpLine(ByteDecimal(a) + "." + ByteDecimal(b) + "." + ByteDecimal(c), ttl, auth))
  {
    var rdata := Field(a, 2) + Field(b, 2) + Field(c, 2) + Field(x, 2);
    FieldDigits(a);
    FieldDigits(b);
    FieldDigits(c);
    FieldDigits(x);
    RecordLayout(rec, pointer, 1, 1, ttl, rdata);
    assert rec[|rec| - 8..] == rdata;
    IpOfOctets(rec, a, b, c, x);
    TtlOfText(rec);
  }

  /** The fields ns_output and cname_output read, once each is known. */
  lemma {:induction false} AliasAndTtlOfFields(ans: Digits, data: Digits, rdlength: nat, alias: string, ttl: nat, fuel: nat)
    requires RdLength(ans) == Ok(rdlength) && Alias(ans, data, 24, rdlength, fuel) == Ok(alias) && Ttl(ans) == Ok(ttl)
    ensures AliasAndTtl(ans, data, fuel) == Ok((alias, ttl))
  {
  }

  /** An NS record whose RDATA is a name written without compression: ns_output
      shows the name with a trailing dot and the TTL. */
  lemma {:induction false} NsRecordOfName(rec: Digits, data: Digits, pointer: nat, ttl: nat, name: string, fuel: nat, auth: Authority)
    requires pointer < 0x4000 && ttl < 0x1_0000_0000 && |name| < 0xFFFE
    requires forall k :: 0 <= k < |Split(name)| ==> Segment(Split(name)[k])
    requires rec == RecordText(pointer, 2, 1, ttl, QName(name))
    ensures NsRecord(rec, data, fuel, auth) == Ok(NsLine(name + ".", ttl, auth))
  {
    NsLayout(rec, pointer, ttl, name);
    UncompressedAlias(rec, data, 24, name, [], |name| + 2, fuel);
    AliasAndTtlOfFields(rec, data, |name| + 2, name + ".", ttl, fuel);
  }

  /** The fields of an NS record whose RDATA is a name written without compression. */
  lemma {:induction false} NsLayout(rec: Digits, pointer: nat, ttl: nat, name: string)
    requires pointer < 0x4000 && ttl < 0x1_0000_0000 && |name| < 0xFFFE
    requires forall k :: 0 <= k < |Split(name)| ==> Segment(Split(name)[k])
    requires rec == RecordText(pointer, 2, 1, ttl, QName(name))
    ensures RdLength(rec) == Ok(|name| + 2) && Ttl(rec) == Ok(ttl) && 24 <= |rec| && rec[24..] == QName(name) + []
  {
    QNameLength(name);
    assert |QName(name)| / 2 == |name| + 2;
    RecordLayout(rec, pointer, 2, 1, ttl, QName(name));
    FieldsRead(rec, ttl, QName(name));
  }

  /** TTL and RDLENGTH of a record whose fields are known. */
  lemma {:induction false} FieldsRead(rec: Digits, ttl: nat, rdata: Digits)
    requires |rec| == 24 + |rdata| && Value(rec[12..20]) == ttl && Value(rec[20..24]) == |rdata| / 2 && rec[24..] == rdata
    ensures RdLength(rec) == Ok(|rdata| / 2) && Ttl(rec) == Ok(ttl) && rec[24..] == rdata + []
  {
    RdLengthOfText(rec);
    TtlOfText(rec);
  }

  /** A CNAME record whose RDATA is the pointer C00C back to the question's
      name: cname_output shows that name, without a trailing dot, and the TTL. */
  lemma {:induction false} CnameRecordOfQuestion(rec: Digits, data: Digits, pointer: nat, ttl: nat, id: nat, name: string, t: RequestType, post: Digits, fuel: nat, auth: Authority)
    requires pointer < 0x4000 && ttl < 0x1_0000_0000
    requires id < 0x10000 && WellFormedName(name) && data == QueryText(id, name, t) + post
    requires rec == RecordText(pointer, 5, 1, ttl, [12, 0, 0, 12])
    ensures CnameRecord(rec, data, fuel, auth) == Ok(CnameLine(name, ttl, auth))
  {
    CnameLayout(rec, pointer, ttl);
    AliasOfQuestion(rec, data, id, name, t, post, fuel);
    AliasAndTtlOfFields(rec, data, 2, name, ttl, fuel);
  }

  /** The fields of a CNAME record whose RDATA is the pointer C00C. */
  lemma {:induction false} CnameLayout(rec: Digits, pointer: nat, ttl: nat)
    requires pointer < 0x4000 && ttl < 0x1_0000_0000
    requires rec == RecordText(pointer, 5, 1, ttl, [12, 0, 0, 12])
    ensures RdLength(rec) == Ok(2) && Ttl(rec) == Ok(ttl) && |rec| == 28 && rec[24..28] == [12, 0, 0, 12]
  {
    assert |[12, 0, 0, 12]| / 2 == 2;
    RecordLayout(rec, pointer, 5, 1, ttl, [12, 0, 0, 12]);
    FieldsRead(rec, ttl, [12, 0, 0, 12]);
  }

  /** The fields mx_output reads, once each is known. */
  lemma {:induction false} MxOfFields(ans: Digits, data: Digits, rdlength: nat, preference: nat, alias: string, ttl: nat, fuel: nat, auth: Authority)
    requires RdLength(ans) == Ok(rdlength) && Preference(ans) == Ok(preference)
    requires Alias(ans, data, 28, rdlength, fuel) == Ok(alias) && Ttl(ans) == Ok(ttl)
    ensures MxRecord(ans, data, fuel, auth) == Ok(MxLine(alias, preference, ttl, auth))
  {
  }

  /** Slicing MX RDATA into the preference and the exchange. */
  lemma {:induction false} RdataSplit(rec: Digits, f: Digits, rest: Digits)
    requires |f| == 4 && |rec| >= 24 && rec[24..] == f + rest
    ensures rec[24..28] == f && rec[28..] == rest
  {
    assert rec[24..28] == rec[24..][..4];
    assert rec[28..] == rec[24..][4..];
  }

  /** An MX record whose exchange is written without compression: mx_output
      shows the exchange with a trailing dot, the preference and the TTL. */
  lemma {:induction false} MxRecordOfName(rec: Digits, data: Digits, pointer: nat, ttl: nat, preference: nat, name: string, fuel: nat, auth: Authority)
    requires pointer < 0x4000 && ttl < 0x1_0000_0000 && preference < 0x10000 && |name| < 0xFFFC
    requires forall k :: 0 <= k < |Split(name)| ==> Segment(Split(name)[k])
    requires rec == RecordText(pointer, 15, 1, ttl, Field(preference, 4) + QName(name))
    ensures MxRecord(rec, data, fuel, auth) == Ok(MxLine(name + ".", preference, ttl, auth))
  {
    MxLayout(rec, pointer, ttl, preference, name);
    UncompressedAlias(rec, data, 28, name, [], |name| + 4, fuel);
    MxOfFields(rec, data, |name| + 4, preference, name + ".", ttl, fuel, auth);
  }

  /** The fields of an MX record whose exchange is written without compression. */
  lemma {:induction false} MxLayout(rec: Digits, pointer: nat, ttl: nat, preference: nat, name: string)
    requires pointer < 0x4000 && ttl < 0x1_0000_0000 && preference < 0x10000 && |name| < 0xFFFC
    requires forall k :: 0 <= k < |Split(name)| ==> Segment(Split(name)[k])
    requires rec == RecordText(pointer, 15, 1, ttl, Field(preference, 4) + QName(name))
    ensures RdLength(rec) == Ok(|name| + 4) && Preference(rec) == Ok(preference) && Ttl(rec) == Ok(ttl)
    ensures 28 <= |rec| && rec[28..] == QName(name) + []
  {
    var rdata := Field(preference, 4) + QName(name);
    assert |rdata| == 2 * |name| + 8 by {
      assert Pow16(4) == 0x10000;
      FieldRoundTrip(preference, 4);
      QNameLength(name);
    }
    assert |rdata| / 2 == |name| + 4;
    RecordLayout(rec, pointer, 15, 1, ttl, rdata);
    MxFieldsRead(rec, ttl, preference, QName(name));
  }

  /** TTL, RDLENGTH and preference of an MX record whose fields are known. */
  lemma {:induction false} MxFieldsRead(rec: Digits, ttl: nat, preference: nat, exchange: Digits)
    requires preference < 0x10000 && |rec| == 24 + |Field(preference, 4) + exchange|
    requires Value(rec[12..20]) == ttl && Value(rec[20..24]) == |Field(preference, 4) + exchange| / 2
    requires rec[24..] == Field(preference, 4) + exchange
    ensures RdLength(rec) == Ok(|Field(preference, 4) + exchange| / 2) && Preference(rec) == Ok(preference) && Ttl(rec) == Ok(ttl)
    ensures 28 <= |rec| && rec[28..] == exchange + []
  {
    FieldsRead(rec, ttl, Field(preference, 4) + exchange);
    PreferenceOfText(rec, preference, exchange);
  }

  /** RDATA that starts with a preference written by the query builder's Field. */
  lemma {:induction false} PreferenceOfText(rec: Digits, preference: nat, rest: Digits)
    requires preference < 0x10000 && |rec| >= 24 && rec[24..] == Field(preference, 4) + rest
    ensures Preference(rec) == Ok(preference) && 28 <= |rec| && rec[28..] == rest + []
  {
    assert Pow16(4) == 0x10000;
    FieldRoundTrip(preference, 4);
    RdataSplit(rec, Field(preference, 4), rest);
    SliceInside(rec, 24, 28);
  }
}
