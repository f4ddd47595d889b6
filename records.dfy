/** The output functions for one resource record (section 4.1.3 of RFC 1035):
    ip_output for A records, ns_output, cname_output and mx_output for the
    records whose RDATA holds a domain name. Each receives the text of one
    record, `ans`, which starts at the record's NAME; as the client assumes that
    NAME is a two-byte pointer, TYPE sits at digits [4, 8), CLASS at [8, 12),
    TTL at [12, 20), RDLENGTH at [20, 24) and RDATA from digit 24 on. Instead of
    printing a line, each returns the values the line shows. */
module Records {
  import opened Errors
  import opened Hex
  import opened Names

  /** Whether the AA bit of the response was set. */
  datatype Authority = Auth | Nonauth

  /** The values of one printed record line. */
  datatype Line =
    | IpLine(ip: string, ttl: nat, auth: Authority)
    | NsLine(alias: string, ttl: nat, auth: Authority)
    | CnameLine(alias: string, ttl: nat, auth: Authority)
    | MxLine(alias: string, preference: nat, ttl: nat, auth: Authority)

  /** int(ans[12:20], 16): the TTL, an unsigned 32-bit number. */
  function Ttl(ans: Digits): (r: Result<nat>)
    ensures r.Ok? <==> |ans| > 12
    ensures r.Ok? ==> r.value < 0x1_0000_0000
  {
    var s := Slice(ans, 12, 20);
    Pow16Monotone(|s|, 8);
    assert Pow16(8) == 0x1_0000_0000;
    ParseHex(s)
  }

  /** int(ans[20:24], 16): RDLENGTH, the number of bytes of RDATA. */
  function RdLength(ans: Digits): (r: Result<nat>)
    ensures r.Ok? <==> |ans| > 20
    ensures r.Ok? ==> r.value < 0x10000
  {
    var s := Slice(ans, 20, 24);
    Pow16Monotone(|s|, 4);
    assert Pow16(4) == 0x10000;
    ParseHex(s)
  }

  /** int(ans[24:28], 16): the PREFERENCE of an MX record, an unsigned 16-bit number. */
  function Preference(ans: Digits): (r: Result<nat>)
    ensures r.Ok? <==> |ans| > 24
    ensures r.Ok? ==> r.value < 0x10000
  {
    var s := Slice(ans, 24, 28);
    Pow16Monotone(|s|, 4);
    assert Pow16(4) == 0x10000;
    ParseHex(s)
  }

  /** Where ans[-8:] starts: the last eight digits, or the whole text when it is shorter. */
  function Last8Start(ans: Digits): (o: nat)
    ensures |ans| - o == Min(8, |ans|)
  {
    if |ans| <= 8 then 0 else |ans| - 8
  }

  /** str(n) for a byte: one to three decimal digits, without leading zeros,
      that int() reads back as n. */
  function ByteDecimal(n: nat): (r: string)
    requires n < 256
    ensures 1 <= |r| <= 3 && (|r| > 1 ==> r[0] != '0')
    ensures |r| == 1 <==> n < 10
    ensures forall k :: 0 <= k < |r| ==> '0' <= r[k] <= '9'
    ensures DecimalText(r) == n
    decreases n
  {
    if n < 10 then
      DecimalTextAppend([], n);
      [] + [DigitChar(n)]
    else
      DecimalTextAppend(ByteDecimal(n / 10), n % 10);
      ByteDecimal(n / 10) + [DigitChar(n % 10)]
  }

  /** What ip_output's loop has written after k rounds: the first k pairs of
      digits in decimal, each of the first two followed by a dot. */
  function Octets(h: Digits, k: nat): string
    requires k <= 3 && (k == 0 || 2 * (k - 1) < |h|)
  {
    if k == 0 then []
    else Octets(h, k - 1) + ByteDecimal(Byte(h, 2 * (k - 1))) + (if k - 1 != 2 then "." else "")
  }

  /** The loop's three rounds, written out. */
  lemma {:induction false} OctetsOfBytes(h: Digits)
    requires |h| > 4
    ensures Octets(h, 3) == ByteDecimal(Byte(h, 0)) + "." + ByteDecimal(Byte(h, 2)) + "." + ByteDecimal(Byte(h, 4))
  {
    assert Octets(h, 1) == ByteDecimal(Byte(h, 0)) + ".";
    assert Octets(h, 2) == ByteDecimal(Byte(h, 0)) + "." + ByteDecimal(Byte(h, 2)) + ".";
  }

  /** Bytes of a suffix are bytes of the whole text. */
  lemma {:induction false} BytesOfSuffix(ans: Digits, o: nat)
    requires o + 4 < |ans|
    ensures Byte(ans[o..], 0) == Byte(ans, o) && Byte(ans[o..], 2) == Byte(ans, o + 2) && Byte(ans[o..], 4) == Byte(ans, o + 4)
  {
  }

  /** The address ip_output prints: the first three of the pairs of digits in
      ans[-8:], in decimal and joined by dots. With four digits or fewer there
      is no third pair and hex_list[i] raises IndexError. */
  function IpAddress(ans: Digits): Result<string>
  {
    var o := Last8Start(ans);
    if |ans| - o <= 4 then Err(IndexError)
    else Ok(ByteDecimal(Byte(ans, o)) + "." + ByteDecimal(Byte(ans, o + 2)) + "." + ByteDecimal(Byte(ans, o + 4)))
  }

  /** ip_output(ans) */
  function IpRecord(ans: Digits, auth: Authority): Result<Line>
  {
    match IpAddress(ans)
    case Err(e) => Err(e)
    case Ok(ip) =>
      match Ttl(ans)
      case Err(e) => Err(e)
      case Ok(ttl) => Ok(IpLine(ip, ttl, auth))
  }

  /** The part ns_output and cname_output share: RDLENGTH, the alias loop from digit 24, the TTL. */
  function AliasAndTtl(ans: Digits, data: Digits, fuel: nat): Result<(string, nat)>
  {
    match RdLength(ans)
    case Err(e) => Err(e)
    case Ok(rdlength) =>
      match Alias(ans, data, 24, rdlength, fuel)
      case Err(e) => Err(e)
      case Ok(alias) =>
        match Ttl(ans)
        case Err(e) => Err(e)
        case Ok(ttl) => Ok((alias, ttl))
  }

  /** ns_output(ans, data) */
  function NsRecord(ans: Digits, data: Digits, fuel: nat, auth: Authority): Result<Line>
  {
    match AliasAndTtl(ans, data, fuel)
    case Err(e) => Err(e)
    case Ok((alias, ttl)) => Ok(NsLine(alias, ttl, auth))
  }

  /** cname_output(ans, data) */
  function CnameRecord(ans: Digits, data: Digits, fuel: nat, auth: Authority): Result<Line>
  {
    match AliasAndTtl(ans, data, fuel)
    case Err(e) => Err(e)
    case Ok((alias, ttl)) => Ok(CnameLine(alias, ttl, auth))
  }

  /** mx_output(ans, data): RDLENGTH, the preference, the alias loop from digit 28, the TTL. */
  function MxRecord(ans: Digits, data: Digits, fuel: nat, auth: Authority): Result<Line>
  {
    match RdLength(ans)
    case Err(e) => Err(e)
    case Ok(rdlength) =>
      match Preference(ans)
      case Err(e) => Err(e)
      case Ok(preference) =>
        match Alias(ans, data, 28, rdlength, fuel)
        case Err(e) => Err(e)
        case Ok(alias) =>
          match Ttl(ans)
          case Err(e) => Err(e)
          case Ok(ttl) => Ok(MxLine(alias, preference, ttl, auth))
  }

  /** ip_output, as the client runs it. */
  method IpOutput(ans: Digits, auth: Authority) returns (r: Result<Line>)
    ensures r == IpRecord(ans, auth)
  {
    var h := ans[Last8Start(ans)..];
    var ip: string := [];
    for i := 0 to 3
      invariant i == 0 || 2 * (i - 1) < |h|
      invariant ip == Octets(h, i)
    {
      if 2 * i >= |h| {
        return Err(IndexError);
      }
      ip := ip + ByteDecimal(Byte(h, 2 * i));
      if i != 2 {
        ip := ip + ".";
      }
    }
    OctetsOfBytes(h);
    BytesOfSuffix(ans, Last8Start(ans));
    var ttl := Ttl(ans);
    if ttl.Err? {
      return Err(ttl.error);
    }
    r := Ok(IpLine(ip, ttl.value, auth));
  }

  /** ns_output, as the client runs it. */
  method NsOutput(ans: Digits, data: Digits, fuel: nat, auth: Authority) returns (r: Result<Line>)
    ensures r == NsRecord(ans, data, fuel, auth)
  {
    var rdlength := RdLength(ans);
    if rdlength.Err? {
      return Err(rdlength.error);
    }
    var alias := DecodeAlias(ans, data, 24, rdlength.value, fuel);
    if alias.Err? {
      return Err(alias.error);
    }
    // RDLENGTH was read, so the text reaches past digit 20 and the TTL field is not empty.
    var ttl := Ttl(ans);
    r := Ok(NsLine(alias.value, ttl.value, auth));
  }

  /** cname_output, as the client runs it. */
  method CnameOutput(ans: Digits, data: Digits, fuel: nat, auth: Authority) returns (r: Result<Line>)
    ensures r == CnameRecord(ans, data, fuel, auth)
  {
    var rdlength := RdLength(ans);
    if rdlength.Err? {
      return Err(rdlength.error);
    }
    var alias := DecodeAlias(ans, data, 24, rdlength.value, fuel);
    if alias.Err? {
      return Err(alias.error);
    }
    // RDLENGTH was read, so the text reaches past digit 20 and the TTL field is not empty.
    var ttl := Ttl(ans);
    r := Ok(CnameLine(alias.value, ttl.value, auth));
  }

  /** mx_output, as the client runs it. */
  method MxOutput(ans: Digits, data: Digits, fuel: nat, auth: Authority) returns (r: Result<Line>)
    ensures r == MxRecord(ans, data, fuel, auth)
  {
    var rdlength := RdLength(ans);
    if rdlength.Err? {
      return Err(rdlength.error);
    }
    var preference := Preference(ans);
    if preference.Err? {
      return Err(preference.error);
    }
    var alias := DecodeAlias(ans, data, 28, rdlength.value, fuel);
    if alias.Err? {
      return Err(alias.error);
    }
    // RDLENGTH was read, so the text reaches past digit 20 and the TTL field is not empty.
    var ttl := Ttl(ans);
    r := Ok(MxLine(alias.value, preference.value, ttl.value, auth));
  }
}
