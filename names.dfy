/** Domain names in the response: the decoder `fetch_compressed`, which follows
    compression pointers (section 4.1.4 of RFC 1035), and the alias loop that
    ns_output, cname_output and mx_output share for the name inside RDATA
    (sections 3.3.11, 3.3.1 and 3.3.9 of RFC 1035).

    Both are modelled as the client has them, including three behaviours that
    differ from RFC 1035:
    - a pointer met inside fetch_compressed is followed to hex digit T, not to
      byte T (the top-level calls from the alias loop double the offset);
    - after a pointer, fetch_compressed goes on reading labels instead of ending
      the name;
    - nothing bounds the chain of pointers: a cycle recurses until Python's
      recursion limit. The `fuel` parameter is that budget of nested calls, and
      running out of it is RecursionError. */
module Names {
  import opened Errors
  import opened Hex
  import Query

  /** int(text[p:p+2], 16) where digit p exists. */
  function Byte(d: Digits, p: nat): (r: nat)
    requires p < |d|
    ensures r < 256
  {
    if p + 1 < |d| then (d[p] as nat) * 16 + d[p + 1] else d[p]
  }

  /** The test ((n >> 2) & 1) & ((n >> 3) & 1) on the high digit of a byte: both
      of its top bits are set (see PointerBits). */
  predicate IsPointer(n: Nibble)
  {
    n >= 12
  }

  /** IsPointer is the client's bit test. */
  lemma {:induction false} PointerBits(n: Nibble)
    ensures IsPointer(n) <==> Bit(n, 2) && Bit(n, 3)
  {
  }

  /** int(text[p:p+4], 16) where digit p exists: the slice may be cut short by the end of the text. */
  function Word(d: Digits, p: nat): (r: nat)
    requires p < |d|
    ensures r < 0x10000
  {
    var b := Byte(d, p);
    if p + 3 < |d| then b * 256 + (d[p + 2] as nat) * 16 + d[p + 3]
    else if p + 2 < |d| then b * 16 + d[p + 2]
    else b
  }

  /** int(text[p:p+4], 16) & 0x3fff: the offset a compression pointer carries,
      the low 14 bits of the word (see MaskKeepsLowBits). */
  function PointerTarget(d: Digits, p: nat): (r: nat)
    requires p < |d|
    ensures r < 0x4000
  {
    Word(d, p) % 0x4000
  }

  /** Masking a 16-bit word with 0x3fff is taking it modulo 0x4000. */
  lemma {:induction false} MaskKeepsLowBits(w: bv16)
    ensures w & 0x3FFF == w % 0x4000
  {
  }

  /** chr(v) of a value read from at most two hex digits. */
  function Chr(v: nat): char
    requires v < 256
  {
    v as char
  }

  /** `for j in range(n): result += chr(int(text[q:q+2], 16)); q += 2`;
      a slice that has run past the end of the text is empty and raises ValueError. */
  function ReadChars(d: Digits, q: nat, n: nat): Result<string>
    decreases n
  {
    if n == 0 then Ok([])
    else
      if q >= |d| then Err(ValueError)
      else Prepend([Chr(Byte(d, q))], ReadChars(d, q + 2, n - 1))
  }

  /** `if result[-1:] == '.': result = result[:-1]` */
  function StripDot(s: string): string
  {
    if |s| > 0 && s[|s| - 1] == '.' then s[..|s| - 1] else s
  }

  /** fetch_compressed(p, data) with a budget of `fuel` nested calls. */
  function Fetch(d: Digits, p: nat, fuel: nat): Result<string>
    decreases fuel, |d| - p, 1
  {
    match Labels(d, p, fuel)
    case Ok(s) => Ok(StripDot(s))
    case Err(e) => Err(e)
  }

  /** The `while True` loop of fetch_compressed from digit p: what it appends to
      `result` until the zero length that breaks it, or the exception that ends it. */
  function Labels(d: Digits, p: nat, fuel: nat): Result<string>
    decreases fuel, |d| - p, 0
  {
    if p >= |d| then Err(IndexError)
    else if IsPointer(d[p]) then
      if fuel == 0 then Err(RecursionError)
      else
        match Fetch(d, PointerTarget(d, p), fuel - 1)
        case Err(e) => Err(e)
        case Ok(inner) => Prepend(inner, Labels(d, p + 4, fuel))
    else
      var length := Byte(d, p);
      if length == 0 then Ok([])
      else
        match ReadChars(d, p + 2, length)
        case Err(e) => Err(e)
        case Ok(chars) => Prepend(chars + ".", Labels(d, p + 2 + 2 * length, fuel))
  }

  /** The character loop that fetch_compressed and the alias loop share:
      `for j in range(n): result += chr(int(text[q:q+2], 16)); q += 2`. */
  method ReadLabel(d: Digits, q: nat, n: nat) returns (r: Result<string>)
    ensures r == ReadChars(d, q, n)
  {
    var chars: string := [];
    var pointer := q;
    ghost var whole := ReadChars(d, q, n);
    PrependNothing(whole);
    for j := 0 to n
      invariant pointer == q + 2 * j
      invariant whole == Prepend(chars, ReadChars(d, pointer, n - j))
    {
      if pointer >= |d| {
        return Err(ValueError);
      }
      var c := Chr(Byte(d, pointer));
      PrependPrepend(chars, [c], ReadChars(d, pointer + 2, n - j - 1));
      chars := chars + [c];
      pointer := pointer + 2;
    }
    assert chars + [] == chars;
    r := Ok(chars);
  }

  /** An exception ends the fetch_compressed loop: it is what the whole loop comes to. */
  lemma {:induction false} Stop(whole: Result<string>, result: string, d: Digits, p: nat, fuel: nat)
    requires whole == Prepend(result, Labels(d, p, fuel)) && Labels(d, p, fuel).Err?
    ensures whole == Labels(d, p, fuel)
  {
  }

  /** The zero length ends the fetch_compressed loop with what it has written. */
  lemma {:induction false} RootLabel(whole: Result<string>, result: string, d: Digits, p: nat, fuel: nat)
    requires whole == Prepend(result, Labels(d, p, fuel))
    requires p < |d| && !IsPointer(d[p]) && Byte(d, p) == 0
    ensures whole == Ok(result)
  {
    assert result + [] == result;
  }

  /** One pass of the fetch_compressed loop over a pointer, as FetchCompressed's invariant needs it. */
  lemma {:induction false} PointerStep(whole: Result<string>, result: string, d: Digits, p: nat, fuel: nat, inner: string)
    requires whole == Prepend(result, Labels(d, p, fuel))
    requires p < |d| && IsPointer(d[p]) && fuel > 0
    requires Fetch(d, PointerTarget(d, p), fuel - 1) == Ok(inner)
    ensures whole == Prepend(result + inner, Labels(d, p + 4, fuel))
  {
    PrependPrepend(result, inner, Labels(d, p + 4, fuel));
  }

  /** One pass of the fetch_compressed loop over a label, as FetchCompressed's invariant needs it. */
  lemma {:induction false} LabelStep(whole: Result<string>, result: string, d: Digits, p: nat, fuel: nat, chars: string)
    requires whole == Prepend(result, Labels(d, p, fuel))
    requires p < |d| && !IsPointer(d[p])
    requires Byte(d, p) > 0
    requires ReadChars(d, p + 2, Byte(d, p)) == Ok(chars)
    ensures whole == Prepend(result + chars + ".", Labels(d, p + 2 + 2 * Byte(d, p), fuel))
  {
    PrependPrepend(result, chars + ".", Labels(d, p + 2 + 2 * Byte(d, p), fuel));
    assert result + (chars + ".") == result + chars + ".";
  }

  /** fetch_compressed, as the loop the client runs. */
  method FetchCompressed(d: Digits, start: nat, fuel: nat) returns (r: Result<string>)
    ensures r == Fetch(d, start, fuel)
    decreases fuel
  {
    var pointer := start;
    var result: string := [];
    ghost var whole := Labels(d, start, fuel);
    PrependNothing(whole);
    while true
      invariant whole == Prepend(result, Labels(d, pointer, fuel))
      decreases |d| - pointer
    {
      if pointer >= |d| {
        Stop(whole, result, d, pointer, fuel);
        return Err(IndexError);
      }
      if IsPointer(d[pointer]) {
        if fuel == 0 {
          Stop(whole, result, d, pointer, fuel);
          return Err(RecursionError);
        }
        var inner := FetchCompressed(d, PointerTarget(d, pointer), fuel - 1);
        if inner.Err? {
          Stop(whole, result, d, pointer, fuel);
          return Err(inner.error);
        }
        PointerStep(whole, result, d, pointer, fuel, inner.value);
        result := result + inner.value;
        pointer := pointer + 4;
      } else {
        var length := Byte(d, pointer);
        if length == 0 {
          RootLabel(whole, result, d, pointer, fuel);
          break;
        }
        var chars := ReadLabel(d, pointer + 2, length);
        if chars.Err? {
          Stop(whole, result, d, pointer, fuel);
          return Err(chars.error);
        }
        LabelStep(whole, result, d, pointer, fuel, chars.value);
        result := result + chars.value + ".";
        pointer := pointer + 2 + 2 * length;
      }
    }
    if |result| > 0 && result[|result| - 1] == '.' {
      result := result[..|result| - 1];
    }
    r := Ok(result);
  }

  /** The alias loop of ns_output, cname_output and mx_output, from digit p of the
      record text `ans` while p < 24 + 2*rdlength. A pointer is followed into the
      whole message `data` at digit 2*target; every label is followed by a dot
      unless it ends exactly at digit 22 + 2*rdlength. */
  function Alias(ans: Digits, data: Digits, p: nat, rdlength: nat, fuel: nat): Result<string>
    decreases 24 + 2 * rdlength - p
  {
    if p >= 24 + 2 * rdlength then Ok([])
    else if p >= |ans| then Err(IndexError)
    else if IsPointer(ans[p]) then
      match Fetch(data, 2 * PointerTarget(ans, p), fuel)
      case Err(e) => Err(e)
      case Ok(name) => Prepend(name, Alias(ans, data, p + 4, rdlength, fuel))
    else
      var length := Byte(ans, p);
      match ReadChars(ans, p + 2, length)
      case Err(e) => Err(e)
      case Ok(chars) =>
        var q := p + 2 + 2 * length;
        Prepend(if q != 22 + 2 * rdlength then chars + "." else chars, Alias(ans, data, q, rdlength, fuel))
  }

  /** The alias loop, as the client runs it. */
  method DecodeAlias(ans: Digits, data: Digits, start: nat, rdlength: nat, fuel: nat) returns (r: Result<string>)
    ensures r == Alias(ans, data, start, rdlength, fuel)
  {
    var alias: string := [];
    var pointer := start;
    ghost var whole := Alias(ans, data, start, rdlength, fuel);
    PrependNothing(whole);
    while pointer < 24 + 2 * rdlength
      invariant whole == Prepend(alias, Alias(ans, data, pointer, rdlength, fuel))
      decreases 24 + 2 * rdlength - pointer
    {
      if pointer >= |ans| {
        AliasFails(whole, alias, ans, data, pointer, rdlength, fuel, IndexError);
        return Err(IndexError);
      }
      if IsPointer(ans[pointer]) {
        var name := FetchCompressed(data, 2 * PointerTarget(ans, pointer), fuel);
        if name.Err? {
          AliasFails(whole, alias, ans, data, pointer, rdlength, fuel, name.error);
          return Err(name.error);
        }
        AliasPointerStep(whole, alias, ans, data, pointer, rdlength, fuel, name.value);
        alias := alias + name.value;
        pointer := pointer + 4;
      } else {
        var length := Byte(ans, pointer);
        var chars := ReadLabel(ans, pointer + 2, length);
        if chars.Err? {
          AliasFails(whole, alias, ans, data, pointer, rdlength, fuel, chars.error);
          return Err(chars.error);
        }
        AliasLabelStep(whole, alias, ans, data, pointer, rdlength, fuel, chars.value);
        pointer := pointer + 2 + 2 * length;
        alias := alias + if pointer != 22 + 2 * rdlength then chars.value + "." else chars.value;
      }
    }
    AliasEnd(whole, alias, ans, data, pointer, rdlength, fuel);
    r := Ok(alias);
  }

  /** An exception ends the alias loop: it is what the whole loop comes to. */
  lemma {:induction false} AliasFails(whole: Result<string>, alias: string, ans: Digits, data: Digits, p: nat, rdlength: nat, fuel: nat, e: Error)
    requires whole == Prepend(alias, Alias(ans, data, p, rdlength, fuel)) && p < 24 + 2 * rdlength
    requires || (p >= |ans| && e == IndexError)
             || (p < |ans| && IsPointer(ans[p]) && Fetch(data, 2 * PointerTarget(ans, p), fuel) == Err(e))
             || (p < |ans| && !IsPointer(ans[p]) && ReadChars(ans, p + 2, Byte(ans, p)) == Err(e))
    ensures whole == Err(e)
  {
  }

  /** The end of RDATA ends the alias loop with what it has written. */
  lemma {:induction false} AliasEnd(whole: Result<string>, alias: string, ans: Digits, data: Digits, p: nat, rdlength: nat, fuel: nat)
    requires whole == Prepend(alias, Alias(ans, data, p, rdlength, fuel)) && p >= 24 + 2 * rdlength
    ensures whole == Ok(alias)
  {
    assert alias + [] == alias;
  }

  /** One pass of the alias loop over a pointer, as DecodeAlias's invariant needs it. */
  lemma {:induction false} AliasPointerStep(whole: Result<string>, alias: string, ans: Digits, data: Digits, p: nat, rdlength: nat, fuel: nat, name: string)
    requires whole == Prepend(alias, Alias(ans, data, p, rdlength, fuel))
    requires p < 24 + 2 * rdlength && p < |ans| && IsPointer(ans[p])
    requires Fetch(data, 2 * PointerTarget(ans, p), fuel) == Ok(name)
    ensures whole == Prepend(alias + name, Alias(ans, data, p + 4, rdlength, fuel))
  {
    PrependPrepend(alias, name, Alias(ans, data, p + 4, rdlength, fuel));
  }

  /** One pass of the alias loop over a label, as DecodeAlias's invariant needs it. */
  lemma {:induction false} AliasLabelStep(whole: Result<string>, alias: string, ans: Digits, data: Digits, p: nat, rdlength: nat, fuel: nat, chars: string)
    requires whole == Prepend(alias, Alias(ans, data, p, rdlength, fuel))
    requires p < 24 + 2 * rdlength && p < |ans| && !IsPointer(ans[p])
    requires ReadChars(ans, p + 2, Byte(ans, p)) == Ok(chars)
    ensures var q := p + 2 + 2 * Byte(ans, p);
      whole == Prepend(alias + (if q != 22 + 2 * rdlength then chars + "." else chars), Alias(ans, data, q, rdlength, fuel))
  {
    var q := p + 2 + 2 * Byte(ans, p);
    PrependPrepend(alias, if q != 22 + 2 * rdlength then chars + "." else chars, Alias(ans, data, q, rdlength, fuel));
  }
}
