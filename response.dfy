/** The decoding half of make_request: the three counts of the response header,
    the NOTFOUND test, RCODE, the AA and TC bits, and the walks over the
    Answer, Authority and Additional sections (section 4.1 of RFC 1035). The
    lines the client prints become a sequence of events; an exception that ends
    the run becomes a final Crash event. */
module Response {
  import opened Errors
  import opened Hex
  import opened Records

  datatype Section = AnswerSection | AdditionalSection

  /** One line of the client's output. */
  datatype Event =
    | ResponseReceived(retries: nat)              // "Response received after ... (i retries)"
    | AttemptFailed(attempt: nat)                 // "ERROR ... at try i+1 ..."
    | RetriesExceeded(maxRetries: int)            // "ERROR Maximum number of retries ... exceeded"
    | NotFound                                    // "NOTFOUND"
    | ServerError(rcode: nat)                     // RCODE 1, 2, 4 or 5
    | Truncated                                   // "WARNING Truncated message ..."
    | SectionHeader(section: Section, count: nat) // "***Answer Section (n records)***"
    | UnexpectedClass(code: Digits)               // "ERROR Unexpected response: encountered class code ..."
    | UnsupportedType(index: nat, code: Digits)   // "ERROR Not supported record type for additional record ..."
    | Output(line: Line)                          // a record line from one of the output functions
    | Crash(error: Error)                         // an exception nobody catches

  /** What a walk over a section printed, and where it left the cursor, or the
      exception that stopped it. */
  datatype Walk = Walk(events: seq<Event>, cursor: Result<nat>)

  const ClassIn: Digits := [0, 0, 0, 1]
  const TypeA: Digits := [0, 0, 0, 1]
  const TypeNs: Digits := [0, 0, 0, 2]
  const TypeCname: Digits := [0, 0, 0, 5]
  const TypeMx: Digits := [0, 0, 0, 15]

  // ---------------------------------------------------------------------------
  // Header

  /** int(s) for the three counts: ANCOUNT, NSCOUNT and ARCOUNT are read as
      decimal, not hexadecimal, numbers. */
  function Counts(data: Digits): (r: Result<(nat, nat, nat)>)
    ensures r.Ok? <==> (|data| > 20 && DecimalDigits(Slice(data, 12, 16))
      && DecimalDigits(Slice(data, 16, 20)) && DecimalDigits(Slice(data, 20, 24)))
  {
    match ParseDecimal(Slice(data, 12, 16))
    case Err(e) => Err(e)
    case Ok(an) =>
      match ParseDecimal(Slice(data, 16, 20))
      case Err(e) => Err(e)
      case Ok(ns) =>
        match ParseDecimal(Slice(data, 20, 24))
        case Err(e) => Err(e)
        case Ok(ar) => Ok((an, ns, ar))
  }

  /** Python's & on non-negative integers, bit by bit. */
  function BitAnd(a: nat, b: nat): (r: nat)
    ensures r <= a && r <= b
    decreases a
  {
    if a == 0 || b == 0 then 0
    else 2 * BitAnd(a / 2, b / 2) + (if a % 2 == 1 && b % 2 == 1 then 1 else 0)
  }

  /** an == 0 & ns == 0 & ar == 0, which Python reads as the chained comparison
      an == (0 & ns) == (0 & ar) == 0. */
  function NotFoundTest(an: nat, ns: nat, ar: nat): bool
  {
    var x := BitAnd(0, ns);
    var y := BitAnd(0, ar);
    an == x && x == y && y == 0
  }

  /** Bit AA, the third bit of the sixth digit. */
  function AuthorityOf(data: Digits): Authority
    requires |data| > 5
  {
    if Bit(data[5], 2) then Auth else Nonauth
  }

  /** RCODE 1 (format error), 2 (server failure), 4 (not implemented) and 5 (refused). */
  predicate IsServerError(rcode: nat)
  {
    rcode == 1 || rcode == 2 || rcode == 4 || rcode == 5
  }

  // ---------------------------------------------------------------------------
  // One record

  /** The output function the TYPE of the record at digit s selects, run on the
      record's text data[s:next]; Ok(None) for any other TYPE. */
  function Dispatch(data: Digits, s: nat, next: nat, fuel: nat, auth: Authority): Result<Option<Line>>
  {
    var rtype := Slice(data, s + 4, s + 8);
    var rec := Slice(data, s, next);
    if rtype == TypeA then Found(IpRecord(rec, auth))
    else if rtype == TypeNs then Found(NsRecord(rec, data, fuel, auth))
    else if rtype == TypeMx then Found(MxRecord(rec, data, fuel, auth))
    else if rtype == TypeCname then Found(CnameRecord(rec, data, fuel, auth))
    else Ok(None)
  }

  function Found(r: Result<Line>): Result<Option<Line>>
  {
    match r
    case Err(e) => Err(e)
    case Ok(line) => Ok(Some(line))
  }

  /** What a round prints once the output function has run: its line, or
      unknown when no output function took the TYPE; the next record starts at
      next. */
  function Emit(r: Result<Option<Line>>, next: nat, unknown: seq<Event>): Walk
  {
    match r
    case Err(e) => Walk([], Err(e))
    case Ok(None) => Walk(unknown, Ok(next))
    case Ok(Some(line)) => Walk([Output(line)], Ok(next))
  }

  /** Where the record after the one at digit s starts: end_ans + 1, that is
      s + 24 + 2 * RDLENGTH, where RDLENGTH is read in hexadecimal. */
  function RecordEnd(data: Digits, s: nat): (r: Result<nat>)
    ensures r.Ok? <==> |data| > s + 20
    ensures r.Ok? ==> s + 24 <= r.value < s + 24 + 2 * 0x10000 && (r.value - s) % 2 == 0
  {
    var field := Slice(data, s + 20, s + 24);
    Pow16Monotone(|field|, 4);
    assert Pow16(4) == 0x10000;
    match ParseHex(field)
    case Err(e) => Err(e)
    case Ok(rdlength) => Ok(s + 24 + 2 * rdlength)
  }

  /** One round of the Answer loop at digit s. A CLASS other than IN is reported
      and the loop goes on with the cursor where it was. */
  function AnswerStep(data: Digits, s: nat, fuel: nat, auth: Authority): Walk
  {
    match RecordEnd(data, s)
    case Err(e) => Walk([], Err(e))
    case Ok(next) =>
      var classCode := Slice(data, s + 8, s + 12);
      if classCode != ClassIn then Walk([UnexpectedClass(classCode)], Ok(s))
      else Emit(Dispatch(data, s, next, fuel, auth), next, [])
  }

  /** Round i of the Additional loop at digit s, where index is i + 1. The CLASS
      is not looked at; an unknown TYPE is reported. */
  function AdditionalStep(data: Digits, s: nat, index: nat, fuel: nat, auth: Authority): Walk
  {
    match RecordEnd(data, s)
    case Err(e) => Walk([], Err(e))
    case Ok(next) => Emit(Dispatch(data, s, next, fuel, auth), next, [UnsupportedType(index, Slice(data, s + 4, s + 8))])
  }

  // ---------------------------------------------------------------------------
  // Sections

  /** The first count rounds of a section loop from digit start; round i + 1
      runs at the cursor the previous rounds left, and an exception ends the loop. */
  function Iterate(round: (nat, nat) -> Walk, start: nat, count: nat): Walk
    decreases count
  {
    if count == 0 then Walk([], Ok(start))
    else
      var w := Iterate(round, start, count - 1);
      if w.cursor.Err? then w
      else
        var step := round(w.cursor.value, count);
        Walk(w.events + step.events, step.cursor)
  }

  function AnswerRound(data: Digits, fuel: nat, auth: Authority): (nat, nat) -> Walk
  {
    (s: nat, index: nat) => AnswerStep(data, s, fuel, auth)
  }

  function AdditionalRound(data: Digits, fuel: nat, auth: Authority): (nat, nat) -> Walk
  {
    (s: nat, index: nat) => AdditionalStep(data, s, index, fuel, auth)
  }

  /** The first count rounds of the Answer loop from digit start. */
  function Answers(data: Digits, start: nat, count: nat, fuel: nat, auth: Authority): Walk
  {
    Iterate(AnswerRound(data, fuel, auth), start, count)
  }

  /** The first count rounds of the Additional loop from digit start. */
  function Additionals(data: Digits, start: nat, count: nat, fuel: nat, auth: Authority): Walk
  {
    Iterate(AdditionalRound(data, fuel, auth), start, count)
  }

  /** The first count rounds of the Authority loop from digit start. */
  function Skip(data: Digits, start: nat, count: nat): Result<nat>
    decreases count
  {
    if count == 0 then Ok(start)
    else
      match Skip(data, start, count - 1)
      case Err(e) => Err(e)
      case Ok(s) => RecordEnd(data, s)
  }

  /** The events of a walk, followed by the exception that stopped it, if any. */
  function Finish(w: Walk): seq<Event>
  {
    if w.cursor.Err? then w.events + [Crash(w.cursor.error)] else w.events
  }

  /** The three sections, the Answer section starting right after the question.
      ANCOUNT is not zero here, so the Answer header is always printed. The
      Authority loop runs when NSCOUNT is not zero, but ARCOUNT times. */
  function Sections(data: Digits, start: nat, an: nat, ns: nat, ar: nat, fuel: nat, auth: Authority): seq<Event>
  {
    var answers := Answers(data, start, an, fuel, auth);
    var head := [SectionHeader(AnswerSection, an)] + answers.events;
    if answers.cursor.Err? then head + [Crash(answers.cursor.error)]
    else
      var skipped := if ns > 0 then Skip(data, answers.cursor.value, ar) else answers.cursor;
      if skipped.Err? then head + [Crash(skipped.error)]
      else if ar == 0 then head
      else head + [SectionHeader(AdditionalSection, ar)] + Finish(Additionals(data, skipped.value, ar, fuel, auth))
  }

  /** Everything make_request prints once the counts are read, which takes more
      than 20 digits, so the RA and RCODE digits are there. */
  function Interpret(data: Digits, start: nat, an: nat, ns: nat, ar: nat, fuel: nat): seq<Event>
    requires |data| > 20
  {
    if NotFoundTest(an, ns, ar) then [NotFound]
    else
      var rcode := data[7] as nat;
      if IsServerError(rcode) then [ServerError(rcode)]
      else if rcode == 3 then [NotFound]
      else if rcode != 0 then []
      else (if Bit(data[5], 1) then [Truncated] else []) + Sections(data, start, an, ns, ar, fuel, AuthorityOf(data))
  }

  /** Everything make_request prints about a response data, given the length of
      the query it sent. */
  function Decode(data: Digits, queryLength: nat, fuel: nat): seq<Event>
  {
    match Counts(data)
    case Err(e) => [Crash(e)]
    case Ok((an, ns, ar)) => Interpret(data, queryLength, an, ns, ar, fuel)
  }

  // ---------------------------------------------------------------------------
  // The loops, as the client runs them

  /** An exception ends a walk: further rounds change nothing. */
  lemma {:induction false} IterateStop(round: (nat, nat) -> Walk, start: nat, i: nat, j: nat)
    requires i <= j && Iterate(round, start, i).cursor.Err?
    ensures Iterate(round, start, j) == Iterate(round, start, i)
    decreases j
  {
    if j > i {
      IterateStop(round, start, i, j - 1);
    }
  }

  lemma {:induction false} SkipStop(data: Digits, start: nat, i: nat, j: nat)
    requires i <= j && Skip(data, start, i).Err?
    ensures Skip(data, start, j) == Skip(data, start, i)
    decreases j
  {
    if j > i {
      SkipStop(data, start, i, j - 1);
    }
  }

  /** rdlength = int(data[s+20:s+24], 16), then end_ans + 1, as the client computes them. */
  method NextRecord(data: Digits, s: nat) returns (r: Result<nat>)
    ensures r == RecordEnd(data, s)
  {
    var rdlength := ParseHex(Slice(data, s + 20, s + 24));
    if rdlength.Err? {
      return Err(rdlength.error);
    }
    var endAns := s + 23 + 2 * rdlength.value;
    r := Ok(endAns + 1);
  }

  /** The if-chain on TYPE that calls one of the output functions. */
  method OutputRecord(data: Digits, s: nat, next: nat, fuel: nat, auth: Authority) returns (r: Result<Option<Line>>)
    ensures r == Dispatch(data, s, next, fuel, auth)
  {
    var rtype := Slice(data, s + 4, s + 8);
    var rec := Slice(data, s, next);
    var line: Result<Line>;
    if rtype == TypeA {
      line := IpOutput(rec, auth);
    } else if rtype == TypeNs {
      line := NsOutput(rec, data, fuel, auth);
    } else if rtype == TypeMx {
      line := MxOutput(rec, data, fuel, auth);
    } else if rtype == TypeCname {
      line := CnameOutput(rec, data, fuel, auth);
    } else {
      return Ok(None);
    }
    r := Found(line);
  }

  /** One round of the Answer loop, as the client runs it. */
  method AnswerRecord(data: Digits, s: nat, fuel: nat, auth: Authority) returns (w: Walk)
    ensures w == AnswerStep(data, s, fuel, auth)
  {
    var next := NextRecord(data, s);
    if next.Err? {
      return Walk([], Err(next.error));
    }
    var classCode := Slice(data, s + 8, s + 12);
    if classCode != ClassIn {
      return Walk([UnexpectedClass(classCode)], Ok(s));
    }
    var line := OutputRecord(data, s, next.value, fuel, auth);
    w := Emit(line, next.value, []);
  }

  /** The loop from the previous round's cursor on, one round further. */
  lemma {:induction false} IterateStep(round: (nat, nat) -> Walk, start: nat, i: nat, events: seq<Event>, s: nat)
    requires Iterate(round, start, i) == Walk(events, Ok(s))
    ensures Iterate(round, start, i + 1) == Walk(events + round(s, i + 1).events, round(s, i + 1).cursor)
  {
  }

  /** The Answer loop of make_request. */
  method WalkAnswers(data: Digits, start: nat, count: nat, fuel: nat, auth: Authority) returns (events: seq<Event>, cursor: Result<nat>)
    ensures Walk(events, cursor) == Answers(data, start, count, fuel, auth)
  {
    ghost var round := AnswerRound(data, fuel, auth);
    events := [];
    var s := start;
    for i := 0 to count
      invariant Iterate(round, start, i) == Walk(events, Ok(s))
    {
      var step := AnswerRecord(data, s, fuel, auth);
      assert step == round(s, i + 1);
      IterateStep(round, start, i, events, s);
      events := events + step.events;
      if step.cursor.Err? {
        IterateStop(round, start, i + 1, count);
        return events, step.cursor;
      }
      s := step.cursor.value;
    }
    cursor := Ok(s);
  }

  /** The Authority loop of make_request, run count times. */
  method SkipAuthority(data: Digits, start: nat, count: nat) returns (cursor: Result<nat>)
    ensures cursor == Skip(data, start, count)
  {
    var s := start;
    for i := 0 to count
      invariant Skip(data, start, i) == Ok(s)
    {
      var next := NextRecord(data, s);
      if next.Err? {
        SkipStop(data, start, i + 1, count);
        return next;
      }
      s := next.value;
    }
    cursor := Ok(s);
  }

  /** Round index of the Additional loop, as the client runs it. */
  method AdditionalRecord(data: Digits, s: nat, index: nat, fuel: nat, auth: Authority) returns (w: Walk)
    ensures w == AdditionalStep(data, s, index, fuel, auth)
  {
    var next := NextRecord(data, s);
    if next.Err? {
      return Walk([], Err(next.error));
    }
    var line := OutputRecord(data, s, next.value, fuel, auth);
    w := Emit(line, next.value, [UnsupportedType(index, Slice(data, s + 4, s + 8))]);
  }

  /** The Additional loop of make_request. */
  method WalkAdditionals(data: Digits, start: nat, count: nat, fuel: nat, auth: Authority) returns (events: seq<Event>, cursor: Result<nat>)
    ensures Walk(events, cursor) == Additionals(data, start, count, fuel, auth)
  {
    ghost var round := AdditionalRound(data, fuel, auth);
    events := [];
    var s := start;
    for i := 0 to count
      invariant Iterate(round, start, i) == Walk(events, Ok(s))
    {
      var step := AdditionalRecord(data, s, i + 1, fuel, auth);
      assert step == round(s, i + 1);
      IterateStep(round, start, i, events, s);
      events := events + step.events;
      if step.cursor.Err? {
        IterateStop(round, start, i + 1, count);
        return events, step.cursor;
      }
      s := step.cursor.value;
    }
    cursor := Ok(s);
  }
}
