/** The DnsClient object: the record type asked for, the three counts read from
    the response, the length of the query sent and whether the answer was
    authoritative are fields that input, make_query, set_number_of_records and
    make_request update in place. The command line becomes the constructor's
    parameters; the random query ID and the outcome of every network attempt
    become parameters of make_query and make_request. */
module Client {
  import opened Errors
  import opened Hex
  import Query
  import opened Records
  import opened Response
  import opened Transport

  /** Everything make_request prints: the retry loop's lines, then either
      nothing more (it gave up), the UnboundLocalError of a loop that never ran,
      or the decoding of the response. */
  function Run(name: string, requestType: Query.RequestType, maxRetries: int, id: nat, attempts: seq<Attempt>, fuel: nat): seq<Event>
  {
    var exchange := Retry(maxRetries, attempts);
    match exchange.outcome
    case GaveUp => exchange.events
    case NeverTried => exchange.events + [Crash(UnboundLocalError)]
    case Received(data) => exchange.events + Decode(data, |Query.QueryText(id, name, requestType)|, fuel)
  }

  /** Whether make_request gets past the counts, the NOTFOUND test and RCODE
      to the line that sets auth_or_nonauth. */
  predicate ReachesSections(data: Digits)
  {
    && Counts(data).Ok?
    && !NotFoundTest(Counts(data).value.0, Counts(data).value.1, Counts(data).value.2)
    && |data| > 7 && data[7] == 0
  }

  /** What set_number_of_records leaves in the three counts, which held
      `before`: each count is read in decimal in turn, and the one that raises
      ValueError and those after it keep their old values. */
  predicate CountsStored(data: Digits, before: (nat, nat, nat), after: (nat, nat, nat))
  {
    var an, ns, ar := ParseDecimal(Slice(data, 12, 16)), ParseDecimal(Slice(data, 16, 20)), ParseDecimal(Slice(data, 20, 24));
    && after.0 == (if an.Ok? then an.value else before.0)
    && after.1 == (if an.Ok? && ns.Ok? then ns.value else before.1)
    && after.2 == (if an.Ok? && ns.Ok? && ar.Ok? then ar.value else before.2)
  }

  class DnsClient {
    const name: string
    const mx: bool
    const ns: bool
    const maxRetries: int
    var requestType: Query.RequestType
    var numberOfAnswers: nat
    var numberOfAuthoritativeRecords: nat
    var numberOfAdditionalRecords: nat
    var queryLength: nat
    var authOrNonauth: Authority

    /** number_of_answers, number_of_authoritative_records and number_of_additional_records. */
    function Tally(): (nat, nat, nat)
      reads this
    {
      (numberOfAnswers, numberOfAuthoritativeRecords, numberOfAdditionalRecords)
    }

    /** The parsed command line (-mx, -ns, -r and the name) and the class
        attributes' initial values. */
    constructor (name: string, mx: bool, ns: bool, maxRetries: int)
      ensures this.name == name && this.mx == mx && this.ns == ns && this.maxRetries == maxRetries
      ensures requestType == Query.A && authOrNonauth == Auth
      ensures numberOfAnswers == 0 && numberOfAuthoritativeRecords == 0 && numberOfAdditionalRecords == 0
      ensures queryLength == 0
    {
      this.name := name;
      this.mx := mx;
      this.ns := ns;
      this.maxRetries := maxRetries;
      requestType := Query.A;
      numberOfAnswers := 0;
      numberOfAuthoritativeRecords := 0;
      numberOfAdditionalRecords := 0;
      queryLength := 0;
      authOrNonauth := Auth;
    }

    /** input(): -mx asks for MX records, otherwise -ns for NS records,
        otherwise the type stays as it was. */
    method Input()
      modifies this
      ensures requestType == (if mx then Query.MX else if ns then Query.NS else old(requestType))
      ensures numberOfAnswers == old(numberOfAnswers) && numberOfAuthoritativeRecords == old(numberOfAuthoritativeRecords)
      ensures numberOfAdditionalRecords == old(numberOfAdditionalRecords)
      ensures queryLength == old(queryLength) && authOrNonauth == old(authOrNonauth)
    {
      if mx {
        requestType := Query.MX;
      } else if ns {
        requestType := Query.NS;
      }
    }

    /** make_query(): the query for name with the ID id, whose length is
        remembered as the place the Answer section starts. */
    method MakeQuery(id: nat) returns (query: Digits)
      requires id < 0x10000
      modifies this
      ensures query == Query.QueryText(id, name, requestType)
      ensures queryLength == |query|
      ensures Query.ShortLabels(name) ==> queryLength == 2 * |name| + 36
      ensures requestType == old(requestType) && authOrNonauth == old(authOrNonauth)
      ensures numberOfAnswers == old(numberOfAnswers) && numberOfAuthoritativeRecords == old(numberOfAuthoritativeRecords)
      ensures numberOfAdditionalRecords == old(numberOfAdditionalRecords)
    {
      query := Field(id, 4) + Query.Flags + Query.Counts;
      var qname := Query.EncodeQName(name);
      query := query + qname + Query.QType(requestType) + Query.QClass;
      queryLength := |query|;
      if Query.ShortLabels(name) {
        Query.QueryLength(id, name, requestType);
      }
    }

    /** set_number_of_records(data): the three counts in turn, each read in
        decimal; a count that cannot be read raises ValueError and leaves it and
        the counts after it as they were. */
    method SetNumberOfRecords(data: Digits) returns (error: Option<Error>)
      modifies this
      ensures error == (if Counts(data).Ok? then None else Some(ValueError))
      ensures Counts(data).Ok? ==> Counts(data).value == Tally()
      ensures CountsStored(data, old(Tally()), Tally())
      ensures requestType == old(requestType) && queryLength == old(queryLength) && authOrNonauth == old(authOrNonauth)
    {
      var an := ParseDecimal(Slice(data, 12, 16));
      if an.Err? {
        return Some(an.error);
      }
      numberOfAnswers := an.value;
      var ns := ParseDecimal(Slice(data, 16, 20));
      if ns.Err? {
        return Some(ns.error);
      }
      numberOfAuthoritativeRecords := ns.value;
      var ar := ParseDecimal(Slice(data, 20, 24));
      if ar.Err? {
        return Some(ar.error);
      }
      numberOfAdditionalRecords := ar.value;
      error := None;
    }

    /** The part of make_request after a response data has arrived. */
    method ReadResponse(data: Digits, fuel: nat) returns (events: seq<Event>)
      modifies this
      ensures events == Decode(data, queryLength, fuel)
      ensures Counts(data).Ok? ==> Counts(data).value == Tally()
      ensures CountsStored(data, old(Tally()), Tally())
      ensures authOrNonauth == if ReachesSections(data) then AuthorityOf(data) else old(authOrNonauth)
      ensures requestType == old(requestType) && queryLength == old(queryLength)
    {
      var error := SetNumberOfRecords(data);
      if error.Some? {
        return [Crash(error.value)];
      }
      var an, ns, ar := numberOfAnswers, numberOfAuthoritativeRecords, numberOfAdditionalRecords;
      if NotFoundTest(an, ns, ar) {
        return [NotFound];
      }
      // The counts were read, so data reaches past digit 20: data[6] (the RA
      // digit) and data[7] (RCODE) exist.
      var rcode := data[7] as nat;
      if IsServerError(rcode) {
        return [ServerError(rcode)];
      } else if rcode == 3 {
        return [NotFound];
      } else if rcode != 0 {
        return [];
      }
      authOrNonauth := if Bit(data[5], 2) then Auth else Nonauth;
      var tc: seq<Event> := if Bit(data[5], 1) then [Truncated] else [];
      var sections := ReadSections(data, an, ns, ar, fuel);
      events := tc + sections;
    }

    /** The Answer, Authority and Additional loops, from the end of the query on.
        ANCOUNT is not zero here, so the Answer header is always printed. */
    method ReadSections(data: Digits, an: nat, ns: nat, ar: nat, fuel: nat) returns (events: seq<Event>)
      requires an > 0
      ensures events == Sections(data, queryLength, an, ns, ar, fuel, authOrNonauth)
    {
      events := [SectionHeader(AnswerSection, an)];
      var answers, cursor := WalkAnswers(data, queryLength, an, fuel, authOrNonauth);
      events := events + answers;
      if cursor.Err? {
        return events + [Crash(cursor.error)];
      }
      if ns > 0 {
        cursor := SkipAuthority(data, cursor.value, ar);
        if cursor.Err? {
          return events + [Crash(cursor.error)];
        }
      }
      if ar > 0 {
        events := events + [SectionHeader(AdditionalSection, ar)];
        var additionals, last := WalkAdditionals(data, cursor.value, ar, fuel, authOrNonauth);
        events := events + Finish(Walk(additionals, last));
      }
    }

    /** make_request(): build and send the query, retrying, then decode the response. */
    method MakeRequest(id: nat, attempts: seq<Attempt>, fuel: nat) returns (events: seq<Event>)
      requires id < 0x10000
      modifies this
      ensures events == Run(name, requestType, maxRetries, id, attempts, fuel)
      ensures queryLength == |Query.QueryText(id, name, requestType)|
      ensures requestType == old(requestType)
      ensures var outcome := Retry(maxRetries, attempts).outcome;
        if outcome.Received? then
          && CountsStored(outcome.data, old(Tally()), Tally())
          && authOrNonauth == (if ReachesSections(outcome.data) then AuthorityOf(outcome.data) else old(authOrNonauth))
        else Tally() == old(Tally()) && authOrNonauth == old(authOrNonauth)
    {
      var query := MakeQuery(id);
      var exchange, outcome := Transmit(maxRetries, attempts);
      match outcome
      case GaveUp =>
        events := exchange;
      case NeverTried =>
        events := exchange + [Crash(UnboundLocalError)];
      case Received(data) =>
        var decoded := ReadResponse(data, fuel);
        events := exchange + decoded;
    }
  }

  // ---------------------------------------------------------------------------
  // Properties of a whole run

  /** When all max_retries attempts fail, the run prints one error per attempt
      and the give-up line, and nothing else. */
  lemma {:induction false} RunGivesUp(name: string, t: Query.RequestType, maxRetries: int, id: nat, attempts: seq<Attempt>, fuel: nat)
    requires maxRetries > 0
    requires forall k :: 0 <= k < maxRetries ==> AttemptAt(attempts, k).Failure?
    ensures Run(name, t, maxRetries, id, attempts, fuel) == Failures(0, maxRetries) + [RetriesExceeded(maxRetries)]
  {
    AllFail(maxRetries, attempts, 0);
  }

  /** With max_retries of zero or less nothing is sent and the run ends in UnboundLocalError. */
  lemma {:induction false} RunWithoutRetries(name: string, t: Query.RequestType, maxRetries: int, id: nat, attempts: seq<Attempt>, fuel: nat)
    requires maxRetries <= 0
    ensures Run(name, t, maxRetries, id, attempts, fuel) == [Crash(UnboundLocalError)]
  {
    NeverTriedIffNoRetries(maxRetries, attempts);
  }

  /** A response without answers, received at attempt j, ends the run with NOTFOUND. */
  lemma {:induction false} RunNotFound(name: string, t: Query.RequestType, maxRetries: int, id: nat, attempts: seq<Attempt>, fuel: nat, j: nat)
    requires j < maxRetries && j < |attempts| && attempts[j].Reply?
    requires forall k :: 0 <= k < j ==> AttemptAt(attempts, k).Failure?
    requires Counts(attempts[j].data).Ok? && Counts(attempts[j].data).value.0 == 0
    ensures Run(name, t, maxRetries, id, attempts, fuel) == Failures(0, j) + [ResponseReceived(j), NotFound]
  {
    FirstReplyWins(maxRetries, attempts, 0, j);
    var data := attempts[j].data;
    var (an, ns, ar) := Counts(data).value;
    assert !(an != 0) && NotFoundTest(an, ns, ar);
  }
}
