/** What make_request's decoding promises: how the counts are read, which
    responses end in NOTFOUND, what RCODE does, and how the section loops move
    their cursor and how many lines they print. */
module ResponseProperties {
  import opened Errors
  import opened Hex
  import opened Records
  import opened Response

  // ---------------------------------------------------------------------------
  // The header

  /** The counts are read in decimal: the field 0010 is ten, not sixteen. */
  lemma {:induction false} CountsReadAsDecimal(data: Digits)
    requires |data| >= 24 && data[12..24] == [0, 0, 1, 0, 0, 0, 0, 1, 0, 0, 0, 0]
    ensures Counts(data) == Ok((10, 1, 0))
  {
    assert Slice(data, 12, 16) == [0, 0, 1, 0];
    assert Slice(data, 16, 20) == [0, 0, 0, 1];
    assert Slice(data, 20, 24) == [0, 0, 0, 0];
    DecimalOfFour(0, 0, 1, 0);
    DecimalOfFour(0, 0, 0, 1);
    DecimalOfFour(0, 0, 0, 0);
  }

  /** A four-digit count in decimal. */
  lemma {:induction false} DecimalOfFour(a: Nibble, b: Nibble, c: Nibble, d: Nibble)
    requires a < 10 && b < 10 && c < 10 && d < 10
    ensures DecimalDigits([a, b, c, d]) && DecimalValue([a, b, c, d]) == 1000 * a + 100 * b + 10 * c + d
  {
    assert [a][..0] == [];
    assert DecimalValue([a]) == a;
    assert [a, b][..1] == [a];
    assert DecimalValue([a, b]) == 10 * a + b;
    assert [a, b, c][..2] == [a, b];
    assert DecimalValue([a, b, c]) == 100 * a + 10 * b + c;
    assert [a, b, c, d][..3] == [a, b, c];
  }

  /** Every way of reading the counts fails with ValueError: a short response, or
      a count holding one of the digits a..f, ends the run at once. */
  lemma {:induction false} CountsFailWithValueError(data: Digits, queryLength: nat, fuel: nat)
    ensures Counts(data).Err? ==> Counts(data).error == ValueError
    ensures Counts(data).Err? ==> Decode(data, queryLength, fuel) == [Crash(ValueError)]
  {
    if Counts(data).Err? {
      var an, ns, ar := Slice(data, 12, 16), Slice(data, 16, 20), Slice(data, 20, 24);
      assert ParseDecimal(an).Err? || ParseDecimal(ns).Err? || ParseDecimal(ar).Err?;
    }
  }

  /** A count field holding a digit a..f makes the run crash. */
  lemma {:induction false} HexDigitInCountCrashes(data: Digits, k: nat, queryLength: nat, fuel: nat)
    requires 12 <= k < 24 && k < |data| && data[k] >= 10
    ensures Decode(data, queryLength, fuel) == [Crash(ValueError)]
  {
    var lo := 12 + (k - 12) / 4 * 4;
    assert lo <= k < lo + 4 && (lo == 12 || lo == 16 || lo == 20);
    assert !DecimalDigits(Slice(data, lo, lo + 4)) by {
      assert Slice(data, lo, lo + 4)[k - lo] == data[k];
    }
    CountsFailWithValueError(data, queryLength, fuel);
  }

  /** an == 0 & ns == 0 & ar == 0 holds exactly when ANCOUNT is zero: as a chained
      comparison the test never looks at NSCOUNT or ARCOUNT. */
  lemma {:induction false} NotFoundIffNoAnswers(an: nat, ns: nat, ar: nat)
    ensures NotFoundTest(an, ns, ar) <==> an == 0
  {
  }

  /** A response without answers is reported as NOTFOUND, whatever the other
      counts say and whatever records follow. */
  lemma {:induction false} NoAnswersIsNotFound(data: Digits, queryLength: nat, fuel: nat)
    requires Counts(data).Ok? && Counts(data).value.0 == 0
    ensures Decode(data, queryLength, fuel) == [NotFound]
  {
    var (an, ns, ar) := Counts(data).value;
    NotFoundIffNoAnswers(an, ns, ar);
  }

  /** With answers present, RCODE decides: 1, 2, 4 and 5 print one error, 3
      prints NOTFOUND, the others above 5 print nothing, and only 0 goes on to
      the sections, whose Answer header comes first, after the TC warning if any. */
  lemma {:induction false} RcodeDecides(data: Digits, start: nat, an: nat, ns: nat, ar: nat, fuel: nat)
    requires an > 0 && |data| > 20
    ensures var r := Interpret(data, start, an, ns, ar, fuel);
      && (IsServerError(data[7] as nat) <==> r == [ServerError(data[7] as nat)])
      && (data[7] == 3 <==> r == [NotFound])
      && (data[7] > 5 <==> r == [])
      && (data[7] == 0 <==> if Bit(data[5], 1) then |r| > 1 && r[0] == Truncated && r[1] == SectionHeader(AnswerSection, an)
                            else |r| > 0 && r[0] == SectionHeader(AnswerSection, an))
  {
    NotFoundIffNoAnswers(an, ns, ar);
    var r := Interpret(data, start, an, ns, ar, fuel);
    if data[7] == 0 {
      var tc: seq<Event> := if Bit(data[5], 1) then [Truncated] else [];
      assert r == tc + Sections(data, start, an, ns, ar, fuel, AuthorityOf(data));
      assert r[|tc|] == SectionHeader(AnswerSection, an);
    }
  }

  /** A response of 20 digits or fewer crashes with ValueError while its counts
      are read, before RCODE or any other field is looked at. */
  lemma {:induction false} ShortResponseCrashes(data: Digits, queryLength: nat, fuel: nat)
    requires |data| <= 20
    ensures Decode(data, queryLength, fuel) == [Crash(ValueError)]
  {
    CountsFailWithValueError(data, queryLength, fuel);
  }

  // ---------------------------------------------------------------------------
  // The section loops, for any round

  /** A loop whose every round prints at most one line prints at most one line per round. */
  lemma {:induction false} IterateAtMostOne(round: (nat, nat) -> Walk, start: nat, count: nat)
    requires forall s: nat, i: nat :: |round(s, i).events| <= 1
    ensures |Iterate(round, start, count).events| <= count
    decreases count
  {
    if count > 0 {
      IterateAtMostOne(round, start, count - 1);
    }
  }

  /** A loop whose every completed round prints exactly one line prints one line
      per round when it completes. */
  lemma {:induction false} IterateExactlyOne(round: (nat, nat) -> Walk, start: nat, count: nat)
    requires forall s: nat, i: nat :: round(s, i).cursor.Ok? ==> |round(s, i).events| == 1
    ensures Iterate(round, start, count).cursor.Ok? ==> |Iterate(round, start, count).events| == count
    decreases count
  {
    if count > 0 {
      IterateExactlyOne(round, start, count - 1);
    }
  }

  /** The cursor c, unless an exception stopped the loop, lies a whole number
      of bytes at or after start. */
  predicate Ahead(start: nat, c: Result<nat>)
  {
    c.Ok? ==> start <= c.value && (c.value - start) % 2 == 0
  }

  /** A loop whose rounds never move the cursor back, and move it by whole
      bytes, ends a whole number of bytes at or after its start. */
  lemma {:induction false} IterateForward(round: (nat, nat) -> Walk, start: nat, count: nat)
    requires forall s: nat, i: nat :: Ahead(s, round(s, i).cursor)
    ensures Ahead(start, Iterate(round, start, count).cursor)
    decreases count
  {
    if count > 0 {
      IterateForward(round, start, count - 1);
    }
  }

  /** Once a round prints e and leaves the cursor where it was, every later
      round does the same: the loop prints e once for each remaining round. */
  lemma {:induction false} IterateStall(round: (nat, nat) -> Walk, start: nat, i: nat, k: nat, events: seq<Event>, s: nat, e: Event)
    requires Iterate(round, start, i) == Walk(events, Ok(s))
    requires forall j: nat :: round(s, j) == Walk([e], Ok(s))
    ensures Iterate(round, start, i + k) == Walk(events + seq(k, _ => e), Ok(s))
    decreases k
  {
    if k > 0 {
      IterateStall(round, start, i, k - 1, events, s, e);
      assert events + seq(k - 1, _ => e) + [e] == events + seq(k, _ => e);
    }
  }

  // ---------------------------------------------------------------------------
  // The Answer, Authority and Additional loops

  lemma {:induction false} AnswerStepAtMostOne(data: Digits, s: nat, fuel: nat, auth: Authority)
    ensures |AnswerStep(data, s, fuel, auth).events| <= 1
  {
  }

  /** The Answer section prints at most one line per record. */
  lemma {:induction false} AnswersAtMostOnePerRecord(data: Digits, start: nat, count: nat, fuel: nat, auth: Authority)
    ensures |Answers(data, start, count, fuel, auth).events| <= count
  {
    var round := AnswerRound(data, fuel, auth);
    forall s, i
      ensures |round(s, i).events| <= 1
    {
      AnswerStepAtMostOne(data, s, fuel, auth);
    }
    IterateAtMostOne(round, start, count);
  }

  lemma {:induction false} AdditionalStepOne(data: Digits, s: nat, index: nat, fuel: nat, auth: Authority)
    ensures AdditionalStep(data, s, index, fuel, auth).cursor.Ok? ==> |AdditionalStep(data, s, index, fuel, auth).events| == 1
  {
  }

  /** Every Additional record prints one line: its record line, or the
      unsupported-type error. */
  lemma {:induction false} AdditionalsOnePerRecord(data: Digits, start: nat, count: nat, fuel: nat, auth: Authority)
    ensures var w := Additionals(data, start, count, fuel, auth);
      w.cursor.Ok? ==> |w.events| == count
  {
    var round := AdditionalRound(data, fuel, auth);
    forall s, i
      ensures round(s, i).cursor.Ok? ==> |round(s, i).events| == 1
    {
      AdditionalStepOne(data, s, i, fuel, auth);
    }
    IterateExactlyOne(round, start, count);
  }

  /** A round moves on to next, or stops. */
  lemma {:induction false} EmitCursor(r: Result<Option<Line>>, next: nat, unknown: seq<Event>)
    ensures Emit(r, next, unknown).cursor.Ok? ==> Emit(r, next, unknown).cursor == Ok(next)
  {
  }

  /** An Answer round stays on its record or moves on to the next one. */
  lemma {:induction false} AnswerStepCursor(data: Digits, s: nat, fuel: nat, auth: Authority)
    ensures var w := AnswerStep(data, s, fuel, auth);
      w.cursor.Ok? ==> w.cursor == Ok(s) || w.cursor == RecordEnd(data, s)
  {
    var next := RecordEnd(data, s);
    if next.Ok? && Slice(data, s + 8, s + 12) == ClassIn {
      EmitCursor(Dispatch(data, s, next.value, fuel, auth), next.value, []);
    }
  }

  /** Staying on the record at s, or moving to the next record, keeps the cursor ahead of s. */
  lemma {:induction false} StayOrNext(data: Digits, s: nat, c: Result<nat>)
    requires c.Ok? ==> c == Ok(s) || c == RecordEnd(data, s)
    ensures Ahead(s, c)
  {
  }

  /** An Answer round stays on its record or moves past it. */
  lemma {:induction false} AnswerStepForward(data: Digits, s: nat, fuel: nat, auth: Authority)
    ensures Ahead(s, AnswerStep(data, s, fuel, auth).cursor)
  {
    AnswerStepCursor(data, s, fuel, auth);
    StayOrNext(data, s, AnswerStep(data, s, fuel, auth).cursor);
  }

  /** No Answer round moves the cursor back. */
  lemma {:induction false} AnswerRoundForward(data: Digits, fuel: nat, auth: Authority)
    ensures forall s: nat, i: nat :: Ahead(s, AnswerRound(data, fuel, auth)(s, i).cursor)
  {
    forall s: nat, i: nat
      ensures Ahead(s, AnswerRound(data, fuel, auth)(s, i).cursor)
    {
      AnswerStepForward(data, s, fuel, auth);
    }
  }

  /** The Answer loop never moves back, and stays on whole bytes. */
  lemma {:induction false} AnswersMoveForward(data: Digits, start: nat, count: nat, fuel: nat, auth: Authority)
    ensures Ahead(start, Answers(data, start, count, fuel, auth).cursor)
  {
    AnswerRoundForward(data, fuel, auth);
    IterateForward(AnswerRound(data, fuel, auth), start, count);
  }

  /** A record whose CLASS is not IN stalls the Answer loop: the `continue`
      skips the cursor update, so every remaining round reads the same record
      and reports the same class code. */
  lemma {:induction false} BadClassStalls(data: Digits, start: nat, i: nat, k: nat, fuel: nat, auth: Authority, events: seq<Event>, s: nat)
    requires Answers(data, start, i, fuel, auth) == Walk(events, Ok(s))
    requires |data| > s + 20 && Slice(data, s + 8, s + 12) != ClassIn
    ensures Answers(data, start, i + k, fuel, auth) == Walk(events + seq(k, _ => UnexpectedClass(Slice(data, s + 8, s + 12))), Ok(s))
  {
    var round := AnswerRound(data, fuel, auth);
    var e := UnexpectedClass(Slice(data, s + 8, s + 12));
    forall j
      ensures round(s, j) == Walk([e], Ok(s))
    {
      assert round(s, j) == AnswerStep(data, s, fuel, auth);
    }
    IterateStall(round, start, i, k, events, s, e);
  }

  /** Each skipped Authority record takes at least its 24 digits of fixed fields. */
  lemma {:induction false} SkipMovesForward(data: Digits, start: nat, count: nat)
    ensures Skip(data, start, count).Ok? ==> start + 24 * count <= Skip(data, start, count).value
    ensures Skip(data, start, count).Ok? ==> (Skip(data, start, count).value - start) % 2 == 0
    decreases count
  {
    if count > 0 {
      SkipMovesForward(data, start, count - 1);
    }
  }

  /** The Authority loop runs ARCOUNT times, not NSCOUNT times: when NSCOUNT is
      not zero its value does not matter, and with ARCOUNT zero nothing follows
      the Answer section. */
  lemma {:induction false} AuthorityLoopCountsAdditional(data: Digits, start: nat, an: nat, ns: nat, ns': nat, ar: nat, fuel: nat, auth: Authority)
    requires ns > 0 && ns' > 0
    ensures Sections(data, start, an, ns, ar, fuel, auth) == Sections(data, start, an, ns', ar, fuel, auth)
    ensures ar == 0 ==> Sections(data, start, an, ns, 0, fuel, auth) == Sections(data, start, an, 0, 0, fuel, auth)
  {
  }
}
