/** The retry loop of make_request: up to max_retries attempts to send the query
    and receive a response. What the network does on each attempt is given
    instead of observed: attempts[i] says whether attempt i brought back a
    response, and any attempt past the end of the sequence fails. */
module Transport {
  import opened Hex
  import opened Response

  /** What one attempt came to: the response, as hexadecimal text, or an exception. */
  datatype Attempt = Reply(data: Digits) | Failure

  /** How the loop ended: with a response, by giving up, or without ever running
      (max_retries of zero or less), which leaves `data` unassigned. */
  datatype Outcome = Received(data: Digits) | GaveUp | NeverTried

  /** What the loop printed and how it ended. */
  datatype Exchange = Exchange(events: seq<Event>, outcome: Outcome)

  function AttemptAt(attempts: seq<Attempt>, i: nat): Attempt
  {
    if i < |attempts| then attempts[i] else Failure
  }

  /** The loop from attempt i on. */
  function Tries(maxRetries: int, attempts: seq<Attempt>, i: nat): Exchange
    decreases maxRetries - i
  {
    if i >= maxRetries then Exchange([], NeverTried)
    else
      match AttemptAt(attempts, i)
      case Reply(data) => Exchange([ResponseReceived(i)], Received(data))
      case Failure =>
        if i == maxRetries - 1 then Exchange([AttemptFailed(i + 1), RetriesExceeded(maxRetries)], GaveUp)
        else
          var rest := Tries(maxRetries, attempts, i + 1);
          Exchange([AttemptFailed(i + 1)] + rest.events, rest.outcome)
  }

  /** The whole retry loop. */
  function Retry(maxRetries: int, attempts: seq<Attempt>): Exchange
  {
    Tries(maxRetries, attempts, 0)
  }

  /** The errors printed for attempts i + 1 to j. */
  function Failures(i: nat, j: nat): (r: seq<Event>)
    requires i <= j
    ensures |r| == j - i && forall k :: 0 <= k < j - i ==> r[k] == AttemptFailed(i + k + 1)
    decreases j - i
  {
    if i == j then [] else [AttemptFailed(i + 1)] + Failures(i + 1, j)
  }

  /** The retry loop, as the client runs it. */
  method Transmit(maxRetries: int, attempts: seq<Attempt>) returns (events: seq<Event>, outcome: Outcome)
    ensures Exchange(events, outcome) == Retry(maxRetries, attempts)
  {
    events := [];
    var i := 0;
    while i < maxRetries
      invariant 0 <= i && (i > 0 ==> i < maxRetries)
      invariant Retry(maxRetries, attempts) == Exchange(events + Tries(maxRetries, attempts, i).events, Tries(maxRetries, attempts, i).outcome)
      decreases maxRetries - i
    {
      var attempt := AttemptAt(attempts, i);
      if attempt.Reply? {
        events := events + [ResponseReceived(i)];
        return events, Received(attempt.data);
      }
      events := events + [AttemptFailed(i + 1)];
      if i == maxRetries - 1 {
        events := events + [RetriesExceeded(maxRetries)];
        return events, GaveUp;
      }
      i := i + 1;
    }
    outcome := NeverTried;
  }

  // ---------------------------------------------------------------------------
  // Properties

  /** The loop never runs when max_retries is zero or less, and always runs otherwise. */
  lemma {:induction false} NeverTriedIffNoRetries(maxRetries: int, attempts: seq<Attempt>)
    ensures Retry(maxRetries, attempts).outcome == NeverTried <==> maxRetries <= 0
    ensures maxRetries <= 0 ==> Retry(maxRetries, attempts).events == []
  {
    if maxRetries > 0 {
      TriesRuns(maxRetries, attempts, 0);
    }
  }

  /** From any attempt before the last, the loop ends with a response or by giving up. */
  lemma {:induction false} TriesRuns(maxRetries: int, attempts: seq<Attempt>, i: nat)
    requires i < maxRetries
    ensures Tries(maxRetries, attempts, i).outcome != NeverTried
    decreases maxRetries - i
  {
    if AttemptAt(attempts, i).Failure? && i != maxRetries - 1 {
      TriesRuns(maxRetries, attempts, i + 1);
    }
  }

  /** The first attempt that brings back a response ends the loop: every
      earlier attempt printed its error, and the response is the one used. */
  lemma {:induction false} FirstReplyWins(maxRetries: int, attempts: seq<Attempt>, i: nat, j: nat)
    requires i <= j < maxRetries && j < |attempts| && attempts[j].Reply?
    requires forall k :: i <= k < j ==> AttemptAt(attempts, k).Failure?
    ensures Tries(maxRetries, attempts, i) == Exchange(Failures(i, j) + [ResponseReceived(j)], Received(attempts[j].data))
    decreases j - i
  {
    if i < j {
      FirstReplyWins(maxRetries, attempts, i + 1, j);
    }
  }

  /** When all max_retries attempts fail, every one prints its error and the
      loop gives up after the last. */
  lemma {:induction false} AllFail(maxRetries: int, attempts: seq<Attempt>, i: nat)
    requires i < maxRetries
    requires forall k :: i <= k < maxRetries ==> AttemptAt(attempts, k).Failure?
    ensures Tries(maxRetries, attempts, i) == Exchange(Failures(i, maxRetries) + [RetriesExceeded(maxRetries)], GaveUp)
    decreases maxRetries - i
  {
    if i < maxRetries - 1 {
      AllFail(maxRetries, attempts, i + 1);
    }
  }

  /** The loop gives up exactly when all max_retries attempts fail. */
  lemma {:induction false} GivesUpIffAllFail(maxRetries: int, attempts: seq<Attempt>, i: nat)
    requires i < maxRetries
    ensures Tries(maxRetries, attempts, i).outcome == GaveUp <==> forall k :: i <= k < maxRetries ==> AttemptAt(attempts, k).Failure?
    decreases maxRetries - i
  {
    if i < maxRetries - 1 {
      GivesUpIffAllFail(maxRetries, attempts, i + 1);
    }
  }

  /** A response the loop ends with is one of the attempts' responses, from
      one of the first max_retries attempts. */
  lemma {:induction false} ReceivedFromAnAttempt(maxRetries: int, attempts: seq<Attempt>, i: nat)
    ensures Tries(maxRetries, attempts, i).outcome.Received? ==>
      exists k :: i <= k < maxRetries && k < |attempts| && attempts[k] == Reply(Tries(maxRetries, attempts, i).outcome.data)
    decreases maxRetries - i
  {
    if i < maxRetries && AttemptAt(attempts, i).Failure? && i != maxRetries - 1 {
      ReceivedFromAnAttempt(maxRetries, attempts, i + 1);
    }
  }
}
