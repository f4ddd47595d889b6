/** The exceptions the DNS client can raise while it builds a query or decodes a
    response. None of them is caught by the client, so each one ends the run. */
module Errors {

  datatype Error =
    | IndexError         // a single hex digit is read past the end of the buffer
    | ValueError         // int() of an empty slice, or of a hex digit a..f in a decimal count
    | RecursionError     // the budget of nested fetch_compressed calls is used up
    | UnboundLocalError  // the response buffer is read although no attempt was ever made

  datatype Result<+T> = Ok(value: T) | Err(error: Error)

  datatype Option<+T> = None | Some(value: T)

  /** Prefix `s` to a successful string result; an error is passed on unchanged. */
  function Prepend(s: string, r: Result<string>): Result<string>
  {
    match r
    case Ok(v) => Ok(s + v)
    case Err(e) => Err(e)
  }

  lemma {:induction false} PrependNothing(r: Result<string>)
    ensures Prepend([], r) == r
  {
    if r.Ok? {
      assert [] + r.value == r.value;
    }
  }

  lemma {:induction false} PrependPrepend(s: string, t: string, r: Result<string>)
    ensures Prepend(s, Prepend(t, r)) == Prepend(s + t, r)
  {
    if r.Ok? {
      assert s + (t + r.value) == (s + t) + r.value;
    }
  }
}
