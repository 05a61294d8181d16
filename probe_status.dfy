/** The outcome of one probe: a kind and a message. */
module ProbeModel {

  datatype ProbeStatusKind = Done | Error | Timeout

  /** `ProbeStatusKind::name`, also what `Display` writes. */
  function KindName(k: ProbeStatusKind): (s: string)
    ensures |s| > 0
  {
    match k
    case Done => "Done"
    case Error => "Error"
    case Timeout => "Timeout"
  }

  lemma KindNamesDistinct(k1: ProbeStatusKind, k2: ProbeStatusKind)
    ensures KindName(k1) == KindName(k2) <==> k1 == k2
  {
  }

  datatype ProbeStatus = ProbeStatus(kind: ProbeStatusKind, message: string)
  {
    predicate IsOk() { kind == Done }
    predicate IsError() { kind == Error }
    predicate IsTimeout() { kind == Timeout }
  }

  /** `ProbeStatus::new`: a success with no message. */
  function NewStatus(): (r: ProbeStatus)
    ensures r.IsOk() && r.message == ""
  {
    ProbeStatus(Done, "")
  }

  /** `ProbeStatus::with_error_message`: an error that keeps the message verbatim. */
  function WithErrorMessage(message: string): (r: ProbeStatus)
    ensures r.IsError() && !r.IsOk() && !r.IsTimeout() && r.message == message
  {
    ProbeStatus(Error, message)
  }

  /** `ProbeStatus::with_timeout_message`: a timeout that keeps the message verbatim. */
  function WithTimeoutMessage(message: string): (r: ProbeStatus)
    ensures r.IsTimeout() && !r.IsOk() && !r.IsError() && r.message == message
  {
    ProbeStatus(Timeout, message)
  }

  /** Exactly one of `is_ok`, `is_error`, `is_timeout` holds of any status. */
  lemma ExactlyOneKind(s: ProbeStatus)
    ensures s.IsOk() || s.IsError() || s.IsTimeout()
    ensures !(s.IsOk() && s.IsError()) && !(s.IsOk() && s.IsTimeout()) && !(s.IsError() && s.IsTimeout())
  {
  }
}
