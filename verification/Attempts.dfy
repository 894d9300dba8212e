/** Payment attempts: what a provider may answer, and the row it leaves. */
module Attempts {

  /** What one provider step comes to. `Unavailable` covers a missing driver and
      an unsupported currency, and never reaches the provider. */
  datatype Outcome = Unavailable | Declined | Held | Captured

  datatype PaymentState = Pending | Succeeded | Failed

  function AttemptState(o: Outcome): PaymentState
  {
    match o
    case Captured => Succeeded
    case Held => Pending
    case _ => Failed
  }

  /** The first provider of the list uses the caller's key; a retry through
      another is stored under a key of its own. */
  function AttemptKey(key: string, i: nat, provider: string): string
  {
    if i == 0 then key else key + ":" + provider
  }
}
