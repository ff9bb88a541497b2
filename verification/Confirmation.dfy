/** Who has confirmed a suspicion, and how many are enough. */
module Confirmation {
  import opened Types

  datatype Confirmations = Confirmations(cap: int, confirmers: set<Id>)

  function FirstConfirmation(cap: int, from: Id): Confirmations {
    Confirmations(cap, {from})
  }

  /** The new set of confirmers, and whether `from` told us something new. */
  function Confirm(s: Confirmations, from: Id): (Confirmations, bool) {
    if |s.confirmers| >= s.cap || from in s.confirmers then
      (s, false)
    else
      (s.(confirmers := s.confirmers + {from}), true)
  }
}
