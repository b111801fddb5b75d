/** Request contexts. Cancellation is a matter of timing, so a context says only that without a
    deadline it is never cancelled. */
module Contexts {
  import opened Options

  class Context {
    var polls: nat
    const deadline: Option<nat>

    constructor (deadline: Option<nat>)
      ensures this.deadline == deadline && polls == 0
    {
      this.deadline, polls := deadline, 0;
    }

    method Err() returns (cancelled: bool)
      modifies this
      ensures cancelled ==> deadline.Some?
    {
      cancelled := deadline.Some? && polls >= deadline.value;
      polls := polls + 1;
    }
  }
}
