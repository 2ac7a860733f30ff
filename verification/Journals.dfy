/** The record of how every statement of the service came out. */
module Journals {
  import opened Stores

  /** The outcomes so far, in the order of the statements. No code reads them. */
  class Journal {
    ghost var outcomes: seq<Outcome>

    constructor ()
      ensures outcomes == []
    {
      outcomes := [];
    }

    ghost method Note(o: Outcome)
      modifies this
      ensures outcomes == old(outcomes) + [o]
    {
      outcomes := outcomes + [o];
    }
  }
}
