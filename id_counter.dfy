/**
  The class-level `_id_counter` that `Student` and `Course` each keep: every construction
  takes its current value as the new id and advances it by one. Python holds it as a class
  attribute; here it is an object passed to the constructors.
 */
module Counters {
  class IdCounter {
    var next: int

    /** `_id_counter = 1`. */
    constructor ()
      ensures next == 1
    {
      next := 1;
    }

    /** The current value becomes an id; the counter moves one past it. */
    method Take() returns (id: int)
      modifies this`next
      ensures id == old(next) && next == old(next) + 1
    {
      id := next;
      next := next + 1;
    }
  }
}
