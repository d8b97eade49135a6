/** The closed set of results a directory handler reports for one target in one pass. */
module Outcomes {

  /** `Updated` is the non-critical update; the spelling follows the enum constant the code uses. */
  datatype Outcome = CriticalUpdate | Updated | NoUpdate | Failed

}
