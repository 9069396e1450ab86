/** A statement of many parts that is handed on as a whole.  The verifier takes a predicate apart into its
    parts wherever it is used; a function with this result it treats as the one fact it is. */
module Verdicts {

  datatype Verdict = Yes | No
}
