/**
 * The elements of a command list handed to postSequence in server/server.js.
 *
 * The list is a plain JavaScript array whose elements are told apart by
 * `typeof`: a string is a URL to POST to, a number is a delay in
 * milliseconds, and anything else is a programming error that stops the run.
 */
module Steps {

  datatype Step =
    | Action(url: string)   // typeof === "string": POST with an empty body
    | Delay(ms: int)        // typeof === "number": setTimeout before the next element
    | Other                 // any other value: logged, and the run stops

  /** An element the runner knows how to process (a string or a number). */
  predicate Known(s: Step) {
    !s.Other?
  }

  /** Every element of the list is a string or a number. */
  predicate AllKnown(q: seq<Step>) {
    forall i :: 0 <= i < |q| ==> Known(q[i])
  }
}
