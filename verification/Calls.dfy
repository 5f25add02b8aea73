/** What the callers of an object's functions see: which call each thread is in, and whether it has been answered. */
module Calls {
  import opened Common
  import opened Threads

  datatype Visit<Q> =
    | Outside
    | Asked(call: Q, late: bool)   // not answered yet; `late` once a wait of the call has timed out
    | Answered(call: Q)            // answered, but still inside the function

  /** A thread enters with a call, has a wait time out, gets its answer, or leaves. */
  function Turn<Q>(v: Visit<Q>, begins: Option<Q>, times: bool, answered: bool, left: bool): Visit<Q> {
    var before := if begins.Some? then Asked(begins.value, false) else v;
    var during := if before.Asked? && times then before.(late := true) else before;
    if left then Outside
    else if during.Asked? && answered then Answered(during.call)
    else during
  }
}
