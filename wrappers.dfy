/** Small shared vocabulary: optional values and Python truthiness of an
    optional string, and the outcome of one call to the language model. */
module Wrappers {

  datatype Option<T> = None | Some(value: T)

  /** Python truthiness of a value that is either absent (`None`) or a
      string: `None` and `""` are false, every other string is true. */
  predicate IsTruthy(o: Option<string>) {
    o.Some? && o.value != []
  }
}

/** The language-model service as the pipeline sees it: each call either
    returns the reply text or raises. A run is modelled by the sequence of
    outcomes of its calls, in the order the calls are made. */
module Oracle {

  datatype Outcome = Ok(text: string) | Fail

  /** The outcome of call number `k` (from 0); a call for which the
      sequence holds no answer fails. */
  function Answer(replies: seq<Outcome>, k: nat): Outcome {
    if k < |replies| then replies[k] else Fail
  }
}
