/** Vocabulary shared by the data-access layer: optional values, the loosely
    typed values carried in query variables and records, the errors the layer
    raises or propagates, and the outcome of a loop that is driven by a finite
    trace of backend replies. */
module Common {

  datatype Option<+T> = None | Some(value: T)

  /** A JSON value as it appears in query variables and record attributes.
      `Opaque(id)` stands for any value the layer passes along without looking at it. */
  datatype Value = Null | Num(n: int) | Str(s: string) | Opaque(id: nat)

  type Fields = map<string, Value>

  /** A stored record (an entity such as a Sample). The layer never inspects it. */
  datatype Item = Item(fields: Fields)

  /** A batch-read lookup key: the attributes that identify one record. */
  datatype Key = Key(fields: Fields)

  datatype Error =
    | ConfigMissing                  // GRAPHQL_API_ENDPOINT is unset or empty
    | BackendFailure(reason: string) // a rejected backend call, passed on unchanged
    | MalformedResponse              // a query response that has no root field

  datatype Result<+T> = Ok(value: T) | Err(error: Error)

  /** How a loop ends when the backend's replies are given as a finite trace:
      it finished with a value, an error stopped it, or it still wanted another
      reply when the trace ran out. */
  datatype Outcome<+T> = Done(value: T) | Failed(error: Error) | Pending

  /** The backend calls a loop made that were answered, in the order issued,
      together with how the loop ended. */
  datatype Run<+C, +T> = Run(calls: seq<C>, outcome: Outcome<T>)

  function Min(a: int, b: int): int {
    if a <= b then a else b
  }
}
