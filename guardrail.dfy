/** `guardrail(mathFunction)` (ES6_promise/9-try.js): runs the callback
    inside try/catch and reports what happened in a two-element queue. The
    callback's run is passed in as its outcome: the value it returned, or
    the message of the Error object it threw. */
module Guardrail {
  import opened Wrappers

  /** An element of the queue: the callback's own value, or a message. */
  datatype Entry<T> = Value(v: T) | Message(text: string)

  const Processed: string := "Guardrail was processed"

  method Guardrail<T>(mathFunction: Outcome<T>) returns (queue: seq<Entry<T>>)
    ensures |queue| == 2
    ensures mathFunction.Return? ==> queue[0] == Value(mathFunction.value)
    ensures mathFunction.Throw? ==> queue[0] == Message("Error: " + mathFunction.message)
    ensures queue[1] == Message(Processed)
  {
    queue := [];
    match mathFunction {
      case Return(result) =>
        queue := queue + [Value(result)];
      case Throw(message) =>
        queue := queue + [Message("Error: " + message)];
    }
    queue := queue + [Message(Processed)];
  }
}
