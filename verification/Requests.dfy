/** The record the multiplexer keeps for one outstanding request. */
module Requests {

  type Bytes = seq<nat>

  /** Why a caller's promise was rejected. */
  datatype Failure = TimedOut | Aborted | SendFailed | ConnectionReset

  /** What the promise handed to the caller has settled to; the first settlement wins. */
  datatype Outcome = Waiting | Resolved(payload: Bytes) | Failed(why: Failure)

  /** The fields of a request that the deadline heap and the response queue update in place. */
  class PendingRequest {
    /** Which call this is, in issue order. */
    const call: nat
    var deadline: int
    var timeoutIndex: int
    var queueIndex: int

    constructor (call: nat, deadline: int, timeoutIndex: int)
      ensures this.call == call && this.deadline == deadline
      ensures this.timeoutIndex == timeoutIndex && queueIndex == -1
    {
      this.call := call;
      this.deadline := deadline;
      this.timeoutIndex := timeoutIndex;
      queueIndex := -1;
    }
  }
}
