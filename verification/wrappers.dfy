/** Small result-carrying datatypes shared by the model of the task-list client. */
module Wrappers {

  /** An optional value: the request an add sends, absent when the text box is
      blank, and the banner text, absent when there is no error. */
  datatype Option<+T> = None | Some(value: T)

  /** How one asynchronous HTTP exchange ended: either the request resolved and
      the response body (`response.data`) is the payload, or the request threw
      (network error, non-2xx status, ...) and control went to the `catch`
      block. The client never distinguishes kinds of failure. */
  datatype Outcome<+T> = Success(payload: T) | Failure
}
