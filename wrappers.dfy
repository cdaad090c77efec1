/** Small value wrappers shared by the server and the client models. */
module Wrappers {

  datatype Option<+T> = None | Some(value: T)

  /** A request field as the server receives it: missing from the request,
      present with the value null, or present with a value. */
  datatype Field<+T> = Absent | Null | Given(value: T)

  /** The outcome of one HTTP call as a client store sees it: the response
      body, or a failed call carrying the server's `message` if it sent one. */
  datatype Reply<+T> = Ok(body: T) | Fail(message: Option<string>)

  /** `error.response?.data?.message || fallback`: the server's message when
      it is a non-empty string, the store's own fallback text otherwise. */
  function ErrorText(message: Option<string>, fallback: string): (r: string)
    ensures message.Some? && message.value != "" ==> r == message.value
    ensures (message.None? || message.value == "") ==> r == fallback
  {
    if message.Some? && message.value != "" then message.value else fallback
  }
}
