/** The send handler of the chat window, reduced to its logic: the blank-input
    guard in front of the accumulator and the two-way classification of the
    exceptions it can raise. Inserting text into the chat area is left out;
    the handler's visible effect is summarised as a `Notice`.
 */
module Gui {
  import opened Text
  import opened Backend
  import opened Chatbot

  /** What the handler shows after one press of the send button. */
  datatype Notice =
    | Silent                          // blank input: nothing is sent or shown
    | ShowReply(model: string, reply: string)
    | NotRunning                      // the "backend is not running" remedy
    | ShowError(cause: Raised)       // the generic "Error: ..." line

  /** `send_message` with the entry field holding `entry` and the backend
      answering with `t`: the new session, what is shown, and the request
      posted, if any. */
  function SendMessage(s: Session, entry: string, t: Transport): (r: (Session, Notice, Option<Request>))
    ensures r.2.None? <==> AllSpace(entry)
    ensures r.2.Some? ==> r.2.value == BuildRequest(s, Trim(entry))
    ensures r.1.Silent? <==> AllSpace(entry)
    ensures AllSpace(entry) ==> r.0 == s
    ensures !AllSpace(entry) ==> r.0 == GetResponse(s, Trim(entry), t).0
    ensures r.1.ShowReply? <==> !AllSpace(entry) && Deliver(t).Success?
    ensures r.1.ShowReply? ==> Deliver(t).Success? && r.1.model == s.model && r.1.reply == Trim(Deliver(t).value)
    ensures r.1.NotRunning? <==> !AllSpace(entry) && (t.Refused? || t.ConnectTimedOut?)
    ensures r.1.ShowError? ==> Deliver(t).Failure? && r.1.cause == Deliver(t).error && !IsConnectionError(r.1.cause)
    ensures !r.1.ShowReply? ==> r.0 == s
  {
    var text := Trim(entry);
    if text == [] then (s, Silent, None)
    else
      var (s', res, request) := GetResponse(s, text, t);
      match res
      case Success(reply) => (s', ShowReply(s'.model, reply), Some(request))
      case Failure(e) =>
        if IsConnectionError(e) then (s', NotRunning, Some(request)) else (s', ShowError(e), Some(request))
  }
}
