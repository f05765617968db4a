/** The conversation-context accumulator of the chat client: a session holds
    the selected model and the transcript that is resent as context on every
    turn.
 */
module Chatbot {
  import opened Text
  import opened Backend

  const DefaultModel: string := "llama3"

  /** The model names the selector offers. */
  const AvailableModels: seq<string> := ["llama3", "phi3"]

  /** The fixed system instruction every transcript starts with. */
  const Preamble: string :=
    "You are a universal AI tutor with expert knowledge in all subjects "
    + "including science, math, medicine, engineering, history, arts, "
    + "law, and technology. Explain clearly and accurately.\n\n"

  datatype Session = Session(model: string, context: string)

  /** The accumulator invariant: the transcript starts with the preamble. */
  predicate Valid(s: Session) {
    Preamble <= s.context
  }

  /** The prompt suffix that asks the model to answer `input`. */
  function Cue(input: string): string {
    "User: " + input + "\nAI:"
  }

  /** The text one successful turn adds to the transcript. */
  function Turn(input: string, reply: string): string {
    "User: " + input + "\nAI: " + reply + "\n"
  }

  /** A recorded turn extends the prompt it answered by a blank, the reply
      and a line break. */
  lemma TurnExtendsCue(input: string, reply: string)
    ensures Turn(input, reply) == Cue(input) + " " + reply + "\n"
    ensures Cue(input) < Turn(input, reply)
  {
    assert Turn(input, reply) == Cue(input) + (" " + reply + "\n");
  }

  /** The session at start-up: the default model and a bare preamble. */
  function Init(): (s: Session)
    ensures s.model == "llama3" && s.model in AvailableModels
    ensures s.context == Preamble && Valid(s)
  {
    Session(DefaultModel, Preamble)
  }

  /** Switching model forgets every earlier turn. */
  function SetModel(s: Session, m: string): (r: Session)
    ensures r.model == m && r.context == Preamble
    ensures Valid(r)
  {
    Session(m, Preamble)
  }

  /** The result of a switch depends on the chosen name only, so switching
      twice to the same model is switching once. */
  lemma SetModelIdempotent(s: Session, t: Session, m: string)
    ensures SetModel(SetModel(s, m), m) == SetModel(s, m)
    ensures SetModel(s, m) == SetModel(t, m)
  {
  }

  /** The request sent for `input`: current model, transcript followed by
      the cue, no streaming. */
  function BuildRequest(s: Session, input: string): (q: Request)
    ensures q.model == s.model && !q.stream
    ensures q.prompt == s.context + "User: " + input + "\nAI:"
    ensures s.context < q.prompt
  {
    Request(s.model, s.context + Cue(input), false)
  }

  /** One call of `get_response`: the new session, either the stripped
      reply or the exception, and the request that was posted. The
      transcript grows only once the reply has been extracted, so any
      failure leaves the session as it was. */
  function GetResponse(s: Session, input: string, t: Transport): (r: (Session, Result<string>, Request))
    ensures r.2 == BuildRequest(s, input)
    ensures r.0.model == s.model
    ensures r.1.Success? <==> Deliver(t).Success?
    ensures r.1.Success? ==> r.1.value == Trim(Deliver(t).value) && Bare(r.1.value)
    ensures r.1.Success? ==> r.0.context == s.context + "User: " + input + "\nAI: " + r.1.value + "\n"
    ensures r.1.Failure? ==> r.0 == s && r.1.error == Deliver(t).error
  {
    var request := BuildRequest(s, input);
    match Deliver(t)
    case Failure(e) => (s, Failure(e), request)
    case Success(raw) =>
      var reply := Trim(raw);
      (Session(s.model, s.context + Turn(input, reply)), Success(reply), request)
  }

  /** On success the stored transcript is the prompt that was posted,
      completed by the reply: what the model saw is what is remembered. */
  lemma SuccessExtendsPrompt(s: Session, input: string, t: Transport)
    requires GetResponse(s, input, t).1.Success?
    ensures GetResponse(s, input, t).0.context
         == GetResponse(s, input, t).2.prompt + " " + GetResponse(s, input, t).1.value + "\n"
  {
    TurnExtendsCue(input, GetResponse(s, input, t).1.value);
  }

  /** A call never shortens the transcript and keeps the invariant. */
  lemma GetResponseMonotone(s: Session, input: string, t: Transport)
    requires Valid(s)
    ensures s.context <= GetResponse(s, input, t).0.context
    ensures Valid(GetResponse(s, input, t).0)
  {
  }
}
