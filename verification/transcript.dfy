/** Whole sessions: a run of user events (model switches and presses of the
    send button) applied to the start-up session, compared with a reference
    description of the transcript as the preamble followed by the list of
    exchanges recorded since the last switch.
 */
module Transcript {
  import opened Text
  import opened Backend
  import opened Chatbot
  import opened Gui

  datatype Event =
    | Switch(model: string)                          // a choice in the model selector
    | Press(entry: string, transport: Transport)     // send, with the backend's outcome

  function Step(s: Session, e: Event): Session {
    match e
    case Switch(m) => SetModel(s, m)
    case Press(entry, t) => SendMessage(s, entry, t).0
  }

  /** The session after the events `evs`, applied oldest first. */
  function Run(s: Session, evs: seq<Event>): Session
    decreases |evs|
  {
    if evs == [] then s else Step(Run(s, evs[..|evs| - 1]), evs[|evs| - 1])
  }

  /** One answered question, as it is kept in the transcript. */
  datatype Exchange = Exchange(input: string, reply: string)

  /** Whether a press records an exchange: non-blank input and a reply. */
  predicate Records(e: Event) {
    e.Press? && !AllSpace(e.entry) && Deliver(e.transport).Success?
  }

  /** The exchanges recorded since the last model switch, oldest first. */
  function History(evs: seq<Event>): seq<Exchange>
    decreases |evs|
  {
    if evs == [] then []
    else
      var e := evs[|evs| - 1];
      if e.Switch? then []
      else if Records(e) then History(evs[..|evs| - 1]) + [Exchange(Trim(e.entry), Trim(Deliver(e.transport).value))]
      else History(evs[..|evs| - 1])
  }

  /** The model chosen by the last switch, or the default one. */
  function ActiveModel(evs: seq<Event>): string
    decreases |evs|
  {
    if evs == [] then DefaultModel
    else if evs[|evs| - 1].Switch? then evs[|evs| - 1].model
    else ActiveModel(evs[..|evs| - 1])
  }

  /** The exchanges written out one after another. */
  function Render(xs: seq<Exchange>): string
    decreases |xs|
  {
    if xs == [] then [] else Render(xs[..|xs| - 1]) + Turn(xs[|xs| - 1].input, xs[|xs| - 1].reply)
  }

  /** Refinement: the transcript of every reachable session is the preamble
      followed by exactly the exchanges recorded since the last switch, and
      its model is the one last chosen. */
  lemma {:induction false} RunMatchesHistory(evs: seq<Event>)
    ensures Run(Init(), evs) == Session(ActiveModel(evs), Preamble + Render(History(evs)))
    decreases |evs|
  {
    if evs != [] {
      var p := evs[..|evs| - 1];
      var e := evs[|evs| - 1];
      RunMatchesHistory(p);
      var s := Run(Init(), p);
      var h := History(p);
      assert Run(Init(), evs) == Step(s, e);
      match e
      case Switch(m) =>
        assert History(evs) == [];
        assert Render([]) == [];
        assert Preamble + [] == Preamble;
      case Press(entry, t) =>
        assert ActiveModel(evs) == ActiveModel(p);
        PressStep(s, entry, t);
        if Records(e) {
          var x := Exchange(Trim(entry), Trim(Deliver(t).value));
          assert History(evs) == h + [x];
          assert (h + [x])[..|h + [x]| - 1] == h;
          assert Render(h + [x]) == Render(h) + Turn(x.input, x.reply);
          ConcatAssoc(Preamble, Render(h), Turn(x.input, x.reply));
        } else {
          assert History(evs) == h;
        }
    }
  }

  /** Regrouping a three-part concatenation. */
  lemma ConcatAssoc(a: string, b: string, c: string)
    ensures a + b + c == a + (b + c)
  {
  }

  /** A press appends the exchange it records, and otherwise changes nothing. */
  lemma PressStep(s: Session, entry: string, t: Transport)
    ensures Records(Press(entry, t)) ==>
      Step(s, Press(entry, t)) == Session(s.model, s.context + Turn(Trim(entry), Trim(Deliver(t).value)))
    ensures !Records(Press(entry, t)) ==> Step(s, Press(entry, t)) == s
  {
  }

  /** Every request resends the whole recorded conversation: the preamble,
      each exchange since the last switch, then the new question. */
  lemma PromptCarriesHistory(evs: seq<Event>, input: string)
    ensures BuildRequest(Run(Init(), evs), input).prompt == Preamble + Render(History(evs)) + Cue(input)
    ensures BuildRequest(Run(Init(), evs), input).model == ActiveModel(evs)
  {
    RunMatchesHistory(evs);
  }

  /** The accumulator invariant holds after any run from a valid session. */
  lemma {:induction false} RunKeepsValid(s: Session, evs: seq<Event>)
    requires Valid(s)
    ensures Valid(Run(s, evs))
    decreases |evs|
  {
    if evs != [] {
      var p := evs[..|evs| - 1];
      RunKeepsValid(s, p);
      match evs[|evs| - 1]
      case Switch(m) =>
      case Press(entry, t) =>
        if !AllSpace(entry) {
          GetResponseMonotone(Run(s, p), Trim(entry), t);
        }
    }
  }

  /** While every switch picks a name the selector offers, the active model
      is always one of the offered names. */
  lemma {:induction false} ModelStaysAvailable(evs: seq<Event>)
    requires forall i :: 0 <= i < |evs| && evs[i].Switch? ==> evs[i].model in AvailableModels
    ensures Run(Init(), evs).model in AvailableModels
    decreases |evs|
  {
    if evs != [] {
      var p := evs[..|evs| - 1];
      assert forall i :: 0 <= i < |p| && p[i].Switch? ==> p[i].model in AvailableModels by {
        forall i | 0 <= i < |p| && p[i].Switch?
          ensures p[i].model in AvailableModels
        {
          assert p[i] == evs[i];
        }
      }
      ModelStaysAvailable(p);
    }
  }

  /** A fresh session asked "What is 2+2?" by a backend answering " 4 "
      shows "4" and records the exchange after the preamble. */
  lemma FirstExchangeScenario()
    ensures SendMessage(Init(), "What is 2+2?", Answered(200, ResponseText(" 4 ")))
         == (Session("llama3", Preamble + "User: What is 2+2?\nAI: 4\n"), ShowReply("llama3", "4"),
             Some(Request("llama3", Preamble + "User: What is 2+2?\nAI:", false)))
  {
    ScenarioReply();
    ScenarioQuestion();
    ScenarioTurn();
  }

  /** The turn text of the scenario, written out. */
  lemma ScenarioTurn()
    ensures Turn("What is 2+2?", "4") == "User: What is 2+2?\nAI: 4\n"
    ensures Cue("What is 2+2?") == "User: What is 2+2?\nAI:"
  {
  }

  /** The scenario's raw reply strips to "4". */
  lemma ScenarioReply()
    ensures Trim(" 4 ") == "4"
  {
    assert IsSpace(' ') && !IsSpace('4');
    assert " 4 "[1..] == "4 " && "4 "[..1] == "4";
    assert TrimLeft(" 4 ") == "4 ";
  }

  /** The scenario's question is not blank and strips to itself. */
  lemma ScenarioQuestion()
    ensures Trim("What is 2+2?") == "What is 2+2?" && !AllSpace("What is 2+2?")
  {
    var q := "What is 2+2?";
    assert !IsSpace(q[0]) && !IsSpace(q[|q| - 1]);
    assert [] + q + [] == q;
    TrimUnique([], q, []);
  }

  /** With the backend down, sending "hello" shows the not-running notice
      and leaves the session as it was. */
  lemma RefusedScenario(s: Session)
    ensures SendMessage(s, "hello", Refused) == (s, NotRunning, Some(BuildRequest(s, "hello")))
  {
    assert !AllSpace("hello") by {
      assert !IsSpace("hello"[0]);
    }
    assert Trim("hello") == "hello" by {
      assert [] + "hello" + [] == "hello";
      TrimUnique([], "hello", []);
    }
  }
}
