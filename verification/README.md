# Conversation-context accumulator of the universal AI chatbot

This project is a Dafny model of the logic behind a desktop chat window that forwards questions to a local
language-model server. It models the part of the chat client that keeps state:

- the `UniversalAIChatbot` session, which holds a model name and a transcript (`context`);
- the transcript starts as a fixed tutor preamble and is reset to it on every model switch;
- every request sends the whole transcript followed by `User: <input>\nAI:`;
- the transcript grows by `User: <input>\nAI: <reply>\n` only after a reply has been extracted;
- the send handler ignores blank input and sorts failures into "backend not running" and "other error".

Modules:

- `Text` covers whitespace as Python's `str.isspace` defines it and `Trim`, Python's argument-less
  `str.strip()`. Its lemmas show what `Trim` keeps and removes, that the result is unique, that it is idempotent
  and when it is empty.
- `Backend` covers the request payload and the abstract outcome of the POST. `Deliver` is the chain of
  post, status check, JSON decoding, `response` lookup and `strip`. It yields the raw reply or the Python exception
  raised: `HTTPError`, `JSONDecodeError`, `TypeError` (a body that is JSON but not an object), `KeyError` or
  `AttributeError`, besides the connection and timeout errors.
- `Chatbot` covers the `Session` value, `Init`, `SetModel`, `BuildRequest` and `GetResponse`. It returns the new
  session together with a result, so a failure visibly leaves the session as it was.
- `Gui` covers `SendMessage`, the send handler without its widget output. Its effect is a `Notice`.
- `Transcript` covers runs of model switches and button presses from start-up. It compares them with a
  reference description: the preamble followed by the list of exchanges recorded since the last switch.

The backend is a parameter. Each press carries the `Transport` outcome the server would produce: refused
connection, connect timeout, read timeout, or an HTTP status with a body. Nothing here performs I/O.

Two details of the code matter for the model:

- Timeouts. In `requests`, `ConnectTimeout` subclasses both `ConnectionError` and `Timeout`, while `ReadTimeout`
  subclasses `Timeout` only. The `except ConnectionError` branch (chat.py:66) therefore shows the "not running"
  notice for a connect timeout, and only a read timeout reaches the generic branch (chat.py:73).
  `Gui.SendMessage` states this.
- Preamble. The preamble (chat.py:26-31) is one fixed text that does not depend on the model, so
  `Chatbot.Preamble` is a single constant.

## Model

| member | source | states |
|---|---|---|
| Text.TrimLeft | chat.py:47 | The result is a suffix of the input. Everything dropped in front is whitespace. The result is empty or starts with a non-whitespace character. |
| Text.TrimRight | chat.py:47 | The result is a prefix of the input. Everything dropped behind is whitespace. The result is empty or ends with a non-whitespace character. |
| Text.Trim | chat.py:47 | `strip()` yields a text with no leading or trailing whitespace that is no longer than its input. |
| Text.TrimSplits | chat.py:47 | Stripping only removes whitespace, and only from the two ends: the input is whitespace, then the stripped text, then whitespace. |
| Text.TrimUnique | chat.py:47 | Whenever a text is whitespace, then a bare middle, then whitespace, stripping returns exactly that middle. |
| Text.TrimIdempotent | chat.py:47 | Stripping an already stripped reply changes nothing. |
| Text.TrimEmptyIffBlank | chat.py:54-56 | The stripped entry is empty exactly when the entry is empty or all whitespace. This is the condition under which the send handler returns early. |
| Backend.Deliver | chat.py:44-47 | A reply is extracted exactly when the server answered with a non-error status and a JSON object whose `response` field is a string, and the reply is that string. Connection-class failures arise exactly from a refused connection or a connect timeout. A 4xx or 5xx status raises `HTTPError` with that status. |
| Chatbot.Init | chat.py:22-31 | A new session targets `llama3`, which the selector offers, and its transcript is exactly the preamble, so the accumulator invariant holds. |
| Chatbot.SetModel | chat.py:33-35 | After a switch, the model is the chosen name and the transcript is exactly the preamble, whatever came before. |
| Chatbot.SetModelIdempotent | chat.py:33-35 | Switching twice to the same model equals switching once. The result of a switch does not depend on the prior session. |
| Chatbot.BuildRequest | chat.py:38-42 | The payload carries the session's model and `stream` false. Its prompt is the transcript followed by `User: <input>\nAI:`, so the transcript is a proper prefix of the prompt. |
| Chatbot.TurnExtendsCue | chat.py:40-48 | The text a turn appends is the prompt suffix that was sent, followed by a blank, the reply and a line break. |
| Chatbot.GetResponse | chat.py:37-49 | The request posted is exactly the payload `BuildRequest` describes. The model never changes. On success the reply is the stripped `response` field, which has no outer whitespace, and the transcript becomes old + `User: <input>\nAI: <reply>\n`. On every failure the exception is the one raised and the session is exactly unchanged. |
| Chatbot.SuccessExtendsPrompt | chat.py:40-48 | After a successful call, the stored transcript is the prompt of the request that was posted, completed by a blank, the reply and a line break. |
| Chatbot.GetResponseMonotone | chat.py:44-48 | A call never shortens the transcript and keeps the preamble as its prefix. |
| Gui.SendMessage | chat.py:53-74 | Blank input posts no request and changes nothing. Otherwise exactly the request for the stripped input is posted. A reply is shown with the current model exactly when the backend succeeded. The not-running notice is shown exactly for a refused connection or a connect timeout. Every other failure shows its non-connection exception. Every outcome other than a reply leaves the session untouched. |
| Transcript.PressStep | chat.py:53-74 | A press that records an exchange appends exactly that turn to the transcript. Any other press leaves the session unchanged. |
| Transcript.RunMatchesHistory | chat.py:22-48 | After any sequence of switches and presses from start-up, the model is the last one chosen (or `llama3`). The transcript is the preamble followed by exactly the exchanges recorded since the last switch, in order. |
| Transcript.PromptCarriesHistory | chat.py:38-42 | Every request resends the preamble, every exchange since the last switch and the new question, with no truncation, to the last chosen model. |
| Transcript.RunKeepsValid | chat.py:22-48 | From any session whose transcript starts with the preamble, every run keeps it that way. |
| Transcript.ModelStaysAvailable | chat.py:15-18 | If every switch picks a name from the selector's list, the active model is always one of those names. |
| Transcript.FirstExchangeScenario | chat.py:53-63 | On a fresh session, the question "What is 2+2?" posts the preamble followed by `User: What is 2+2?\nAI:` to `llama3`. With the server answering " 4 ", it shows "4" for `llama3`, and the transcript becomes the preamble followed by `User: What is 2+2?\nAI: 4\n`. |
| Transcript.RefusedScenario | chat.py:66-71 | With the connection refused, "hello" is posted and yields the not-running notice and leaves any session exactly as it was. |

## Left out

- The tkinter window, widgets, styling, event bindings and the text the handlers insert into the chat area
  (chat.py:77-207). This is presentation only. `change_model` is modelled only through `SetModel`.
- The echo of the user's line, the clearing of the entry field and the scrolling in `send_message`. They touch only
  widgets.
- The high-DPI `ctypes` call at the top of the file. It is a platform foreign call.
- The endpoint URL and the 180-second timeout. The POST, its timeout and JSON decoding are I/O; their outcome is the
  `Transport` parameter.
- The wording of the notices. Only the two-way classification of failures is modelled, plus the exception
  carried by the generic notice.
- Backend.Deliver: the transport outcomes are limited to a refused connection, the two timeouts and an HTTP answer.
  The library's other exceptions are not modelled. Proxy and SSL errors would also be caught as `ConnectionError`;
  redirect loops and invalid URLs would reach the generic branch.
- Chatbot.SetModel: accepts any name, as the Python method does. The restriction to the selector's list is enforced
  by the widget, and `Transcript.ModelStaysAvailable` states it as a property of runs.
- The unbounded growth of the transcript is kept as the code has it. Nothing truncates or summarises it.
