# Docker-LLM chat front-end: a Dafny model of its session logic

The repository is a Streamlit chat page in front of an OpenAI-compatible
model runner. Its own logic sits in `app/main.py`, and this project models
that logic:

- **Transcript** (`transcript.dfy`, module `Transcript`): the
  `{role, content}` records of `st.session_state.messages`, and the shape a
  session's transcript always keeps. Every role is `"user"` or
  `"assistant"`, and every assistant message directly follows a user
  message. The module also holds the sidebar's role statistics and the list
  comprehension that copies the transcript into the request.
- **Session** (`session.dfy`, module `Session`): class `ChatSession` holds
  the transcript and `model_status`. Its methods are one chat turn
  (`SubmitTurn`), "Clear Chat History" (`Clear`) and "Check Model Status"
  (`CheckStatus`). The chat-completion call is a total function parameter
  `ChatRequest -> BackendOutcome`. The contract of `SubmitTurn` can
  therefore name the exact request that was sent: the whole transcript,
  including the new user message.
- **Health** (`health.dfy`, module `Health`): how the health URL is
  derived from `BASE_URL`, and how the probe's outcome maps to a status
  string and an indicator. The HTTP GET is a function parameter
  `string -> ProbeOutcome`.
- **Python strings** (`strings.dfy`, module `PyStrings`): `str.replace`
  with Python's semantics. It scans left to right and replaces every
  non-overlapping occurrence. It does not rescan what it produced. With an
  empty pattern it interleaves the replacement.

Three points where the model follows the code closely:

- A prompt is skipped only when it is empty (`if prompt := ...` tests
  falsiness). A whitespace-only prompt is appended and sent like any other.
- The code never creates a `"system"` message. The statistics count only
  `"user"` and `"assistant"` messages. The model proves that a session's
  transcript holds no other role, so the two counts always add up to the
  total (`ChatSession.SidebarStats`).
- A response without choices makes `choices[0]` raise `IndexError` inside
  the `try`. That turn fails like a network error, and nothing is appended
  (`ReplyOf`).

## Model

| member | source | states |
|---|---|---|
| `PyStrings.ReplaceAll` | app/main.py:37 | Python `str.replace`. Replacing a non-empty pattern with text no longer than it, such as nothing, never lengthens the text. |
| `PyStrings.ReplaceWithoutOccurrence` | app/main.py:37 | A text in which the pattern does not occur comes back unchanged. |
| `PyStrings.ReplaceShortens` | app/main.py:37 | Replacing with something shorter strictly shortens the text as soon as the pattern occurs in it. |
| `PyStrings.ReplaceSkipsPrefix` | app/main.py:37 | A stretch in which the pattern's first character never appears is copied unchanged, and the scan continues behind it. |
| `PyStrings.OccursIffWindow` | app/main.py:37 | The recursive occurrence test agrees with the index-based reading: some window of the text spells the pattern. |
| `Health.HealthUrlAsWritten` | app/main.py:37 | The URL the code probes always ends in `/v1/models` and is at most 10 characters longer than the base. |
| `Health.UnversionedBaseKept` | app/main.py:37 | A base without `/v1` is kept whole, with `/v1/models` appended. |
| `Health.StripsOnlyTrailingV1` | app/main.py:37 | When `/v1` occurs in the base only at its end, removing every `/v1` leaves exactly the part before it. |
| `Health.SingleTrailingVersionNotDuplicated` | app/main.py:37 | A base `p` + `/v1`, where `p` holds no `/v1`, is probed at `p` + `/v1/models`, which is the base followed by `/models`. The version segment is not duplicated. |
| `Health.HostBaseUrlNotDuplicated` | app/main.py:37 | `<scheme>//<host>/v1`, with a slash-free host that does not begin with `v1`, is probed at `<scheme>//<host>/v1/models`. The intended derivation agrees. |
| `Health.DefaultHealthUrl` | app/main.py:19 | The default base `http://model-runner:12434/v1` is probed at `http://model-runner:12434/v1/models`, and both derivations agree. |
| `Health.AsWrittenManglesVersionedHost` | app/main.py:37 | As written, `<scheme>//v1<rest>/v1` is probed at `<scheme>/<rest>/v1/models`. This is not the models listing under the configured root. |
| `Health.VersionedHostExample` | app/main.py:37 | `http://v1-runner:12434/v1` is probed at `http:/-runner:12434/v1/models`. The intended derivation gives `http://v1-runner:12434/v1/models`. |
| `Health.RemovalCanLeaveV1` | app/main.py:37 | Removal does not rescan. `//v1v1` becomes `/v1`, so `/v1` can survive in the stripped base. |
| `Health.HealthUrl` | app/main.py:36-37 | The intended derivation. A base ending in `/v1` is probed at base + `/models`. A base ending in `/v1/` is probed at the base without its last slash + `/models`. Any other base is probed at base + `/v1/models`. |
| `Health.TrailingSlashIgnored` | app/main.py:36-37 | For the intended derivation, a slash after the trailing version segment makes no difference. |
| `Health.StripsFirstVersion` | app/main.py:37 | Removing `/v1` from `p` + `/v1` + `t`, where `p` holds no `/v1`, keeps `p` whole and goes on with `t`. |
| `Health.AsWrittenDoublesSlash` | app/main.py:37 | As written, `p` + `/v1/` (no `/v1` in `p`) is probed at `p` + `//v1/models`, with a doubled slash. The intended derivation probes `p` + `/v1/models`, and the two differ. |
| `Health.IntendedAgreesWithAsWritten` | app/main.py:36-37 | The intended and the written derivation agree on every base where `/v1` occurs at most once, and then only at the end. |
| `Health.Classify` | app/main.py:38-43 | Status code 200 gives `healthy` with green, and only 200 gives green or `healthy`. Any other code gives `unhealthy` with red. An exception gives `error: ` + its message with red. The result is never `unknown`. |
| `Health.CheckModelHealth` | app/main.py:34-43 | The report is `healthy` exactly when the probe of the URL the code derives (`HealthUrlAsWritten`) answered 200. The indicator is green exactly when the status is `healthy`. |
| `Health.CheckAgreesWithIntended` | app/main.py:34-43 | On every base where `/v1` occurs at most once, and then only at the end, the check reports exactly what a check of the intended URL would report. |
| `Health.StatusDeterminesOutcomeKind` | app/main.py:39-43 | Two outcomes with the same status string have the same kind and agree on 200. Error statuses carry the same exception message. |
| `Transcript.CountRole` | app/main.py:84-85 | The role count is at most the length. |
| `Transcript.CountRoleExtremes` | app/main.py:84-85 | The role count is zero exactly when no message has the role. It equals the length exactly when every message has the role. |
| `Transcript.CountRoleAppend` | app/main.py:84-85 | Appending a message raises the count of its role by one and leaves the count of every other role unchanged. |
| `Transcript.CountsPartition` | app/main.py:83-85 | The counts of two distinct roles sum to at most the total. When every message has one of the two roles, they sum to exactly the total. |
| `Transcript.Statistics` | app/main.py:83-85 | The total is the transcript's length. User count + assistant count never exceeds it, and equals it when all roles are known. |
| `Transcript.AssistantsNeverOutnumberUsers` | app/main.py:96-134 | In a well-formed transcript, assistant messages never outnumber user messages. |
| `Transcript.TurnStatistics` | app/main.py:83-85 | An unanswered turn adds one message, a user message. An answered turn adds two, one user and one assistant. |
| `Transcript.ApiMessages` | app/main.py:110-113 | The list sent to the backend is exactly the transcript: same length, same order, same role and content. |
| `Transcript.AppendUserKeepsWellFormed` | app/main.py:98 | Appending the user's message keeps the transcript well formed. |
| `Transcript.AppendReplyKeepsWellFormed` | app/main.py:129-132 | Appending the reply right after the user's message keeps the transcript well formed. |
| `Session.BuildRequest` | app/main.py:110-122 | The request carries the whole transcript as its messages, the configured model, max tokens and temperature, and `stream` off. |
| `Session.ReplyOf` | app/main.py:116-134 | There is a reply exactly when the call returned at least one choice, and the reply is the first choice's text. An exception yields its detail. An empty choice list yields Python's `IndexError` message. |
| `Session.ChatSession.constructor` | app/main.py:27-31 | A new session has an empty transcript and status `unknown`. |
| `Session.ChatSession.Clear` | app/main.py:75-76 | The transcript becomes empty, whatever it held. The status is untouched. |
| `Session.ChatSession.CheckStatus` | app/main.py:54-56 | The status becomes the classification of the probe of the URL the code derives (`HealthUrlAsWritten`), overwriting the old status. The status is never `unknown` afterwards. The indicator is green exactly when the status is `healthy`. The transcript is untouched. |
| `Session.ChatSession.SubmitTurn` | app/main.py:96-134 | An empty prompt changes nothing. Otherwise the prompt is appended unmodified as a user message, and the backend receives exactly that transcript. A reply appends one assistant message right after it. A failure leaves the old transcript plus the user message. The old transcript is always a prefix of the new one, and well-formedness is kept. |
| `Session.ChatSession.SidebarStats` | app/main.py:83-85 | For a session's transcript, user count + assistant count equals the total, and assistants never outnumber users. |

## Findings

| source | as written | input that shows it | evidently intended | confidence | as-written member | corrected member |
|---|---|---|---|---|---|---|
| app/main.py:37 | `BASE_URL.replace("/v1", "")` removes every `/v1`, including one that starts the host name | `BASE_URL = "http://v1-runner:12434/v1"` is probed at `http:/-runner:12434/v1/models` | remove only the trailing version segment and probe `http://v1-runner:12434/v1/models` | medium (not executed) | `Health.AsWrittenManglesVersionedHost` | `Health.HealthUrl` |
| app/main.py:37 | a trailing slash after the version segment survives the removal | `BASE_URL = "http://x/v1/"` is probed at `http://x//v1/models` | probe `http://x/v1/models`; a server that normalises `//` would answer both | low (not executed) | `Health.AsWrittenDoublesSlash` | `Health.HealthUrl` |

The model keeps the code's derivation: `CheckModelHealth` and
`ChatSession.CheckStatus` probe `HealthUrlAsWritten`. `Health.HealthUrl` is the
corrected derivation of both rows. `Health.IntendedAgreesWithAsWritten` proves
that the two agree whenever `/v1` appears in the base at most once and only at
the end, which covers the default base. Outside that class they can differ.
Only the two rows above are claimed as defects of the code; on other such
bases, for example one with a repeated version segment, neither derivation is
evidently the intended one. `Health.RemovalCanLeaveV1` shows that the code's
removal can also leave a `/v1` behind.

## Left out

- The Streamlit page: page setup, title, widgets, markdown, chat bubbles, spinner, the error box and the debug expander (app/main.py:10-15, 45-93, 100-107, 135-156). This is presentation with no behavioural contract. A failed turn's `ErrorShown(detail)` stands for the error box.
- The HTTP calls `requests.get` (app/main.py:38) and `client.chat.completions.create` (app/main.py:116-122). Both are foreign network clients. Their outcomes, including the 5-second timeout, are inputs (`ProbeOutcome`, `BackendOutcome`).
- Environment and `.env` loading, the parsing of `MAX_TOKENS` and `TEMPERATURE`, and the client's API key (app/main.py:7, 18-25). These are library code. `Config` holds the parsed values, and the temperature is carried as a `real` that is never computed on.
- The `indicator` shown at app/main.py:59 on reruns where the button was not pressed. It is unbound there, and its value depends on Streamlit's rerun model. Only the returned indicator of a check is modelled.
- `st.rerun()` after clearing (app/main.py:77), and Streamlit's rerun-per-interaction execution. One method call stands for one interaction.
- A choice whose message content is `None`. The model takes the reply text as a string.
- `testLLM/LLM_Test.py`: a standalone script that makes one hard-coded HTTP POST and prints one field of the reply. It contains no logic.
