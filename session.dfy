/** The per-browser session of app/main.py: the transcript and the last health
    status held in `st.session_state`, and the three actions that change them:
    a chat turn, "Clear Chat History" and "Check Model Status". The
    chat-completion call and the health GET are not modelled; each is a total
    function parameter from what the code sends to what came back. */
module Session {
  import opened Transcript
  import opened Health

  /** The backend configuration, read once from the environment. */
  datatype Config = Config(baseUrl: string, modelName: string, maxTokens: int, temperature: real)

  /** The configuration when no environment variable is set. */
  const DefaultConfig := Config(DefaultBaseUrl, "ai/smollm2:135M-Q4_K_M", 500, 0.7)

  /** The arguments of `client.chat.completions.create`. */
  datatype ChatRequest = ChatRequest(
    model: string,
    messages: seq<Message>,
    maxTokens: int,
    temperature: real,
    stream: bool)

  /** What the chat-completion call produced: a response, given by the message
      text of each of its choices, or an exception, given by its message. */
  datatype BackendOutcome = Completion(choices: seq<string>) | BackendError(detail: string)

  /** The assistant text to append, or the error text shown instead. */
  datatype Reply = Reply(text: string) | NoReply(detail: string)

  /** What a run of the chat-input block shows the user. */
  datatype TurnResult = NoPrompt | Answered(text: string) | ErrorShown(detail: string)

  /** Python's message for indexing an empty list, raised by `choices[0]`. */
  const IndexErrorDetail := "list index out of range"

  /** The request of one turn: the configured model and generation
      parameters, streaming off, and the whole transcript as context. */
  function BuildRequest(config: Config, ms: seq<Message>): (r: ChatRequest)
    ensures r.messages == ms
    ensures r.model == config.modelName && r.maxTokens == config.maxTokens
    ensures r.temperature == config.temperature && !r.stream
  {
    ChatRequest(config.modelName, ApiMessages(ms), config.maxTokens, config.temperature, false)
  }

  /** `response.choices[0].message.content`, inside the `try`: a response
      with no choice fails like any exception raised by the call. */
  function ReplyOf(outcome: BackendOutcome): (r: Reply)
    ensures r.Reply? <==> outcome.Completion? && outcome.choices != []
    ensures r.Reply? ==> r.text == outcome.choices[0]
    ensures outcome.BackendError? ==> r == NoReply(outcome.detail)
    ensures outcome == Completion([]) ==> r == NoReply(IndexErrorDetail)
  {
    match outcome
    case Completion(choices) =>
      if choices == [] then NoReply(IndexErrorDetail) else Reply(choices[0])
    case BackendError(detail) => NoReply(detail)
  }

  /** One browser session's state. */
  class ChatSession {
    const config: Config
    /** `st.session_state.messages` */
    var messages: seq<Message>
    /** `st.session_state.model_status` */
    var modelStatus: string

    ghost predicate Valid()
      reads this
    {
      WellFormed(messages)
    }

    /** The first run of a session: an empty transcript, status "unknown". */
    constructor (config: Config)
      ensures this.config == config
      ensures messages == [] && modelStatus == UnknownStatus
      ensures Valid()
    {
      this.config := config;
      messages := [];
      modelStatus := UnknownStatus;
    }

    /** "Clear Chat History": the transcript becomes empty, whatever it held;
        the health status is kept. */
    method Clear()
      modifies this`messages
      ensures messages == []
      ensures Valid()
    {
      messages := [];
    }

    /** "Check Model Status": probes the derived health URL and overwrites the
        stored status with the classification; the transcript is kept. */
    method CheckStatus(probe: string -> ProbeOutcome) returns (indicator: Indicator)
      modifies this`modelStatus
      ensures modelStatus == Classify(probe(HealthUrlAsWritten(config.baseUrl))).status
      ensures indicator == Classify(probe(HealthUrlAsWritten(config.baseUrl))).indicator
      ensures modelStatus != UnknownStatus
      ensures indicator == Green <==> modelStatus == "healthy"
    {
      var report := CheckModelHealth(config.baseUrl, probe);
      modelStatus := report.status;
      indicator := report.indicator;
    }

    /** One chat turn. An empty prompt does nothing. Otherwise the prompt is
        appended as a user message, the whole transcript is sent, and the
        reply is appended as an assistant message if the call produced one;
        on any failure the transcript keeps just the user message. */
    method SubmitTurn(prompt: string, backend: ChatRequest -> BackendOutcome) returns (result: TurnResult)
      requires Valid()
      modifies this`messages
      ensures Valid()
      ensures old(messages) <= messages
      ensures prompt == "" ==> messages == old(messages) && result == NoPrompt
      ensures prompt != "" ==>
        var withUser := old(messages) + [Message(UserRole, prompt)];
        match ReplyOf(backend(BuildRequest(config, withUser)))
        case Reply(text) =>
          messages == withUser + [Message(AssistantRole, text)] && result == Answered(text)
        case NoReply(detail) =>
          messages == withUser && result == ErrorShown(detail)
    {
      if prompt == "" {
        return NoPrompt;
      }
      AppendUserKeepsWellFormed(messages, prompt);
      messages := messages + [Message(UserRole, prompt)];
      var outcome := backend(BuildRequest(config, messages));
      match ReplyOf(outcome) {
        case Reply(text) =>
          AppendReplyKeepsWellFormed(messages, text);
          messages := messages + [Message(AssistantRole, text)];
          result := Answered(text);
        case NoReply(detail) =>
          result := ErrorShown(detail);
      }
    }

    /** The sidebar's statistics of this session's transcript. */
    function SidebarStats(): (s: Stats)
      reads this
      requires Valid()
      ensures s.total == |messages|
      ensures s.users + s.assistants == s.total
      ensures s.assistants <= s.users
    {
      AssistantsNeverOutnumberUsers(messages);
      Statistics(messages)
    }
  }

  /** A greeting answered, then a second prompt that the unreachable backend
      cannot answer: the transcript keeps the greeting, the reply and the
      unanswered prompt, in that order. */
  method GreetingThenOutage()
  {
    var session := new ChatSession(DefaultConfig);
    var first := session.SubmitTurn("Hi", (r: ChatRequest) => Completion(["Hello!"]));
    assert first == Answered("Hello!");
    assert session.messages == [Message(UserRole, "Hi"), Message(AssistantRole, "Hello!")];
    var second := session.SubmitTurn("Again?", (r: ChatRequest) => BackendError("Connection refused"));
    assert second == ErrorShown("Connection refused");
    assert session.messages ==
      [Message(UserRole, "Hi"), Message(AssistantRole, "Hello!"), Message(UserRole, "Again?")];
    session.Clear();
    assert session.messages == [];
  }
}
