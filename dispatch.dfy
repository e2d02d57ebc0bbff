/**
 * `AIService.processQuery`: the API-key guard, the user text, one request per
 * registered model and one record per model, where a failed call becomes an
 * error record for that model alone. The network client is a gateway
 * function from a request to its outcome, and the concurrent fan-out is a
 * loop over the registry in order.
 */
module Dispatch {
  import opened Wrappers
  import opened Responses
  import opened Parser
  import opened Files

  /** An entry of `AI_MODELS`. */
  datatype ModelSpec = ModelSpec(id: string, name: string, displayName: string)

  /** `AI_MODELS`, in registry order. */
  const Models: seq<ModelSpec> := [
    ModelSpec("anthropic/claude-3.5-sonnet", "Claude 3.5 Sonnet", "Claude 3.5 Sonnet"),
    ModelSpec("openai/gpt-4o", "GPT-4o", "GPT-4o"),
    ModelSpec("google/gemini-pro-1.5", "Gemini Pro 1.5", "Gemini Pro 1.5"),
    ModelSpec("mistralai/mistral-large", "Mistral Large", "Mistral Large")
  ]

  /** The system message: every request carries the same instruction. */
  datatype SystemMessage = AcademicAssistant

  /** The text of the system message. */
  function SystemText(m: SystemMessage): string
  {
    "You are an AI assistant helping with academic assignments. \n" +
    "\n" +
    "For multiple choice questions:\n" +
    "- Identify the correct option (A, B, C, D, etc.)\n" +
    "- Provide clear reasoning for your choice\n" +
    "- Be confident in your selection\n" +
    "\n" +
    "For general questions:\n" +
    "- Provide a comprehensive, accurate answer\n" +
    "- Include step-by-step reasoning when applicable\n" +
    "- Be educational and helpful\n" +
    "\n" +
    "Format your response as:\n" +
    "- Answer: [Your main answer]\n" +
    "- Reasoning: [Your detailed explanation]\n" +
    "- Confidence: [0.0-1.0 score]\n" +
    "\n" +
    "If it's a multiple choice question, also include:\n" +
    "- Selected Option: [Letter of chosen option]"
  }

  const ImagePromptPrefix: string := "Please analyze this image and answer the question shown: "
  const DefaultImageQuestion: string := "What is the question in this image and what is the answer?"
  const MissingKeyMessage: string := "API key not provided"
  const UnknownErrorMessage: string := "Unknown error occurred"
  const MaxTokens: nat := 1000
  const Temperature: real := 0.3

  /** The user message's `content`: the text alone, or a text part and an image part. */
  datatype UserContent = PlainText(text: string) | TextWithImage(text: string, imageUrl: string)

  /** The arguments of one `chat.completions.create` call. */
  datatype Request = Request(model: string, system: SystemMessage, user: UserContent, maxTokens: nat, temperature: real)

  /**
   * What one call comes to: a completion whose first choice carries `content`
   * (absent when the choice, its message or its content is missing), or a
   * thrown value, with its `message` when it is an `Error`.
   */
  datatype Outcome = Completed(content: Option<string>) | Threw(message: Option<string>)

  /** The user text: the query itself, or, with an image, the fixed prompt followed by the query or the default question. */
  function UserText(query: string, image: Option<ImageFile>): (t: string)
    ensures image.None? ==> t == query
    ensures image.Some? ==> |t| > |ImagePromptPrefix| && t[..|ImagePromptPrefix|] == ImagePromptPrefix
    ensures image.Some? && query != "" ==> t[|ImagePromptPrefix|..] == query
    ensures image.Some? && query == "" ==> t[|ImagePromptPrefix|..] == DefaultImageQuestion
  {
    if image.Some? then ImagePromptPrefix + (if query != "" then query else DefaultImageQuestion)
    else query
  }

  /** The `content` of the user message; the image goes as a `data:` URL. */
  function Content(query: string, image: Option<ImageFile>): (c: UserContent)
    ensures c.text == UserText(query, image)
    ensures c.PlainText? <==> image.None?
    ensures image.Some? ==> c.imageUrl == "data:" + image.value.mimeType + ";base64," + image.value.base64
  {
    match image
    case None => PlainText(UserText(query, image))
    case Some(f) => TextWithImage(UserText(query, image), "data:" + f.mimeType + ";base64," + f.base64)
  }

  /** The request sent to model `m`. */
  function RequestFor(m: ModelSpec, query: string, image: Option<ImageFile>): (q: Request)
    ensures q.model == m.id && q.system == AcademicAssistant && q.user == Content(query, image)
    ensures q.maxTokens == MaxTokens && q.temperature == Temperature
  {
    Request(m.id, AcademicAssistant, Content(query, image), MaxTokens, Temperature)
  }

  /** The record for model `m` given its call's outcome: the parsed reply, or an error record. */
  function RecordFor(m: ModelSpec, o: Outcome): (r: AIResponse)
    ensures r.modelName == m.displayName
    ensures o.Threw? ==> r.answer == "" && r.error.Some? && r.reasoning.None? && r.confidence.None?
                          && r.isLoading.None? && r.selectedOption.None?
    ensures o.Threw? && o.message.Some? ==> r.error == o.message
    ensures o.Threw? && o.message.None? ==> r.error == Some(UnknownErrorMessage)
    ensures o.Completed? ==> r.error.None? && r.isLoading.None?
  {
    match o
    case Completed(content) =>
      Parse(if content.Some? then content.value else "", m.displayName)
    case Threw(message) =>
      AIResponse(m.displayName, "", None, None,
                 Some(if message.Some? then message.value else UnknownErrorMessage), None, None)
  }

  /** The requests of one query to the models `ms`, in their order. */
  function RequestsTo(ms: seq<ModelSpec>, query: string, image: Option<ImageFile>): (qs: seq<Request>)
    ensures |qs| == |ms|
  {
    seq(|ms|, k requires 0 <= k < |ms| => RequestFor(ms[k], query, image))
  }

  /** The records of the models `ms`, each from the outcome of its own request, in their order. */
  function RecordsOf(ms: seq<ModelSpec>, query: string, image: Option<ImageFile>, gateway: Request -> Outcome): (rs: seq<AIResponse>)
    ensures |rs| == |ms|
  {
    seq(|ms|, k requires 0 <= k < |ms| => RecordFor(ms[k], gateway(RequestFor(ms[k], query, image))))
  }

  /** The requests of one query, one per registered model, in registry order. */
  function Requests(query: string, image: Option<ImageFile>): (qs: seq<Request>)
    ensures |qs| == |Models|
    ensures forall k :: 0 <= k < |qs| ==> qs[k] == RequestFor(Models[k], query, image)
  {
    RequestsTo(Models, query, image)
  }

  /** `Promise.all(AI_MODELS.map(...))` once the key is accepted: every model's record, in registry order. */
  function ModelRecords(query: string, image: Option<ImageFile>, gateway: Request -> Outcome): (rs: seq<AIResponse>)
    ensures |rs| == |Models|
  {
    RecordsOf(Models, query, image, gateway)
  }

  /**
   * The body of `AI_MODELS.map(async (model) => ...)`, one model after the
   * other: each model's request goes out and its outcome becomes its record.
   */
  method CallModels(ms: seq<ModelSpec>, query: string, image: Option<ImageFile>, gateway: Request -> Outcome)
    returns (records: seq<AIResponse>, sent: seq<Request>)
    ensures records == RecordsOf(ms, query, image, gateway) && sent == RequestsTo(ms, query, image)
  {
    records, sent := [], [];
    var i := 0;
    while i < |ms|
      invariant 0 <= i <= |ms| && |sent| == i && |records| == i
      invariant forall k :: 0 <= k < i ==> sent[k] == RequestFor(ms[k], query, image)
      invariant forall k :: 0 <= k < i ==> records[k] == RecordFor(ms[k], gateway(sent[k]))
    {
      var request := RequestFor(ms[i], query, image);
      var outcome := gateway(request);
      sent := sent + [request];
      records := records + [RecordFor(ms[i], outcome)];
      i := i + 1;
    }
  }

  /** One record per registered model, in registry order, named by the model's display name. */
  lemma DispatchNames(query: string, image: Option<ImageFile>, gateway: Request -> Outcome)
    ensures var rs := ModelRecords(query, image, gateway);
      |rs| == 4 &&
      rs[0].modelName == "Claude 3.5 Sonnet" && rs[1].modelName == "GPT-4o" &&
      rs[2].modelName == "Gemini Pro 1.5" && rs[3].modelName == "Mistral Large"
  {
    var rs := ModelRecords(query, image, gateway);
    forall k | 0 <= k < 4 ensures rs[k].modelName == Models[k].displayName {
      assert rs[k] == RecordFor(Models[k], gateway(RequestFor(Models[k], query, image)));
    }
  }

  /** A model's record depends on the outcome of that model's own call and on nothing else. */
  lemma RecordIsolated(query: string, image: Option<ImageFile>, g1: Request -> Outcome, g2: Request -> Outcome, k: nat)
    requires k < |Models|
    requires g1(Requests(query, image)[k]) == g2(Requests(query, image)[k])
    ensures ModelRecords(query, image, g1)[k] == ModelRecords(query, image, g2)[k]
  {
  }

  /** A call that throws gives that model a record with an empty answer and the error's message, or a generic one. */
  lemma FailedCallRecord(query: string, image: Option<ImageFile>, gateway: Request -> Outcome, k: nat)
    requires k < |Models| && gateway(Requests(query, image)[k]).Threw?
    ensures var m := gateway(Requests(query, image)[k]).message;
      ModelRecords(query, image, gateway)[k] ==
        AIResponse(Models[k].displayName, "", None, None,
                   Some(if m.Some? then m.value else UnknownErrorMessage), None, None)
    ensures gateway(Requests(query, image)[k]) != Threw(Some("")) ==> !IsValid(ModelRecords(query, image, gateway)[k])
  {
  }

  /**
   * An `Error` with an empty message gives an error record whose `error` is
   * falsy, so both consensus computations treat it as a valid answer "".
   */
  lemma EmptyErrorCountsAsValid(query: string, image: Option<ImageFile>, gateway: Request -> Outcome, k: nat)
    requires k < |Models| && gateway(Requests(query, image)[k]) == Threw(Some(""))
    ensures IsValid(ModelRecords(query, image, gateway)[k]) && ModelRecords(query, image, gateway)[k].answer == ""
  {
  }

  /** A completed call gives that model the parse of its content, or of "" when the content is missing. */
  lemma CompletedCallRecord(query: string, image: Option<ImageFile>, gateway: Request -> Outcome, k: nat)
    requires k < |Models| && gateway(Requests(query, image)[k]).Completed?
    ensures var c := gateway(Requests(query, image)[k]).content;
      ModelRecords(query, image, gateway)[k] == Parse(if c.Some? then c.value else "", Models[k].displayName)
    ensures IsValid(ModelRecords(query, image, gateway)[k])
  {
  }

  /** The service object and its `apiKey` field. */
  class AIService {
    var apiKey: Option<string>

    constructor ()
      ensures apiKey == None
    {
      apiKey := None;
    }

    /** `setApiKey`: the key is stored as given, even when empty. */
    method SetApiKey(key: string)
      modifies this
      ensures apiKey == Some(key)
    {
      apiKey := Some(key);
    }

    /**
     * `processQuery`: without a truthy key it fails before any call;
     * otherwise it calls every registered model in order and collects their
     * records. `sent` lists the calls made.
     */
    method ProcessQuery(query: string, image: Option<ImageFile>, gateway: Request -> Outcome)
      returns (r: Result<seq<AIResponse>>, sent: seq<Request>)
      ensures !Truthy(apiKey) ==> r == Failure(MissingKeyMessage) && sent == []
      ensures Truthy(apiKey) ==> r == Success(ModelRecords(query, image, gateway)) && sent == Requests(query, image)
    {
      if !Truthy(apiKey) {
        return Failure(MissingKeyMessage), [];
      }
      var records;
      records, sent := CallModels(Models, query, image, gateway);
      r := Success(records);
    }
  }
}
