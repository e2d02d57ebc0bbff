/**
 * The index page: the headline consensus answer handed to every card, and
 * the page state that `handleApiKeySubmit` and `handleQuery` update.
 */
module Page {
  import opened Wrappers
  import opened Responses
  import opened Counting
  import opened Recommendation
  import opened Files
  import opened Dispatch

  /**
   * `getConsensusAnswer`: among the valid records, the first answer in
   * key-enumeration order with the largest count, provided at least two
   * records are valid and that count exceeds one.
   */
  function ConsensusAnswer(rs: seq<AIResponse>): Option<string>
  {
    var v := ValidResponses(rs);
    if |v| < 2 then None
    else
      var counts := Tally(AnswerKeys(v));
      var maxCount := MaxCount(counts);
      if maxCount > 1 then
        match FirstWithCount(counts, maxCount)
        case Some(i) => Some(counts[i].key)
        case None => None
      else None
  }

  /**
   * The records shown while a query is in flight: one per registered model,
   * each loading with an empty answer and no error, under a name that is
   * not the one its model's record will carry.
   */
  function Placeholders(): (p: seq<AIResponse>)
    ensures |p| == |Models|
    ensures forall i :: 0 <= i < |p| ==> Loading(p[i]) && !HasError(p[i]) && p[i].answer == ""
    ensures forall i :: 0 <= i < |p| ==> p[i].modelName != Models[i].name
  {
    [
      AIResponse("Claude 3 Sonnet", "", None, None, None, Some(true), None),
      AIResponse("GPT-4 Turbo", "", None, None, None, Some(true), None),
      AIResponse("Gemini Pro", "", None, None, None, Some(true), None),
      AIResponse("Mixtral 8x7B", "", None, None, None, Some(true), None)
    ]
  }

  /** The page's state: the key it knows of, the records shown, and the two flags. */
  class IndexPage {
    var apiKey: Option<string>
    var responses: seq<AIResponse>
    var isLoading: bool
    var hasResults: bool
    const service: AIService

    constructor (service: AIService)
      ensures this.service == service
      ensures apiKey == None && responses == [] && !isLoading && !hasResults
    {
      this.service := service;
      apiKey := None;
      responses := [];
      isLoading := false;
      hasResults := false;
    }

    /** The mount effect: a truthy stored key is given to the page and to the service. */
    method LoadStoredKey(stored: Option<string>)
      modifies this, service
      ensures Truthy(stored) ==> apiKey == stored && service.apiKey == stored
      ensures !Truthy(stored) ==> apiKey == old(apiKey) && service.apiKey == old(service.apiKey)
      ensures responses == old(responses) && isLoading == old(isLoading) && hasResults == old(hasResults)
    {
      if Truthy(stored) {
        apiKey := stored;
        service.SetApiKey(stored.value);
      }
    }

    /** `handleApiKeySubmit`: the key, even an empty one, goes to the page and to the service. */
    method HandleApiKeySubmit(key: string)
      modifies this, service
      ensures apiKey == Some(key) && service.apiKey == Some(key)
      ensures responses == old(responses) && isLoading == old(isLoading) && hasResults == old(hasResults)
    {
      apiKey := Some(key);
      service.SetApiKey(key);
    }

    /** `handleQuery` up to its `await`: without a truthy key nothing changes; otherwise the placeholders show. */
    method BeginQuery() returns (started: bool)
      modifies this
      ensures started == Truthy(apiKey) && apiKey == old(apiKey)
      ensures !started ==> responses == old(responses) && isLoading == old(isLoading) && hasResults == old(hasResults)
      ensures started ==> isLoading && hasResults && responses == Placeholders()
    {
      if !Truthy(apiKey) {
        return false;
      }
      isLoading := true;
      hasResults := true;
      responses := Placeholders();
      started := true;
    }

    /** `handleQuery` after its `await`: the results show, or on failure nothing does; loading ends either way. */
    method FinishQuery(result: Result<seq<AIResponse>>)
      modifies this
      ensures apiKey == old(apiKey) && !isLoading
      ensures result.Success? ==> responses == result.value && hasResults == old(hasResults)
      ensures result.Failure? ==> responses == [] && !hasResults
    {
      if result.Success? {
        responses := result.value;
      } else {
        responses := [];
        hasResults := false;
      }
      isLoading := false;
    }

    /**
     * `handleQuery` from start to end, with the service answering through
     * `gateway`; `sent` lists the calls the service made.
     */
    method HandleQuery(query: string, image: Option<ImageFile>, gateway: Request -> Outcome) returns (sent: seq<Request>)
      modifies this
      ensures apiKey == old(apiKey)
      ensures !Truthy(apiKey) ==>
        (sent == [] && responses == old(responses) && isLoading == old(isLoading) && hasResults == old(hasResults))
      ensures Truthy(apiKey) && Truthy(service.apiKey) ==>
        (sent == Requests(query, image) && responses == ModelRecords(query, image, gateway) && hasResults && !isLoading)
      ensures Truthy(apiKey) && !Truthy(service.apiKey) ==>
        (sent == [] && responses == [] && !hasResults && !isLoading)
    {
      var started := BeginQuery();
      if !started {
        return [];
      }
      var result;
      result, sent := service.ProcessQuery(query, image, gateway);
      FinishQuery(result);
    }
  }
}
