/**
  * `GeminiChatService::reply`: asks the models of the chat fallback list in
  * order and returns the first 200 answer's text, trimmed. The JSON-encoded
  * conversation context is part of the request and so folded into `post`.
  */
module GeminiChat {
  import opened Outcomes
  import opened Text
  import opened PhpArray
  import opened GeminiCall
  import ModelFallback

  const FailPrefix := "Gemini chat request failed: "

  /** The full fallback list: the chat service tries every model in it. */
  function ChatModels(configured: string): (models: seq<string>)
    ensures 3 <= |models| <= |Split(Trim(configured, PhpTrim), ',')| + 3
  {
    ModelFallback.ChatListLength(configured);
    ModelFallback.Normalized(ModelFallback.Candidates(configured) + ModelFallback.ChatFallbacks)
  }

  /**
    * What the first 200 answer becomes: its trimmed text, or the empty-response
    * failure. There is no second chance with the next model.
    */
  function ReplyOf(json: Value): (r: Result<string, string>)
    ensures r.Success? <==> ReplyText(json).Some?
    ensures r.Failure? ==> r.error == EmptyResponse
    ensures r.Success? ==> r.value == Trim(ReplyText(json).value, PhpTrim) && Trim(r.value, PhpTrim) == r.value
  {
    TrimIdempotent(if ReplyText(json).Some? then ReplyText(json).value else "", PhpTrim);
    match ReplyText(json)
    case Some(text) => Success(Trim(text, PhpTrim))
    case None => Failure(EmptyResponse)
  }

  /** The whole call: the reply text, or the message of the exception it throws. */
  function Reply(apiKey: string, configured: string, post: string -> HttpResponse): (r: Result<string, string>)
    ensures !TruthyString(apiKey) ==> r == Failure(MissingKey)
    ensures r.Success? ==> TruthyString(apiKey) && TryModels(ChatModels(configured), post, FailPrefix, None).Answered?
    ensures TruthyString(apiKey) && TryModels(ChatModels(configured), post, FailPrefix, None).Answered? ==>
      r == ReplyOf(TryModels(ChatModels(configured), post, FailPrefix, None).json)
  {
    if !TruthyString(apiKey) then Failure(MissingKey)
    else match TryModels(ChatModels(configured), post, FailPrefix, None)
      case Answered(json, _) => ReplyOf(json)
      case Exhausted(last) => Failure(FailureText(FailPrefix, last))
      case Thrown(m) => Failure(m)
  }

  /** `reply`, as the service runs it. */
  method ReplyTo(apiKey: string, configured: string, post: string -> HttpResponse) returns (r: Result<string, string>)
    ensures r == Reply(apiKey, configured, post)
  {
    if !TruthyString(apiKey) {
      return Failure(MissingKey);
    }
    var models := ModelFallback.BuildModelFallbackList(configured, ModelFallback.ChatFallbacks);
    var end := RequestModels(models, post, FailPrefix);
    match end
    case Answered(json, _) =>
      var text := ReplyText(json);
      if text.None? {
        return Failure(EmptyResponse);
      }
      r := Success(Trim(text.value, PhpTrim));
    case Exhausted(last) =>
      r := Failure(FailureText(FailPrefix, last));
    case Thrown(m) =>
      r := Failure(m);
  }

  /**
    * A reply is never blank and has no surrounding whitespace, and it is the
    * text of a 200 answer from a model that followed only 404s.
    */
  lemma ReplyShape(apiKey: string, configured: string, post: string -> HttpResponse)
    requires Reply(apiKey, configured, post).Success?
    ensures var text := Reply(apiKey, configured, post).value;
      text != [] && Trim(text, PhpTrim) == text
    ensures var models := ChatModels(configured);
      exists i ::
        && 0 <= i < |models| && post(models[i]).status == 200
        && ReplyText(post(models[i]).json).Some?
        && Reply(apiKey, configured, post).value == Trim(ReplyText(post(models[i]).json).value, PhpTrim)
        && forall k :: 0 <= k < i ==> post(models[k]).status == 404
  {
    var models := ChatModels(configured);
    var text := Reply(apiKey, configured, post).value;
    AnsweredBy(models, post, FailPrefix, None);
    var raw := ReplyText(TryModels(models, post, FailPrefix, None).json).value;
    assert text == Trim(raw, PhpTrim);
    TrimIdempotent(raw, PhpTrim);
  }

  /**
    * Every model answering 404 gives the chat failure with status 404 and the
    * last model's body. The list is never empty, so this case never reports
    * the "0 Unknown error" text.
    */
  lemma All404(apiKey: string, configured: string, post: string -> HttpResponse)
    requires TruthyString(apiKey)
    requires TryModels(ChatModels(configured), post, FailPrefix, None).Exhausted?
    ensures var models := ChatModels(configured);
      && (forall k :: 0 <= k < |models| ==> post(models[k]).status == 404)
      && Reply(apiKey, configured, post) == Failure(FailPrefix + "404 " + post(models[|models| - 1]).body)
  {
    var models := ChatModels(configured);
    var b := post(models[|models| - 1]).body;
    ExhaustedAll404(models, post, FailPrefix, None);
    var end := TryModels(models, post, FailPrefix, None);
    assert Reply(apiKey, configured, post) == Failure(FailureText(FailPrefix, end.last));
    ExhaustedLast(models, post, FailPrefix, None);
    Failure404(FailPrefix, b);
  }

  /** Running out of models reports the body of the last one asked. */
  lemma {:induction false} ExhaustedLast(models: seq<string>, post: string -> HttpResponse, prefix: string, last: LastFailure)
    requires models != [] && TryModels(models, post, prefix, last).Exhausted?
    ensures TryModels(models, post, prefix, last).last == Some((404, post(models[|models| - 1]).body))
    decreases |models|
  {
    if |models| > 1 {
      ExhaustedLast(models[1..], post, prefix, Some((404, post(models[0]).body)));
      assert models[1..][|models[1..]| - 1] == models[|models| - 1];
    }
  }

  /**
    * A blank first answer ends the call: the remaining models are not tried.
    */
  lemma BlankAnswerFails(apiKey: string, configured: string, post: string -> HttpResponse)
    requires TruthyString(apiKey)
    requires post(ChatModels(configured)[0]).status == 200
    requires ReplyText(post(ChatModels(configured)[0]).json).None?
    ensures Reply(apiKey, configured, post) == Failure(EmptyResponse)
  {
  }

  /** A 429 from the first model is reported as a quota problem, with its body. */
  lemma QuotaReported(apiKey: string, configured: string, post: string -> HttpResponse)
    requires TruthyString(apiKey)
    requires post(ChatModels(configured)[0]).status == 429
    ensures Reply(apiKey, configured, post) == Failure(QuotaPrefix + post(ChatModels(configured)[0]).body)
  {
  }
}
