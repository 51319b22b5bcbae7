/**
  * `GeminiVisionService::analyzeOutfitImage`: asks at most the first two
  * models of the fallback list to describe the outfit photo, then turns the
  * reply text into a normalised vision payload, repairing the JSON once when
  * it does not decode. The image bytes and the prompt go into the request and
  * are folded into `post`; `json_decode($s, true)` is the parameter `decode`.
  */
module GeminiVision {
  import opened Outcomes
  import opened Text
  import opened PhpArray
  import opened GeminiCall
  import JsonText
  import ModelFallback
  import VisionPayload
  import OutfitAnalysis

  const FailPrefix := "Gemini request failed: "
  const InvalidJsonPrefix := "Gemini returned invalid JSON. Snippet: "
  const SnippetLength := 400

  /** `array_slice($list, 0, 2)`: the models the service contacts. */
  function ModelsToTry(configured: string): (models: seq<string>)
    ensures var list := ModelFallback.Normalized(ModelFallback.Candidates(configured) + ModelFallback.VisionFallbacks);
      |models| == 2 && |list| >= 6 && models == list[..2]
  {
    var list := ModelFallback.Normalized(ModelFallback.Candidates(configured) + ModelFallback.VisionFallbacks);
    ModelFallback.VisionListLength(configured);
    list[..if |list| < 2 then |list| else 2]
  }

  /** `mb_substr($json, 0, 400)`. */
  function Snippet(json: string): (s: string)
    ensures |s| <= SnippetLength && |s| <= |json| && s == json[..|s|]
    ensures |json| <= SnippetLength ==> s == json
  {
    if |json| <= SnippetLength then json else json[..SnippetLength]
  }

  /** `$decoded`: the extracted JSON decoded, or, when that is not an array, the repaired JSON decoded. */
  function Decoded(text: string, decode: string -> Value): (v: Value)
    ensures decode(JsonText.ExtractJson(text)).Arr? ==> v == decode(JsonText.ExtractJson(text))
    ensures !decode(JsonText.ExtractJson(text)).Arr? ==> v == decode(JsonText.RepairJson(JsonText.ExtractJson(text)))
  {
    var json := JsonText.ExtractJson(text);
    var first := decode(json);
    if first.Arr? then first else decode(JsonText.RepairJson(json))
  }

  /**
    * From the reply text to the payload: extract the JSON, decode it, decode
    * the repaired text when the first decode is not an array, normalise. The
    * normalisation throws "Array to string conversion" on an array description.
    */
  function PayloadOf(text: string, decode: string -> Value): (r: Result<Entries, string>)
    ensures !Decoded(text, decode).Arr? ==> r == Failure(InvalidJsonPrefix + Snippet(JsonText.ExtractJson(text)))
    ensures Decoded(text, decode).Arr? ==>
      (r.Failure? <==> VisionPayload.NormalizeVisionPayload(Decoded(text, decode).entries).None?)
    ensures Decoded(text, decode).Arr? && r.Failure? ==> r.error == ArrayToString
    ensures r.Success? ==>
      && VisionPayload.Normal(r.value)
      && VisionPayload.ItemsFrom(r.value, Decoded(text, decode).entries)
      && VisionPayload.TagsFrom(r.value, Decoded(text, decode).entries)
  {
    var json := JsonText.ExtractJson(text);
    var decoded := Decoded(text, decode);
    if decoded.Arr? then
      match VisionPayload.NormalizeVisionPayload(decoded.entries)
      case Some(payload) => Success(payload)
      case None => Failure(ArrayToString)
    else Failure(InvalidJsonPrefix + Snippet(json))
  }

  /** Everything after the request loop, given how the loop ended. */
  function AfterLoop(end: LoopEnd, decode: string -> Value): (r: Result<Entries, string>)
    ensures end.Thrown? ==> r == Failure(end.message)
    ensures end.Exhausted? || (end.Answered? && !end.json.Arr?) ==> r == Failure(FailureText(FailPrefix, end.last))
    ensures end.Answered? && end.json.Arr? && ReplyText(end.json).None? ==> r == Failure(EmptyResponse)
    ensures end.Answered? && end.json.Arr? && ReplyText(end.json).Some? ==> r == PayloadOf(ReplyText(end.json).value, decode)
    ensures r.Success? ==> end.Answered? && VisionPayload.Normal(r.value)
  {
    match end
    case Thrown(m) => Failure(m)
    case Exhausted(last) => Failure(FailureText(FailPrefix, last))
    case Answered(json, last) =>
      if !json.Arr? then Failure(FailureText(FailPrefix, last))
      else match ReplyText(json)
        case None => Failure(EmptyResponse)
        case Some(text) => PayloadOf(text, decode)
  }

  /** The whole call: a result payload, or the message of the exception it throws. */
  function AnalyzeImage(apiKey: string, configured: string, post: string -> HttpResponse, decode: string -> Value): (r: Result<Entries, string>)
    ensures !TruthyString(apiKey) ==> r == Failure(MissingKey)
    ensures TruthyString(apiKey) ==> r == AfterLoop(TryModels(ModelsToTry(configured), post, FailPrefix, None), decode)
    ensures r.Success? ==> VisionPayload.Normal(r.value)
  {
    if !TruthyString(apiKey) then Failure(MissingKey)
    else AfterLoop(TryModels(ModelsToTry(configured), post, FailPrefix, None), decode)
  }

  /** `analyzeOutfitImage`, in the order the service runs its steps. */
  method AnalyzeOutfitImage(apiKey: string, configured: string, post: string -> HttpResponse, decode: string -> Value)
    returns (r: Result<Entries, string>)
    ensures r == AnalyzeImage(apiKey, configured, post, decode)
  {
    if !TruthyString(apiKey) {
      return Failure(MissingKey);
    }
    var list := ModelFallback.BuildModelFallbackList(configured, ModelFallback.VisionFallbacks);
    var models := list[..if |list| < 2 then |list| else 2];
    var end := RequestModels(models, post, FailPrefix);
    if end.Thrown? {
      return Failure(end.message);
    }
    if end.Exhausted? || !end.json.Arr? {
      return Failure(FailureText(FailPrefix, end.last));
    }
    var text := ReplyText(end.json);
    if text.None? {
      return Failure(EmptyResponse);
    }
    var json := JsonText.ExtractJson(text.value);
    var decoded := decode(json);
    if !decoded.Arr? {
      var repaired := JsonText.RepairJson(json);
      decoded := decode(repaired);
    }
    if !decoded.Arr? {
      return Failure(InvalidJsonPrefix + Snippet(json));
    }
    var payload := VisionPayload.NormalizeVisionPayload(decoded.entries);
    if payload.None? {
      return Failure(ArrayToString);
    }
    r := Success(payload.value);
  }

  /** Without a truthy API key nothing is requested. */
  lemma MissingKeyFails(configured: string, post: string -> HttpResponse, decode: string -> Value)
    ensures AnalyzeImage("", configured, post, decode) == Failure(MissingKey)
    ensures AnalyzeImage("0", configured, post, decode) == Failure(MissingKey)
  {
  }

  /**
    * Only the first two models of the fallback list are ever contacted: two
    * services that answer alike for those two give the same result.
    */
  lemma OnlyTwoModels(apiKey: string, configured: string, post: string -> HttpResponse, post': string -> HttpResponse, decode: string -> Value)
    requires forall m :: m in ModelsToTry(configured) ==> post(m) == post'(m)
    ensures AnalyzeImage(apiKey, configured, post, decode) == AnalyzeImage(apiKey, configured, post', decode)
  {
    var models := ModelsToTry(configured);
    TryModelsLocal(models, post, post', FailPrefix, None);
  }

  /** A 429 from the first model is reported as a quota problem, with its body. */
  lemma QuotaReported(apiKey: string, configured: string, post: string -> HttpResponse, decode: string -> Value)
    requires TruthyString(apiKey)
    requires post(ModelsToTry(configured)[0]).status == 429
    ensures AnalyzeImage(apiKey, configured, post, decode)
      == Failure(QuotaPrefix + post(ModelsToTry(configured)[0]).body)
  {
  }

  /** Both models answering 404 gives the generic failure with the second body. */
  lemma Both404(apiKey: string, configured: string, post: string -> HttpResponse, decode: string -> Value)
    requires TruthyString(apiKey)
    requires post(ModelsToTry(configured)[0]).status == 404 && post(ModelsToTry(configured)[1]).status == 404
    ensures AnalyzeImage(apiKey, configured, post, decode)
      == Failure(FailPrefix + "404 " + post(ModelsToTry(configured)[1]).body)
  {
    var models := ModelsToTry(configured);
    TwoNotFound(models, post, FailPrefix);
    Failure404(FailPrefix, post(models[1]).body);
  }

  /**
    * A successful result comes from a 200 answer of one of the two models
    * (every model before it answered 404), and it is a normalised payload that
    * the scoring heuristic can count without error.
    */
  lemma SuccessIsNormal(apiKey: string, configured: string, post: string -> HttpResponse, decode: string -> Value)
    requires AnalyzeImage(apiKey, configured, post, decode).Success?
    ensures var models := ModelsToTry(configured);
      exists i :: 0 <= i < 2 && post(models[i]).status == 200
        && forall k :: 0 <= k < i ==> post(models[k]).status == 404
    ensures VisionPayload.Normal(AnalyzeImage(apiKey, configured, post, decode).value)
    ensures OutfitAnalysis.DetectedOf(Arr(AnalyzeImage(apiKey, configured, post, decode).value)).Some?
  {
    var models := ModelsToTry(configured);
    var r := AnalyzeImage(apiKey, configured, post, decode);
    var end := TryModels(models, post, FailPrefix, None);
    assert r == AfterLoop(end, decode);
    assert end.Answered?;
    AnsweredBy(models, post, FailPrefix, None);
    VisionPayload.NormalHasCounts(r.value);
  }

  /**
    * A failure after the reply text is either invalid JSON, when neither the
    * extracted nor the repaired text decoded, with at most the first 400
    * characters of the extracted JSON, or the "Array to string conversion"
    * of an array description.
    */
  lemma PayloadFailure(text: string, decode: string -> Value)
    requires PayloadOf(text, decode).Failure?
    ensures var json := JsonText.ExtractJson(text);
      !Decoded(text, decode).Arr? ==>
        && !decode(json).Arr? && !decode(JsonText.RepairJson(json)).Arr?
        && exists s :: PayloadOf(text, decode).error == InvalidJsonPrefix + s
             && |s| <= SnippetLength && |s| <= |json| && s == json[..|s|]
    ensures var d := Decoded(text, decode);
      d.Arr? ==>
        && PayloadOf(text, decode).error == ArrayToString
        && Get(d.entries, StrKey("description")).Some? && Get(d.entries, StrKey("description")).value.Arr?
  {
    var json := JsonText.ExtractJson(text);
    var s := Snippet(json);
    assert !Decoded(text, decode).Arr? ==> PayloadOf(text, decode).error == InvalidJsonPrefix + s;
  }
}
