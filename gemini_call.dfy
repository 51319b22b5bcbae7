/**
  * What the two Gemini services share: the request loop over candidate model
  * names, the error texts it produces, and reading the reply text out of a
  * `generateContent` response. The HTTP call itself is a parameter `post`,
  * mapping a model name to the response the service receives for it (the URL,
  * payload and timeouts are fixed for one call of the service).
  */
module GeminiCall {
  import opened Outcomes
  import opened Text
  import opened PhpArray

  /** A response: its status, its raw body, and `$res->json()` (`Null` when the body is not JSON). */
  datatype HttpResponse = HttpResponse(status: int, body: string, json: Value)

  /** The last failed status and body seen by the loop (`$lastStatus`, `$lastError`), set together. */
  type LastFailure = Option<(int, string)>

  /** How the loop over the candidate models ended. */
  datatype LoopEnd =
    | Answered(json: Value, last: LastFailure)   // a 200 response; `break` (vision) or reply handling (chat)
    | Exhausted(last: LastFailure)               // every model answered 404
    | Thrown(message: string)                    // a 429 or another failing status

  const MissingKey := "Missing GEMINI_API_KEY."
  const EmptyResponse := "Gemini returned an empty response."
  /** The words the controllers look for to recognise a quota failure. */
  const QuotaMarker := "Gemini " + QuotaWords
  const QuotaWords := "quota exceeded (429)"
  const QuotaPrefix := QuotaMarker + ". Enable billing / adjust quotas in Google AI Studio, or choose a model with available limits. Details: "

  /**
    * `$res->ok()`: exactly status 200. A 429 ends the loop with the quota
    * message, a 404 moves on to the next model, anything else ends it with
    * `prefix . status . ' ' . body`.
    */
  function TryModels(models: seq<string>, post: string -> HttpResponse, prefix: string, last: LastFailure): (r: LoopEnd)
    ensures models == [] ==> r == Exhausted(last)
    ensures !r.Exhausted? ==> models != []
    decreases |models|
  {
    if models == [] then Exhausted(last)
    else
      var res := post(models[0]);
      if res.status == 200 then Answered(res.json, last)
      else if res.status == 429 then Thrown(QuotaPrefix + res.body)
      else if res.status == 404 then TryModels(models[1..], post, prefix, Some((404, res.body)))
      else Thrown(prefix + IntToString(res.status) + " " + res.body)
  }

  /** `prefix . ($lastStatus ?? 0) . ' ' . ($lastError ?? 'Unknown error')`. */
  function FailureText(prefix: string, last: LastFailure): (m: string)
    ensures last.None? ==> m == prefix + "0 Unknown error"
    ensures last.Some? ==> m == prefix + IntToString(last.value.0) + " " + last.value.1
  {
    match last
    case None => prefix + "0 Unknown error"
    case Some((status, body)) => prefix + IntToString(status) + " " + body
  }

  /** How a 404 status is printed in the failure text. */
  lemma Render404()
    ensures IntToString(404) == "404"
  {
    assert NatToString(404) == NatToString(40) + ['4'];
  }

  /** The failure text of a 404 answer. */
  lemma Failure404(prefix: string, body: string)
    ensures FailureText(prefix, Some((404, body))) == prefix + "404 " + body
  {
    Render404();
    assert prefix + IntToString(404) + " " + body == prefix + "404 " + body;
  }

  /** The keys of `candidates.0.content.parts.0.text`. */
  const TextPath: seq<Key> := [StrKey("candidates"), IntKey(0), StrKey("content"), StrKey("parts"), IntKey(0), StrKey("text")]

  /** The reply text when `data_get($json, 'candidates.0.content.parts.0.text')` is a string that is not blank. */
  function ReplyText(json: Value): (r: Option<string>)
    ensures r.Some? <==> (DataGet(json, TextPath).Some? && DataGet(json, TextPath).value.Str?
                          && Trim(DataGet(json, TextPath).value.s, PhpTrim) != [])
    ensures r.Some? ==> r.value == DataGet(json, TextPath).value.s
  {
    match DataGet(json, TextPath)
    case Some(Str(s)) => if Trim(s, PhpTrim) == [] then None else Some(s)
    case _ => None
  }

  /**
    * The request loop, statement by statement: `$lastStatus`/`$lastError` are
    * updated on every failed response, the loop stops at the first 200, 429 or
    * non-404 status.
    */
  method RequestModels(models: seq<string>, post: string -> HttpResponse, prefix: string) returns (end: LoopEnd)
    ensures end == TryModels(models, post, prefix, None)
  {
    var last: LastFailure := None;
    var i := 0;
    while i < |models|
      invariant 0 <= i <= |models|
      invariant TryModels(models[i..], post, prefix, last) == TryModels(models, post, prefix, None)
    {
      var res := post(models[i]);
      assert models[i..][1..] == models[i + 1..];
      if res.status == 200 {
        return Answered(res.json, last);
      }
      last := Some((res.status, res.body));
      if res.status == 429 {
        return Thrown(QuotaPrefix + res.body);
      }
      if res.status != 404 {
        return Thrown(prefix + IntToString(res.status) + " " + res.body);
      }
      i := i + 1;
    }
    return Exhausted(last);
  }

  /**
    * A 200 answer comes from some model in the list, and every model before it
    * answered 404.
    */
  lemma {:induction false} AnsweredBy(models: seq<string>, post: string -> HttpResponse, prefix: string, last: LastFailure)
    requires TryModels(models, post, prefix, last).Answered?
    ensures exists i ::
      && 0 <= i < |models| && post(models[i]).status == 200
      && TryModels(models, post, prefix, last).json == post(models[i]).json
      && forall k :: 0 <= k < i ==> post(models[k]).status == 404
    decreases |models|
  {
    var res := post(models[0]);
    if res.status != 200 {
      AnsweredBy(models[1..], post, prefix, Some((404, res.body)));
      var i :| 0 <= i < |models[1..]| && post(models[1..][i]).status == 200
        && TryModels(models[1..], post, prefix, Some((404, res.body))).json == post(models[1..][i]).json
        && forall k :: 0 <= k < i ==> post(models[1..][k]).status == 404;
      assert post(models[i + 1]).status == 200;
      forall k | 0 <= k < i + 1 ensures post(models[k]).status == 404 {
        if k > 0 { assert models[k] == models[1..][k - 1]; }
      }
    }
  }

  /** The message model `i` ends the loop with: the quota text for a 429, else the status and body. */
  function ThrowText(res: HttpResponse, prefix: string): string {
    if res.status == 429 then QuotaPrefix + res.body else prefix + IntToString(res.status) + " " + res.body
  }

  /** Model `i` answered with a failure other than 404, after only 404s. */
  predicate ThrowsAt(models: seq<string>, post: string -> HttpResponse, i: int) {
    && 0 <= i < |models|
    && post(models[i]).status != 200 && post(models[i]).status != 404
    && forall k :: 0 <= k < i ==> post(models[k]).status == 404
  }

  /**
    * A thrown failure comes from the first model that answered neither 200
    * nor 404, every model before it having answered 404.
    */
  lemma {:induction false} ThrownBy(models: seq<string>, post: string -> HttpResponse, prefix: string, last: LastFailure)
    requires TryModels(models, post, prefix, last).Thrown?
    ensures exists i :: ThrowsAt(models, post, i) && TryModels(models, post, prefix, last).message == ThrowText(post(models[i]), prefix)
    decreases |models|
  {
    var res := post(models[0]);
    if res.status == 404 {
      var rest := models[1..];
      ThrownBy(rest, post, prefix, Some((404, res.body)));
      var i :| ThrowsAt(rest, post, i) && TryModels(rest, post, prefix, Some((404, res.body))).message == ThrowText(post(rest[i]), prefix);
      ThrowsShift(models, post, i);
    } else {
      assert ThrowsAt(models, post, 0);
    }
  }

  /** A throw found in the tail after a first 404 is a throw of the whole list, one place later. */
  lemma ThrowsShift(models: seq<string>, post: string -> HttpResponse, i: int)
    requires models != [] && post(models[0]).status == 404 && ThrowsAt(models[1..], post, i)
    ensures ThrowsAt(models, post, i + 1) && models[i + 1] == models[1..][i]
  {
    forall k | 1 <= k < i + 1 ensures post(models[k]).status == 404 {
      assert models[k] == models[1..][k - 1];
    }
  }

  /**
    * When the loop runs out of models after at least one request, the last
    * failure it reports is a 404: the generic "0 Unknown error" text needs an
    * empty model list.
    */
  lemma {:induction false} ExhaustedAfter404(models: seq<string>, post: string -> HttpResponse, prefix: string, last: LastFailure)
    requires TryModels(models, post, prefix, last).Exhausted?
    requires models != [] || (last.Some? && last.value.0 == 404)
    ensures var l := TryModels(models, post, prefix, last).last; l.Some? && l.value.0 == 404
    decreases |models|
  {
    if models != [] {
      ExhaustedAfter404(models[1..], post, prefix, Some((404, post(models[0]).body)));
    }
  }

  /** Two models that both answer 404 exhaust the loop with the second body. */
  lemma TwoNotFound(models: seq<string>, post: string -> HttpResponse, prefix: string)
    requires |models| == 2 && post(models[0]).status == 404 && post(models[1]).status == 404
    ensures TryModels(models, post, prefix, None) == Exhausted(Some((404, post(models[1]).body)))
  {
    var rest := models[1..];
    assert rest[0] == models[1] && rest[1..] == [];
    assert TryModels(rest, post, prefix, Some((404, post(models[0]).body))) == Exhausted(Some((404, post(models[1]).body)));
  }

  /** Every model exhausted: each one answered 404. */
  lemma {:induction false} ExhaustedAll404(models: seq<string>, post: string -> HttpResponse, prefix: string, last: LastFailure)
    requires TryModels(models, post, prefix, last).Exhausted?
    ensures forall k :: 0 <= k < |models| ==> post(models[k]).status == 404
    decreases |models|
  {
    if models != [] {
      ExhaustedAll404(models[1..], post, prefix, Some((404, post(models[0]).body)));
      forall k | 1 <= k < |models| ensures post(models[k]).status == 404 {
        assert models[k] == models[1..][k - 1];
      }
    }
  }

  /**
    * The loop only ever contacts the models up to the first non-404 answer, so
    * two services that answer alike on the listed models end the loop alike.
    */
  lemma {:induction false} TryModelsLocal(models: seq<string>, post: string -> HttpResponse, post': string -> HttpResponse, prefix: string, last: LastFailure)
    requires forall k :: 0 <= k < |models| ==> post(models[k]) == post'(models[k])
    ensures TryModels(models, post, prefix, last) == TryModels(models, post', prefix, last)
    decreases |models|
  {
    if models != [] {
      forall k | 0 <= k < |models[1..]| ensures post(models[1..][k]) == post'(models[1..][k]) {
        assert models[1..][k] == models[k + 1];
      }
      TryModelsLocal(models[1..], post, post', prefix, Some((404, post(models[0]).body)));
    }
  }
}
