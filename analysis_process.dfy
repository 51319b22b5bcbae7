/**
  * The `outfit_analysis_processes` audit record both analysis endpoints keep
  * (`OutfitScanController::store` and `OutfitChatController::analyze`): a
  * record is opened `processing`, and ends either `failed`, with the HTTP
  * status the failure maps to, or `completed`, linked to what the analysis
  * produced. Also the part of the analysis both endpoints share: vision,
  * scoring, and the context-feedback call whose failure is ignored.
  */
module AnalysisProcess {
  import opened Outcomes
  import opened Text
  import opened PhpArray
  import OutfitAnalysis
  import RetryAfter
  import GeminiCall
  import DetectedItems

  datatype ProcStatus = Processing | Failed | Completed

  /** What a completed record points at: `scan_id` or `chat_session_id`. */
  datatype Link = NoLink | ScanLink(scanId: nat) | SessionLink(sessionId: nat)

  /**
    * One `outfit_analysis_processes` row (timestamps reduced to whether
    * `completed_at` is set). `assistantText` is only written by the chat.
    */
  datatype Process = Process(
    id: nat, userId: int, kind: string, imagePath: string, status: ProcStatus,
    vision: Option<Entries>, analysis: Option<OutfitAnalysis.Analysis>, contextFeedback: Option<Entries>,
    errorStatus: Option<int>, errorMessage: Option<string>, finished: bool, link: Link, assistantText: Option<string>)

  const QuotaMarker := GeminiCall.QuotaMarker
  const QuotaReply := "AI quota exceeded. Please retry shortly."
  const VisionFailedReply := "Vision analysis failed. Please try again."

  /**
    * The start of the `TypeError` PHP throws when `analyze` counts something
    * that is not an array (written in short pieces so that the verifier sees
    * its characters).
    */
  const CountError := "count(): Argument " + "#1 ($value) must " + "be of type " + "Countable|array"

  /**
    * The status and `retry_after` a caught exception is answered with: 429
    * exactly when the text holds the quota marker, with a positive delay when
    * one is given; otherwise 502 and no delay.
    */
  function ErrorReply(msg: string): (r: (int, Option<nat>))
    ensures r.0 == 429 <==> Contains(msg, QuotaMarker)
    ensures r.0 == 429 || r.0 == 502
    ensures r.0 == 502 ==> r.1.None?
    ensures r.1.Some? ==> r.1.value >= 1
  {
    if Contains(msg, QuotaMarker) then (429, RetryAfter.ParseRetryAfterSeconds(msg)) else (502, None)
  }

  /** The response `message` for an error status: the quota text exactly for 429. */
  function PublicMessage(status: int): (r: string)
    ensures r == QuotaReply <==> status == 429
    ensures r == QuotaReply || r == VisionFailedReply
  {
    if status == 429 then QuotaReply else VisionFailedReply
  }

  /** A quota failure from the Gemini client is answered with 429. */
  lemma QuotaFailureIs429(details: string)
    ensures ErrorReply(GeminiCall.QuotaPrefix + details).0 == 429
  {
    var m := GeminiCall.QuotaPrefix + details;
    assert m == QuotaMarker + (GeminiCall.QuotaPrefix[|QuotaMarker|..] + details);
    assert StartsWith(m, QuotaMarker);
  }

  lemma ContainsHead(s: string, p: string)
    ensures Contains(s, p) && p != [] ==> p[0] in s
  {
    if Contains(s, p) && p != [] {
      var i := ContainsWitness(s, p);
      assert s[i] == s[i..i + |p|][0];
    }
  }

  /** The `TypeError` of a malformed payload is not a quota failure: it is answered with 502. */
  lemma CountErrorIs502()
    ensures ErrorReply(CountError) == (502, None)
  {
    ContainsHead(CountError, QuotaMarker);
    assert 'G' !in CountError;
  }

  /** The `ErrorException` of an array description is not a quota failure either: 502. */
  lemma ArrayToStringIs502()
    ensures ErrorReply(ArrayToString) == (502, None)
  {
    ContainsHead(ArrayToString, QuotaMarker);
    assert 'G' !in ArrayToString;
  }

  /** What the `try` block produces when nothing escapes it. */
  datatype Attempt = Attempt(vision: Entries, analysis: OutfitAnalysis.Analysis, contextFeedback: Entries)

  /**
    * `(array) data_get($analysisResult, 'context_feedback')`: the feedback when
    * the call returned an array, else nothing (a thrown call is swallowed).
    */
  function ContextFeedback(feedback: Result<Value, string>): Entries {
    if feedback.Success? && feedback.value.Arr? then feedback.value.entries else []
  }

  /**
    * The `try` block: the vision call (its result or the message it threw),
    * then `analyze`, which throws a `TypeError` when a counted list is not an
    * array, then the context-feedback call.
    */
  function TryAnalyze(vision: Result<Entries, string>, feedback: Result<Value, string>): (r: Result<Attempt, string>)
    ensures r.Success? <==> vision.Success? && OutfitAnalysis.DetectedOf(Arr(vision.value)).Some?
    ensures vision.Failure? ==> r == Failure(vision.error)
    ensures vision.Success? && r.Failure? ==> r.error == CountError
    ensures r.Success? ==> r.value.vision == vision.value && r.value.contextFeedback == ContextFeedback(feedback)
  {
    if vision.Failure? then Failure(vision.error)
    else match OutfitAnalysis.DetectedOf(Arr(vision.value))
      case None => Failure(CountError)
      case Some(d) => Success(Attempt(vision.value, OutfitAnalysis.Evaluate(d), ContextFeedback(feedback)))
  }

  /**
    * The context-feedback call never decides the outcome: whatever it returns
    * or throws, the attempt succeeds or fails alike, with the same analysis.
    */
  lemma FeedbackNeverDecides(vision: Result<Entries, string>, feedback: Result<Value, string>, feedback': Result<Value, string>)
    ensures TryAnalyze(vision, feedback).Success? <==> TryAnalyze(vision, feedback').Success?
    ensures TryAnalyze(vision, feedback).Failure? ==> TryAnalyze(vision, feedback) == TryAnalyze(vision, feedback')
    ensures TryAnalyze(vision, feedback).Success? ==>
      TryAnalyze(vision, feedback).value.analysis == TryAnalyze(vision, feedback').value.analysis
  {
  }

  /** A successful attempt carries the vision payload and a score within 50..90. */
  lemma AttemptScore(vision: Result<Entries, string>, feedback: Result<Value, string>)
    requires TryAnalyze(vision, feedback).Success?
    ensures vision.Success? && TryAnalyze(vision, feedback).value.vision == vision.value
    ensures 50 <= TryAnalyze(vision, feedback).value.analysis.score <= 90
  {
  }

  // ----- the record's life -----

  /** `OutfitAnalysisProcess::create([... 'status' => 'processing' ...])`. */
  function Opened(id: nat, userId: int, kind: string, path: string): Process {
    Process(id, userId, kind, path, Processing, None, None, None, None, None, false, NoLink, None)
  }

  /** `$process->vision = ...; $process->analysis = ...; $process->context_feedback = ...`. */
  function Recorded(p: Process, a: Attempt): Process {
    p.(vision := Some(a.vision), analysis := Some(a.analysis), contextFeedback := Some(a.contextFeedback))
  }

  /** The `catch` block: `failed`, with the mapped status and the exception's message. */
  function FailedWith(p: Process, msg: string): Process {
    p.(status := Failed, errorStatus := Some(ErrorReply(msg).0), errorMessage := Some(msg), finished := true)
  }

  /** After the rows are written: `completed`, linked to the scan or session. */
  function CompletedWith(p: Process, link: Link): Process {
    p.(status := Completed, link := link, finished := true)
  }

  /**
    * Writing the detected-item rows of a successful attempt throws: some label
    * under `items` is an array, whose `(string)` cast fails.
    */
  predicate RowsThrow(a: Attempt) {
    DetectedItems.CatsThrow(DetectedItems.Categories(a.vision))
  }

  /**
    * Where one request leaves a freshly opened record. A failed attempt closes
    * it as failed. After a successful one the detected-item rows are written
    * outside the `try` block: when they throw, the record keeps what was
    * recorded but is never completed.
    */
  function Closed(p: Process, attempt: Result<Attempt, string>, link: Link): Process {
    match attempt
    case Failure(msg) => FailedWith(p, msg)
    case Success(a) => if RowsThrow(a) then Recorded(p, a) else CompletedWith(Recorded(p, a), link)
  }

  /** The only moves a record makes: from `processing` to `failed` or `completed`. */
  predicate Moves(a: ProcStatus, b: ProcStatus) {
    a == b || (a == Processing && b != Processing)
  }

  /**
    * A record after one request: failed exactly when the attempt failed, with
    * an error status and nothing recorded or linked; completed, with the
    * analysis and the link, exactly when the attempt succeeded and its rows
    * were written; otherwise still `processing`, unfinished and unlinked,
    * with the analysis recorded.
    */
  lemma ClosedShape(id: nat, userId: int, kind: string, path: string, attempt: Result<Attempt, string>, link: Link)
    ensures var p := Closed(Opened(id, userId, kind, path), attempt, link);
      && Moves(Processing, p.status) && (p.finished <==> p.status != Processing)
      && p.id == id && p.userId == userId && p.kind == kind && p.imagePath == path
      && (p.status == Failed <==> attempt.Failure?)
      && (p.status == Completed <==> attempt.Success? && !RowsThrow(attempt.value))
      && (p.status == Processing <==> attempt.Success? && RowsThrow(attempt.value))
      && (attempt.Failure? ==>
            p.errorStatus == Some(ErrorReply(attempt.error).0) && p.errorMessage == Some(attempt.error)
            && p.vision.None? && p.analysis.None? && p.link == NoLink)
      && (attempt.Success? ==>
            && p.errorStatus.None? && p.vision == Some(attempt.value.vision) && p.analysis == Some(attempt.value.analysis)
            && p.link == (if RowsThrow(attempt.value) then NoLink else link))
  {
  }

  /** Record ids follow the row order: the i-th record has id i + 1. */
  predicate ProcessIds(processes: seq<Process>) {
    forall i :: 0 <= i < |processes| ==> processes[i].id == i + 1
  }

  /** Updating a record in place, keeping its id, keeps the ids in row order. */
  lemma ProcessIdsUpdate(processes: seq<Process>, i: nat, p: Process)
    requires ProcessIds(processes) && i < |processes| && p.id == processes[i].id
    ensures ProcessIds(processes[i := p])
  {
  }

  /** Opening the next record keeps the ids in row order. */
  lemma ProcessIdsAppend(processes: seq<Process>, p: Process)
    requires ProcessIds(processes) && p.id == |processes| + 1
    ensures ProcessIds(processes + [p])
  {
  }
}
