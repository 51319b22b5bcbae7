/**
  * `OutfitScanController::store`: one outfit scan. The audit record is opened
  * first; a failed analysis closes it as failed and answers 429 or 502 with no
  * scan and no detected items; a successful one creates the scan (its score is
  * the analysis score), the detected-item rows, and closes the record as
  * completed and linked to the scan.
  */
module ScanStore {
  import opened Outcomes
  import opened Text
  import opened PhpArray
  import opened AnalysisProcess
  import OutfitAnalysis
  import DetectedItems

  /** One `outfit_scans` row. */
  datatype Scan = Scan(id: nat, userId: int, imagePath: string, vision: Entries, analysis: OutfitAnalysis.Analysis, score: int)

  /**
    * The answer of `store`. `ScanUncaught` is an exception that escapes the
    * controller, which Laravel's handler answers with a 500.
    */
  datatype ScanResponse =
    | ScanFailed(status: int, message: string, processId: nat, retryAfter: Option<nat>)
    | ScanCreated(scan: Scan, detected: seq<DetectedItems.Summary>, processId: nat)
    | ScanUncaught(error: string)

  const ScanKind := "scan_analyze"

  predicate ScanIds(scans: seq<Scan>) {
    forall i :: 0 <= i < |scans| ==> scans[i].id == i + 1
  }

  /** The response of the `catch` block. */
  function FailureReply(pid: nat, msg: string): (r: ScanResponse)
    ensures r.ScanFailed? && r.processId == pid
    ensures r.status in {429, 502} && r.message == PublicMessage(r.status)
    ensures r.status == 429 <==> Contains(msg, QuotaMarker)
    ensures r.status == 502 ==> r.retryAfter.None?
  {
    ScanFailed(ErrorReply(msg).0, PublicMessage(ErrorReply(msg).0), pid, ErrorReply(msg).1)
  }

  /** The scan a successful attempt creates. */
  function ScanOf(id: nat, userId: int, path: string, a: Attempt): Scan {
    Scan(id, userId, path, a.vision, a.analysis, a.analysis.score)
  }

  /** The detected-item rows a successful attempt adds. */
  function RowsOf(userId: int, path: string, scanId: nat, pid: nat, a: Attempt, nextId: nat): seq<DetectedItems.Row> {
    var src := DetectedItems.Source(userId, "scan", scanId, pid, path);
    DetectedItems.RowsFor(src, DetectedItems.DetectedOf(DetectedItems.Categories(a.vision)), DetectedItems.ColorsOf(a.vision), nextId)
  }

  /**
    * The response after a successful attempt: the scan and its rows, or the
    * uncaught "Array to string conversion" when a label is an array.
    */
  function CreatedReply(scan: Scan, rows: seq<DetectedItems.Row>, pid: nat, a: Attempt): (r: ScanResponse)
    ensures r.ScanUncaught? <==> RowsThrow(a)
    ensures r.ScanUncaught? ==> r.error == ArrayToString
    ensures r.ScanCreated? ==> r.scan == scan && r.processId == pid && |r.detected| == |rows|
  {
    if RowsThrow(a) then ScanUncaught(ArrayToString) else ScanCreated(scan, DetectedItems.Summaries(rows), pid)
  }

  class ScanController {
    var processes: seq<Process>
    var scans: seq<Scan>
    const detected: DetectedItems.DetectedItemTable

    predicate Valid()
      reads this, detected
    {
      ProcessIds(processes) && ScanIds(scans) && detected.Valid()
    }

    constructor ()
      ensures Valid() && processes == [] && scans == [] && detected.rows == [] && fresh(detected)
    {
      processes := [];
      scans := [];
      detected := new DetectedItems.DetectedItemTable();
    }

    /** `OutfitAnalysisProcess::create`: a new record, `processing`. */
    method Open(userId: int, kind: string, path: string) returns (pid: nat)
      requires Valid()
      modifies this
      ensures Valid()
      ensures pid == |old(processes)| + 1
      ensures processes == old(processes) + [Opened(pid, userId, kind, path)]
      ensures scans == old(scans)
    {
      pid := |processes| + 1;
      processes := processes + [Opened(pid, userId, kind, path)];
    }

    /** `persistDetectedItems` for a new scan: `None` when a label that is an array threw. */
    method SaveRows(userId: int, path: string, scanId: nat, pid: nat, a: Attempt) returns (items: Option<seq<DetectedItems.Summary>>)
      requires detected.Valid()
      modifies detected
      ensures detected.Valid()
      ensures detected.rows == old(detected.rows) + RowsOf(userId, path, scanId, pid, a, old(detected.nextId))
      ensures items.None? <==> RowsThrow(a)
      ensures items.Some? ==> items.value == DetectedItems.Summaries(RowsOf(userId, path, scanId, pid, a, old(detected.nextId)))
    {
      items := detected.Persist(DetectedItems.Source(userId, "scan", scanId, pid, path), a.vision);
    }

    /**
      * The part of `store` after the `try` block, when it succeeded: the scan,
      * the detected-item rows, the completed record. A label that is an array
      * throws while the rows are written: the scan and the rows before it
      * stay, the record stays `processing`, and the exception escapes.
      */
    method Complete(userId: int, path: string, pid: nat, a: Attempt) returns (r: ScanResponse)
      requires Valid() && 0 < pid <= |processes|
      modifies this, detected
      ensures Valid()
      ensures var sid := |old(scans)| + 1;
        var rows := RowsOf(userId, path, sid, pid, a, old(detected.nextId));
        && scans == old(scans) + [ScanOf(sid, userId, path, a)]
        && detected.rows == old(detected.rows) + rows
        && processes == old(processes)[pid - 1 := Closed(old(processes)[pid - 1], Success(a), ScanLink(sid))]
        && r == CreatedReply(ScanOf(sid, userId, path, a), rows, pid, a)
    {
      var scan := ScanOf(|scans| + 1, userId, path, a);
      var recorded := Recorded(processes[pid - 1], a);
      var items := SaveRows(userId, path, scan.id, pid, a);
      var p := if items.None? then recorded else CompletedWith(recorded, ScanLink(scan.id));
      ProcessIdsUpdate(processes, pid - 1, p);
      processes := processes[pid - 1 := p];
      scans := scans + [scan];
      r := if items.None? then ScanUncaught(ArrayToString) else ScanCreated(scan, items.value, pid);
    }

    /** The `try` block's outcome applied to the record just opened: the `catch` block, or `Complete`. */
    method Settle(userId: int, path: string, pid: nat, attempt: Result<Attempt, string>) returns (r: ScanResponse)
      requires Valid() && 0 < pid <= |processes|
      modifies this, detected
      ensures Valid()
      ensures processes == old(processes)[pid - 1 := Closed(old(processes)[pid - 1], attempt, ScanLink(|old(scans)| + 1))]
      ensures attempt.Failure? ==>
        && scans == old(scans) && detected.rows == old(detected.rows)
        && r == FailureReply(pid, attempt.error)
      ensures attempt.Success? ==>
        var sid := |old(scans)| + 1;
        var rows := RowsOf(userId, path, sid, pid, attempt.value, old(detected.nextId));
        && scans == old(scans) + [ScanOf(sid, userId, path, attempt.value)]
        && detected.rows == old(detected.rows) + rows
        && r == CreatedReply(ScanOf(sid, userId, path, attempt.value), rows, pid, attempt.value)
    {
      if attempt.Failure? {
        ProcessIdsUpdate(processes, pid - 1, FailedWith(processes[pid - 1], attempt.error));
        processes := processes[pid - 1 := FailedWith(processes[pid - 1], attempt.error)];
        r := FailureReply(pid, attempt.error);
      } else {
        r := Complete(userId, path, pid, attempt.value);
      }
    }

    /**
      * `store`, given the outcome of the vision call (the payload, or the
      * message it threw) and of the context-feedback call.
      */
    method Store(userId: int, path: string, vision: Result<Entries, string>, feedback: Result<Value, string>)
      returns (r: ScanResponse)
      requires Valid()
      modifies this, detected
      ensures Valid()
      ensures var pid := |old(processes)| + 1;
        var attempt := TryAnalyze(vision, feedback);
        var sid := |old(scans)| + 1;
        && processes == old(processes) + [Closed(Opened(pid, userId, ScanKind, path), attempt, ScanLink(sid))]
        && (attempt.Failure? ==>
              && scans == old(scans) && detected.rows == old(detected.rows)
              && r == FailureReply(pid, attempt.error))
        && (attempt.Success? ==>
              var rows := RowsOf(userId, path, sid, pid, attempt.value, old(detected.nextId));
              && scans == old(scans) + [ScanOf(sid, userId, path, attempt.value)]
              && detected.rows == old(detected.rows) + rows
              && r == CreatedReply(ScanOf(sid, userId, path, attempt.value), rows, pid, attempt.value))
    {
      var pid := Open(userId, ScanKind, path);
      r := Settle(userId, path, pid, TryAnalyze(vision, feedback));
    }
  }

  /**
    * A scan's score is its analysis's score, which lies within 50..90, and a
    * failed store leaves no scan behind: the response carries a scan exactly
    * when the attempt succeeded.
    */
  lemma ScanScore(userId: int, path: string, pid: nat, sid: nat, vision: Result<Entries, string>, feedback: Result<Value, string>)
    requires TryAnalyze(vision, feedback).Success?
    ensures var a := TryAnalyze(vision, feedback).value;
      var scan := Scan(sid, userId, path, a.vision, a.analysis, a.analysis.score);
      50 <= scan.score <= 90 && scan.vision == vision.value
  {
    AttemptScore(vision, feedback);
  }
}
