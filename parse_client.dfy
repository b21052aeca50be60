/**
 * The remote parse client of lib/affinda.ts (`parseResumeWithAffinda`):
 * submit the file, read a document identifier from the reply, then poll the
 * status endpoint a bounded number of times. The network is replaced by its
 * answers: the reply to the submission, and one outcome per status request.
 */
module ParseClient {
  import opened Wrappers
  import opened JsText
  import opened Normalizer

  const ApiUrl := "https://api.affinda.com/v2"
  const DocumentsUrl := ApiUrl + "/documents"
  const MaxAttempts := 15
  /** The pause, in milliseconds, after every status request that did not find the document ready. */
  const PollIntervalMs := 3000

  const KeyMissingMessage := "Affinda API key is not configured"
  const NoIdentifierMessage := "No document ID received from Affinda"

  /** The body of the reply to the submission; every field is missing when it was not JSON. */
  datatype UploadBody = UploadBody(
    detail: Option<string>, message: Option<string>,
    identifier: Option<string>, documentIdentifier: Option<string>)

  /** The reply to the submission POST. */
  datatype UploadReply = UploadReply(ok: bool, status: nat, statusText: string, body: UploadBody)

  /**
   * What the submission POST led to: the `fetch` itself rejected (a network
   * failure, with the error's message), or a reply arrived.
   */
  datatype Submission = UploadLost(message: string) | Uploaded(reply: UploadReply)

  /**
   * What one status request led to: the request or the JSON decoding of its
   * body threw (`Transient`), or a reply arrived with its HTTP verdict and body.
   */
  datatype PollOutcome = Transient | Reply(ok: bool, body: RawDocument)

  datatype Request = Post(url: string) | Get(url: string)

  /** How the loop body ends for one outcome. */
  datatype Verdict =
    | Ready                    // the loop records the body and breaks
    | Failed(message: string)  // thrown inside the try, caught at once
    | Pending                  // neither ready nor failed
    | Lost                     // the request or the decoding threw

  /** The run of the polling loop: its result, the requests made and the waits taken. */
  datatype PollRun = PollRun(result: Result<RawDocument>, attempts: nat, waits: nat)

  function StatusUrl(id: string): string {
    DocumentsUrl + "/" + id
  }

  /** `uploadData.identifier || uploadData.document?.identifier`. */
  function DocumentId(b: UploadBody): (r: Option<string>)
    ensures Present(b.identifier) ==> r == b.identifier
    ensures !Present(b.identifier) && Present(b.documentIdentifier) ==> r == b.documentIdentifier
    ensures !Present(b.identifier) && !Present(b.documentIdentifier) ==> r.None?
  {
    FirstOfTwo(b.identifier, b.documentIdentifier);
    FirstTruthy([b.identifier, b.documentIdentifier])
  }

  /** The message of a rejected submission: status, then the first usable diagnostic. */
  function UploadFailureMessage(u: UploadReply): (r: string)
    ensures var head := "Failed to upload document: " + NatToDecimal(u.status) + " - ";
      && (Present(u.body.detail) ==> r == head + u.body.detail.value)
      && (!Present(u.body.detail) && Present(u.body.message) ==> r == head + u.body.message.value)
      && (!Present(u.body.detail) && !Present(u.body.message) && u.statusText != "" ==> r == head + u.statusText)
      && (!Present(u.body.detail) && !Present(u.body.message) && u.statusText == "" ==> r == head + "Unknown error")
  {
    var cs := [u.body.detail, u.body.message, Some(u.statusText)];
    assert cs[1..] == [u.body.message, Some(u.statusText)];
    FirstOfTwo(u.body.message, Some(u.statusText));
    "Failed to upload document: " + NatToDecimal(u.status) + " - "
      + FirstTruthy(cs).GetOr("Unknown error")
  }

  /** The answer to the status request with index `i`; one that never came reads as `Transient`. */
  function OutcomeAt(outcomes: seq<PollOutcome>, i: nat): PollOutcome {
    if i < |outcomes| then outcomes[i] else Transient
  }

  /** The loop body's reading of one outcome (lib/affinda.ts lines 135-145). */
  function Classify(o: PollOutcome): (r: Verdict)
    ensures r.Lost? <==> o.Transient?
    ensures r.Ready? <==> o.Reply? && o.ok && (o.body.meta.ready || o.body.status == Some("success"))
    ensures r.Failed? <==> o.Reply? && !r.Ready? && o.body.meta.failed
    ensures r.Failed? && Present(o.body.meta.errorDetail) ==>
      r.message == "Document processing failed: " + o.body.meta.errorDetail.value
    ensures r.Failed? && !Present(o.body.meta.errorDetail) ==>
      r.message == "Document processing failed: Unknown error"
  {
    match o
    case Transient => Lost
    case Reply(ok, body) =>
      if ok && (body.meta.ready || body.status == Some("success")) then Ready
      else if body.meta.failed then
        Failed("Document processing failed: " + FirstTruthy([body.meta.errorDetail]).GetOr("Unknown error"))
      else Pending
  }

  predicate IsReady(o: PollOutcome) {
    Classify(o).Ready?
  }

  /** The first ready attempt with index in [from, MaxAttempts), if any. */
  function FirstReady(outcomes: seq<PollOutcome>, from: nat): (r: Option<nat>)
    ensures r.Some? ==>
      && from <= r.value < MaxAttempts
      && IsReady(OutcomeAt(outcomes, r.value))
      && forall j | from <= j < r.value :: !IsReady(OutcomeAt(outcomes, j))
    ensures r.None? ==> forall j | from <= j < MaxAttempts :: !IsReady(OutcomeAt(outcomes, j))
    decreases MaxAttempts - from
  {
    if from >= MaxAttempts then None
    else if IsReady(OutcomeAt(outcomes, from)) then Some(from)
    else FirstReady(outcomes, from + 1)
  }

  function TimeoutMessage(): string {
    "Document processing timed out after " + NatToDecimal(MaxAttempts) + " attempts"
  }

  /** What the polling loop does with a given sequence of outcomes. */
  function PollSpec(outcomes: seq<PollOutcome>): PollRun {
    match FirstReady(outcomes, 0)
    case Some(k) => PollRun(Ok(OutcomeAt(outcomes, k).body), k + 1, k)
    case None => PollRun(Err(TimeoutMessage()), MaxAttempts, MaxAttempts)
  }

  /**
   * The polling loop: at most 15 status requests; the first ready response
   * wins and no request follows it; one wait follows every attempt that was
   * not ready, the last one included; a failed, pending or lost attempt just
   * uses up an attempt.
   */
  method Poll(outcomes: seq<PollOutcome>) returns (result: Result<RawDocument>, attempts: nat, waits: nat)
    ensures PollRun(result, attempts, waits) == PollSpec(outcomes)
    ensures 1 <= attempts <= MaxAttempts
    ensures result.Ok? <==> exists k | 0 <= k < MaxAttempts :: IsReady(OutcomeAt(outcomes, k))
    ensures result.Ok? ==>
      && IsReady(OutcomeAt(outcomes, attempts - 1))
      && result.value == OutcomeAt(outcomes, attempts - 1).body
      && waits == attempts - 1
      && forall j | 0 <= j < attempts - 1 :: !IsReady(OutcomeAt(outcomes, j))
    ensures result.Err? ==>
      && attempts == MaxAttempts && waits == MaxAttempts
      && result.message == "Document processing timed out after 15 attempts"
  {
    attempts := 0;
    waits := 0;
    var found: Option<RawDocument> := None;
    while attempts < MaxAttempts
      invariant 0 <= attempts <= MaxAttempts
      invariant waits == attempts
      invariant forall j | 0 <= j < attempts :: !IsReady(OutcomeAt(outcomes, j))
      invariant FirstReady(outcomes, 0) == FirstReady(outcomes, attempts)
    {
      attempts := attempts + 1;
      var outcome := OutcomeAt(outcomes, attempts - 1);
      var verdict := Classify(outcome);
      if verdict.Ready? {
        found := Some(outcome.body);
        break;
      }
      // Failed, Pending and Lost all fall through to the wait: the error a
      // failed attempt throws is caught inside the loop body and only logged.
      waits := waits + 1;
    }
    PollBounds(outcomes);
    if found.None? {
      result := Err(TimeoutMessage());
    } else {
      result := Ok(found.value);
    }
  }

  lemma TimeoutMessageValue()
    ensures TimeoutMessage() == "Document processing timed out after 15 attempts"
  {
    assert NatToDecimal(15) == NatToDecimal(1) + ['5'];
  }

  /**
   * What every polling run amounts to, whatever the service answers: 1 to 15
   * status requests; success iff some attempt among the first 15 is ready,
   * and then the result is the first ready body with one wait per earlier
   * attempt; otherwise the timeout error after 15 requests and 15 waits. At
   * most 15 pauses of 3000 ms are taken.
   */
  lemma PollBounds(outcomes: seq<PollOutcome>)
    ensures var run := PollSpec(outcomes);
      && 1 <= run.attempts <= MaxAttempts
      && (run.result.Ok? <==> exists k | 0 <= k < MaxAttempts :: IsReady(OutcomeAt(outcomes, k)))
      && (run.result.Ok? ==>
            && IsReady(OutcomeAt(outcomes, run.attempts - 1))
            && run.result.value == OutcomeAt(outcomes, run.attempts - 1).body
            && run.waits == run.attempts - 1
            && forall j | 0 <= j < run.attempts - 1 :: !IsReady(OutcomeAt(outcomes, j)))
      && (run.result.Err? ==>
            && run.attempts == MaxAttempts && run.waits == MaxAttempts
            && run.result.message == "Document processing timed out after 15 attempts")
      && run.waits * PollIntervalMs <= MaxAttempts * PollIntervalMs
  {
    TimeoutMessageValue();
  }

  /** `FirstReady` looks only at which attempts are ready. */
  lemma {:induction false} FirstReadySameReadiness(a: seq<PollOutcome>, b: seq<PollOutcome>, from: nat)
    requires forall j | 0 <= j < MaxAttempts :: IsReady(OutcomeAt(a, j)) == IsReady(OutcomeAt(b, j))
    ensures FirstReady(a, from) == FirstReady(b, from)
    decreases MaxAttempts - from
  {
    if from < MaxAttempts && !IsReady(OutcomeAt(a, from)) {
      FirstReadySameReadiness(a, b, from + 1);
    }
  }

  /**
   * A response flagged `meta.failed` does not end polling: the run is the
   * same as if that request had failed in transit.
   */
  lemma FailedLikeTransient(outcomes: seq<PollOutcome>, k: nat)
    requires k < |outcomes| && Classify(outcomes[k]).Failed?
    ensures PollSpec(outcomes[k := Transient]) == PollSpec(outcomes)
  {
    var other := outcomes[k := Transient];
    assert forall j | 0 <= j < MaxAttempts :: IsReady(OutcomeAt(other, j)) == IsReady(OutcomeAt(outcomes, j));
    FirstReadySameReadiness(other, outcomes, 0);
  }

  /**
   * Two pending replies and then a ready one: three status requests, two
   * waits of 3000 ms, and the third reply's body is the result.
   */
  lemma ReadyOnThirdAttempt(pending: RawDocument, ready: RawDocument)
    requires !pending.meta.ready && pending.status != Some("success") && !pending.meta.failed
    requires ready.meta.ready
    ensures var run := PollSpec([Reply(true, pending), Reply(true, pending), Reply(true, ready)]);
      run == PollRun(Ok(ready), 3, 2) && run.waits * PollIntervalMs == 6000
  {
    var os := [Reply(true, pending), Reply(true, pending), Reply(true, ready)];
    assert FirstReady(os, 2) == Some(2);
    assert FirstReady(os, 1) == Some(2);
  }

  /** The whole client run: its result, the requests it sent and the waits it took. */
  datatype ParseRun = ParseRun(result: Result<RawDocument>, requests: seq<Request>, waits: nat)

  /** `n` status requests for document `id`. */
  function StatusRequests(id: string, n: nat): (r: seq<Request>)
    ensures |r| == n && forall i | 0 <= i < n :: r[i] == Get(StatusUrl(id))
  {
    seq(n, _ => Get(StatusUrl(id)))
  }

  /** What `parseResumeWithAffinda` does, given the key setting and the service's answers. */
  function ParseSpec(keyConfigured: bool, submission: Submission, outcomes: seq<PollOutcome>): ParseRun {
    if !keyConfigured then ParseRun(Err(KeyMissingMessage), [], 0)
    else match submission
      case UploadLost(message) => ParseRun(Err(message), [Post(DocumentsUrl)], 0)
      case Uploaded(upload) =>
        if !upload.ok then ParseRun(Err(UploadFailureMessage(upload)), [Post(DocumentsUrl)], 0)
        else match DocumentId(upload.body)
          case None => ParseRun(Err(NoIdentifierMessage), [Post(DocumentsUrl)], 0)
          case Some(id) =>
            var run := PollSpec(outcomes);
            ParseRun(run.result, [Post(DocumentsUrl)] + StatusRequests(id, run.attempts), run.waits)
  }

  /**
   * When no status reply within the first 15 is ready, the client fails with
   * the timeout error after one submission, 15 status requests and 15 waits.
   */
  lemma NoReadyTimesOut(upload: UploadReply, outcomes: seq<PollOutcome>)
    requires upload.ok && DocumentId(upload.body).Some?
    requires forall j | 0 <= j < MaxAttempts :: !IsReady(OutcomeAt(outcomes, j))
    ensures var run := ParseSpec(true, Uploaded(upload), outcomes);
      && run.result == Err("Document processing timed out after 15 attempts")
      && |run.requests| == 1 + MaxAttempts
      && run.waits == MaxAttempts
  {
    TimeoutMessageValue();
    assert FirstReady(outcomes, 0).None?;
  }

  /**
   * `parseResumeWithAffinda` with the network abstracted: a missing key fails
   * before any request; a submission that never got a reply fails with the
   * network error's own message, which the outer catch rethrows unchanged; a
   * rejected submission or a missing identifier fails after the one POST;
   * otherwise the polling run decides, and every status
   * request asks for the identifier received.
   */
  method ParseResume(keyConfigured: bool, submission: Submission, outcomes: seq<PollOutcome>)
    returns (result: Result<RawDocument>, requests: seq<Request>, waits: nat)
    ensures ParseRun(result, requests, waits) == ParseSpec(keyConfigured, submission, outcomes)
    ensures !keyConfigured ==> result == Err(KeyMissingMessage) && requests == [] && waits == 0
    ensures keyConfigured && submission.UploadLost? ==>
      result == Err(submission.message) && requests == [Post(DocumentsUrl)] && waits == 0
    ensures keyConfigured && submission.Uploaded? ==>
      var upload := submission.reply;
      && (!upload.ok ==>
            result == Err(UploadFailureMessage(upload)) && requests == [Post(DocumentsUrl)] && waits == 0)
      && (upload.ok && DocumentId(upload.body).None? ==>
            result == Err(NoIdentifierMessage) && requests == [Post(DocumentsUrl)] && waits == 0)
      && (upload.ok && DocumentId(upload.body).Some? ==>
            var id := DocumentId(upload.body).value;
            var run := PollSpec(outcomes);
            && result == run.result && waits == run.waits
            && |requests| == 1 + run.attempts
            && requests[0] == Post(DocumentsUrl)
            && forall i | 1 <= i < |requests| :: requests[i] == Get(StatusUrl(id)))
    ensures |requests| <= 1 + MaxAttempts
  {
    if !keyConfigured {
      return Err(KeyMissingMessage), [], 0;
    }
    requests := [Post(DocumentsUrl)];
    if submission.UploadLost? {
      return Err(submission.message), requests, 0;
    }
    var upload := submission.reply;
    if !upload.ok {
      return Err(UploadFailureMessage(upload)), requests, 0;
    }
    var id := DocumentId(upload.body);
    if id.None? {
      return Err(NoIdentifierMessage), requests, 0;
    }
    var attempts;
    result, attempts, waits := Poll(outcomes);
    requests := requests + StatusRequests(id.value, attempts);
  }
}
