/**
 * The upload endpoint of app/api/upload/route.ts (`POST`): read the form,
 * check the key and the file, store the file twice, run the parse client and
 * the normaliser, and answer with a status code and a JSON envelope. Disk and
 * network are replaced by what they do: the paths written, whether the parse
 * client ran (and the requests it sent), whether the scratch copy was deleted.
 */
module UploadRoute {
  import opened Wrappers
  import opened JsText
  import opened Normalizer
  import opened ParseClient

  /** The `resume` form field: only its name is inspected. */
  datatype UploadedFile = UploadedFile(name: string)

  /** The environment variable holding the key, when the module was loaded and when the request came. */
  datatype Environment = Environment(keyAtLoad: bool, keyAtRequest: bool)

  /** What the parsing service answers: to the submission and to each status request. */
  datatype Service = Service(upload: Submission, polls: seq<PollOutcome>)

  /** The JSON body of a response, one constructor per object literal in the handler. */
  datatype Envelope =
    | Rejected(error: string)                           // { error }
    | Succeeded(fileUrl: string, extractedInfo: Resume) // { success: true, fileUrl, extractedInfo }
    | ParseFailed(error: string)                        // { success: false, error }
    | ProcessingFailed(error: string)                   // { success: false, error, fileUrl: '', extractedInfo: null }

  datatype Response = Response(status: nat, body: Envelope)

  /** What the request did besides answering. */
  datatype Effects = Effects(
    written: seq<string>,        // files written, in order
    requests: seq<Request>,      // requests sent to the parsing service
    waits: nat,                  // polling pauses taken
    deleteAttempted: bool,       // the scratch copy's deletion was attempted
    leftOnDisk: set<string>)     // the written files still present afterwards

  const UploadsDir := "public/uploads/"
  const TempDir := "temp/"
  const ParsePrefix := "Failed to parse resume: "
  const ProcessingPrefix := "Error processing file: "
  const InvalidResponseMessage := "Invalid response from resume parsing service"

  /** A name the handler accepts: it ends in ".pdf" or ".docx", ignoring case. */
  predicate Accepted(name: string)
    ensures Accepted(name) ==> |name| >= 4
  {
    EndsWith(ToLower(name), ".pdf") || EndsWith(ToLower(name), ".docx")
  }

  /** A name is accepted iff its last four characters read ".pdf" or its last five ".docx", in any case. */
  lemma AcceptedByExtension(name: string)
    ensures Accepted(name) <==>
      (|name| >= 4 && ToLower(name[|name| - 4..]) == ".pdf")
      || (|name| >= 5 && ToLower(name[|name| - 5..]) == ".docx")
  {
    if |name| >= 4 { ToLowerSuffix(name, |name| - 4); }
    if |name| >= 5 { ToLowerSuffix(name, |name| - 5); }
  }

  /** A text file is refused. */
  lemma TextFileRefused()
    ensures !Accepted("resume.txt")
  {
    var n := "resume.txt";
    AcceptedByExtension(n);
    assert n[|n| - 4..] == ".txt";
    assert ToLower(".txt")[1] == 't';
    assert n[|n| - 5..] == "e.txt";
    assert ToLower("e.txt")[0] == 'e';
  }

  /** Upper- and mixed-case extensions are accepted. */
  lemma CaseInsensitiveExtensions(stem: string)
    ensures Accepted(stem + ".PDF") && Accepted(stem + ".DocX")
  {
    var n1, n2 := stem + ".PDF", stem + ".DocX";
    assert n1[|n1| - 4..] == ".PDF";
    assert ToLower(".PDF") == ".pdf";
    assert n2[|n2| - 5..] == ".DocX";
    assert ToLower(".DocX") == ".docx";
    AcceptedByExtension(n1);
    AcceptedByExtension(n2);
  }

  /** The stored file name: the request's UUID, a dash, the uploaded name. */
  function StoredName(uuid: string, name: string): (r: string)
    ensures |r| == |uuid| + 1 + |name|
    ensures r[..|uuid|] == uuid && r[|uuid|] == '-' && r[|uuid| + 1..] == name
  {
    uuid + "-" + name
  }

  /**
   * Stored names are unique per upload: two stored names of equal-length
   * UUIDs (a UUID always has 36 characters) coincide only when both the UUIDs
   * and the uploaded names do. The stored name keeps the uploaded extension.
   */
  lemma StoredNameInjective(u1: string, n1: string, u2: string, n2: string)
    requires |u1| == |u2|
    ensures StoredName(u1, n1) == StoredName(u2, n2) <==> u1 == u2 && n1 == n2
    ensures EndsWith(StoredName(u1, n1), n1)
    ensures Accepted(n1) ==> Accepted(StoredName(u1, n1))
  {
    var s1, s2 := StoredName(u1, n1), StoredName(u2, n2);
    if s1 == s2 {
      assert u1 == s1[..|u1|] && u2 == s2[..|u2|];
      assert n1 == s1[|u1| + 1..] && n2 == s2[|u2| + 1..];
    }
    assert s1[|s1| - |n1|..] == n1;
    if |n1| >= 4 {
      assert s1[|s1| - 4..] == n1[|n1| - 4..];
    }
    if |n1| >= 5 {
      assert s1[|s1| - 5..] == n1[|n1| - 5..];
    }
    AcceptedByExtension(n1);
    AcceptedByExtension(s1);
  }

  /**
   * The answer and the effects once an accepted upload is stored under
   * `filename`: both copies are written and the permanent one stays; the
   * parse client's requests and waits are made; a client error or a result
   * without `data` gives a 500 parse-failure envelope and leaves the scratch
   * copy on disk; success gives the public URL and the normalised record,
   * and the scratch copy is gone unless its deletion failed.
   */
  predicate StoredOutcome(filename: string, keyAtLoad: bool, service: Service, deleteFails: bool,
                          response: Response, effects: Effects) {
    var run := ParseSpec(keyAtLoad, service.upload, service.polls);
    && effects.written == [UploadsDir + filename, TempDir + filename]
    && effects.requests == run.requests && effects.waits == run.waits
    && (UploadsDir + filename) in effects.leftOnDisk
    && effects.leftOnDisk <= {UploadsDir + filename, TempDir + filename}
    && (run.result.Err? ==>
          && response == Response(500, ParseFailed(ParsePrefix + run.result.message))
          && !effects.deleteAttempted && (TempDir + filename) in effects.leftOnDisk)
    && (run.result.Ok? && run.result.value.data.None? ==>
          && response == Response(500, ParseFailed(ParsePrefix + InvalidResponseMessage))
          && !effects.deleteAttempted && (TempDir + filename) in effects.leftOnDisk)
    && (run.result.Ok? && run.result.value.data.Some? ==>
          && response == Response(200, Succeeded("/uploads/" + filename, Transform(run.result.value)))
          && effects.deleteAttempted
          && ((TempDir + filename) in effects.leftOnDisk <==> deleteFails))
  }

  /**
   * A submission that never got a reply (the POST's `fetch` rejected) ends
   * in a 500 parse-failure envelope carrying the network error's message,
   * after the one POST, and leaves the scratch copy on disk.
   */
  lemma LostSubmissionAnswer(filename: string, message: string, polls: seq<PollOutcome>, deleteFails: bool,
                             response: Response, effects: Effects)
    requires StoredOutcome(filename, true, Service(UploadLost(message), polls), deleteFails, response, effects)
    ensures response == Response(500, ParseFailed(ParsePrefix + message))
    ensures effects.requests == [Request.Post(DocumentsUrl)] && effects.waits == 0
    ensures (TempDir + filename) in effects.leftOnDisk
  {
  }

  /**
   * `POST`. Every path answers with 200, 400 or 500 and nothing escapes; the
   * form is read before the key is checked and the key before the file; an
   * unaccepted file is refused before anything is written or sent; the
   * scratch copy is deleted only after a successful parse, and whether that
   * deletion fails does not change the answer.
   */
  method Post(form: Result<Option<UploadedFile>>, env: Environment, uuid: string, service: Service, deleteFails: bool)
    returns (response: Response, effects: Effects)
    ensures response.status in {200, 400, 500}
    ensures response.status == 200 <==> response.body.Succeeded?
    ensures form.Err? ==>
      response == Response(500, ProcessingFailed(ProcessingPrefix + form.message))
      && effects == Effects([], [], 0, false, {})
    ensures form.Ok? && !env.keyAtRequest ==>
      response == Response(500, ProcessingFailed(ProcessingPrefix + KeyMissingMessage))
      && effects == Effects([], [], 0, false, {})
    ensures form.Ok? && env.keyAtRequest && form.value.None? ==>
      response == Response(400, Rejected("No file uploaded"))
      && effects == Effects([], [], 0, false, {})
    ensures form.Ok? && env.keyAtRequest && form.value.Some? && !Accepted(form.value.value.name) ==>
      response == Response(400, Rejected("Only PDF and DOCX files are allowed"))
      && effects == Effects([], [], 0, false, {})
    ensures form.Ok? && env.keyAtRequest && form.value.Some? && Accepted(form.value.value.name) ==>
      StoredOutcome(StoredName(uuid, form.value.value.name), env.keyAtLoad, service, deleteFails, response, effects)
    ensures effects.deleteAttempted <==> response.status == 200
    ensures effects.requests != [] ==> form.Ok? && env.keyAtRequest && form.value.Some? && Accepted(form.value.value.name)
  {
    effects := Effects([], [], 0, false, {});
    if form.Err? {
      return Response(500, ProcessingFailed(ProcessingPrefix + form.message)), effects;
    }
    if !env.keyAtRequest {
      return Response(500, ProcessingFailed(ProcessingPrefix + KeyMissingMessage)), effects;
    }
    if form.value.None? {
      return Response(400, Rejected("No file uploaded")), effects;
    }
    var file := form.value.value;
    if !Accepted(file.name) {
      return Response(400, Rejected("Only PDF and DOCX files are allowed")), effects;
    }

    response, effects := ParseStored(StoredName(uuid, file.name), env.keyAtLoad, service, deleteFails);
  }

  /**
   * The part of `POST` after validation: both copies are written, the parse
   * client runs, and its failure or a result without `data` becomes a 500
   * envelope with the parse prefix; success removes the scratch copy.
   */
  method ParseStored(filename: string, keyAtLoad: bool, service: Service, deleteFails: bool)
    returns (response: Response, effects: Effects)
    ensures StoredOutcome(filename, keyAtLoad, service, deleteFails, response, effects)
    ensures response.status in {200, 500}
    ensures response.status == 200 <==> response.body.Succeeded?
    ensures effects.deleteAttempted <==> response.status == 200
  {
    var filePath, tempFilePath := UploadsDir + filename, TempDir + filename;
    assert filePath[0] == 'p' && tempFilePath[0] == 't';
    effects := Effects([filePath, tempFilePath], [], 0, false, {filePath, tempFilePath});

    var result, requests, waits := ParseResume(keyAtLoad, service.upload, service.polls);
    effects := effects.(requests := requests, waits := waits);
    if result.Err? {
      return Response(500, ParseFailed(ParsePrefix + result.message)), effects;
    }
    if result.value.data.None? {
      return Response(500, ParseFailed(ParsePrefix + InvalidResponseMessage)), effects;
    }
    var extractedInfo := Transform(result.value);

    // the scratch copy is removed; a failed removal is only logged
    effects := effects.(deleteAttempted := true);
    if !deleteFails {
      effects := effects.(leftOnDisk := effects.leftOnDisk - {tempFilePath});
    }
    response := Response(200, Succeeded("/uploads/" + filename, extractedInfo));
  }
}
