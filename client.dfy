/**
 * The upload page's controller: it validates the chosen file, asks the issuer
 * for a presigned URL, PUTs the file to the store while following progress
 * events, and records the outcome in six pieces of component state.
 */
module Client {

  import opened Wrappers
  import opened Text
  import opened Protocol

  /** A file chosen in the file input: name, declared MIME type and size in bytes. */
  datatype File = File(name: string, fileType: string, size: nat)

  const MAX_FILE_SIZE: nat := 5 * 1024 * 1024

  const ALLOWED_FILE_TYPES: seq<string> := ["image/jpeg", "image/png", "image/gif", "image/webp"]

  const MISSING_FILE_MESSAGE: string := "Please select a file."
  const INVALID_TYPE_MESSAGE: string := "Invalid file type. Please upload a JPEG, PNG, GIF, or WebP image."
  const TOO_LARGE_MESSAGE: string := "File size exceeds 5MB limit."
  const NO_SELECTION_MESSAGE: string := "Please select a file first"
  const FALLBACK_MESSAGE: string := "An unexpected error occurred"
  const ISSUER_FAILURE_PREFIX: string := "Failed to get upload URL: "
  const TRANSFER_FAILED: string := "Upload failed"

  const STATUS_REQUESTING: string := "Getting upload URL..."
  const STATUS_UPLOADING: string := "Uploading to S3..."
  const STATUS_SUCCEEDED: string := "Upload successful!"
  const STATUS_FAILED: string := "Upload failed"

  // ---------------------------------------------------------------------------
  // Validation

  /**
   * The validation message for a chosen file, or None when it may be uploaded.
   * The checks run in a fixed order: presence, then type, then size.
   */
  function ValidateFile(file: Option<File>): (err: Option<string>)
    ensures err.None? <==>
      file.Some? && file.value.fileType in ALLOWED_FILE_TYPES && file.value.size <= MAX_FILE_SIZE
    ensures err.Some? ==> err.value in {MISSING_FILE_MESSAGE, INVALID_TYPE_MESSAGE, TOO_LARGE_MESSAGE}
  {
    if file.None? then Some(MISSING_FILE_MESSAGE)
    else if file.value.fileType !in ALLOWED_FILE_TYPES then Some(INVALID_TYPE_MESSAGE)
    else if file.value.size > MAX_FILE_SIZE then Some(TOO_LARGE_MESSAGE)
    else None
  }

  /**
   * Which message a rejected file gets: a missing file is reported first, a
   * disallowed type before any size problem, and the size message only for an
   * allowed type.
   */
  lemma ValidationOrder(file: Option<File>)
    ensures file.None? ==> ValidateFile(file) == Some(MISSING_FILE_MESSAGE)
    ensures file.Some? && file.value.fileType !in ALLOWED_FILE_TYPES ==>
      ValidateFile(file) == Some(INVALID_TYPE_MESSAGE)
    ensures ValidateFile(file) == Some(TOO_LARGE_MESSAGE) <==>
      file.Some? && file.value.fileType in ALLOWED_FILE_TYPES && file.value.size > MAX_FILE_SIZE
  {
  }

  /** The size ceiling is inclusive: 5242880 bytes pass, 5242881 bytes do not. */
  lemma SizeBoundary(name: string, fileType: string)
    requires fileType in ALLOWED_FILE_TYPES
    ensures ValidateFile(Some(File(name, fileType, 5242880))) == None
    ensures ValidateFile(Some(File(name, fileType, 5242881))) == Some(TOO_LARGE_MESSAGE)
  {
  }

  // ---------------------------------------------------------------------------
  // Progress

  /** An upload progress event: whether the total is known, bytes sent, bytes in all. */
  datatype ProgressEvent = ProgressEvent(lengthComputable: bool, loaded: nat, total: nat)

  /**
   * The percent shown for `loaded` of `total` bytes: the integer nearest to
   * 100 * loaded / total, halves rounded up. This is the exact-arithmetic
   * reading of `Math.round(loaded / total * 100)`; over doubles the page can
   * land just below an exact half and round down (23 of 40 bytes shows 57,
   * where this gives 58).
   */
  function RoundedPercent(loaded: nat, total: nat): (p: nat)
    requires total > 0
    ensures 2 * total * p <= 200 * loaded + total < 2 * total * (p + 1)
  {
    (200 * loaded + total) / (2 * total)
  }

  /** A rounded percent is determined by the bracketing stated by RoundedPercent. */
  lemma RoundedPercentUnique(loaded: nat, total: nat, q: nat)
    requires total > 0
    requires 2 * total * q <= 200 * loaded + total < 2 * total * (q + 1)
    ensures RoundedPercent(loaded, total) == q
  {
  }

  lemma MulMonotone(k: nat, a: nat, b: nat)
    requires a <= b
    ensures k * a <= k * b
  {
  }

  /** More bytes sent never shows a smaller percent. */
  lemma RoundedPercentMonotone(l1: nat, l2: nat, total: nat)
    requires total > 0 && l1 <= l2
    ensures RoundedPercent(l1, total) <= RoundedPercent(l2, total)
  {
    var p1, p2 := RoundedPercent(l1, total), RoundedPercent(l2, total);
    if p2 < p1 {
      MulMonotone(2 * total, p2 + 1, p1);
    }
  }

  /** The percent lies in 0..100 while no more than the total is sent, is 0 at the start and 100 at the end. */
  lemma RoundedPercentRange(loaded: nat, total: nat)
    requires total > 0
    ensures loaded <= total ==> RoundedPercent(loaded, total) <= 100
    ensures RoundedPercent(0, total) == 0
    ensures RoundedPercent(total, total) == 100
  {
    RoundedPercentUnique(0, total, 0);
    RoundedPercentUnique(total, total, 100);
    if loaded <= total {
      RoundedPercentMonotone(loaded, total, total);
    }
  }

  /** The percent an event sets, if any; an event whose length is not computable sets none. */
  function PercentOf(ev: ProgressEvent): (p: Option<nat>)
    ensures p.Some? <==> ev.lengthComputable && ev.total > 0
    ensures p.Some? ==> p.value == RoundedPercent(ev.loaded, ev.total)
    ensures p.Some? && ev.loaded <= ev.total ==> p.value <= 100
  {
    if ev.lengthComputable && ev.total > 0 then
      RoundedPercentRange(ev.loaded, ev.total);
      Some(RoundedPercent(ev.loaded, ev.total))
    else None
  }

  /** The percents shown, in order, while the events `evs` arrive. */
  function Observed(evs: seq<ProgressEvent>): seq<nat>
  {
    if evs == [] then []
    else
      var last := evs[|evs| - 1];
      Observed(evs[..|evs| - 1]) + (if PercentOf(last).Some? then [PercentOf(last).value] else [])
  }

  /** The percent on display after `evs`, starting from `start`. */
  function ShownProgress(start: nat, evs: seq<ProgressEvent>): nat
  {
    var seen := Observed(evs);
    if seen == [] then start else seen[|seen| - 1]
  }

  /** The events of one transfer: one total, and bytes sent never decreasing. */
  predicate SingleTransfer(evs: seq<ProgressEvent>, total: nat) {
    && (forall i :: 0 <= i < |evs| ==> evs[i].total == total && evs[i].loaded <= total)
    && (forall i, j :: 0 <= i < j < |evs| ==> evs[i].loaded <= evs[j].loaded)
  }

  predicate Sorted(s: seq<nat>) {
    forall i, j :: 0 <= i < j < |s| ==> s[i] <= s[j]
  }

  /** Events that send at most `m` bytes never show more than the percent of `m`. */
  lemma {:induction false} ObservedAtMost(evs: seq<ProgressEvent>, total: nat, m: nat)
    requires total > 0
    requires forall i :: 0 <= i < |evs| ==> evs[i].total == total && evs[i].loaded <= m
    ensures forall x :: x in Observed(evs) ==> x <= RoundedPercent(m, total)
  {
    if evs != [] {
      var last := evs[|evs| - 1];
      ObservedAtMost(evs[..|evs| - 1], total, m);
      RoundedPercentMonotone(last.loaded, m, total);
    }
  }

  /**
   * During one transfer the percents shown never decrease, stay within 0..100,
   * and a final event that reports every byte sent leaves 100 on display.
   */
  lemma {:induction false} ProgressNonDecreasing(evs: seq<ProgressEvent>, total: nat)
    requires total > 0 && SingleTransfer(evs, total)
    ensures Sorted(Observed(evs))
    ensures forall x :: x in Observed(evs) ==> x <= 100
    ensures evs != [] && evs[|evs| - 1] == ProgressEvent(true, total, total) ==>
      ShownProgress(0, evs) == 100
  {
    RoundedPercentRange(total, total);
    ObservedAtMost(evs, total, total);
    if evs != [] {
      var init, last := evs[..|evs| - 1], evs[|evs| - 1];
      assert SingleTransfer(init, total);
      ProgressNonDecreasing(init, total);
      ObservedAtMost(init, total, last.loaded);
      if PercentOf(last).Some? {
        var seen := Observed(init);
        assert Observed(evs) == seen + [PercentOf(last).value];
        assert forall x :: x in seen ==> x <= PercentOf(last).value;
        assert forall i :: 0 <= i < |seen| ==> seen[i] in seen;
      }
    }
  }

  // ---------------------------------------------------------------------------
  // The two network steps, as outcomes supplied from outside

  /**
   * How the issuer call ended: `fetch` rejected with a message; an HTTP
   * response arrived with its status text and a JSON body; or a response
   * arrived whose body is not JSON, so that reading it would reject with
   * `parseError`.
   */
  datatype IssuerReply =
    | FetchRejected(message: string)
    | Answered(response: HttpResponse, statusText: string)
    | Unparsable(status: nat, statusText: string, parseError: string)

  /** The HTTP status of a reply that arrived. */
  function ReplyStatus(reply: IssuerReply): nat
    requires !reply.FetchRejected?
  {
    if reply.Answered? then reply.response.status else reply.status
  }

  /** A successful JSON answer from the issuer carries the two URLs. */
  predicate WellFormedReply(reply: IssuerReply) {
    reply.Answered? && IsSuccessStatus(reply.response.status) ==> reply.response.body.UrlsBody?
  }

  /** The body posted to the issuer for a file: its name and declared type, as they are. */
  function UploadUrlRequest(file: File): (r: UploadRequest)
    ensures r.fileName == file.name && r.fileType == file.fileType
  {
    UploadRequest(file.name, file.fileType)
  }

  /** The URLs the page obtains from the issuer, or the message of the error it raises. */
  function PresignedUrls(reply: IssuerReply): (r: Result<UploadUrls, string>)
    requires WellFormedReply(reply)
    ensures r.Ok? <==> reply.Answered? && IsSuccessStatus(reply.response.status)
    ensures r.Ok? ==> r.value == reply.response.body.urls
    ensures reply.FetchRejected? ==> r == Err(reply.message)
    ensures !reply.FetchRejected? && !IsSuccessStatus(ReplyStatus(reply)) ==>
      r == Err(ISSUER_FAILURE_PREFIX + reply.statusText)
    ensures reply.Unparsable? && IsSuccessStatus(reply.status) ==> r == Err(reply.parseError)
  {
    match reply
    case FetchRejected(message) => Err(message)
    case Answered(response, statusText) =>
      if IsSuccessStatus(response.status) then Ok(response.body.urls)
      else Err(ISSUER_FAILURE_PREFIX + statusText)
    case Unparsable(status, statusText, parseError) =>
      if IsSuccessStatus(status) then Err(parseError)
      else Err(ISSUER_FAILURE_PREFIX + statusText)
  }

  /**
   * How the PUT to the store ended: completion with a status and response text,
   * or the upload's `error` event. A transport failure completes the request
   * with status 0 and an empty text before the `error` event fires, so it is
   * `Completed(0, "")`; `UploadErrorEvent` covers that listener on its own.
   */
  datatype TransferOutcome = UploadErrorEvent | Completed(status: nat, responseText: string)

  /** Whether the transfer succeeded, or the message of the error it is rejected with. */
  function TransferResult(outcome: TransferOutcome): (r: Result<(), string>)
    ensures r.Ok? <==> outcome.Completed? && IsSuccessStatus(outcome.status)
    ensures r.Err? ==> StartsWith(r.error, TRANSFER_FAILED)
    ensures outcome.UploadErrorEvent? ==> r == Err(TRANSFER_FAILED)
    ensures r.Err? && outcome.Completed? ==>
      StartsWith(r.error, TRANSFER_FAILED + " with status: " + NatToDecimal(outcome.status))
      && EndsWith(r.error, outcome.responseText)
  {
    match outcome
    case UploadErrorEvent => Err(TRANSFER_FAILED)
    case Completed(status, responseText) =>
      if IsSuccessStatus(status) then Ok(())
      else
        var head := TRANSFER_FAILED + " with status: " + NatToDecimal(status);
        var msg := head + ". Response: " + responseText;
        assert msg[..|head|] == head;
        assert msg[..|TRANSFER_FAILED|] == TRANSFER_FAILED;
        assert msg[|msg| - |responseText|..] == responseText;
        Err(msg)
  }

  /** The text shown for a caught error: its message, or a fallback when that is empty. */
  function ErrorText(message: string): (t: string)
    ensures t != ""
    ensures message != "" ==> t == message
    ensures message == "" ==> t == FALLBACK_MESSAGE
  {
    if message != "" then message else FALLBACK_MESSAGE
  }

  /**
   * The outcome of one upload attempt: the read URL to show, or the error text.
   * Success needs both steps to succeed; the read URL is exactly the issuer's;
   * when the issuer fails, its error is the one reported.
   */
  function AttemptResult(reply: IssuerReply, outcome: TransferOutcome): (r: Result<string, string>)
    requires WellFormedReply(reply)
    ensures r.Ok? <==> PresignedUrls(reply).Ok? && TransferResult(outcome).Ok?
    ensures r.Ok? ==> r.value == PresignedUrls(reply).value.fileUrl
    ensures PresignedUrls(reply).Err? ==> r == Err(ErrorText(PresignedUrls(reply).error))
    ensures PresignedUrls(reply).Ok? && r.Err? ==> r == Err(TransferResult(outcome).error)
    ensures r.Err? ==> r.error != ""
  {
    match PresignedUrls(reply)
    case Err(message) => Err(ErrorText(message))
    case Ok(urls) =>
      match TransferResult(outcome)
      case Ok(_) => Ok(urls.fileUrl)
      case Err(message) => Err(ErrorText(message))
  }

  // ---------------------------------------------------------------------------
  // The component and its handlers

  /** A PUT handed to the store: the presigned URL, the Content-Type header, the file. */
  datatype Transfer = Transfer(url: string, contentType: string, file: File)

  /** The upload component's state, one field per piece of React state. */
  class ImageUpload {
    var selectedFile: Option<File>
    var uploadStatus: string
    var uploadedImageUrl: string
    var isLoading: bool
    var error: Option<string>
    var progress: nat

    /** Every body posted to the issuer, oldest first. */
    ghost var requests: seq<UploadRequest>
    /** Every PUT handed to the store, oldest first. */
    ghost var transfers: seq<Transfer>

    /**
     * Between handlers no upload is in flight, and a selected file is always
     * one that passed validation.
     */
    ghost predicate Valid()
      reads this
    {
      && !isLoading
      && (selectedFile.Some? ==> ValidateFile(selectedFile).None?)
    }

    /**
     * The file input accepts a choice only while no upload is in flight;
     * between handlers it is always enabled.
     */
    predicate FileInputEnabled()
      reads this
      ensures Valid() ==> FileInputEnabled()
    {
      !isLoading
    }

    /**
     * The upload button is enabled when a file is selected and no upload is in
     * flight. Between handlers that means exactly: a file that passed validation
     * is selected.
     */
    predicate UploadButtonEnabled()
      reads this
      ensures Valid() ==> (UploadButtonEnabled() <==> selectedFile.Some? && ValidateFile(selectedFile).None?)
    {
      selectedFile.Some? && !isLoading
    }

    constructor ()
      ensures Valid()
      ensures selectedFile == None && uploadStatus == "" && uploadedImageUrl == ""
      ensures !isLoading && error == None && progress == 0
      ensures requests == [] && transfers == []
    {
      selectedFile := None;
      uploadStatus := "";
      uploadedImageUrl := "";
      isLoading := false;
      error := None;
      progress := 0;
      requests := [];
      transfers := [];
    }

    /**
     * A change in the file input; `file` is its first file, if any. The error,
     * the shown URL and the progress are cleared before the file is validated.
     */
    method HandleFileSelect(file: Option<File>)
      requires Valid() && FileInputEnabled()
      modifies this
      ensures Valid()
      ensures error == (if file.Some? then ValidateFile(file) else None)
      ensures uploadedImageUrl == "" && progress == 0
      ensures selectedFile ==
        if file.None? then old(selectedFile)
        else if ValidateFile(file).None? then file
        else None
      ensures uploadStatus == old(uploadStatus) && isLoading == old(isLoading)
      ensures requests == old(requests) && transfers == old(transfers)
    {
      error := None;
      uploadedImageUrl := "";
      progress := 0;
      if file.Some? {
        var validationError := ValidateFile(file);
        if validationError.Some? {
          error := validationError;
          selectedFile := None;
          return;
        }
        selectedFile := file;
      }
    }

    /** The upload's progress listener. */
    method OnProgress(ev: ProgressEvent)
      modifies this`progress
      ensures progress == if PercentOf(ev).Some? then PercentOf(ev).value else old(progress)
    {
      var p := PercentOf(ev);
      if p.Some? {
        progress := p.value;
      }
    }

    /**
     * A click on the upload button. The issuer answers with `reply`; if it gives
     * URLs, the file is PUT to the store, `events` arrive during that PUT, and
     * it ends with `outcome`.
     */
    method HandleUpload(reply: IssuerReply, events: seq<ProgressEvent>, outcome: TransferOutcome)
      requires Valid() && WellFormedReply(reply)
      modifies this
      ensures Valid()
      ensures selectedFile == old(selectedFile)
      // Without a selected file only the error changes, and nothing is sent.
      ensures old(selectedFile).None? ==>
        && error == Some(NO_SELECTION_MESSAGE)
        && uploadStatus == old(uploadStatus) && uploadedImageUrl == old(uploadedImageUrl)
        && progress == old(progress)
        && requests == old(requests) && transfers == old(transfers)
      // A click on an enabled button always asks the issuer, once (a consequence
      // of the next clause, since an enabled button has a selection).
      ensures old(UploadButtonEnabled()) ==> |requests| == |old(requests)| + 1
      ensures old(selectedFile).Some? ==>
        requests == old(requests) + [UploadUrlRequest(old(selectedFile).value)]
      ensures old(selectedFile).Some? && PresignedUrls(reply).Err? ==>
        transfers == old(transfers) && progress == 0
      ensures old(selectedFile).Some? && PresignedUrls(reply).Ok? ==>
        var file := old(selectedFile).value;
        && transfers == old(transfers) + [Transfer(PresignedUrls(reply).value.uploadUrl, file.fileType, file)]
        && progress == ShownProgress(0, events)
      ensures old(selectedFile).Some? && AttemptResult(reply, outcome).Ok? ==>
        && uploadStatus == STATUS_SUCCEEDED
        && uploadedImageUrl == AttemptResult(reply, outcome).value
        && error == None
      ensures old(selectedFile).Some? && AttemptResult(reply, outcome).Err? ==>
        && uploadStatus == STATUS_FAILED
        && uploadedImageUrl == old(uploadedImageUrl)
        && error == Some(AttemptResult(reply, outcome).error)
    {
      if selectedFile.None? {
        error := Some(NO_SELECTION_MESSAGE);
        return;
      }
      var file := selectedFile.value;
      isLoading := true;
      error := None;
      progress := 0;

      uploadStatus := STATUS_REQUESTING;
      requests := requests + [UploadUrlRequest(file)];
      var issued := PresignedUrls(reply);
      if issued.Err? {
        error := Some(ErrorText(issued.error));
        uploadStatus := STATUS_FAILED;
      } else {
        uploadStatus := STATUS_UPLOADING;
        transfers := transfers + [Transfer(issued.value.uploadUrl, file.fileType, file)];
        var i := 0;
        while i < |events|
          modifies this`progress
          invariant 0 <= i <= |events|
          invariant progress == ShownProgress(0, events[..i])
        {
          OnProgress(events[i]);
          assert events[..i + 1][..i] == events[..i];
          i := i + 1;
        }
        assert events[..|events|] == events;
        var transferred := TransferResult(outcome);
        if transferred.Ok? {
          uploadStatus := STATUS_SUCCEEDED;
          uploadedImageUrl := issued.value.fileUrl;
        } else {
          error := Some(ErrorText(transferred.error));
          uploadStatus := STATUS_FAILED;
        }
      }
      isLoading := false;
    }
  }
}
