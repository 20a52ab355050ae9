/**
 * The page and the issuer together: what the page makes of the issuer's
 * answer, and walk-throughs of complete sessions.
 */
module Scenarios {

  import opened Wrappers
  import opened Text
  import opened Protocol
  import Server
  import opened Client

  /**
   * Whatever the signer does, the issuer's answer to the page's request is one
   * the page can read: on success the page receives the read URL of the key
   * derived from the request time and the file's name, ending with that name;
   * otherwise it raises the issuer-failure message with the answer's status text.
   */
  lemma IssuerAnswerAsSeenByPage(cfg: Server.Config, now: nat, file: File, sign: Server.Signer, statusText: string)
    ensures var reply := Answered(Server.GetUploadUrl(cfg, now, UploadUrlRequest(file), sign).response, statusText);
      && WellFormedReply(reply)
      && (PresignedUrls(reply).Ok? ==>
            && PresignedUrls(reply).value.fileUrl == Server.FileUrl(cfg, Server.ObjectKey(now, file.name))
            && EndsWith(PresignedUrls(reply).value.fileUrl, file.name))
      && (PresignedUrls(reply).Err? ==>
            PresignedUrls(reply).error == ISSUER_FAILURE_PREFIX + statusText)
  {
  }

  /**
   * The body the page posts for a file makes the issuer sign a key that splits
   * back into exactly the request time and the file's name, for the file's
   * declared content type.
   */
  lemma PostedBodyAtIssuer(cfg: Server.Config, now: nat, file: File, sign: Server.Signer)
    ensures var h := Server.GetUploadUrl(cfg, now, UploadUrlRequest(file), sign);
      && Server.SplitKey(h.signed.command.key) == Some((now, file.name))
      && h.signed.command.contentType == file.fileType
  {
    Server.SplitObjectKey(now, file.name);
  }

  /** A PNG of 2 MB is chosen, the issuer signs it, the PUT reports full progress and ends with 200. */
  method PhotoUploadSucceeds()
  {
    var page := new ImageUpload();
    var photo := File("photo.png", "image/png", 2 * 1024 * 1024);
    page.HandleFileSelect(Some(photo));
    assert page.selectedFile == Some(photo) && page.error == None;

    var cfg := Server.Config("bucket", "us-east-1");
    var sign: Server.Signer := (p: Server.PresignRequest) => Ok("https://store/signed");
    var h := Server.GetUploadUrl(cfg, 170000, UploadUrlRequest(photo), sign);
    var total := photo.size;
    var events := [ProgressEvent(true, 0, total), ProgressEvent(true, total / 2, total), ProgressEvent(true, total, total)];
    ProgressNonDecreasing(events, total);
    page.HandleUpload(Answered(h.response, "OK"), events, Completed(200, ""));

    assert page.uploadStatus == STATUS_SUCCEEDED;
    assert page.uploadedImageUrl == Server.FileUrl(cfg, Server.ObjectKey(170000, "photo.png"));
    assert page.progress == 100;
    assert page.error == None && !page.isLoading;
    assert page.requests == [UploadRequest("photo.png", "image/png")];
    assert page.transfers == [Transfer("https://store/signed", "image/png", photo)];
  }

  /** An executable is refused before anything is sent. */
  method ExecutableRejected()
  {
    var page := new ImageUpload();
    page.HandleFileSelect(Some(File("malware.exe", "application/x-msdownload", 1024)));
    assert page.selectedFile == None;
    assert page.error == Some(INVALID_TYPE_MESSAGE);
    assert page.requests == [] && page.transfers == [];
  }

  /** A 6 MB JPEG is over the 5 MB ceiling. */
  method OversizedJpegRejected()
  {
    var page := new ImageUpload();
    page.HandleFileSelect(Some(File("huge.jpg", "image/jpeg", 6 * 1024 * 1024)));
    assert page.selectedFile == None;
    assert page.error == Some(TOO_LARGE_MESSAGE);
  }

  /** The issuer answers 500: the attempt fails with the issuer's message and no PUT is made. */
  method IssuerFailureLeavesProgressAtZero()
  {
    var page := new ImageUpload();
    var photo := File("photo.png", "image/png", 1000);
    page.HandleFileSelect(Some(photo));
    var cfg := Server.Config("bucket", "eu-west-1");
    var sign: Server.Signer := (p: Server.PresignRequest) => Err("AccessDenied");
    var h := Server.GetUploadUrl(cfg, 5, UploadUrlRequest(photo), sign);
    assert h.response == HttpResponse(500, ErrorBody(Server.UPLOAD_URL_FAILURE));
    var reply := Answered(h.response, "Internal Server Error");
    assert ISSUER_FAILURE_PREFIX + "Internal Server Error" == "Failed to get upload URL: Internal Server Error";
    assert PresignedUrls(reply) == Err("Failed to get upload URL: Internal Server Error");
    page.HandleUpload(reply, [ProgressEvent(true, 1000, 1000)], Completed(200, ""));
    assert page.uploadStatus == STATUS_FAILED;
    assert page.error == Some("Failed to get upload URL: Internal Server Error");
    assert page.progress == 0 && page.uploadedImageUrl == "";
    assert page.transfers == [];
  }

  /**
   * Uploading the same selection again after a success: a failing retry shows
   * its error while the earlier read URL stays on display, and a new file
   * selection then clears both.
   */
  method RetryAfterSuccessKeepsEarlierUrl()
  {
    var page := new ImageUpload();
    var photo := File("cat.gif", "image/gif", 10);
    page.HandleFileSelect(Some(photo));
    var urls := UploadUrls("https://store/put-1", "https://bucket.s3.r.amazonaws.com/1-cat.gif");
    page.HandleUpload(Answered(HttpResponse(200, UrlsBody(urls)), "OK"), [], Completed(204, ""));
    assert page.uploadedImageUrl == urls.fileUrl;

    page.HandleUpload(FetchRejected("Failed to fetch"), [], Completed(200, ""));
    assert page.uploadStatus == STATUS_FAILED && page.error == Some("Failed to fetch");
    assert page.uploadedImageUrl == urls.fileUrl;
    assert |page.requests| == 2 && |page.transfers| == 1;

    page.HandleFileSelect(Some(photo));
    assert page.uploadedImageUrl == "" && page.error == None && page.progress == 0;
    assert page.uploadStatus == STATUS_FAILED;
  }

  /** A 2xx answer whose body is not JSON: reading it fails, that error is shown, and no PUT is made. */
  method UnreadableIssuerAnswer()
  {
    var page := new ImageUpload();
    var photo := File("dog.jpg", "image/jpeg", 100);
    page.HandleFileSelect(Some(photo));
    page.HandleUpload(Unparsable(200, "OK", "Unexpected token '<'"), [], Completed(200, ""));
    assert page.uploadStatus == STATUS_FAILED;
    assert page.error == Some("Unexpected token '<'");
    assert page.transfers == [] && |page.requests| == 1;
  }

  /** A store that refuses the PUT after every byte was sent leaves the bar at 100. */
  method RejectedAfterFullProgress()
  {
    var page := new ImageUpload();
    var photo := File("a.webp", "image/webp", 8);
    page.HandleFileSelect(Some(photo));
    var urls := UploadUrls("https://store/put", "https://bucket.s3.r.amazonaws.com/2-a.webp");
    page.HandleUpload(Answered(HttpResponse(200, UrlsBody(urls)), "OK"),
                      [ProgressEvent(true, 8, 8)], Completed(403, "AccessDenied"));
    assert page.uploadStatus == STATUS_FAILED;
    assert page.progress == 100;
    assert page.uploadedImageUrl == "";
  }
}
