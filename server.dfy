/**
 * The credential issuer behind `POST /get-upload-url`: it derives a unique
 * object key from the request time and the file name, asks the object store's
 * SDK to presign a PUT of that key, and answers with the presigned write URL
 * and the object's public read URL, or with a fixed 500 error.
 */
module Server {

  import opened Wrappers
  import opened Text
  import opened Protocol

  /** The store settings the handler reads from the environment. */
  datatype Config = Config(bucket: string, region: string)

  /** Lifetime of a presigned URL, in seconds. */
  const EXPIRES_IN_SECONDS: nat := 300

  const UPLOAD_URL_FAILURE: string := "Failed to generate upload URL"

  const ACL_PRIVATE: string := "private"

  /** The object-store write the issuer authorises: one key, one content type. */
  datatype PutObjectCommand = PutObjectCommand(bucket: string, key: string, contentType: string, acl: string)

  /** What is handed to the SDK's signer: the command and the URL's lifetime. */
  datatype PresignRequest = PresignRequest(command: PutObjectCommand, expiresIn: nat)

  /**
   * The SDK's signer, which this model does not see into: it yields a presigned
   * URL or fails with an error.
   */
  type Signer = PresignRequest -> Result<string, string>

  /** The outcome of one request: what was given to the signer, and the response sent. */
  datatype Handled = Handled(signed: PresignRequest, response: HttpResponse)

  /** The unique object key: the request time in decimal, a dash, the file name. */
  function ObjectKey(timestamp: nat, fileName: string): (key: string)
    ensures EndsWith(key, fileName)
    ensures StartsWith(key, NatToDecimal(timestamp) + "-")
  {
    var key := NatToDecimal(timestamp) + "-" + fileName;
    assert key[|key| - |fileName|..] == fileName;
    assert key[..|NatToDecimal(timestamp)| + 1] == NatToDecimal(timestamp) + "-";
    key
  }

  /**
   * Reads a key back: the digits before the first dash and what follows that
   * dash, provided the digits are printed as NatToDecimal prints them.
   */
  function SplitKey(key: string): (r: Option<(nat, string)>)
    ensures r.Some? ==> ObjectKey(r.value.0, r.value.1) == key
  {
    match IndexOf(key, '-')
    case None => None
    case Some(i) =>
      var digits := key[..i];
      if AllDigits(digits) && NatToDecimal(DecimalValue(digits)) == digits then
        assert key == digits + "-" + key[i + 1..];
        Some((DecimalValue(digits), key[i + 1..]))
      else
        None
  }

  /** Every key the issuer derives splits back into its timestamp and file name. */
  lemma SplitObjectKey(timestamp: nat, fileName: string)
    ensures SplitKey(ObjectKey(timestamp, fileName)) == Some((timestamp, fileName))
  {
    var digits := NatToDecimal(timestamp);
    var key := ObjectKey(timestamp, fileName);
    assert key == digits + "-" + fileName;
    var r := IndexOf(key, '-');
    assert key[|digits|] == '-';
    assert r.Some? by {
      assert key[|digits|] in key;
    }
    assert forall j :: 0 <= j < |digits| ==> key[j] == digits[j] != '-';
    assert r.value == |digits|;
    assert key[..|digits|] == digits;
    assert key[|digits| + 1..] == fileName;
    DecimalRoundTrip(timestamp);
  }

  /** Key derivation is injective over (timestamp, file name) pairs. */
  lemma ObjectKeyInjective(t1: nat, f1: string, t2: nat, f2: string)
    requires ObjectKey(t1, f1) == ObjectKey(t2, f2)
    ensures t1 == t2 && f1 == f2
  {
    SplitObjectKey(t1, f1);
    SplitObjectKey(t2, f2);
  }

  /** The read URL of an object in the configured bucket and region. */
  function FileUrl(cfg: Config, key: string): (url: string)
    ensures StartsWith(url, "https://" + cfg.bucket + ".s3.")
    ensures StartsWith(url, FileUrlPrefix(cfg))
    ensures EndsWith(url, key)
    ensures |url| == |FileUrlPrefix(cfg)| + |key|
  {
    var url := FileUrlPrefix(cfg) + key;
    assert url[..|"https://" + cfg.bucket + ".s3."|] == "https://" + cfg.bucket + ".s3.";
    assert url[..|FileUrlPrefix(cfg)|] == FileUrlPrefix(cfg);
    assert url[|url| - |key|..] == key;
    url
  }

  /** Everything of the read URL before the key: scheme, bucket, region and the S3 host. */
  function FileUrlPrefix(cfg: Config): string {
    "https://" + cfg.bucket + ".s3." + cfg.region + ".amazonaws.com/"
  }

  /** Under one configuration, distinct keys have distinct read URLs. */
  lemma FileUrlInjective(cfg: Config, k1: string, k2: string)
    requires FileUrl(cfg, k1) == FileUrl(cfg, k2)
    ensures k1 == k2
  {
  }

  /** The read URL of a derived key ends with the file name the client sent. */
  lemma FileUrlEndsWithFileName(cfg: Config, timestamp: nat, fileName: string)
    ensures EndsWith(FileUrl(cfg, ObjectKey(timestamp, fileName)), fileName)
  {
  }

  /**
   * The `/get-upload-url` handler, run at time `now` (milliseconds) with the
   * request body `req` and the SDK signer `sign`.
   */
  function GetUploadUrl(cfg: Config, now: nat, req: UploadRequest, sign: Signer): (h: Handled)
    ensures h.signed.command.key == ObjectKey(now, req.fileName)
    ensures h.signed.command.bucket == cfg.bucket
    ensures h.signed.command.contentType == req.fileType
    ensures h.signed.expiresIn == EXPIRES_IN_SECONDS
    ensures h.response.status == 200 <==> sign(h.signed).Ok?
    ensures h.response.status == 200 ==>
      h.response.body == UrlsBody(UploadUrls(sign(h.signed).value, FileUrl(cfg, h.signed.command.key)))
    ensures h.response.status != 200 ==>
      h.response == HttpResponse(500, ErrorBody(UPLOAD_URL_FAILURE))
    ensures h.response.body.UrlsBody? ==> EndsWith(h.response.body.urls.fileUrl, req.fileName)
  {
    var key := ObjectKey(now, req.fileName);
    var command := PutObjectCommand(cfg.bucket, key, req.fileType, ACL_PRIVATE);
    var signed := PresignRequest(command, EXPIRES_IN_SECONDS);
    match sign(signed)
    case Ok(presignedUrl) =>
      FileUrlEndsWithFileName(cfg, now, req.fileName);
      Handled(signed, HttpResponse(200, UrlsBody(UploadUrls(presignedUrl, FileUrl(cfg, key)))))
    case Err(_) =>
      Handled(signed, HttpResponse(500, ErrorBody(UPLOAD_URL_FAILURE)))
  }

  /**
   * Two requests for the same file name at different times are signed for
   * different keys and, when both succeed, are given different read URLs.
   */
  lemma DistinctTimesDistinctObjects(cfg: Config, t1: nat, t2: nat, req: UploadRequest, sign: Signer)
    requires t1 != t2
    ensures GetUploadUrl(cfg, t1, req, sign).signed.command.key != GetUploadUrl(cfg, t2, req, sign).signed.command.key
    ensures var r1, r2 := GetUploadUrl(cfg, t1, req, sign).response, GetUploadUrl(cfg, t2, req, sign).response;
      r1.body.UrlsBody? && r2.body.UrlsBody? ==> r1.body.urls.fileUrl != r2.body.urls.fileUrl
  {
    var k1 := ObjectKey(t1, req.fileName);
    var k2 := ObjectKey(t2, req.fileName);
    if k1 == k2 {
      ObjectKeyInjective(t1, req.fileName, t2, req.fileName);
    }
    if FileUrl(cfg, k1) == FileUrl(cfg, k2) {
      FileUrlInjective(cfg, k1, k2);
      ObjectKeyInjective(t1, req.fileName, t2, req.fileName);
    }
  }
}
