/**
 * The records exchanged between the upload page and the credential issuer over
 * `POST /get-upload-url`, and the status test both sides use.
 */
module Protocol {

  /** The JSON body the page posts: the chosen file's name and declared MIME type. */
  datatype UploadRequest = UploadRequest(fileName: string, fileType: string)

  /** A presigned write URL and the public read URL of the same object. */
  datatype UploadUrls = UploadUrls(uploadUrl: string, fileUrl: string)

  datatype ResponseBody = UrlsBody(urls: UploadUrls) | ErrorBody(error: string)

  datatype HttpResponse = HttpResponse(status: nat, body: ResponseBody)

  /** An HTTP status in the success class (what `response.ok` and the transfer's 2xx test check). */
  function IsSuccessStatus(status: nat): (ok: bool)
    ensures ok <==> status / 100 == 2
  {
    200 <= status < 300
  }
}
