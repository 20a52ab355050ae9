# Presigned image upload, modelled in Dafny

This project models a small two-part system that uploads images straight from a
browser page to an S3 bucket:

- **The credential issuer** (`server/index.js`). It handles `POST /get-upload-url`.
  It derives an object key `<Date.now()>-<fileName>` and has the AWS SDK presign a
  private `PutObject` of that key with the declared content type for 300 seconds.
  It answers with `{uploadUrl, fileUrl}`, where `fileUrl` is
  `https://<bucket>.s3.<region>.amazonaws.com/<key>`. Any failure becomes a 500
  with body `{error: 'Failed to generate upload URL'}`.
- **The upload page** (`client/src/ImageUpload.jsx`). A React component with six
  pieces of state: `selectedFile`, `uploadStatus`, `uploadedImageUrl`, `isLoading`,
  `error` and `progress`. Choosing a file validates it against an allow-list of
  four image types and a 5 MiB ceiling. Clicking upload asks the issuer for URLs,
  PUTs the file to the presigned URL while following progress events, and records
  success or failure.

Modules:

- `Wrappers` (`wrappers.dfy`): `Option` and `Result`.
- `Text` (`text.dfy`): prefixes and suffixes, first index of a character, and the
  decimal numerals JavaScript prints for non-negative integers below 10^21 (every
  `Date.now()` and HTTP status), with their reading back (`DecimalValue`).
- `Protocol` (`protocol.dfy`): the request and response records of the exchange,
  and the 2xx status test.
- `Server` (`server.dfy`): key derivation and its inverse `SplitKey`, the read URL,
  and the handler `GetUploadUrl`. The SDK signer is a function parameter
  (`Signer`) that may fail. The request time is a parameter. Bucket and region
  come in a `Config` record.
- `Client` (`client.dfy`): validation, progress rounding, how the page reads the
  issuer's answer and the PUT's outcome, and the class `ImageUpload`. That class
  has the six state cells as fields and the handlers as methods.
  The two network steps are parameters of `HandleUpload`:
  - the issuer's reply (`fetch` rejected, a JSON answer, or an answer that is not JSON);
  - the progress events seen during the PUT;
  - how the PUT ended (the upload's `error` event, or completion with a status).

  Two ghost logs, `requests` and `transfers`, record each issuer call and each
  PUT. With them the contracts can say that every click asks the issuer afresh,
  and that no PUT follows a failed issuer call.
- `Scenarios` (`scenarios.dfy`): one lemma about what the page makes of the
  issuer's answer, and methods that walk through whole sessions: a successful
  upload, two rejected files, an issuer failure, an unreadable issuer answer, a retry after success, and a PUT
  refused after full progress.

## Model

| member | source | states |
|---|---|---|
| `Text.NatToDecimal` | server/index.js:26 | The timestamp is printed as one or more decimal digits, with no leading zero except for 0 and no `-`. |
| `Text.DecimalRoundTrip` | server/index.js:26 | Reading back a printed timestamp gives the timestamp. |
| `Text.NatToDecimalInjective` | server/index.js:26 | Distinct timestamps print differently. |
| `Server.ObjectKey` | server/index.js:26 | The key starts with the printed timestamp followed by `-`, and ends with the file name. |
| `Server.SplitKey` | server/index.js:26 | Whenever a key splits at its first `-` into a canonical numeral and a rest, rebuilding the key from the two parts gives the key back. |
| `Server.SplitObjectKey` | server/index.js:26 | Every derived key splits back into exactly its timestamp and file name. |
| `Server.ObjectKeyInjective` | server/index.js:26 | Equal keys come from equal (timestamp, file name) pairs. |
| `Server.FileUrl` | server/index.js:42 | The read URL starts with `https://` + bucket + `.s3.` + region + `.amazonaws.com/` (`FileUrlPrefix`), ends with the key, and is exactly that prefix followed by the key (its length is the two lengths added). |
| `Server.FileUrlInjective` | server/index.js:42 | Under one configuration, distinct keys have distinct read URLs. |
| `Server.FileUrlEndsWithFileName` | server/index.js:26-42 | The read URL of a derived key ends with the file name the client sent. |
| `Server.GetUploadUrl` | server/index.js:21-48 | The signer is asked for exactly the derived key, the configured bucket, the request's content type and a 300-second expiry. The answer is 200 iff signing succeeds. On success the body holds the signed URL and the read URL of that same key, which ends with the file name. On any signing failure the answer is 500 with the fixed error body. |
| `Server.DistinctTimesDistinctObjects` | server/index.js:26-43 | Two requests for one file name at different times are signed for different keys, and successful ones get different read URLs. |
| `Client.ValidateFile` | client/src/ImageUpload.jsx:14-23 | No message iff a file is present, its type is one of the four allowed image types and its size is at most 5·1024·1024. Any message is one of the three validation messages. |
| `Client.ValidationOrder` | client/src/ImageUpload.jsx:15-21 | A missing file gets the missing-file message. A disallowed type gets the type message whatever its size. The size message is given iff the type is allowed and the size is over the ceiling. |
| `Client.SizeBoundary` | client/src/ImageUpload.jsx:19-21 | For an allowed type, 5242880 bytes pass and 5242881 bytes get the size message. |
| `Client.RoundedPercent` | client/src/ImageUpload.jsx:66-70 | The percent is the integer nearest to 100·loaded/total, with halves rounded up. This is the exact-arithmetic reading of `Math.round(loaded / total * 100)`; see "## Left out" for where doubles differ. |
| `Client.RoundedPercentUnique` | client/src/ImageUpload.jsx:68 | That rounding bracket determines the percent uniquely. |
| `Client.RoundedPercentMonotone` | client/src/ImageUpload.jsx:68 | More bytes sent never yields a smaller percent. |
| `Client.RoundedPercentRange` | client/src/ImageUpload.jsx:68 | The percent is at most 100 while loaded ≤ total. It is 0 for nothing sent and 100 for everything sent. |
| `Client.PercentOf` | client/src/ImageUpload.jsx:66-70 | An event sets a percent iff its length is computable (with a non-zero total). The percent it sets is `RoundedPercent(loaded, total)`, and it is within 100 when loaded ≤ total. |
| `Client.ObservedAtMost` | client/src/ImageUpload.jsx:66-70 | Events that send at most m bytes never show more than the percent of m. |
| `Client.ProgressNonDecreasing` | client/src/ImageUpload.jsx:66-70 | During one transfer the shown percents never decrease and stay within 100. A final event with every byte sent leaves 100 on display. |
| `Client.PresignedUrls` | client/src/ImageUpload.jsx:43-60 | The page gets the issuer's URLs iff a JSON answer arrived with a 2xx status. A rejected `fetch` yields its own message. A non-2xx status, whatever the body, yields `Failed to get upload URL: ` followed by the status text. A 2xx answer whose body is not JSON yields the parse error's message. |
| `Client.TransferResult` | client/src/ImageUpload.jsx:73-90 | The PUT succeeds iff it completed with a status in 200..299. Any other status, including the 0 of a transport failure, gives a message that starts with `Upload failed with status: <status>` and ends with the store's response text. The upload `error` listener on its own gives `Upload failed`. |
| `Client.ErrorText` | client/src/ImageUpload.jsx:121-123 | The shown error text is never empty. It is the error's own message when that message is non-empty, and `An unexpected error occurred` when it is empty. |
| `Protocol.IsSuccessStatus` | client/src/ImageUpload.jsx:79 | A status counts as success iff it is in the 2xx class (its hundreds digit is 2). The same test stands for `response.ok` at line 55. |
| `Client.AttemptResult` | client/src/ImageUpload.jsx:110-125 | An attempt succeeds iff both the issuer and the PUT succeed. Its result is then exactly the issuer's `fileUrl`. An issuer failure reports the issuer's error, a PUT failure reports the PUT's error, and the reported text is never empty. |
| `Client.ImageUpload.FileInputEnabled` | client/src/ImageUpload.jsx:153 | The file input is disabled exactly while an upload is in flight, and between handlers it is always enabled. |
| `Client.ImageUpload.UploadButtonEnabled` | client/src/ImageUpload.jsx:177 | Between handlers the upload button is enabled iff a file that passed validation is selected. |
| `Client.ImageUpload.constructor` | client/src/ImageUpload.jsx:7-12 | Initial state: no file, empty status and URL, not loading, no error, progress 0. |
| `Client.ImageUpload.HandleFileSelect` | client/src/ImageUpload.jsx:25-41 | The error, the shown URL and the progress are always cleared. An invalid file sets the validation message and leaves no selection. A valid file becomes the selection with no error. No file leaves the selection unchanged. Nothing is sent. |
| `Client.ImageUpload.OnProgress` | client/src/ImageUpload.jsx:66-71 | A length-computable event sets the progress to its rounded percent. Any other event leaves the progress unchanged. |
| `Client.ImageUpload.HandleUpload` | client/src/ImageUpload.jsx:100-129 | With no selection, only the error changes and nothing is sent. Otherwise the issuer is asked once for this file. If the issuer fails, there is no PUT and progress stays 0. If it succeeds, there is one PUT to that call's upload URL with the file's type, and the progress is the last percent shown. Success shows exactly the issuer's `fileUrl` with status `Upload successful!` and no error. Failure shows `Upload failed`, reports the error and keeps the earlier URL. Loading is off at the end on every path, and a selected file is always a valid one. |
| `Scenarios.PostedBodyAtIssuer` | client/src/ImageUpload.jsx:49-52 | The body the page posts for a file (`UploadUrlRequest`) makes the issuer sign a key that splits back into exactly the request time and the file's name, with the file's declared type as content type. |
| `Scenarios.IssuerAnswerAsSeenByPage` | client/src/ImageUpload.jsx:43-60 | The issuer's answer is always well-formed for the page. On success the page receives the read URL of the key made from the request time and the file's name, and that URL ends with the name. Otherwise the page reports `Failed to get upload URL: ` with the status text. |

## Left out

- The JSX rendering, the Tailwind classes, the progress bar's visibility rule and the image's `onError` handler are presentation. Only the disabled guards of the file input and the upload button are kept, as `FileInputEnabled` and `UploadButtonEnabled`. `HandleFileSelect` requires the first. `HandleUpload` requires only that no upload is in flight, so its no-selection branch, which the page's own code handles, stays reachable in the model.
- Clearing the file input after a rejected file (`event.target.value = ''`) touches the DOM, not component state.
- `fetch`, `XMLHttpRequest`, promises and event listeners are replaced by the outcome parameters of `HandleUpload`. Handlers run to completion one at a time. So the intermediate statuses `Getting upload URL...` and `Uploading to S3...`, which the page shows while it awaits, are assigned but are not visible between calls in the model.
- A transport failure of the PUT is `Completed(0, "")`. The XMLHttpRequest standard completes the request with status 0 and an empty response text before it fires the upload's `error` event. So the page reports `Upload failed with status: 0. Response: `, and the `error` listener's rejection comes too late to matter. `UploadErrorEvent` models that listener on its own, for completeness.
- `Client.RoundedPercent`: `Math.round` over doubles is modelled as the exact integer round-half-up `(200·loaded + total) / (2·total)`. The two differ where the double product falls just below an exact half. For 23 of 40 bytes the page shows 57 and the model 58; for 29 of 200 bytes, 14 against 15. Monotonicity, the 0..100 range, and 0 at the start and 100 at the end hold for both.
- A length-computable event with total 0 would set `NaN` in the page. The model treats it as setting no percent; browsers mark such events as not length-computable.
- `Client.PresignedUrls`, `Client.AttemptResult`, `Client.ImageUpload.HandleUpload`: they require `WellFormedReply`, which excludes every 2xx JSON answer other than `{uploadUrl, fileUrl}`. The response body type cannot express such bodies, and their outcomes are not modelled. For example, a `null` body makes the destructuring throw, so its error is shown and nothing is PUT. An object without `uploadUrl` PUTs to the URL `undefined`. An object with `uploadUrl` but no `fileUrl` can succeed and then show `undefined` as the image URL beside `Upload successful!`. The issuer in `server/index.js` never sends such an answer (`Scenarios.IssuerAnswerAsSeenByPage`). A 2xx answer that is not JSON at all is modelled (`Unparsable`).
- `Client.TransferResult`: states the message's leading part (`Upload failed with status: <status>`) and its trailing response text. It does not state the `. Response: ` separator between them.
- The issuer's request body is modelled as two strings. A request whose body lacks `fileName` or `fileType`, which JavaScript would print as `undefined` inside the key, is not modelled.
- The Express setup, CORS, `app.listen`, `dotenv` and `process.env` reads, and console logging are I/O. Bucket and region are passed as `Server.Config`. AWS credentials and the region given to the SDK client belong to the signer, which is opaque.
- The SDK's `S3Client`, `PutObjectCommand` and `getSignedUrl` are a foreign library. The signer is an arbitrary function from the signing request to a URL or an error. The `ACL: 'private'` field is carried in the command and nothing is proved about it.
- `Date.now()` is the parameter `now`. Two requests in the same millisecond for the same file name get the same key. The model proves distinct keys only for distinct times.
- Behaviours of the code that a reader might not expect, modelled as written:
  - A PUT refused by the store after every byte was sent leaves the progress at 100 (`Scenarios.RejectedAfterFullProgress`).
  - Uploading the same selection again after a success, and failing, shows the error while the earlier read URL stays on display until a new file is chosen (`Scenarios.RetryAfterSuccessKeepsEarlierUrl`).
  - Choosing a new file clears the shown URL, the error and the progress but keeps `uploadStatus`. `Upload successful!` or `Upload failed` stays on screen beside the new selection (`Scenarios.RetryAfterSuccessKeepsEarlierUrl`).
  - The state is six independent cells, not one tagged union, so combinations such as an error beside a shown URL can occur.
