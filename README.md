# gomuks/push relay, modelled in Dafny

gomuks/push is an HTTP gateway that relays push notifications for gomuks
Android to Firebase Cloud Messaging (FCM). A client POSTs a JSON push
request (recipient token, owner label, payload bytes, priority flag) to
`/_gomuks/push/fcm`. The handler `handlePushProxy` runs a fixed chain of
checks: path, declared content length, JSON decoding, and encoded payload
length. It then translates the request into an FCM message (`ToFCM`,
`GetPriority`), sends it once, and writes a single HTTP status derived from
the provider's answer.

Files:

- `wrappers.dfy`: `Option`.
- `base64.dfy` (module `Base64`): the standard padded base64 encoding of
  section 4 of RFC 4648. It gives the encoder, a strict decoder, and
  `EncodedLen` as Go's `StdEncoding.EncodedLen` computes it (`(n + 2) / 3 * 4`).
  It proves that the encoder and decoder are inverse to each other, and that
  an encoding over 4000 characters is exactly a payload over 3000 bytes.
- `http.dfy` (module `Http`): stand-ins for net/http. It has the status codes,
  a `ResponseWriter` that records every `WriteHeader` call, and a request
  `Body` whose decode outcome is fixed in advance and which counts decode
  calls.
- `fcm.dfy` (module `Fcm`): the FCM message shape and a `Client` stub. The
  stub has a fixed outcome, `Sent(id)` or `Failed(message)`, and logs every
  message it is asked to send.
- `push.dfy` (module `Push`): `PushRequest`, the constants, `GetPriority`,
  `ToFCM`, the handler `HandlePushProxy`, and its pure specification. The
  specification is `Validate`, `ClassifySendError`, `ExpectedStatus` and
  `SentMessages`, with lemmas for each branch of the chain.

Behaviour of the handler as written:

- The handler checks only the URL path. The HTTP method (`POST`) is matched
  by the router registration at push.go:74, which is not part of this model.
- A declared content length of -1 (unknown length) passes the 4096 check and
  the body is decoded. `OversizeBeforeDecoding` states this.
- The token is not validated. An empty or absent token is forwarded as is.

## Model

| member | source | states |
|---|---|---|
| Push.GetPriority | push.go:130-135 | the priority is "high" exactly when HighPriority is set and "normal" exactly when it is not |
| Push.PriorityDeterminesFlag | push.go:130-135 | two requests get the same priority string if and only if their priority flags agree (total, two-way mapping) |
| Push.ToFCM | push.go:117-128 | the data map has the single key "payload", whose value decodes back to the payload and has the padded base64 length; the token is copied; the Android priority is GetPriority; the restricted package is the process-wide name |
| Push.ToFCMInjective | push.go:117-128 | two requests translate to the same message if and only if their token, payload and priority agree (the owner is never sent) |
| Push.PackageNameIsProcessWide | push.go:45 | the restricted package name is the same for every request, whatever the request holds |
| Push.Validate | push.go:137-149 | the checks run in the handler's order; a request passes exactly when the path is the push path, the declared length is at most 4096, the body decodes, and the payload is at most 3000 bytes (encoded length at most 4000); a wrong path is 404, then a declared length over 4096 is 413, then a decode failure is 400, then a payload over 3000 bytes is 413 |
| Push.ClassifySendError | push.go:157-161 | a send error gives 404 exactly when its message is "Requested entity was not found." or "SenderId mismatch" (exact match), else 500 |
| Push.ExpectedStatus | push.go:140-171 | the handler's status is one of 200, 400, 404, 413 and 500, and it is 200 exactly when every check passes and the send succeeds |
| Push.SentMessages | push.go:150 | at most one message is sent; one is sent exactly when every check passes, and it is the request's ToFCM translation |
| Push.HandlePushProxy | push.go:140-171 | writes exactly one status, ExpectedStatus; decodes the body once exactly when the path and declared length pass, and never otherwise; hands the provider exactly SentMessages |
| Push.HandleTwice | push.go:140-171 | two requests with equal path, declared length and body content, each with its own body and response writer, handled in turn against the shared client, both get ExpectedStatus, written once on each writer; each body is decoded at most once and the client receives SentMessages for each |
| Push.WrongPathIsNotFound | push.go:142-143 | a path other than /_gomuks/push/fcm gives 404 without decoding the body or sending |
| Push.OversizeBeforeDecoding | push.go:144-145 | a declared length over 4096 gives 413 whatever the body holds (so a malformed oversize request is 413, not 400) without decoding; an unknown length (-1) goes on to decoding |
| Push.MalformedBodyIsBadRequest | push.go:146-147 | a body that fails to decode gives 400 and nothing is sent |
| Push.PayloadBound | push.go:148-149 | a decoded request gets 413 and no send exactly when its payload is over 3000 bytes, which is exactly when its encoding is over 4000 characters |
| Push.ProviderOutcomeStatus | push.go:150-170 | after all checks pass, success gives 200, the two recipient-invalid messages give 404, and any other error gives 500 |
| Push.StatusIgnoresUnreadInputs | push.go:142-149 | the status does not depend on the body when it is not decoded, nor on the provider's outcome when nothing is sent |
| Push.AcceptedScenario | push.go:117-171 | a request with payload bytes "hi" and a successful provider gets 200, and the message sent carries "aGk=" with priority "normal" |
| Base64.EncodedLen | push.go:148 | the encoded length is the least multiple of 4 whose three quarters cover the byte count |
| Base64.Encode | push.go:120 | the encoding of n bytes is EncodedLen(n) characters long |
| Base64.DecodeEncode | push.go:120 | decoding the standard padded encoding of any bytes gives those bytes back |
| Base64.EncodeDecode | push.go:120 | every string the strict decoder accepts is the encoding of what it decodes to |
| Base64.DecodeIffEncoding | push.go:120 | a string decodes to given bytes if and only if it is their encoding |
| Base64.EncodedLenBound | push.go:137 | an encoded length over 4000 is exactly a byte count over 3000 |
| Base64.StandardVectors | push.go:120 | the encoder gives the test vectors of section 10 of RFC 4648, and uses '+' and '/' for the values 62 and 63 as the standard alphabet does |
| Http.ResponseWriter.WriteHeader | push.go:143 | each call appends its status to the record of written statuses |
| Http.Body.Decode | push.go:146 | gives the body's decode outcome and counts one decode |
| Fcm.Client.Send | push.go:150 | returns the stub's fixed outcome and appends the message to the send log |

## Left out

- `main` (process start-up, logging set-up, router registration, listen address, Firebase client creation, signal handling and the 5-second graceful shutdown): process lifecycle, I/O and concurrency.
- `init` (defaulting `PORT` to 8080): environment I/O.
- `handleIndex` and the embedded landing page: static content with no logic.
- HTTP method matching (`POST`): the router does this, not the handler.
- JSON decoding is abstracted to an outcome fixed in advance (`Some(request)` or `None`). This includes the base64 decoding of the `payload` field that Go performs for `[]byte`.
- Http.Body.Decode: gives the same outcome on every call, while Go's request body can be read only once. Every member here decodes a body at most once, so the difference never shows.
- The Firebase client is a stub with a fixed outcome. FCM semantics, the request context and its cancellation are not modelled.
- The `hlog` log lines on the send branches: observability only.
- `fcmPackageName` is read from the environment once at start-up. Here it is the `packageName` parameter, passed unchanged to every call.
- Base64.EncodedLen: Go computes it in a platform-sized `int`. The model uses unbounded integers, because a payload large enough to overflow it cannot exist in memory.
- Base64.Encode: written from RFC 4648, section 4, because Go's encoder is library code. The decoder is the strict one (it rejects non-zero padding bits), and it exists as the encoder's partner.
