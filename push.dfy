/**
  The push relay of gomuks/push (push.go): a push request is translated into
  an FCM message (ToFCM, GetPriority), and the HTTP handler runs a fixed chain
  of checks before it sends the message and turns the provider's answer into
  one HTTP status (HandlePushProxy).

  ExpectedStatus and SentMessages are the handler's specification as pure
  functions; the lemmas below state what the chain promises about them.
*/
module Push {
  import opened Wrappers
  import Base64
  import Http
  import Fcm

  /** The JSON body of a push request; Payload arrives base64-decoded into bytes. */
  datatype PushRequest = PushRequest(token: string, owner: string, payload: seq<Base64.byte>, highPriority: bool)

  const PushPath: string := "/_gomuks/push/fcm"
  /** Bound on the base64-encoded payload, in characters. */
  const MaxPayloadLength: nat := 4000
  /** Bound on the declared request size, in bytes. */
  const MaxContentLength: int := 4096
  /** The one key of the FCM data map. */
  const PayloadKey: string := "payload"
  /** The two provider error messages that mean the recipient token is no longer usable. */
  const EntityNotFound: string := "Requested entity was not found."
  const SenderIdMismatch: string := "SenderId mismatch"

  /** "high" for a high-priority request, "normal" for any other. */
  function GetPriority(pr: PushRequest): (p: string)
    ensures p == "high" <==> pr.highPriority
    ensures p == "normal" <==> !pr.highPriority
  {
    if pr.highPriority then "high" else "normal"
  }

  /** The priority string is determined by, and determines, the request's priority flag. */
  lemma PriorityDeterminesFlag(a: PushRequest, b: PushRequest)
    ensures GetPriority(a) == GetPriority(b) <==> a.highPriority == b.highPriority
  {
  }

  /**
    The FCM message for a request. packageName is the process-wide package
    the message is restricted to, the same for every request.
  */
  function ToFCM(pr: PushRequest, packageName: string): (m: Fcm.Message)
    ensures m.token == pr.token
    ensures m.data.Keys == {PayloadKey}
    ensures Base64.Decode(m.data[PayloadKey]) == Some(pr.payload)
    ensures |m.data[PayloadKey]| == Base64.EncodedLen(|pr.payload|)
    ensures m.android.priority == GetPriority(pr)
    ensures m.android.restrictedPackageName == packageName
  {
    Base64.DecodeEncode(pr.payload);
    Fcm.Message(
      map[PayloadKey := Base64.Encode(pr.payload)],
      Fcm.AndroidConfig(packageName, GetPriority(pr)),
      pr.token)
  }

  /**
    Two requests give the same message exactly when their token, payload and
    priority agree: the owner label never reaches the provider, and nothing
    else is lost in translation.
  */
  lemma ToFCMInjective(a: PushRequest, b: PushRequest, packageName: string)
    ensures ToFCM(a, packageName) == ToFCM(b, packageName) <==>
      a.token == b.token && a.payload == b.payload && a.highPriority == b.highPriority
  {
    var ma, mb := ToFCM(a, packageName), ToFCM(b, packageName);
    if ma == mb {
      assert Some(a.payload) == Base64.Decode(ma.data[PayloadKey]) == Some(b.payload);
    }
  }

  /**
    The restriction to the package does not depend on the request at all.
    This restates the last ensures of ToFCM, for readers, as a statement about two requests.
  */
  lemma PackageNameIsProcessWide(a: PushRequest, b: PushRequest, packageName: string)
    ensures ToFCM(a, packageName).android.restrictedPackageName ==
      ToFCM(b, packageName).android.restrictedPackageName == packageName
  {
  }

  /** The outcome of the checks that precede the send: a rejecting status, or the request to send. */
  datatype Validation = Reject(status: int) | Accept(req: PushRequest)

  /**
    The checks in the handler's order: path, declared length, JSON decoding,
    encoded payload length. parsed is what decoding the body would give.
  */
  function Validate(path: string, contentLength: int, parsed: Option<PushRequest>): (v: Validation)
    ensures v.Accept? <==>
      path == PushPath && contentLength <= MaxContentLength && parsed.Some? && |parsed.value.payload| <= 3000
    ensures v.Accept? ==> v.req == parsed.value && |Base64.Encode(v.req.payload)| <= MaxPayloadLength
    ensures v.Reject? ==>
      v.status in {Http.StatusNotFound, Http.StatusRequestEntityTooLarge, Http.StatusBadRequest}
    ensures path != PushPath ==> v == Reject(Http.StatusNotFound)
    ensures path == PushPath && contentLength > MaxContentLength ==> v == Reject(Http.StatusRequestEntityTooLarge)
    ensures path == PushPath && contentLength <= MaxContentLength && parsed.None? ==> v == Reject(Http.StatusBadRequest)
    ensures path == PushPath && contentLength <= MaxContentLength && parsed.Some? && |parsed.value.payload| > 3000 ==>
      v == Reject(Http.StatusRequestEntityTooLarge)
  {
    Base64.EncodedLenBound(if parsed.Some? then |parsed.value.payload| else 0);
    if path != PushPath then Reject(Http.StatusNotFound)
    else if contentLength > MaxContentLength then Reject(Http.StatusRequestEntityTooLarge)
    else if parsed.None? then Reject(Http.StatusBadRequest)
    else if Base64.EncodedLen(|parsed.value.payload|) > MaxPayloadLength then
      Reject(Http.StatusRequestEntityTooLarge)
    else
      Accept(parsed.value)
  }

  /** Whether the handler gets as far as decoding the body. */
  predicate DecodesBody(path: string, contentLength: int) {
    path == PushPath && contentLength <= MaxContentLength
  }

  /** The status for a failed send: 404 for the two recipient-invalid messages, matched exactly, else 500. */
  function ClassifySendError(message: string): (status: int)
    ensures status == Http.StatusNotFound <==> message == EntityNotFound || message == SenderIdMismatch
    ensures status == Http.StatusInternalServerError <==> !(message == EntityNotFound || message == SenderIdMismatch)
  {
    if message == EntityNotFound || message == SenderIdMismatch then Http.StatusNotFound
    else Http.StatusInternalServerError
  }

  /** The one status the handler writes, given the request and the provider's outcome. */
  function ExpectedStatus(path: string, contentLength: int, parsed: Option<PushRequest>, outcome: Fcm.SendResult): (status: int)
    ensures status in {Http.StatusOK, Http.StatusBadRequest, Http.StatusNotFound,
                       Http.StatusRequestEntityTooLarge, Http.StatusInternalServerError}
    ensures status == Http.StatusOK <==> Validate(path, contentLength, parsed).Accept? && outcome.Sent?
  {
    match Validate(path, contentLength, parsed)
    case Reject(s) => s
    case Accept(_) =>
      match outcome
      case Sent(_) => Http.StatusOK
      case Failed(message) => ClassifySendError(message)
  }

  /** The messages the handler hands to the provider: the translated request when every check passes, else none. */
  function SentMessages(path: string, contentLength: int, parsed: Option<PushRequest>, packageName: string): (ms: seq<Fcm.Message>)
    ensures |ms| <= 1
    ensures |ms| == 1 <==> Validate(path, contentLength, parsed).Accept?
    ensures |ms| == 1 ==> ms[0] == ToFCM(parsed.value, packageName)
  {
    match Validate(path, contentLength, parsed)
    case Reject(_) => []
    case Accept(req) => [ToFCM(req, packageName)]
  }

  /**
    The push handler. It writes exactly one status, decodes the body only
    when the path and the declared length pass, and calls the provider at
    most once, only when all four checks pass, with the translated request.
  */
  method HandlePushProxy(w: Http.ResponseWriter, r: Http.Request<PushRequest>, client: Fcm.Client, packageName: string)
    modifies w, r.body, client
    ensures w.statuses == old(w.statuses) + [ExpectedStatus(r.path, r.contentLength, r.body.parsed, client.outcome)]
    ensures r.body.decodeCalls == old(r.body.decodeCalls) + (if DecodesBody(r.path, r.contentLength) then 1 else 0)
    ensures client.sent == old(client.sent) + SentMessages(r.path, r.contentLength, r.body.parsed, packageName)
  {
    if r.path != PushPath {
      w.WriteHeader(Http.StatusNotFound);
    } else if r.contentLength > MaxContentLength {
      w.WriteHeader(Http.StatusRequestEntityTooLarge);
    } else {
      var parsed := r.body.Decode();
      if parsed.None? {
        w.WriteHeader(Http.StatusBadRequest);
      } else if Base64.EncodedLen(|parsed.value.payload|) > MaxPayloadLength {
        w.WriteHeader(Http.StatusRequestEntityTooLarge);
      } else {
        var req := parsed.value;
        var resp := client.Send(ToFCM(req, packageName));
        match resp
        case Failed(message) =>
          if message == EntityNotFound || message == SenderIdMismatch {
            w.WriteHeader(Http.StatusNotFound);
          } else {
            w.WriteHeader(Http.StatusInternalServerError);
          }
        case Sent(_) =>
          w.WriteHeader(Http.StatusOK);
      }
    }
  }

  /**
    Two requests with the same path, declared length and body content, each
    with a body and a response writer of its own, handled one after the other
    against the shared provider client: both get the status ExpectedStatus
    gives, because the handler keeps no state of its own. Each body is
    decoded at most once.
  */
  method HandleTwice(w1: Http.ResponseWriter, r1: Http.Request<PushRequest>,
                     w2: Http.ResponseWriter, r2: Http.Request<PushRequest>,
                     client: Fcm.Client, packageName: string)
    returns (first: int, second: int)
    requires w1 != w2 && r1.body != r2.body
    requires r1.path == r2.path && r1.contentLength == r2.contentLength && r1.body.parsed == r2.body.parsed
    modifies w1, w2, r1.body, r2.body, client
    ensures first == second == ExpectedStatus(r1.path, r1.contentLength, r1.body.parsed, client.outcome)
    ensures w1.statuses == old(w1.statuses) + [first]
    ensures w2.statuses == old(w2.statuses) + [second]
    ensures r1.body.decodeCalls == old(r1.body.decodeCalls) + (if DecodesBody(r1.path, r1.contentLength) then 1 else 0)
    ensures r2.body.decodeCalls == old(r2.body.decodeCalls) + (if DecodesBody(r2.path, r2.contentLength) then 1 else 0)
    ensures client.sent == old(client.sent) + SentMessages(r1.path, r1.contentLength, r1.body.parsed, packageName)
                                            + SentMessages(r2.path, r2.contentLength, r2.body.parsed, packageName)
  {
    HandlePushProxy(w1, r1, client, packageName);
    first := w1.statuses[|w1.statuses| - 1];
    HandlePushProxy(w2, r2, client, packageName);
    second := w2.statuses[|w2.statuses| - 1];
  }

  /** A path other than the push path gives 404 before anything else is looked at. */
  lemma WrongPathIsNotFound(path: string, contentLength: int, parsed: Option<PushRequest>, outcome: Fcm.SendResult,
                            packageName: string)
    requires path != PushPath
    ensures ExpectedStatus(path, contentLength, parsed, outcome) == Http.StatusNotFound
    ensures !DecodesBody(path, contentLength)
    ensures SentMessages(path, contentLength, parsed, packageName) == []
  {
  }

  /**
    A declared length over 4096 gives 413 whatever the body holds, so an
    oversize request with a malformed body is 413 and not 400; an unknown
    length (-1) goes on to decoding.
  */
  lemma OversizeBeforeDecoding(contentLength: int, parsed: Option<PushRequest>, outcome: Fcm.SendResult)
    ensures contentLength > MaxContentLength ==>
      ExpectedStatus(PushPath, contentLength, parsed, outcome) == Http.StatusRequestEntityTooLarge &&
      !DecodesBody(PushPath, contentLength)
    ensures DecodesBody(PushPath, -1)
    ensures ExpectedStatus(PushPath, -1, None, outcome) == Http.StatusBadRequest
  {
  }

  /** A decode failure on the push path within the length bound gives 400 and nothing is sent. */
  lemma MalformedBodyIsBadRequest(contentLength: int, outcome: Fcm.SendResult, packageName: string)
    requires contentLength <= MaxContentLength
    ensures ExpectedStatus(PushPath, contentLength, None, outcome) == Http.StatusBadRequest
    ensures SentMessages(PushPath, contentLength, None, packageName) == []
  {
  }

  /**
    A decoded request is refused with 413, without a send, exactly when its
    payload is over 3000 bytes, that is when its encoding is over 4000
    characters.
  */
  lemma PayloadBound(contentLength: int, req: PushRequest, outcome: Fcm.SendResult, packageName: string)
    requires contentLength <= MaxContentLength
    ensures |req.payload| > 3000 <==> |Base64.Encode(req.payload)| > MaxPayloadLength
    ensures |req.payload| > 3000 <==>
      ExpectedStatus(PushPath, contentLength, Some(req), outcome) == Http.StatusRequestEntityTooLarge
    ensures |req.payload| > 3000 <==> SentMessages(PushPath, contentLength, Some(req), packageName) == []
  {
    Base64.EncodedLenBound(|req.payload|);
  }

  /**
    Once every check passes the provider decides the status: success is 200,
    the two recipient-invalid messages are 404, any other error is 500.
  */
  lemma ProviderOutcomeStatus(path: string, contentLength: int, parsed: Option<PushRequest>, outcome: Fcm.SendResult)
    requires Validate(path, contentLength, parsed).Accept?
    ensures outcome.Sent? ==> ExpectedStatus(path, contentLength, parsed, outcome) == Http.StatusOK
    ensures outcome.Failed? && (outcome.error == EntityNotFound || outcome.error == SenderIdMismatch) ==>
      ExpectedStatus(path, contentLength, parsed, outcome) == Http.StatusNotFound
    ensures outcome.Failed? && outcome.error != EntityNotFound && outcome.error != SenderIdMismatch ==>
      ExpectedStatus(path, contentLength, parsed, outcome) == Http.StatusInternalServerError
  {
  }

  /**
    What the handler does not look at cannot change its status: the body when
    it is not decoded, and the provider's outcome when nothing is sent.
  */
  lemma StatusIgnoresUnreadInputs(path: string, contentLength: int, p1: Option<PushRequest>, p2: Option<PushRequest>,
                                  o1: Fcm.SendResult, o2: Fcm.SendResult)
    ensures !DecodesBody(path, contentLength) ==>
      ExpectedStatus(path, contentLength, p1, o1) == ExpectedStatus(path, contentLength, p2, o2)
    ensures Validate(path, contentLength, p1).Reject? ==>
      ExpectedStatus(path, contentLength, p1, o1) == ExpectedStatus(path, contentLength, p1, o2)
  {
  }

  /**
    The 67-byte request {"token":"abc","owner":"u1","payload":"aGk=","high_priority":false},
    whose payload is the bytes "hi", with a provider answering "msg-1": it is sent and gets 200.
  */
  lemma AcceptedScenario(packageName: string)
    ensures var req := PushRequest("abc", "u1", [104, 105], false);
      && ExpectedStatus(PushPath, 67, Some(req), Fcm.Sent("msg-1")) == Http.StatusOK
      && SentMessages(PushPath, 67, Some(req), packageName) ==
         [Fcm.Message(map[PayloadKey := "aGk="], Fcm.AndroidConfig(packageName, "normal"), "abc")]
  {
    var req := PushRequest("abc", "u1", [104, 105], false);
    assert Base64.Encode(req.payload) == "aGk=";
  }
}
