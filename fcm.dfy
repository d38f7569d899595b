/**
  The slice of the Firebase Cloud Messaging client the relay uses: the
  outbound message shape and a client whose Send is a stub. The stub's
  outcome is fixed when it is made, and it logs every message it is asked to
  send, so that a caller's promises about when and what it sends can be
  stated.
*/
module Fcm {

  /** The Android-specific part of a message: delivery priority and the app it may reach. */
  datatype AndroidConfig = AndroidConfig(restrictedPackageName: string, priority: string)

  /** An outbound message: string data for the app, the Android options and the recipient token. */
  datatype Message = Message(data: map<string, string>, android: AndroidConfig, token: string)

  /** What Send reports: the provider's message id, or an error with its message text. */
  datatype SendResult = Sent(messageId: string) | Failed(error: string)

  class Client {
    const outcome: SendResult
    var sent: seq<Message>

    constructor (outcome: SendResult)
      ensures this.outcome == outcome && sent == []
    {
      this.outcome := outcome;
      sent := [];
    }

    method Send(m: Message) returns (r: SendResult)
      modifies this
      ensures r == outcome
      ensures sent == old(sent) + [m]
    {
      r := outcome;
      sent := sent + [m];
    }
  }
}
