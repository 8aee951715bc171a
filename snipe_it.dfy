/** What the checkout and checkin routes see of a call into Snipe-IT: the
    HTTP exchange itself is outside the model, its reply is an input. */
module SnipeIt {
  import opened Wrappers
  import opened Strings

  /** `Accepted` is any non-null reply whose `status` is not `'error'`;
      `Rejected` carries the reply's `messages`; `NoReply` is a null reply;
      `Threw` is an exception, with its message when it is an `Error`.
      The routes test for `Rejected` themselves, but `checkoutAsset` and
      `checkinAsset` of `src/lib/snipe-it.ts` already throw on such a reply
      (`ThroughClient`), so through that client the branch is not reached. */
  datatype Reply = Accepted | Rejected(messages: seq<string>) | NoReply | Threw(message: Option<string>)

  const UNKNOWN_ERROR := "Unknown error"
  const CLIENT_UNKNOWN_ERROR := "Unknown Snipe-IT error"

  /** What a route receives from `checkoutAsset` or `checkinAsset`: a reply
      whose `status` is `'error'` is thrown as an `Error` carrying the
      joined messages, or "Unknown Snipe-IT error" when they join to
      nothing; every other reply is passed on. */
  function ThroughClient(reply: Reply): (r: Reply)
    ensures !r.Rejected?
    ensures !reply.Rejected? ==> r == reply
    ensures reply.Rejected? ==> r.Threw? && r.message.Some?
    ensures reply.Rejected? && Join(reply.messages, " ") != "" ==> r.message.value == Join(reply.messages, " ")
    ensures reply.Rejected? && Join(reply.messages, " ") == "" ==> r.message.value == CLIENT_UNKNOWN_ERROR
  {
    match reply
    case Rejected(messages) =>
      var joined := Join(messages, " ");
      Threw(Some(if joined == "" then CLIENT_UNKNOWN_ERROR else joined))
    case _ => reply
  }

  /** The `message` of the 500 response after a failed call: the error the
      route throws itself (prefix plus the joined messages, or "Unknown
      error" when they join to nothing), or the message of the caught one. */
  function FailureMessage(operation: string, reply: Reply): (m: string)
    requires !reply.Accepted?
    ensures reply.Rejected? || reply.NoReply? ==> StartsWith(m, "Snipe-IT " + operation + " failed: ")
    ensures reply.NoReply? ==> m == "Snipe-IT " + operation + " failed: " + UNKNOWN_ERROR
    ensures reply.Rejected? && |reply.messages| == 1 && reply.messages[0] != "" ==>
              m == "Snipe-IT " + operation + " failed: " + reply.messages[0]
    ensures reply.Threw? ==> m == reply.message.GetOr(UNKNOWN_ERROR)
  {
    var prefix := "Snipe-IT " + operation + " failed: ";
    match reply
    case Rejected(messages) =>
      var joined := Join(messages, " ");
      prefix + (if joined == "" then UNKNOWN_ERROR else joined)
    case NoReply => prefix + UNKNOWN_ERROR
    case Threw(message) => message.GetOr(UNKNOWN_ERROR)
  }

  /** Through the client a rejection never produces the route's own
      "Snipe-IT ... failed: " message: the 500 carries the client's. */
  lemma ClientRejectionMessage(operation: string, messages: seq<string>)
    ensures FailureMessage(operation, ThroughClient(Rejected(messages))) ==
              if Join(messages, " ") == "" then CLIENT_UNKNOWN_ERROR else Join(messages, " ")
  {
  }
}
