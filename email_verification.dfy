/**
 * The per-user email verification codes of send_verification.js: an
 * in-memory map from user id to a six-digit code string, written by
 * `POST /api/send-verification` and consumed by `POST /api/verify-code`.
 *
 * The two handlers are specified by the pure step functions SendStep and
 * VerifyStep over the map; the class CodeStore holds the map and its
 * methods update it as those functions say. Lemmas relate several calls.
 */
module EmailVerification {
  import opened Js

  /**
   * An HTTP response: its status code and the message or error text of its
   * JSON body. send_verification.js runs as a server of its own, apart from
   * index.js, so its replies have their own type.
   */
  datatype Reply = Reply(status: nat, message: string)

  /** Every key was a truthy user id and every value is a six-digit code string. */
  ghost predicate ValidCodes(codes: map<JsValue, string>)
  {
    forall u :: u in codes ==> Truthy(u) && IsSixDigitCode(codes[u])
  }

  datatype SendOutcome = SendOutcome(reply: Reply, codes: map<JsValue, string>)

  /**
   * `POST /api/send-verification` with body fields `email` and `user_id`,
   * where `rnd` is the value `Math.random()` gave and `mailSent` whether
   * `sendMail` resolved.
   */
  function SendStep(codes: map<JsValue, string>, email: JsValue, userId: JsValue,
                    rnd: real, mailSent: bool): (r: SendOutcome)
    requires 0.0 <= rnd < 1.0
    // a missing field is refused and nothing is stored
    ensures r.reply.status == 400 <==> !Truthy(email) || !Truthy(userId)
    ensures r.reply.status == 400 ==> r.codes == codes
    // otherwise the new code is stored before mailing, whether or not mailing succeeds
    ensures r.reply.status != 400 ==>
              && r.codes.Keys == codes.Keys + {userId}
              && r.codes[userId] == Decimal(GenerateCode(rnd))
              && (forall u :: u in codes && u != userId ==> r.codes[u] == codes[u])
              && (r.reply.status == 200 <==> mailSent)
              && (r.reply.status == 500 <==> !mailSent)
  {
    if !Truthy(email) || !Truthy(userId) then
      SendOutcome(Reply(400, "Missing email or user_id"), codes)
    else
      var stored := codes[userId := Decimal(GenerateCode(rnd))];
      if mailSent then SendOutcome(Reply(200, "Verification email sent."), stored)
      else SendOutcome(Reply(500, "Failed to send email."), stored)
  }

  datatype VerifyOutcome = VerifyOutcome(reply: Reply, codes: map<JsValue, string>)

  /** `POST /api/verify-code` with body fields `user_id` and `code`. */
  function VerifyStep(codes: map<JsValue, string>, userId: JsValue, code: JsValue): (r: VerifyOutcome)
    // succeeds exactly when the code is the very string stored for the user
    ensures r.reply.status == 200 <==> userId in codes && code == Str(codes[userId])
    ensures r.reply.status in {200, 400}
    // success consumes the entry; every failure leaves the map as it was
    ensures r.reply.status == 200 ==> r.codes == codes - {userId}
    ensures r.reply.status != 200 ==> r.codes == codes
    ensures userId !in codes ==> r.reply == Reply(400, "No code found.")
  {
    if userId !in codes then
      VerifyOutcome(Reply(400, "No code found."), codes)
    else if Str(codes[userId]) == code then
      VerifyOutcome(Reply(200, "Email verified!"), codes - {userId})
    else
      VerifyOutcome(Reply(400, "Invalid code."), codes)
  }

  /** Both handlers keep every stored entry a truthy user id mapped to a six-digit code. */
  lemma StepsPreserveValidCodes(codes: map<JsValue, string>, email: JsValue, userId: JsValue,
                                rnd: real, mailSent: bool, code: JsValue)
    requires ValidCodes(codes)
    requires 0.0 <= rnd < 1.0
    ensures ValidCodes(SendStep(codes, email, userId, rnd, mailSent).codes)
    ensures ValidCodes(VerifyStep(codes, userId, code).codes)
  {
    GeneratedCodeString(rnd);
  }

  /** A falsy user id never has an entry, so verifying it always reports "No code found.". */
  lemma FalsyUserHasNoCode(codes: map<JsValue, string>, userId: JsValue, code: JsValue)
    requires ValidCodes(codes)
    requires !Truthy(userId)
    ensures VerifyStep(codes, userId, code).reply == Reply(400, "No code found.")
  {
  }

  /** A successful verification consumes the code: repeating it finds no code. */
  lemma VerifyConsumesCode(codes: map<JsValue, string>, userId: JsValue, code: JsValue)
    requires VerifyStep(codes, userId, code).reply.status == 200
    ensures VerifyStep(VerifyStep(codes, userId, code).codes, userId, code).reply
              == Reply(400, "No code found.")
  {
  }

  /** A wrong guess is rejected and keeps the entry, so the right code still succeeds afterwards. */
  lemma WrongCodeKeepsEntry(codes: map<JsValue, string>, userId: JsValue, wrong: JsValue)
    requires userId in codes && wrong != Str(codes[userId])
    ensures VerifyStep(codes, userId, wrong).reply == Reply(400, "Invalid code.")
    ensures VerifyStep(VerifyStep(codes, userId, wrong).codes, userId, Str(codes[userId])).reply.status == 200
  {
  }

  /** Comparison is strict: a numeric code never matches, even one with the same digits. */
  lemma NumericCodeNeverMatches(codes: map<JsValue, string>, userId: JsValue, n: SafeInteger)
    ensures VerifyStep(codes, userId, Num(n)).reply.status == 400
  {
  }

  /**
   * The stored code outlives a failed email: after a send whose mail failed
   * (500), the code it generated still verifies.
   */
  lemma CodeStoredEvenWhenMailFails(codes: map<JsValue, string>, email: JsValue, userId: JsValue, rnd: real)
    requires 0.0 <= rnd < 1.0
    requires Truthy(email) && Truthy(userId)
    ensures SendStep(codes, email, userId, rnd, false).reply.status == 500
    ensures VerifyStep(SendStep(codes, email, userId, rnd, false).codes, userId,
                       Str(Decimal(GenerateCode(rnd)))).reply.status == 200
  {
  }

  /**
   * Sending again overwrites: once a new code differing from the old one is
   * issued, the old code is rejected as invalid.
   */
  lemma ResendInvalidatesOldCode(codes: map<JsValue, string>, email: JsValue, userId: JsValue,
                                 rnd: real, mailSent: bool)
    requires 0.0 <= rnd < 1.0
    requires Truthy(email) && Truthy(userId) && userId in codes
    requires codes[userId] != Decimal(GenerateCode(rnd))
    ensures VerifyStep(SendStep(codes, email, userId, rnd, mailSent).codes, userId,
                       Str(codes[userId])).reply == Reply(400, "Invalid code.")
  {
  }

  /** The module-level `verificationCodes` Map and the two handlers that use it. */
  class CodeStore {
    var codes: map<JsValue, string>

    ghost predicate Valid()
      reads this
    {
      ValidCodes(codes)
    }

    /** The store starts empty when the server starts. */
    constructor ()
      ensures Valid() && codes == map[]
    {
      codes := map[];
    }

    /** `POST /api/send-verification`: `set` the user's code, then try to mail it. */
    method SendVerification(email: JsValue, userId: JsValue, rnd: real, mailSent: bool)
      returns (reply: Reply)
      requires Valid()
      requires 0.0 <= rnd < 1.0
      modifies this
      ensures Valid()
      ensures reply == SendStep(old(codes), email, userId, rnd, mailSent).reply
      ensures codes == SendStep(old(codes), email, userId, rnd, mailSent).codes
      ensures Truthy(email) && Truthy(userId) ==>
                codes == old(codes)[userId := Decimal(GenerateCode(rnd))]
      ensures !Truthy(email) || !Truthy(userId) ==> codes == old(codes)
    {
      if !Truthy(email) || !Truthy(userId) {
        return Reply(400, "Missing email or user_id");
      }
      var code := Decimal(GenerateCode(rnd));
      GeneratedCodeString(rnd);
      codes := codes[userId := code];
      if mailSent {
        reply := Reply(200, "Verification email sent.");
      } else {
        reply := Reply(500, "Failed to send email.");
      }
    }

    /** `POST /api/verify-code`: on an exact match `delete` the entry. */
    method VerifyCode(userId: JsValue, code: JsValue) returns (reply: Reply)
      requires Valid()
      modifies this
      ensures Valid()
      ensures reply == VerifyStep(old(codes), userId, code).reply
      ensures codes == VerifyStep(old(codes), userId, code).codes
      ensures reply.status == 200 ==> codes == old(codes) - {userId}
      ensures reply.status != 200 ==> codes == old(codes)
    {
      if userId !in codes {
        return Reply(400, "No code found.");
      }
      var storedCode := codes[userId];
      if Str(storedCode) == code {
        codes := codes - {userId};
        return Reply(200, "Email verified!");
      }
      reply := Reply(400, "Invalid code.");
    }
  }
}
