/**
 * The admin account routes of index.js over two Firestore collections:
 * `users` (records with an email, a plaintext `password_hash` and a role),
 * modelled as a sequence in query order, and the single document
 * `admin_password_resets/admin`, modelled as a slot holding the reset code.
 *
 * `/login` and `/admin/verify-code` only read and are functions of a
 * snapshot; `/admin/forgot-password` and `/admin/change-password` write and
 * are methods of AdminStore, specified by the step functions ForgotStep and
 * ChangePasswordStep.
 */
module AdminAccounts {
  import opened Js

  /**
   * An HTTP response: its status code and the message text of its JSON body.
   * index.js is a server of its own, separate from send_verification.js, so its
   * replies have their own type.
   */
  datatype Reply = Reply(status: nat, message: string)

  /** A document of the `users` collection; a field the document lacks is `Undefined`. */
  datatype User = User(id: string, email: JsValue, passwordHash: JsValue, role: JsValue)

  // ----- equality queries on `users` -----

  /** The `where(...)` clauses of a query: `email == e`, optionally with `password_hash == p`. */
  datatype Query = ByEmail(email: JsValue) | ByCredentials(email: JsValue, password: JsValue)

  predicate Satisfies(u: User, q: Query)
  {
    match q
    case ByEmail(e) => u.email == e
    case ByCredentials(e, p) => u.email == e && u.passwordHash == p
  }

  /** `i` is the position of the first document the query returns, i.e. `snapshot.docs[0]`. */
  predicate IsFirst(users: seq<User>, i: int, q: Query)
  {
    0 <= i < |users| && Satisfies(users[i], q) &&
    forall j :: 0 <= j < i ==> !Satisfies(users[j], q)
  }

  /** The position of the first match of a query, or None when the snapshot is empty. */
  function FirstWhere(users: seq<User>, q: Query): (r: Option<nat>)
    ensures r.None? <==> forall i :: 0 <= i < |users| ==> !Satisfies(users[i], q)
    ensures r.Some? ==> IsFirst(users, r.value, q)
  {
    if users == [] then None
    else if Satisfies(users[0], q) then Some(0)
    else match FirstWhere(users[1..], q)
      case None => None
      case Some(i) => Some(i + 1)
  }

  // ----- POST /login -----

  /** The reply of `/login`: a refusal, or the user object of a successful login. */
  datatype LoginReply =
    | Refused(status: nat, message: string)
    | LoggedIn(id: string, email: JsValue, role: JsValue)

  /** `userData.role || "user"`. */
  function RoleOrDefault(role: JsValue): (r: JsValue)
    ensures Truthy(r)
    ensures Truthy(role) ==> r == role
    ensures !Truthy(role) ==> r == Str("user")
  {
    if Truthy(role) then role else Str("user")
  }

  /** `POST /login` with body fields `email` and `password`, against the users snapshot. */
  function Login(users: seq<User>, email: JsValue, password: JsValue): (r: LoginReply)
    // a missing field is refused before the table is consulted
    ensures !Truthy(email) || !Truthy(password) ==> r == Refused(400, "Email and password required")
    // otherwise the login succeeds exactly when some user has both that email and that password
    ensures Truthy(email) && Truthy(password) ==>
              (r.LoggedIn? <==> exists i :: 0 <= i < |users| && Satisfies(users[i], ByCredentials(email, password)))
    ensures Truthy(email) && Truthy(password) && !r.LoggedIn? ==> r == Refused(401, "Invalid email or password")
    // and it answers with the first such user, its role defaulting to "user"
    ensures r.LoggedIn? ==>
              exists i :: IsFirst(users, i, ByCredentials(email, password)) &&
                r == LoggedIn(users[i].id, email, RoleOrDefault(users[i].role))
  {
    if !Truthy(email) || !Truthy(password) then
      Refused(400, "Email and password required")
    else match FirstWhere(users, ByCredentials(email, password))
      case None => Refused(401, "Invalid email or password")
      case Some(i) => LoggedIn(users[i].id, users[i].email, RoleOrDefault(users[i].role))
  }

  /** A request with a missing field gets the same answer whatever the users table holds. */
  lemma LoginValidationIgnoresUsers(users: seq<User>, others: seq<User>, email: JsValue, password: JsValue)
    requires !Truthy(email) || !Truthy(password)
    ensures Login(users, email, password) == Login(others, email, password)
  {
  }

  // ----- POST /admin/forgot-password -----

  datatype ForgotOutcome = ForgotOutcome(reply: Reply, slot: Option<nat>)

  /**
   * `POST /admin/forgot-password`, where `rnd` is the value `Math.random()`
   * gave and `mailSent` whether `sendMail` resolved: the mail is sent first
   * and the slot is written only afterwards.
   */
  function ForgotStep(slot: Option<nat>, rnd: real, mailSent: bool): (r: ForgotOutcome)
    requires 0.0 <= rnd < 1.0
    ensures r.reply.status == 200 <==> mailSent
    ensures r.reply.status in {200, 500}
    ensures mailSent ==> r.slot == Some(GenerateCode(rnd))
    ensures !mailSent ==> r.slot == slot
    ensures r.slot.Some? && r.slot != slot ==> CodeMin <= r.slot.value <= CodeMax
  {
    if mailSent then ForgotOutcome(Reply(200, "Verification code sent!"), Some(GenerateCode(rnd)))
    else ForgotOutcome(Reply(500, "Failed to send code"), slot)
  }

  // ----- POST /admin/verify-code -----

  /** `POST /admin/verify-code` with body field `code`, against the reset slot; nothing is written. */
  function VerifyResetCode(slot: Option<nat>, code: JsValue): (r: Reply)
    ensures !Truthy(code) ==> r == Reply(400, "Code required")
    ensures Truthy(code) && slot.None? ==> r == Reply(400, "No code found")
    ensures Truthy(code) && slot.Some? ==>
              (r.status == 200 <==> ToString(code) == Decimal(slot.value))
    ensures Truthy(code) && slot.Some? && r.status != 200 ==> r == Reply(401, "Incorrect code")
    ensures r.status in {200, 400, 401}
  {
    if !Truthy(code) then Reply(400, "Code required")
    else match slot
      case None => Reply(400, "No code found")
      case Some(stored) =>
        if NumberToString(stored) == ToString(code) then Reply(200, "Code verified")
        else Reply(401, "Incorrect code")
  }

  /**
   * The comparison is of string forms: the stored number is accepted both as
   * that number and as the string of its digits, and nothing else is.
   */
  lemma VerifyResetCodeAccepts(stored: nat, code: JsValue)
    ensures VerifyResetCode(Some(stored), code).status == 200 <==>
              Truthy(code) && ((code.Num? && code.n == stored) || code == Str(Decimal(stored)))
    ensures Truthy(code) && VerifyResetCode(Some(stored), code).status != 200 ==>
              VerifyResetCode(Some(stored), code) == Reply(401, "Incorrect code")
  {
    if Truthy(code) {
      ToStringMatchesDecimal(code, stored);
    }
  }

  /**
   * After a successful forgot-password the new code verifies, as a number or
   * as a string, and keeps verifying: verification does not consume it.
   * A later forgot-password whose mail fails leaves it in place.
   */
  lemma ForgotThenVerify(slot: Option<nat>, rnd: real, rnd2: real)
    requires 0.0 <= rnd < 1.0 && 0.0 <= rnd2 < 1.0
    ensures var s := ForgotStep(slot, rnd, true).slot;
            && VerifyResetCode(s, Num(GenerateCode(rnd))).status == 200
            && VerifyResetCode(s, Str(Decimal(GenerateCode(rnd)))).status == 200
            && VerifyResetCode(ForgotStep(s, rnd2, false).slot, Num(GenerateCode(rnd))).status == 200
  {
  }

  // ----- POST /admin/change-password -----

  datatype ChangeOutcome = ChangeOutcome(reply: Reply, users: seq<User>)

  /** `POST /admin/change-password` with body fields `email` and `password`. */
  function ChangePasswordStep(users: seq<User>, email: JsValue, password: JsValue): (r: ChangeOutcome)
    ensures !Truthy(email) || !Truthy(password) ==>
              r == ChangeOutcome(Reply(400, "Email and password required"), users)
    ensures Truthy(email) && Truthy(password) && (forall i :: 0 <= i < |users| ==> users[i].email != email) ==>
              r == ChangeOutcome(Reply(404, "Admin not found"), users)
    // with both fields present it succeeds exactly when some user has that email
    ensures Truthy(email) && Truthy(password) ==>
              (r.reply.status == 200 <==> exists i :: 0 <= i < |users| && users[i].email == email)
    // on success only the first user with that email changes, and only its password
    ensures r.reply.status == 200 ==>
              exists i :: IsFirst(users, i, ByEmail(email)) &&
                |r.users| == |users| &&
                r.users[i] == users[i].(passwordHash := password) &&
                (forall j :: 0 <= j < |users| && j != i ==> r.users[j] == users[j])
    ensures r.reply.status in {200, 400, 404}
    ensures r.reply.status != 200 ==> r.users == users
  {
    if !Truthy(email) || !Truthy(password) then
      ChangeOutcome(Reply(400, "Email and password required"), users)
    else match FirstWhere(users, ByEmail(email))
      case None => ChangeOutcome(Reply(404, "Admin not found"), users)
      case Some(i) =>
        ChangeOutcome(Reply(200, "Password updated successfully"),
                      users[i := users[i].(passwordHash := password)])
  }

  /**
   * After a password change, logging in with the email and the new password
   * succeeds, as the user whose password was changed.
   */
  lemma ChangeThenLogin(users: seq<User>, email: JsValue, password: JsValue, i: nat)
    requires Truthy(email) && Truthy(password)
    requires IsFirst(users, i, ByEmail(email))
    ensures ChangePasswordStep(users, email, password).reply.status == 200
    ensures Login(ChangePasswordStep(users, email, password).users, email, password)
              == LoggedIn(users[i].id, email, RoleOrDefault(users[i].role))
  {
  }

  /** The Firestore state the admin routes read and write. */
  class AdminStore {
    var users: seq<User>
    var resetSlot: Option<nat>

    /** The reset slot only ever holds a six-digit code. */
    ghost predicate Valid()
      reads this
    {
      resetSlot.Some? ==> CodeMin <= resetSlot.value <= CodeMax
    }

    /** A store over the given users with no reset code requested yet. */
    constructor (users: seq<User>)
      ensures Valid() && this.users == users && resetSlot == None
    {
      this.users := users;
      resetSlot := None;
    }

    /** `POST /admin/forgot-password`: mail the code, then `set` the slot. */
    method ForgotPassword(rnd: real, mailSent: bool) returns (reply: Reply)
      requires Valid()
      requires 0.0 <= rnd < 1.0
      modifies this`resetSlot
      ensures Valid()
      ensures reply == ForgotStep(old(resetSlot), rnd, mailSent).reply
      ensures resetSlot == ForgotStep(old(resetSlot), rnd, mailSent).slot
      ensures !mailSent ==> resetSlot == old(resetSlot)
    {
      var verificationCode := GenerateCode(rnd);
      if !mailSent {
        return Reply(500, "Failed to send code");
      }
      resetSlot := Some(verificationCode);
      reply := Reply(200, "Verification code sent!");
    }

    /** `POST /admin/change-password`: update the first user with that email. */
    method ChangePassword(email: JsValue, password: JsValue) returns (reply: Reply)
      requires Valid()
      modifies this`users
      ensures Valid()
      ensures reply == ChangePasswordStep(old(users), email, password).reply
      ensures users == ChangePasswordStep(old(users), email, password).users
      ensures reply.status == 200 ==> Login(users, email, password).LoggedIn?
    {
      if !Truthy(email) || !Truthy(password) {
        return Reply(400, "Email and password required");
      }
      var found := FirstWhere(users, ByEmail(email));
      if found.None? {
        return Reply(404, "Admin not found");
      }
      var i := found.value;
      ChangeThenLogin(users, email, password, i);
      users := users[i := users[i].(passwordHash := password)];
      reply := Reply(200, "Password updated successfully");
    }
  }
}
