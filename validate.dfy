/**
 * Request-body validation of the account routes (server/middleware/validate.js).
 * A schema turns a body into the list of its issues, in schema order and,
 * within a field, in the order of the field's checks (the library keeps
 * checking a string after a failed check); `validate` answers 400 with the
 * first issue's message, or passes the request on.
 *
 * Whether a string is an email address is decided by the library; here it
 * is a parameter of the body.
 */
module Validate {

  /** A body with string fields; `emailOk` is the library's verdict on `email`. */
  datatype SignupBody = SignupBody(username: string, emailOk: bool, password: string)
  datatype LoginBody = LoginBody(emailOk: bool, password: string)

  /** What `validate(schema)` does with a request. */
  datatype Decision = Reject(status: nat, error: string) | Next

  /** `[a-zA-Z0-9_]` */
  predicate WordChar(c: char)
  {
    ('a' <= c <= 'z') || ('A' <= c <= 'Z') || ('0' <= c <= '9') || c == '_'
  }

  /** `/^[a-zA-Z0-9_]+$/` */
  predicate WordOnly(s: string)
  {
    |s| > 0 && forall i :: 0 <= i < |s| ==> WordChar(s[i])
  }

  const UsernameShort := "Username must be 3+ characters"
  const UsernameLong := "Username max 15 characters"
  const UsernameSpecial := "No special characters"
  const EmailInvalid := "Invalid email address"
  const PasswordShort := "Password must be 6+ characters"
  const PasswordMissing := "Password is required"

  /** `signupSchema`'s issues: username min 3, max 15, word characters; email; password min 6. */
  function SignupIssues(b: SignupBody): seq<string>
  {
    (if |b.username| < 3 then [UsernameShort] else [])
    + (if |b.username| > 15 then [UsernameLong] else [])
    + (if !WordOnly(b.username) then [UsernameSpecial] else [])
    + (if !b.emailOk then [EmailInvalid] else [])
    + (if |b.password| < 6 then [PasswordShort] else [])
  }

  /** `loginSchema`'s issues: email; password min 1. */
  function LoginIssues(b: LoginBody): seq<string>
  {
    (if !b.emailOk then [EmailInvalid] else [])
    + (if |b.password| < 1 then [PasswordMissing] else [])
  }

  /** `validate(schema)`: 400 with the first issue's message, else `next()`. */
  function Decide(issues: seq<string>): (d: Decision)
    ensures d.Next? <==> |issues| == 0
    ensures d.Reject? ==> d.status == 400 && d.error == issues[0]
  {
    if |issues| == 0 then Next else Reject(400, issues[0])
  }

  /** The signup rules stated outright. */
  predicate SignupValid(b: SignupBody)
  {
    3 <= |b.username| <= 15 && WordOnly(b.username) && b.emailOk && |b.password| >= 6
  }

  /** A signup passes exactly when every rule holds; otherwise it is answered 400. */
  lemma SignupDecision(b: SignupBody)
    ensures Decide(SignupIssues(b)) == Next <==> SignupValid(b)
    ensures !SignupValid(b) ==> Decide(SignupIssues(b)).Reject? && Decide(SignupIssues(b)).status == 400
  {
  }

  /** The message is the first broken rule's, username before email before password. */
  lemma SignupFirstMessage(b: SignupBody)
    ensures |b.username| < 3 ==> Decide(SignupIssues(b)) == Reject(400, UsernameShort)
    ensures |b.username| > 15 ==> Decide(SignupIssues(b)) == Reject(400, UsernameLong)
    ensures 3 <= |b.username| <= 15 && !WordOnly(b.username) ==> Decide(SignupIssues(b)) == Reject(400, UsernameSpecial)
    ensures 3 <= |b.username| <= 15 && WordOnly(b.username) && !b.emailOk ==>
      Decide(SignupIssues(b)) == Reject(400, EmailInvalid)
    ensures 3 <= |b.username| <= 15 && WordOnly(b.username) && b.emailOk && |b.password| < 6 ==>
      Decide(SignupIssues(b)) == Reject(400, PasswordShort)
  {
  }

  /** A login passes exactly with a valid email and a non-empty password; email is reported first. */
  lemma LoginDecision(b: LoginBody)
    ensures Decide(LoginIssues(b)) == Next <==> b.emailOk && |b.password| >= 1
    ensures !b.emailOk ==> Decide(LoginIssues(b)) == Reject(400, EmailInvalid)
    ensures b.emailOk && |b.password| == 0 ==> Decide(LoginIssues(b)) == Reject(400, PasswordMissing)
  {
  }
}
