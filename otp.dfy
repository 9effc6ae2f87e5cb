/** The password-reset OTP kept on a user (src/controllers/auth.ts:116-215): issuing a code with a ten-minute
    expiry, confirming it (the stored code becomes the sentinel 1 and the expiry is cleared), and resetting the
    password, which needs the sentinel and clears the code. */
module Otp {
  import opened Common
  import opened Records

  /** The stored code that marks a confirmed OTP. */
  const Confirmed := 1
  /** How long an issued code stays valid, in milliseconds. */
  const Lifetime := 600000

  /** `Math.floor(1000 + Math.random() * 9000)`, for the value `r` of `Math.random()`. */
  function IssuedCode(r: real): (code: int)
    requires 0.0 <= r < 1.0
    ensures 1000 <= code <= 9999
    ensures code != Confirmed
  {
    (1000.0 + r * 9000.0).Floor
  }

  /** The user with a freshly issued code. */
  function Issue(u: User, code: int, now: int): (v: User)
    ensures v.resetPasswordOtp == Some(code) && v.resetPasswordOtpExpires == Some(now + Lifetime)
    ensures v.(resetPasswordOtp := u.resetPasswordOtp, resetPasswordOtpExpires := u.resetPasswordOtpExpires) == u
  {
    u.(resetPasswordOtp := Some(code), resetPasswordOtpExpires := Some(now + Lifetime))
  }

  /** The verification test: the stored code equals the submitted number (`None` when `+otp` is NaN), and the
      expiry, when there is one, has not passed. An absent stored code never equals a number. */
  predicate VerifyAccepts(u: User, otp: Option<int>, now: int) {
    u.resetPasswordOtp.Some? && otp == u.resetPasswordOtp
    && !(u.resetPasswordOtpExpires.Some? && now > u.resetPasswordOtpExpires.value)
  }

  /** The user after a successful verification. */
  function Confirm(u: User): (v: User)
    ensures v.resetPasswordOtp == Some(Confirmed) && v.resetPasswordOtpExpires == None
    ensures v.(resetPasswordOtp := u.resetPasswordOtp, resetPasswordOtpExpires := u.resetPasswordOtpExpires) == u
  {
    u.(resetPasswordOtp := Some(Confirmed), resetPasswordOtpExpires := None)
  }

  /** The reset test: the stored code is exactly the sentinel. */
  predicate ResetAccepts(u: User) {
    u.resetPasswordOtp == Some(Confirmed)
  }

  /** The user after a successful reset: new hash, no code; the expiry is left as it was. */
  function Reset(u: User, hash: string): (v: User)
    ensures v.passwordHash == hash && v.resetPasswordOtp == None && !ResetAccepts(v)
    ensures v.(passwordHash := u.passwordHash, resetPasswordOtp := u.resetPasswordOtp) == u
  {
    u.(passwordHash := hash, resetPasswordOtp := None)
  }

  /** A freshly issued code is accepted exactly while it has not expired, and only for itself. */
  lemma IssuedCodeAccepted(u: User, code: int, now: int, otp: Option<int>, later: int)
    ensures VerifyAccepts(Issue(u, code, now), otp, later) <==> otp == Some(code) && later <= now + Lifetime
  {
  }

  /** Issuing alone never opens the reset: the issued code is never the sentinel. */
  lemma IssueDoesNotAllowReset(u: User, r: real, now: int)
    requires 0.0 <= r < 1.0
    ensures !ResetAccepts(Issue(u, IssuedCode(r), now))
  {
  }

  /** The whole flow: issue, verify before expiry, reset; a second reset is then refused, and so is a second
      verification with the old code. */
  lemma ResetFlow(u: User, r: real, now: int, later: int, hash: string)
    requires 0.0 <= r < 1.0 && now <= later <= now + Lifetime
    ensures var code := IssuedCode(r);
            var issued := Issue(u, code, now);
            VerifyAccepts(issued, Some(code), later)
            && ResetAccepts(Confirm(issued))
            && !ResetAccepts(Reset(Confirm(issued), hash))
            && !VerifyAccepts(Reset(Confirm(issued), hash), Some(code), later)
  {
  }

  /** Verification is one-shot for the issued code: once confirmed, the code no longer verifies (only the
      sentinel itself does). */
  lemma ConfirmIsOneShot(u: User, otp: Option<int>, now: int)
    ensures VerifyAccepts(Confirm(u), otp, now) <==> otp == Some(Confirmed)
  {
  }

  /** `Math.floor(1000 * Math.random() * 9000)`, the code the plain-JavaScript copy issues. */
  function IssuedCodeJs(r: real): (code: int)
    requires 0.0 <= r < 1.0
    ensures 0 <= code <= 8999999
  {
    (1000.0 * r * 9000.0).Floor
  }

  /** For `Math.random()` returning 1.5e-7 the plain-JavaScript copy issues the sentinel itself, so a reset
      goes through without the code ever being verified. */
  lemma JsIssueCanAllowReset(u: User, now: int)
    ensures IssuedCodeJs(15.0 / 100000000.0) == Confirmed
    ensures ResetAccepts(Issue(u, IssuedCodeJs(15.0 / 100000000.0), now))
  {
  }
}
