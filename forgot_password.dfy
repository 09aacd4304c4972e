/**
 * The demo "forgot password" flow: request a code for an email address,
 * verify the code together with a new password, reach the success screen.
 * The clock (`Date.now`) and the random draw behind the code are parameters;
 * the two `setTimeout` callbacks are explicit "timer fires" methods.
 */
module ForgotPasswordPage {
  import opened Wrappers
  import Text

  datatype Step = Request | Verify | Success

  /** Position of a step along request -> verify -> success. */
  function Rank(s: Step): nat
  {
    match s
    case Request => 0
    case Verify => 1
    case Success => 2
  }

  /** A code lives for two minutes after it is sent. */
  const CodeLifetimeMs: int := 2 * 60 * 1000

  /** The pending `setTimeout` callback, if any. */
  datatype Timer = NoTimer | SendPending | ResetPending

  datatype Notice = EnterEmail | CodeSent(code: string) | PasswordReset

  /** The outcome of submitting the verify form, in the order the guards are tried. */
  datatype VerifyOutcome = NoCode | CodeExpired | InvalidCode | WeakPassword | PasswordsDoNotMatch | Accepted

  /** JavaScript truthiness of the stored code and expiry (`!sentCode || !expiresAt`). */
  predicate HasCode(sentCode: Option<string>, expiresAt: Option<int>)
  {
    sentCode.Some? && sentCode.value != "" && expiresAt.Some? && expiresAt.value != 0
  }

  /**
   * `timeRemaining`: 0 without an expiry, otherwise the whole seconds left,
   * rounded up: ceil(max(0, expiresAt - now) / 1000).
   */
  function TimeRemaining(expiresAt: Option<int>, now: int): (r: nat)
    ensures expiresAt.None? || expiresAt == Some(0) ==> r == 0
    ensures expiresAt.Some? && expiresAt.value != 0 ==>
      (r == 0 <==> expiresAt.value <= now) &&
      (r > 0 ==> (r - 1) * 1000 < expiresAt.value - now <= r * 1000)
  {
    if expiresAt.None? || expiresAt.value == 0 then 0
    else
      var ms := if expiresAt.value - now > 0 then expiresAt.value - now else 0;
      (ms + 999) / 1000
  }

  /** Computed at the moment the code is sent, the time remaining is the full 120 seconds. */
  lemma TimeRemainingAtSend(now: nat)
    ensures TimeRemaining(Some(now + CodeLifetimeMs), now) == 120
  {
  }

  /** Computed at any later moment, it never exceeds 120 seconds. */
  lemma TimeRemainingAtMost120(sentAt: nat, now: int)
    requires now >= sentAt
    ensures TimeRemaining(Some(sentAt + CodeLifetimeMs), now) <= 120
  {
  }

  /**
   * `handleVerify`'s guard chain: no code, expired, wrong code, short
   * password, mismatch. The first failing check decides the outcome; only
   * when all pass is the reset accepted.
   */
  function CheckReset(sentCode: Option<string>, expiresAt: Option<int>, timeRemaining: int,
                      code: string, password: string, confirm: string): (r: VerifyOutcome)
    ensures r == Accepted <==>
      HasCode(sentCode, expiresAt) && timeRemaining > 0 && code == sentCode.value &&
      |password| >= 8 && password == confirm
    ensures !HasCode(sentCode, expiresAt) ==> r == NoCode
    ensures HasCode(sentCode, expiresAt) && timeRemaining <= 0 ==> r == CodeExpired
    ensures HasCode(sentCode, expiresAt) && timeRemaining > 0 && code != sentCode.value ==> r == InvalidCode
    ensures HasCode(sentCode, expiresAt) && timeRemaining > 0 && code == sentCode.value && |password| < 8 ==>
      r == WeakPassword
    ensures (HasCode(sentCode, expiresAt) && timeRemaining > 0 && code == sentCode.value &&
             |password| >= 8 && password != confirm) ==> r == PasswordsDoNotMatch
    ensures r == PasswordsDoNotMatch ==> |password| >= 8 && password != confirm
  {
    if !HasCode(sentCode, expiresAt) then NoCode
    else if timeRemaining <= 0 then CodeExpired
    else if code != sentCode.value then InvalidCode
    else if |password| < 8 then WeakPassword
    else if password != confirm then PasswordsDoNotMatch
    else Accepted
  }

  /** A code that is not the latest one sent never passes, whatever the passwords. */
  lemma OnlyLatestCodeAccepted(latest: string, expiresAt: Option<int>, timeRemaining: int,
                               code: string, password: string, confirm: string)
    requires code != latest
    ensures CheckReset(Some(latest), expiresAt, timeRemaining, code, password, confirm) != Accepted
  {
  }

  /** A reset code: six decimal digits, the first not zero. */
  predicate IsResetCode(code: string)
  {
    |code| == 6 && (forall i :: 0 <= i < 6 ==> Text.IsDigit(code[i])) && code[0] != '0'
  }

  /** `Math.floor(100000 + Math.random() * 900000).toString()`, given the drawn number. */
  function CodeFor(draw: int): (code: string)
    requires 100000 <= draw <= 999999
    ensures IsResetCode(code)
    ensures Text.ParseNat(code) == draw
  {
    assert Text.Pow10(5) == 100000 && Text.Pow10(6) == 1000000;
    Text.NatToStringLength(draw, 6);
    Text.ParseNatToString(draw);
    LeadingDigitNonZero(draw);
    Text.NatToString(draw)
  }

  /** The decimal rendering of a positive number does not start with '0'. */
  lemma {:induction false} LeadingDigitNonZero(n: nat)
    requires n > 0
    ensures Text.NatToString(n)[0] != '0'
  {
    if n >= 10 {
      LeadingDigitNonZero(n / 10);
    }
  }

  class ResetFlow {
    var step: Step
    var email: string
    var sentCode: Option<string>
    var expiresAt: Option<int>
    var code: string
    var password: string
    var confirm: string
    var isLoading: bool
    var resends: nat
    /**
     * `timeRemaining` is memoised on `expiresAt` alone, so it holds the value
     * computed when the expiry last changed, not a live countdown.
     */
    var timeRemaining: nat
    var timer: Timer

    ghost predicate Valid()
      reads this
    {
      && (sentCode.Some? <==> expiresAt.Some?)
      && (sentCode.None? ==> timeRemaining == 0 && resends == 0 && step == Request)
      && (sentCode.Some? ==>
            IsResetCode(sentCode.value) && expiresAt.value >= CodeLifetimeMs &&
            timeRemaining == 120 && resends >= 1 && step != Request)
      && (isLoading <==> timer != NoTimer)
      && (timer == SendPending ==> step == Request)
      && (timer == ResetPending ==> step == Verify)
    }

    constructor ()
      ensures Valid()
      ensures step == Request && email == "" && sentCode == None && expiresAt == None
      ensures code == "" && password == "" && confirm == ""
      ensures !isLoading && resends == 0 && timeRemaining == 0 && timer == NoTimer
    {
      step := Request;
      email, code, password, confirm := "", "", "", "";
      sentCode, expiresAt := None, None;
      isLoading, resends, timeRemaining, timer := false, 0, 0, NoTimer;
    }

    /** Typing into the form fields. */
    method EditForm(email': string, code': string, password': string, confirm': string)
      requires Valid()
      modifies this`email, this`code, this`password, this`confirm
      ensures Valid()
      ensures email == email' && code == code' && password == password' && confirm == confirm'
    {
      email, code, password, confirm := email', code', password', confirm';
    }

    /**
     * `sendCode`: stores a fresh 6-digit code, sets the expiry to now + 120 s
     * (so the memoised time remaining becomes 120), counts one more send and
     * moves to the verify step.
     */
    method SendCode(now: nat, draw: int) returns (notice: Notice)
      requires Valid() && timer != SendPending && step != Success
      requires 100000 <= draw <= 999999
      modifies this`sentCode, this`expiresAt, this`resends, this`timeRemaining, this`step
      ensures Valid()
      ensures sentCode == Some(CodeFor(draw)) && expiresAt == Some(now + CodeLifetimeMs)
      ensures timeRemaining == TimeRemaining(expiresAt, now) == 120
      ensures resends == old(resends) + 1 && step == Verify
      ensures notice == CodeSent(CodeFor(draw))
    {
      sentCode := Some(CodeFor(draw));
      expiresAt := Some(now + CodeLifetimeMs);
      timeRemaining := TimeRemaining(expiresAt, now);
      resends := resends + 1;
      step := Verify;
      notice := CodeSent(CodeFor(draw));
    }

    /**
     * `handleRequest`: with an empty email nothing happens but a prompt; else
     * the form goes into its loading state and the 800 ms timer is armed.
     * The form exists only on the request step and its button is disabled
     * while loading.
     */
    method HandleRequest() returns (notice: Option<Notice>)
      requires Valid() && step == Request && !isLoading
      modifies this`isLoading, this`timer
      ensures Valid()
      ensures step == old(step) && sentCode == old(sentCode) && resends == old(resends)
      ensures old(email) == "" ==> notice == Some(EnterEmail) && !isLoading && timer == NoTimer
      ensures old(email) != "" ==> notice == None && isLoading && timer == SendPending
    {
      if email == "" {
        return Some(EnterEmail);
      }
      isLoading := true;
      timer := SendPending;
      notice := None;
    }

    /** The request timer fires: loading ends and the code is sent. */
    method SendTimerFires(now: nat, draw: int) returns (notice: Notice)
      requires Valid() && timer == SendPending
      requires 100000 <= draw <= 999999
      modifies this
      ensures Valid()
      ensures Rank(step) >= Rank(old(step))
      ensures !isLoading && timer == NoTimer && step == Verify
      ensures sentCode == Some(CodeFor(draw)) && resends == old(resends) + 1
      ensures expiresAt == Some(now + CodeLifetimeMs) && timeRemaining == 120
      ensures notice == CodeSent(CodeFor(draw))
      ensures email == old(email) && code == old(code) && password == old(password) && confirm == old(confirm)
    {
      isLoading := false;
      timer := NoTimer;
      notice := SendCode(now, draw);
    }

    /**
     * `handleVerify`: runs the guard chain on the current state. Only an
     * accepted submission changes anything: it starts loading and arms the
     * one-second timer that completes the reset. Because the time remaining
     * is the value captured at the last send, "Code expired" is never reported.
     */
    method HandleVerify() returns (outcome: VerifyOutcome)
      requires Valid() && step == Verify && !isLoading
      modifies this`isLoading, this`timer
      ensures Valid()
      ensures outcome == CheckReset(sentCode, expiresAt, timeRemaining, code, password, confirm)
      ensures outcome != CodeExpired && outcome != NoCode
      ensures outcome == Accepted ==> isLoading && timer == ResetPending
      ensures outcome != Accepted ==> !isLoading && timer == NoTimer
      ensures step == old(step) && sentCode == old(sentCode) && resends == old(resends)
    {
      outcome := CheckReset(sentCode, expiresAt, timeRemaining, code, password, confirm);
      if outcome == Accepted {
        isLoading := true;
        timer := ResetPending;
      }
    }

    /** The reset timer fires: loading ends and the flow reaches the success step. */
    method ResetTimerFires() returns (notice: Notice)
      requires Valid() && timer == ResetPending
      modifies this`isLoading, this`timer, this`step
      ensures Valid()
      ensures Rank(step) >= Rank(old(step))
      ensures !isLoading && timer == NoTimer && step == Success
      ensures notice == PasswordReset
    {
      isLoading := false;
      timer := NoTimer;
      step := Success;
      notice := PasswordReset;
    }

    /**
     * `handleResend` (the link is shown on the verify step only): a new code
     * replaces the old one, so only the latest code can pass the check.
     */
    method HandleResend(now: nat, draw: int) returns (notice: Notice)
      requires Valid() && step == Verify
      requires 100000 <= draw <= 999999
      modifies this`sentCode, this`expiresAt, this`resends, this`timeRemaining, this`step
      ensures Valid()
      ensures Rank(step) >= Rank(old(step))
      ensures sentCode == Some(CodeFor(draw)) && resends == old(resends) + 1 && step == Verify
      ensures expiresAt == Some(now + CodeLifetimeMs) && timeRemaining == 120
      ensures notice == CodeSent(CodeFor(draw))
      ensures forall c :: c != CodeFor(draw) ==>
        CheckReset(sentCode, expiresAt, timeRemaining, c, password, confirm) != Accepted
    {
      notice := SendCode(now, draw);
    }
  }
}
