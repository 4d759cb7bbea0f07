/** One account and the transactions that change it: the credential check in its two
    phases, lockout, second factor, enrollment, password changes and reset links. */
module Accounts {
  import opened Options
  import opened SignIn
  import opened RecoveryCodes

  type PasswordHash = nat

  const LOCK_AFTER: nat := 10
  const LOCK_SECONDS: int := 15 * 60
  const DEVICE_WINDOW_SECONDS: int := 60 * 60
  const DEVICE_FAILURES_MAX: nat := 20
  const LOCKOUT_MAIL_SECONDS: int := 24 * 60 * 60
  const PASSWORD_MAX: nat := 1024
  const CODE_MAX: nat := 32
  const STEP_SECONDS: int := 30
  const DIGITS: nat := 6
  const CODE_COUNT: nat := 10

  datatype Role = Admin | Maintainer {
    predicate RequiresTwoFactor() {
      Admin?
    }
  }

  /** The `users` row. */
  datatype User = User(
    role: Role,
    disabled: bool,
    passwordHash: Option<PasswordHash>,
    totpNonce: Option<Nonce>,
    totpLastStep: Option<int>,
    failedLogins: nat,
    lockedUntil: Option<int>,
    deviceFailures: nat,
    deviceWindowStart: Option<int>,
    lockoutMailedAt: Option<int>)

  /** Everything stored for one account; `codes` are its unused recovery codes' hashes. */
  datatype Account = Account(row: User, codes: set<Digest>, signIn: Rows)

  /** argon2 verification, the TOTP code of a step under an enrollment's seed, SHA-256. */
  datatype Crypto = Crypto(verify: (string, PasswordHash) -> bool, totp: (Nonce, int) -> string, sha: string -> Digest)

  /** What one transaction did, as far as the promises are about it, in this order. */
  datatype Report = Report(
    countedAt: Option<int>,
    lockedAt: Option<int>,
    mailedAt: Option<int>,
    deviceCountedAt: Option<int>,
    windowAt: Option<int>,
    spent: Factor,
    cleared: Option<nat>,
    unlocked: bool,
    sessionNew: Option<Digest>,
    deviceNew: Option<Digest>,
    enrolled: Option<int>,
    unenrolled: bool,
    drawn: Option<set<Digest>>,
    linkUsed: Option<Digest>,
    linksEnded: bool,
    linkIssued: Option<Digest>,
    passwordSet: bool)

  const QUIET := Report(
    None, None, None, None, None, NotEnrolled, None, false, None, None, None, false, None, None, false, None, false)

  datatype Change = Change(account: Account, report: Report)

  // ----- lockout -----

  /** No password can succeed now. A browser the account knows is held off by the failures
      of its window, any other by the lock. */
  predicate Blocked(u: User, known: bool, now: int) {
    if known then
      && u.deviceWindowStart.Some? && u.deviceWindowStart.value + DEVICE_WINDOW_SECONDS > now
      && u.deviceFailures >= DEVICE_FAILURES_MAX
    else
      u.lockedUntil.Some? && u.lockedUntil.value > now
  }

  function UsableHash(u: User, known: bool, now: int): Option<PasswordHash> {
    if u.passwordHash.Some? && !u.disabled && !Blocked(u, known, now) then u.passwordHash else None
  }

  predicate WindowOver(u: User, now: int) {
    u.deviceWindowStart.None? || u.deviceWindowStart.value + DEVICE_WINDOW_SECONDS <= now
  }

  /** A failure from a known device: counted in its window, up to the cap. */
  function DeviceFailure(u: User, now: int): User {
    if WindowOver(u, now) then u.(deviceFailures := 1, deviceWindowStart := Some(now))
    else if u.deviceFailures < DEVICE_FAILURES_MAX then u.(deviceFailures := u.deviceFailures + 1)
    else u
  }

  predicate MailDue(u: User, now: int) {
    u.lockoutMailedAt.None? || u.lockoutMailedAt.value <= now - LOCKOUT_MAIL_SECONDS
  }

  predicate Locks(u: User) {
    u.failedLogins + 1 >= LOCK_AFTER
  }

  /** A failure without a known device, of an account not locked: the tenth locks. */
  function LockFailure(u: User, now: int): User {
    if !Locks(u) then u.(failedLogins := u.failedLogins + 1)
    else u.(failedLogins := 0, lockedUntil := Some(now + LOCK_SECONDS),
            lockoutMailedAt := if MailDue(u, now) then Some(now) else u.lockoutMailedAt)
  }

  /** A lockout mail goes out when the lock started and its mail time reads `now`. */
  predicate Mails(u: User, now: int) {
    Locks(u) && LockFailure(u, now).lockoutMailedAt == Some(now)
  }

  function Counting(a: Account, known: bool, now: int): Change {
    if known then
      Change(a.(row := DeviceFailure(a.row, now)),
             QUIET.(deviceCountedAt := if WindowOver(a.row, now) || a.row.deviceFailures < DEVICE_FAILURES_MAX then Some(now) else None,
                    windowAt := if WindowOver(a.row, now) then Some(now) else None))
    else if Blocked(a.row, false, now) then Change(a, QUIET)
    else Change(a.(row := LockFailure(a.row, now)),
                QUIET.(countedAt := Some(now),
                       lockedAt := if Locks(a.row) then Some(now) else None,
                       mailedAt := if Mails(a.row, now) then Some(now) else None))
  }

  // ----- second factor -----

  predicate IsTotpCode(text: string) {
    |text| == DIGITS && forall i :: 0 <= i < |text| ==> '0' <= text[i] <= '9'
  }

  predicate IsSpace(c: char) {
    c == ' ' || c == '\t' || c == '\n' || c == '\r' || c == '\U{C}'
  }

  function TrimStart(text: string): string {
    if text != [] && IsSpace(text[0]) then TrimStart(text[1..]) else text
  }

  function TrimEnd(text: string): string {
    if text != [] && IsSpace(text[|text| - 1]) then TrimEnd(text[..|text| - 1]) else text
  }

  function Trim(text: string): string {
    TrimEnd(TrimStart(text))
  }

  function StepAt(now: int): int {
    now / STEP_SECONDS
  }

  /** The step at `now` is the half minute it falls in, before 1970 as well. */
  lemma StepCovers(now: int, step: int)
    ensures StepAt(now) == step <==> 30 * step <= now < 30 * step + 30
  {
  }

  /** Tab, line feed, form feed, carriage return and space. */
  predicate IsBlank(c: char) {
    c as int in {9, 10, 12, 13, 32}
  }

  lemma SpaceIsBlank(c: char)
    ensures IsSpace(c) <==> IsBlank(c)
  {
  }

  ghost predicate AllSpace(text: string) {
    forall i :: 0 <= i < |text| ==> IsSpace(text[i])
  }

  /** Trimming takes the blanks off both ends and nothing else. */
  lemma TrimExactly(text: string) returns (before: string, after: string)
    ensures text == before + Trim(text) + after
    ensures forall i :: 0 <= i < |before| ==> IsBlank(before[i])
    ensures forall i :: 0 <= i < |after| ==> IsBlank(after[i])
    ensures var t := Trim(text); t != [] ==> !IsBlank(t[0]) && !IsBlank(t[|t| - 1])
  {
    before := StartSpace(text);
    after := EndSpace(TrimStart(text));
    forall c: char ensures IsSpace(c) <==> IsBlank(c) {
      SpaceIsBlank(c);
    }
    var t := Trim(text);
    assert before + t + after == before + (t + after);
    if t != [] {
      assert TrimStart(text)[0] == (t + after)[0];
    }
  }

  lemma {:induction false} StartSpace(text: string) returns (space: string)
    ensures text == space + TrimStart(text) && AllSpace(space)
    ensures TrimStart(text) != [] ==> !IsSpace(TrimStart(text)[0])
  {
    if text != [] && IsSpace(text[0]) {
      var rest := StartSpace(text[1..]);
      space := [text[0]] + rest;
      assert text == [text[0]] + text[1..];
    } else {
      space := [];
    }
  }

  lemma {:induction false} EndSpace(text: string) returns (space: string)
    ensures text == TrimEnd(text) + space && AllSpace(space)
    ensures TrimEnd(text) != [] ==> !IsSpace(TrimEnd(text)[|TrimEnd(text)| - 1])
  {
    if text != [] && IsSpace(text[|text| - 1]) {
      var rest := EndSpace(text[..|text| - 1]);
      space := rest + [text[|text| - 1]];
      assert text == text[..|text| - 1] + [text[|text| - 1]];
    } else {
      space := [];
    }
  }

  /** `step` is the latest of the current step and its neighbours whose code is `text`. */
  predicate IsLatestMatch(c: Crypto, nonce: Nonce, text: string, now: int, step: int) {
    && StepAt(now) - 1 <= step <= StepAt(now) + 1
    && c.totp(nonce, step) == text
    && (step < StepAt(now) ==> c.totp(nonce, StepAt(now)) != text)
    && (step < StepAt(now) + 1 ==> c.totp(nonce, StepAt(now) + 1) != text)
  }

  function MatchingStep(c: Crypto, nonce: Nonce, text: string, now: int): (r: Option<int>)
    ensures r.Some? ==> IsTotpCode(text) && IsLatestMatch(c, nonce, text, now, r.value)
    ensures r.None? && IsTotpCode(text) ==> forall s :: StepAt(now) - 1 <= s <= StepAt(now) + 1 ==> c.totp(nonce, s) != text
  {
    if !IsTotpCode(text) then None
    else if c.totp(nonce, StepAt(now) + 1) == text then Some(StepAt(now) + 1)
    else if c.totp(nonce, StepAt(now)) == text then Some(StepAt(now))
    else if c.totp(nonce, StepAt(now) - 1) == text then Some(StepAt(now) - 1)
    else None
  }

  /** Tries the three steps in order and remembers the last that matches. */
  method FindMatchingStep(c: Crypto, nonce: Nonce, text: string, now: int) returns (found: Option<int>)
    ensures found == MatchingStep(c, nonce, text, now)
  {
    if !IsTotpCode(text) {
      return None;
    }
    var current := StepAt(now);
    found := None;
    for step := current - 1 to current + 2
      invariant found.None? ==> forall s :: current - 1 <= s < step ==> c.totp(nonce, s) != text
      invariant found.Some? ==>
        && current - 1 <= found.value < step && c.totp(nonce, found.value) == text
        && forall s :: found.value < s < step ==> c.totp(nonce, s) != text
    {
      if c.totp(nonce, step) == text {
        found := Some(step);
      }
    }
  }

  /** How an account's second factor came out. */
  datatype Factor = NotEnrolled | LaterStep(step: int) | UnusedCode(code: Digest) | Refused

  function SecondFactor(c: Crypto, a: Account, input: string, now: int): Factor {
    match a.row.totpNonce
    case None => NotEnrolled
    case Some(nonce) =>
      var text := Trim(input);
      if IsTotpCode(text) then
        match MatchingStep(c, nonce, text, now)
        case Some(step) => if a.row.totpLastStep.None? || a.row.totpLastStep.value < step then LaterStep(step) else Refused
        case None => Refused
      else
        match Normalize(text)
        case Some(code) => if c.sha(code) in a.codes then UnusedCode(c.sha(code)) else Refused
        case None => Refused
  }

  /** The factor spent: the step recorded, or the recovery code deleted. */
  function Spend(a: Account, f: Factor): Account {
    match f
    case LaterStep(step) => a.(row := a.row.(totpLastStep := Some(step)))
    case UnusedCode(code) => a.(codes := a.codes - {code})
    case _ => a
  }

  // ----- what a passed check does -----

  datatype Action = Login(session: Digest, device: Option<Digest>, newDevice: Digest)
                  | ChangePassword(hash: PasswordHash)
                  | StartTotp(session: Digest, nonce: Nonce)
                  | DisableTotp
                  | RegenerateCodes(drawn: set<Digest>)

  function Act(a: Account, report: Report, action: Action, now: int): Change {
    match action
    case Login(session, device, newDevice) =>
      var signedIn := WithSession(a.signIn, session, now);
      if device.Some? && KnownDevice(a.signIn, device.value, now)
      then Change(a.(signIn := signedIn), report.(sessionNew := Some(session)))
      else Change(a.(signIn := WithDevice(signedIn, newDevice, now)),
                  report.(sessionNew := Some(session), deviceNew := Some(newDevice)))
    case ChangePassword(hash) => PasswordReplaced(a, report, hash, now)
    case StartTotp(session, nonce) => Change(a.(signIn := WithPendingNonce(a.signIn, session, Some(nonce))), report)
    case DisableTotp =>
      Change(Account(a.row.(totpNonce := None, totpLastStep := None), {}, a.signIn.(devices := map[])),
             report.(unenrolled := true, drawn := Some({})))
    case RegenerateCodes(drawn) => Change(a.(codes := drawn), report.(drawn := Some(drawn)))
  }

  /** A changed password leaves no session, no device cookie and no usable link. */
  function PasswordReplaced(a: Account, report: Report, hash: PasswordHash, now: int): Change {
    Change(a.(row := a.row.(passwordHash := Some(hash)), signIn := LinksExpired(Ended(a.signIn), now)),
           report.(linksEnded := true, passwordSet := true))
  }

  // ----- the check -----

  datatype Attempt = Attempt(password: string, code: string, device: Option<Digest>)

  /** What the read phase found, kept until the transaction: the stored hash the password
      matched, if any, and whether the device was known. `now` is the read's time. */
  datatype Pending = Pending(attempt: Attempt, hash: Option<PasswordHash>, known: bool, now: int, action: Action)

  predicate Oversize(attempt: Attempt) {
    |attempt.password| > PASSWORD_MAX || |attempt.code| > CODE_MAX
  }

  function Verified(c: Crypto, u: User, attempt: Attempt, known: bool, now: int): Option<PasswordHash> {
    var target := if Oversize(attempt) then None else UsableHash(u, known, now);
    if target.Some? && c.verify(attempt.password, target.value) then target else None
  }

  function Read(c: Crypto, a: Account, attempt: Attempt, action: Action, now: int): Pending {
    var known := attempt.device.Some? && KnownDevice(a.signIn, attempt.device.value, now);
    Pending(attempt, Verified(c, a.row, attempt, known, now), known, now, action)
  }

  datatype Verdict = Success | Failed | TwoFactorRequired

  datatype Decision = Decision(verdict: Verdict, change: Change)

  predicate PasswordStands(a: Account, p: Pending) {
    p.hash.Some? && p.hash == a.row.passwordHash && !a.row.disabled
  }

  /** The counters a success clears; a running lock goes on. */
  function CountersCleared(u: User): User {
    u.(failedLogins := 0, deviceFailures := 0, deviceWindowStart := None)
  }

  /** Factor spent and counters cleared. */
  function Passed(a: Account, f: Factor): Change {
    var spent := Spend(a, f);
    Change(spent.(row := CountersCleared(spent.row)), QUIET.(spent := f, cleared := Some(a.row.failedLogins)))
  }

  /** The transaction's decision, before the success action. */
  function Decide(c: Crypto, a: Account, p: Pending): Decision {
    if Blocked(a.row, p.known, p.now) then Decision(Failed, Change(a, QUIET))
    else if !PasswordStands(a, p) then Decision(Failed, Counting(a, p.known, p.now))
    else
      var factor := SecondFactor(c, a, p.attempt.code, p.now);
      if factor.NotEnrolled? && a.row.role.RequiresTwoFactor() then Decision(TwoFactorRequired, Change(a, QUIET))
      else if factor.Refused? then Decision(Failed, Counting(a, p.known, p.now))
      else Decision(Success, Passed(a, factor))
  }

  /** The whole transaction: a success runs the action in it, and an action that fails
      (`works` false) rolls everything back. */
  function Commit(c: Crypto, a: Account, p: Pending, works: bool): Decision {
    var d := Decide(c, a, p);
    if !d.verdict.Success? then d
    else if !works then Decision(Failed, Change(a, QUIET))
    else Decision(Success, Act(d.change.account, d.change.report, p.action, p.now))
  }

  // ----- the other transactions -----

  /** The enrollment waiting on the session takes effect if `code`, trimmed before, is the
      code of one of its three steps. */
  function Confirm(c: Crypto, a: Account, session: Digest, code: string, drawn: set<Digest>, now: int): Change {
    if session !in a.signIn.sessions || a.signIn.sessions[session].pendingNonce.None? then Change(a, QUIET)
    else
      var nonce := a.signIn.sessions[session].pendingNonce.value;
      match MatchingStep(c, nonce, code, now)
      case None => Change(a, QUIET)
      case Some(step) =>
        var kept := WithPendingNonce(OnlySession(a.signIn, session), session, None);
        Change(Account(a.row.(totpNonce := Some(nonce), totpLastStep := Some(step)), drawn, kept.(devices := map[])),
               QUIET.(enrolled := Some(step), drawn := Some(drawn)))
  }

  /** What a confirmation comes back with: nothing to confirm, the nonce to try again with,
      or the enrollment. */
  datatype Confirmed = NotStarted | WrongCode(nonce: Nonce) | Enrolled

  function ConfirmResult(c: Crypto, a: Account, session: Digest, code: string, now: int): Confirmed {
    if session !in a.signIn.sessions || a.signIn.sessions[session].pendingNonce.None? then NotStarted
    else
      var nonce := a.signIn.sessions[session].pendingNonce.value;
      if MatchingStep(c, nonce, code, now).Some? then Enrolled else WrongCode(nonce)
  }

  predicate MayRequestReset(u: User) {
    u.role.Maintainer? && !u.disabled && u.passwordHash.Some?
  }

  function Issue(a: Account, hash: Digest, now: int): Change {
    Change(a.(signIn := WithLink(a.signIn, hash, now)), QUIET.(linksEnded := true, linkIssued := Some(hash)))
  }

  /** What the reset form does to the account it names; other accounts get nothing. */
  function QueueReset(a: Account, hash: Digest, now: int): Change {
    if MayRequestReset(a.row) then Issue(a, hash, now) else Change(a, QUIET)
  }

  function SubmitLink(a: Account, hash: Digest, password: PasswordHash, now: int): Change {
    if !LinkValid(a.signIn, hash, !a.row.disabled, now) then Change(a, QUIET)
    else PasswordReplaced(a, QUIET.(linkUsed := Some(hash)), password, now)
  }

  function Unlock(a: Account): Change {
    Change(a.(row := a.row.(lockedUntil := None, failedLogins := 0, deviceFailures := 0, deviceWindowStart := None)),
           QUIET.(cleared := Some(a.row.failedLogins), unlocked := true))
  }
}
