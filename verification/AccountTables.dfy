/** The transactions as they run: statement by statement on the account's rows. Each is
    proved to be the step the account machine takes. */
module AccountTables {
  import opened Options
  import opened SignIn
  import opened RecoveryCodes
  import opened Accounts

  /** The hashes of the codes drawn. */
  function Hashes(c: Crypto, draws: seq<string>): set<Digest> {
    if draws == [] then {} else Hashes(c, draws[..|draws| - 1]) + {c.sha(draws[|draws| - 1])}
  }

  ghost predicate DistinctHashes(c: Crypto, codes: seq<string>) {
    forall i, j :: 0 <= i < j < |codes| ==> c.sha(codes[i]) != c.sha(codes[j])
  }

  lemma {:induction false} HashesHold(c: Crypto, draws: seq<string>)
    ensures forall i :: 0 <= i < |draws| ==> c.sha(draws[i]) in Hashes(c, draws)
  {
    if draws != [] {
      HashesHold(c, draws[..|draws| - 1]);
    }
  }

  /** The action performed, with the recovery codes it drew. */
  function Performed(action: Action, codes: set<Digest>): Action {
    if action.RegenerateCodes? then RegenerateCodes(codes) else action
  }

  /** What the transaction comes to, by its decision. */
  lemma CommitParts(c: Crypto, a: Account, p: Pending, action: Action, works: bool)
    ensures var d, whole := Decide(c, a, p), Commit(c, a, p.(action := action), works);
            if !d.verdict.Success? then whole == d
            else if !works then whole == Decision(Failed, Change(a, QUIET))
            else
              && whole.verdict.Success? && whole.change.report.mailedAt.None?
              && whole.change.account == Act(d.change.account, QUIET, action, p.now).account
  {
  }

  class Tables {
    var row: User
    var codes: set<Digest>
    const signIn: SignInTables

    constructor (account: Account)
      ensures Contents() == account && fresh(signIn)
    {
      row, codes := account.row, account.codes;
      signIn := new SignInTables(account.signIn);
    }

    ghost function Contents(): Account
      reads this, signIn
    {
      Account(row, codes, signIn.Contents())
    }

    /** Counts one failure. Both updates carry their own condition; the second reports
        whether the lock and the mail time it leaves are the ones it would have set. */
    method CountFailure(known: bool, now: int) returns (mail: bool)
      modifies this`row
      ensures Contents() == Counting(old(Contents()), known, now).account
      ensures mail == Counting(old(Contents()), known, now).report.mailedAt.Some?
    {
      mail := false;
      var start := row.deviceWindowStart;
      if known {
        if !(start.Some? && start.value + DEVICE_WINDOW_SECONDS > now && row.deviceFailures >= DEVICE_FAILURES_MAX) {
          var over := start.None? || start.value + DEVICE_WINDOW_SECONDS <= now;
          row := row.(deviceFailures := if over then 1 else row.deviceFailures + 1,
                      deviceWindowStart := if over then Some(now) else start);
        }
        return;
      }
      if row.lockedUntil.None? || row.lockedUntil.value <= now {
        var full := row.failedLogins + 1 >= LOCK_AFTER;
        var due := row.lockoutMailedAt.None? || row.lockoutMailedAt.value <= now - LOCKOUT_MAIL_SECONDS;
        row := row.(failedLogins := if full then 0 else row.failedLogins + 1,
                    lockedUntil := if full then Some(now + LOCK_SECONDS) else row.lockedUntil,
                    lockoutMailedAt := if full && due then Some(now) else row.lockoutMailedAt);
        mail := row.lockedUntil == Some(now + LOCK_SECONDS) && row.lockoutMailedAt == Some(now);
      }
    }

    /** Accepts a code of the enrollment `nonce`, spending it by one conditional update. */
    method CodeAccepted(c: Crypto, nonce: Nonce, input: string, now: int) returns (accepted: bool)
      requires row.totpNonce == Some(nonce)
      modifies this
      ensures accepted == !SecondFactor(c, old(Contents()), input, now).Refused?
      ensures Contents() == Spend(old(Contents()), SecondFactor(c, old(Contents()), input, now))
    {
      var text := Trim(input);
      if IsTotpCode(text) {
        var step := FindMatchingStep(c, nonce, text, now);
        accepted := step.Some? && (row.totpLastStep.None? || row.totpLastStep.value < step.value);
        if accepted {
          row := row.(totpLastStep := step);
        }
      } else {
        var code := Normalize(text);
        accepted := code.Some? && c.sha(code.value) in codes;
        if accepted {
          codes := codes - {c.sha(code.value)};
        }
      }
    }

    /** Replaces the recovery codes: draws until ten were stored, a repeated one drawn
        again. `draws` is what the random source gives, enough for ten different ones. */
    method ReplaceCodes(c: Crypto, draws: seq<string>) returns (shown: seq<string>)
      requires |Hashes(c, draws)| >= CODE_COUNT
      modifies this`codes
      ensures |shown| == |codes| == 10 && codes == Hashes(c, shown) && DistinctHashes(c, shown)
      ensures forall code :: code in shown ==> code in draws
    {
      codes, shown := {}, [];
      var i := 0;
      while |shown| < CODE_COUNT
        invariant i <= |draws| && |shown| == |codes| <= CODE_COUNT
        invariant codes == Hashes(c, shown) == Hashes(c, draws[..i]) && DistinctHashes(c, shown)
        invariant forall code :: code in shown ==> code in draws
        decreases |draws| - i
      {
        assert i < |draws| by {
          assert draws[..|draws|] == draws;
        }
        var code := draws[i];
        assert draws[..i + 1][..i] == draws[..i];
        if c.sha(code) !in codes {
          HashesHold(c, shown);
          assert (shown + [code])[..|shown|] == shown;
          codes := codes + {c.sha(code)};
          shown := shown + [code];
        }
        i := i + 1;
      }
    }

    /** The success action, in the check's transaction. */
    method Perform(c: Crypto, action: Action, draws: seq<string>, now: int)
      requires |Hashes(c, draws)| >= CODE_COUNT
      modifies this, signIn
      ensures Contents() == Act(old(Contents()), QUIET, Performed(action, codes), now).account
      ensures action.RegenerateCodes? ==> |codes| == 10
    {
      match action
      case Login(session, device, newDevice) => signIn.SignedIn(session, device, newDevice, now);
      case ChangePassword(hash) => SetPassword(hash, now);
      case StartTotp(session, nonce) => signIn.SetPendingNonce(session, Some(nonce));
      case DisableTotp =>
        row := row.(totpNonce := None, totpLastStep := None);
        codes := {};
        signIn.ForgetDevices();
      case RegenerateCodes(_) =>
        var _ := ReplaceCodes(c, draws);
    }

    method SetPassword(hash: PasswordHash, now: int)
      modifies this`row, signIn
      ensures Contents() == PasswordReplaced(old(Contents()), QUIET, hash, now).account
    {
      row := row.(passwordHash := Some(hash));
      signIn.EndAll();
      signIn.ExpireLinks(now);
    }

    /** The check's decision: lock, password, code and counters. */
    method DecideCheck(c: Crypto, p: Pending) returns (verdict: Verdict, mail: bool)
      modifies this
      ensures var d := Decide(c, old(Contents()), p);
              Contents() == d.change.account && verdict == d.verdict && mail == d.change.report.mailedAt.Some?
    {
      if Blocked(row, p.known, p.now) {
        return Failed, false;
      }
      if !(p.hash.Some? && p.hash == row.passwordHash && !row.disabled) {
        mail := CountFailure(p.known, p.now);
        return Failed, mail;
      }
      if row.totpNonce.None? && row.role.RequiresTwoFactor() {
        return TwoFactorRequired, false;
      }
      if row.totpNonce.Some? {
        var accepted := CodeAccepted(c, row.totpNonce.value, p.attempt.code, p.now);
        if !accepted {
          mail := CountFailure(p.known, p.now);
          return Failed, mail;
        }
      }
      row := row.(failedLogins := 0, deviceFailures := 0, deviceWindowStart := None);
      return Success, false;
    }

    /** The check's transaction. An action that fails rolls everything back. */
    method Check(c: Crypto, p: Pending, works: bool, draws: seq<string>) returns (verdict: Verdict, mail: bool)
      requires |Hashes(c, draws)| >= CODE_COUNT
      modifies this, signIn
      ensures var d := Commit(c, old(Contents()), p.(action := Performed(p.action, codes)), works);
              Contents() == d.change.account && verdict == d.verdict && mail == d.change.report.mailedAt.Some?
    {
      ghost var before := Contents();
      var rowBefore, codesBefore := row, codes;
      verdict, mail := DecideCheck(c, p);
      if verdict.Success? {
        if works {
          Perform(c, p.action, draws, p.now);
        } else {
          row, codes, verdict := rowBefore, codesBefore, Failed;
        }
      }
      CommitParts(c, before, p, Performed(p.action, codes), works);
    }

    /** Turns the nonce waiting on the session into an enrollment; the codes it shows are
        the account's only ones. */
    method ConfirmTotp(c: Crypto, session: Digest, code: string, draws: seq<string>, now: int)
      returns (result: Confirmed, shown: seq<string>)
      requires |Hashes(c, draws)| >= CODE_COUNT
      modifies this, signIn
      ensures result == ConfirmResult(c, old(Contents()), session, code, now)
      ensures Contents() == Confirm(c, old(Contents()), session, code, codes, now).account
      ensures result.Enrolled? <==> Confirm(c, old(Contents()), session, code, codes, now).report.enrolled.Some?
      ensures result.Enrolled? ==> |shown| == 10 && codes == Hashes(c, shown) && DistinctHashes(c, shown)
    {
      shown := [];
      var pending := signIn.PendingNonce(session);
      if pending.None? {
        return NotStarted, [];
      }
      var step := FindMatchingStep(c, pending.value, code, now);
      if step.None? {
        return WrongCode(pending.value), [];
      }
      row := row.(totpNonce := pending, totpLastStep := step);
      shown := ReplaceCodes(c, draws);
      signIn.KeepOnly(session);
      signIn.ForgetDevices();
      signIn.SetPendingNonce(session, None);
      result := Enrolled;
    }

    method QueueResetLink(hash: Digest, now: int) returns (queued: bool)
      modifies signIn
      ensures Contents() == QueueReset(old(Contents()), hash, now).account
      ensures queued == QueueReset(old(Contents()), hash, now).report.linkIssued.Some?
    {
      queued := row.role.Maintainer? && !row.disabled && row.passwordHash.Some?;
      if queued {
        signIn.IssueLink(hash, now);
      }
    }

    method LinkSubmit(hash: Digest, password: PasswordHash, now: int) returns (consumed: bool)
      modifies this`row, signIn
      ensures Contents() == SubmitLink(old(Contents()), hash, password, now).account
      ensures consumed == SubmitLink(old(Contents()), hash, password, now).report.linkUsed.Some?
    {
      consumed := signIn.ConsumeLink(hash, !row.disabled, now);
      if consumed {
        SetPassword(password, now);
      }
    }

    /** Nobody is blocked any more, whatever the time, and the next lock is ten failures
        away; the time of the last lockout mail stays. */
    method UnlockAccount()
      modifies this`row
      ensures Contents() == Unlock(old(Contents())).account
      ensures forall known, now :: !Blocked(row, known, now)
      ensures row.failedLogins == 0 && row.lockoutMailedAt == old(row).lockoutMailedAt
    {
      row := row.(lockedUntil := None, failedLogins := 0, deviceFailures := 0, deviceWindowStart := None);
    }
  }
}
