/** How every check ends, and what wrong guesses lead to. */
module Guesses {
  import opened Options
  import opened SignIn
  import opened Accounts
  import opened AccountRuns

  // ----- how a check ends -----

  predicate LockRuns(u: User, now: int) {
    u.lockedUntil.Some? && now < u.lockedUntil.value
  }

  predicate WindowIsFull(u: User, now: int) {
    u.deviceWindowStart.Some? && now < u.deviceWindowStart.value + 3600 && u.deviceFailures >= 20
  }

  predicate ShutOut(u: User, known: bool, now: int) {
    if known then WindowIsFull(u, now) else LockRuns(u, now)
  }

  /** The password is not the one stored now, or the enrolled factor is not met. */
  ghost predicate Wrong(c: Crypto, a: Account, p: Pending) {
    || p.hash.None? || p.hash != a.row.passwordHash || a.row.disabled
    || (a.row.totpNonce.Some? && !FactorMet(c, a, p))
  }

  ghost predicate FactorMet(c: Crypto, a: Account, p: Pending)
    requires a.row.totpNonce.Some?
  {
    || FreshStep(c, a, a.row.totpNonce.value, Trim(p.attempt.code), p.now)
    || UnusedRecoveryCode(c, a, Trim(p.attempt.code))
  }

  predicate MustEnroll(a: Account) {
    a.row.totpNonce.None? && a.row.role.Admin?
  }

  /** Every check ends in exactly one of five ways: shut out and unnoticed, wrong and
      counted, sent to enroll, rolled back, or successful. */
  lemma CheckEnds(c: Crypto, a: Account, p: Pending, works: bool)
    ensures var d := Commit(c, a, p, works);
            if ShutOut(a.row, p.known, p.now) then d == Decision(Failed, Change(a, QUIET))
            else if Wrong(c, a, p) then
              && d.verdict.Failed?
              && d.change.report.deviceCountedAt == (if p.known then Some(p.now) else None)
              && d.change.report.countedAt == (if p.known then None else Some(p.now))
            else if MustEnroll(a) then d == Decision(TwoFactorRequired, Change(a, QUIET))
            else if !works then d == Decision(Failed, Change(a, QUIET))
            else
              && d.verdict.Success? && d.change.report.cleared == Some(a.row.failedLogins)
              && d.change.report.countedAt.None? && d.change.report.deviceCountedAt.None?
  {
    if a.row.totpNonce.Some? {
      FactorAccepted(c, a, a.row.totpNonce.value, p.attempt.code, p.now);
    }
  }

  // ----- wrong guesses of strangers -----

  /** A check without a known device that gets it wrong while no lock runs. */
  ghost predicate WrongGuess(c: Crypto, s: State, e: Event) {
    && e.Finish? && e.id in s.pending && !s.pending[e.id].known
    && !LockRuns(s.account.row, s.pending[e.id].now) && Wrong(c, s.account, s.pending[e.id])
  }

  ghost function WrongGuesses(c: Crypto, s: State, events: seq<Event>): nat
    decreases |events|
  {
    if events == [] then 0
    else (if WrongGuess(c, s, events[0]) then 1 else 0) + WrongGuesses(c, Step(c, s, events[0]), events[1..])
  }

  lemma GuessIsCounted(c: Crypto, s: State, e: Event)
    ensures Effect(c, s, e).report.countedAt == if WrongGuess(c, s, e) then Some(s.pending[e.id].now) else None
  {
    if e.Finish? && e.id in s.pending {
      CheckEnds(c, s.account, s.pending[e.id], e.works);
    }
  }

  lemma {:induction false} GuessesAreCounted(c: Crypto, s: State, events: seq<Event>)
    ensures CountedIn(Log(c, s, events)) == WrongGuesses(c, s, events)
    decreases |events|
  {
    if events != [] {
      GuessIsCounted(c, s, events[0]);
      GuessesAreCounted(c, Step(c, s, events[0]), events[1..]);
      assert Log(c, s, events)[1..] == Log(c, Step(c, s, events[0]), events[1..]);
    }
  }

  /** In every run without a success or an unlock, every tenth wrong guess, of the password
      or of the code, at times when no lock runs, starts a lock. */
  lemma EveryTenthLocks(c: Crypto, s: State, events: seq<Event>)
    requires Bounded(s.account.row) && |Log(c, s, events)| == |events|
    requires forall k :: 0 <= k < |events| ==> Log(c, s, events)[k].cleared.None?
    ensures LocksIn(Log(c, s, events)) == (WrongGuesses(c, s, events) + s.account.row.failedLogins) / 10
  {
    NothingCleared(c, s, events);
    LockoutLedger(c, s, events);
    GuessesAreCounted(c, s, events);
  }

  /** So after any such run the wrong guess that makes the count a multiple of ten leaves the
      account locked for 900 s. */
  lemma TenthLeavesLocked(c: Crypto, s: State, events: seq<Event>, e: Event, t: int)
    requires Bounded(s.account.row) && |Log(c, s, events)| == |events|
    requires forall k :: 0 <= k < |events| ==> Log(c, s, events)[k].cleared.None?
    requires (WrongGuesses(c, s, events) + s.account.row.failedLogins) % 10 == 9 && WrongGuess(c, Run(c, s, events), e)
    ensures var before := Run(c, s, events);
            var after, now := Step(c, before, e).account.row, before.pending[e.id].now;
            after.failedLogins == 0 && (LockRuns(after, t) <==> t < now + 900)
  {
    NineAreCounted(c, s, events);
    TenthLocks(c, Run(c, s, events), e, t);
  }

  lemma NineAreCounted(c: Crypto, s: State, events: seq<Event>)
    requires Bounded(s.account.row) && |Log(c, s, events)| == |events|
    requires forall k :: 0 <= k < |events| ==> Log(c, s, events)[k].cleared.None?
    requires (WrongGuesses(c, s, events) + s.account.row.failedLogins) % 10 == 9
    ensures Bounded(Run(c, s, events).account.row) && Run(c, s, events).account.row.failedLogins == 9
  {
    NothingCleared(c, s, events);
    LockoutLedger(c, s, events);
    GuessesAreCounted(c, s, events);
  }

  lemma TenthLocks(c: Crypto, s: State, e: Event, t: int)
    requires Bounded(s.account.row) && s.account.row.failedLogins == 9 && WrongGuess(c, s, e)
    ensures var after := Step(c, s, e).account.row;
            after.failedLogins == 0 && (LockRuns(after, t) <==> t < s.pending[e.id].now + 900)
  {
    GuessIsCounted(c, s, e);
    LockEffect(c, s, e);
  }

  /** From a lock at `t` on, until an unlock, no check without a known device that goes by
      a time before t + 900 succeeds or even counts. */
  lemma LockKeepsOut(c: Crypto, s: State, events: seq<Event>, i: nat, j: nat)
    requires Bounded(s.account.row) && i < j < |events| == |Log(c, s, events)|
    requires Log(c, s, events)[i].lockedAt.Some?
    requires forall k :: i < k < j ==> !events[k].CommandUnlock?
    ensures var at, e := Run(c, s, events[..j]), events[j];
            e.Finish? && e.id in at.pending && !at.pending[e.id].known
            && at.pending[e.id].now < Log(c, s, events)[i].lockedAt.value + 900 ==>
              Commit(c, at.account, at.pending[e.id], e.works) == Decision(Failed, Change(at.account, QUIET))
  {
    StaysBounded(c, s, events[..i]);
    LogSplit(c, s, events, i);
    RunPrefix(c, s, events, i, j);
    var at := Run(c, s, events[..i]);
    LockEffect(c, at, events[i]);
    var until := Log(c, s, events)[i].lockedAt.value + 900;
    LockStays(c, Step(c, at, events[i]), events[i + 1..j], until);
    var last, e := Run(c, s, events[..j]), events[j];
    if e.Finish? && e.id in last.pending {
      CheckEnds(c, last.account, last.pending[e.id], e.works);
    }
  }

  lemma RunPrefix(c: Crypto, s: State, events: seq<Event>, i: nat, j: nat)
    requires i < j <= |events|
    ensures Run(c, s, events[..j]) == Run(c, Step(c, Run(c, s, events[..i]), events[i]), events[i + 1..j])
  {
    RunSplit(c, s, events[..j], i);
    assert events[..j][..i] == events[..i] && events[..j][i + 1..] == events[i + 1..j];
  }

  lemma {:induction false} LockStays(c: Crypto, s: State, events: seq<Event>, until: int)
    requires Bounded(s.account.row) && s.account.row.lockedUntil.Some? && s.account.row.lockedUntil.value >= until
    requires forall k :: 0 <= k < |events| ==> !events[k].CommandUnlock?
    ensures var u := Run(c, s, events).account.row; u.lockedUntil.Some? && u.lockedUntil.value >= until
    decreases |events|
  {
    if events != [] {
      LockEffect(c, s, events[0]);
      LockStays(c, Step(c, s, events[0]), events[1..], until);
    }
  }

  // ----- wrong guesses from known devices -----

  ghost predicate WrongDeviceGuess(c: Crypto, s: State, e: Event) {
    && e.Finish? && e.id in s.pending && s.pending[e.id].known
    && !WindowIsFull(s.account.row, s.pending[e.id].now) && Wrong(c, s.account, s.pending[e.id])
  }

  ghost function WrongDeviceGuesses(c: Crypto, s: State, events: seq<Event>): nat
    decreases |events|
  {
    if events == [] then 0
    else (if WrongDeviceGuess(c, s, events[0]) then 1 else 0) + WrongDeviceGuesses(c, Step(c, s, events[0]), events[1..])
  }

  lemma DeviceGuessIsCounted(c: Crypto, s: State, e: Event)
    ensures Effect(c, s, e).report.deviceCountedAt == if WrongDeviceGuess(c, s, e) then Some(s.pending[e.id].now) else None
  {
    if e.Finish? && e.id in s.pending {
      CheckEnds(c, s.account, s.pending[e.id], e.works);
    }
  }

  /** Nothing but a success, an unlock or a new window touches the count otherwise. */
  lemma DeviceCountEffect(c: Crypto, s: State, e: Event)
    requires Bounded(s.account.row)
    ensures var u, v, r := s.account.row, Effect(c, s, e).account.row, Effect(c, s, e).report;
            r.cleared.None? && r.windowAt.None? ==>
              && v.deviceWindowStart == u.deviceWindowStart
              && v.deviceFailures == u.deviceFailures + if r.deviceCountedAt.Some? then 1 else 0
  {
    if e.Finish? && e.id in s.pending {
      CommitDeviceCount(c, s.account, s.pending[e.id], e.works);
    }
  }

  lemma CommitDeviceCount(c: Crypto, a: Account, p: Pending, works: bool)
    requires Bounded(a.row)
    ensures var u, v, r := a.row, Commit(c, a, p, works).change.account.row, Commit(c, a, p, works).change.report;
            r.cleared.None? && r.windowAt.None? ==>
              && v.deviceWindowStart == u.deviceWindowStart
              && v.deviceFailures == u.deviceFailures + if r.deviceCountedAt.Some? then 1 else 0
  {
  }

  /** While a window lasts, its count is exactly the wrong guesses from known devices. */
  lemma {:induction false} WindowFills(c: Crypto, s: State, events: seq<Event>)
    requires Bounded(s.account.row) && |Log(c, s, events)| == |events|
    requires forall k :: 0 <= k < |events| ==> Log(c, s, events)[k].cleared.None? && Log(c, s, events)[k].windowAt.None?
    ensures var u, v := s.account.row, Run(c, s, events).account.row;
            && v.deviceWindowStart == u.deviceWindowStart
            && v.deviceFailures == u.deviceFailures + WrongDeviceGuesses(c, s, events)
    decreases |events|
  {
    if events != [] {
      var log, rest := Log(c, s, events), Log(c, Step(c, s, events[0]), events[1..]);
      assert log[0] == Effect(c, s, events[0]).report && log[1..] == rest;
      assert forall k :: 0 <= k < |events| - 1 ==> rest[k] == log[k + 1];
      LockEffect(c, s, events[0]);
      DeviceCountEffect(c, s, events[0]);
      DeviceGuessIsCounted(c, s, events[0]);
      WindowFills(c, Step(c, s, events[0]), events[1..]);
    }
  }

  /** A window opened at `w` by one wrong guess and nineteen more keep every check with a
      known device out until w + 3600, unless a success or an unlock comes first. */
  lemma TwentiethKeepsOut(c: Crypto, s: State, events: seq<Event>, w: int, p: Pending, works: bool)
    requires Bounded(s.account.row) && s.account.row.deviceWindowStart == Some(w)
    requires |Log(c, s, events)| == |events| && p.known && p.now < w + 3600
    requires forall k :: 0 <= k < |events| ==> Log(c, s, events)[k].cleared.None? && Log(c, s, events)[k].windowAt.None?
    requires s.account.row.deviceFailures + WrongDeviceGuesses(c, s, events) >= 20
    ensures var a := Run(c, s, events).account; Commit(c, a, p, works) == Decision(Failed, Change(a, QUIET))
  {
    WindowFills(c, s, events);
    CheckEnds(c, Run(c, s, events).account, p, works);
  }

  /** A window opens exactly when a known device guesses wrong and none is open, and starts
      its count with that guess. */
  lemma WindowOpens(c: Crypto, s: State, e: Event)
    ensures var u, r := s.account.row, Effect(c, s, e).report;
            r.windowAt.Some? <==>
              WrongDeviceGuess(c, s, e) && (u.deviceWindowStart.None? || u.deviceWindowStart.value + 3600 <= s.pending[e.id].now)
    ensures var v, r := Effect(c, s, e).account.row, Effect(c, s, e).report;
            r.windowAt.Some? ==> r.windowAt == v.deviceWindowStart == Some(s.pending[e.id].now) && v.deviceFailures == 1
  {
    if e.Finish? && e.id in s.pending {
      CheckEnds(c, s.account, s.pending[e.id], e.works);
    }
  }

  // ----- right ones -----

  /** The check numbered `id` is not touched. */
  ghost predicate Untouched(events: seq<Event>, id: nat) {
    forall k :: 0 <= k < |events| ==> !((events[k].Begin? || events[k].Finish?) && events[k].id == id)
  }

  lemma {:induction false} PendingStays(c: Crypto, s: State, events: seq<Event>, id: nat)
    requires Untouched(events, id) && id in s.pending
    ensures id in Run(c, s, events).pending && Run(c, s, events).pending[id] == s.pending[id]
    decreases |events|
  {
    if events != [] {
      assert !((events[0].Begin? || events[0].Finish?) && events[0].id == id);
      assert forall k :: 0 <= k < |events| - 1 ==> events[1..][k] == events[k + 1];
      PendingStays(c, Step(c, s, events[0]), events[1..], id);
    }
  }

  /** What the read phase needs: an enabled account nobody is shut out of, a password of
      bearable length, and that it is the right one. */
  ghost predicate Readable(c: Crypto, a: Account, attempt: Attempt, now: int) {
    && a.row.passwordHash.Some? && !a.row.disabled
    && !ShutOut(a.row, ByKnownDevice(a, attempt, now), now)
    && |attempt.password| <= 1024 && |attempt.code| <= 32
    && c.verify(attempt.password, a.row.passwordHash.value)
  }

  ghost predicate ByKnownDevice(a: Account, attempt: Attempt, now: int) {
    attempt.device.Some? && exists d ::
      d in a.signIn.devices && a.signIn.devices[d].hash == attempt.device.value
      && now < a.signIn.devices[d].createdAt + 31_536_000
  }

  /** A check succeeds, whatever runs between its read and its transaction, exactly when it
      could read, and at its transaction the hash is the same, the account still enabled,
      nobody shut out, the factor met or not needed, and its action works. */
  lemma SignsInExactly(c: Crypto, s: State, id: nat, attempt: Attempt, action: Action, now: int, events: seq<Event>, works: bool)
    requires Untouched(events, id)
    ensures var begun := Step(c, s, Begin(id, attempt, action, now));
            var after := Run(c, begun, events);
            var known, a := ByKnownDevice(s.account, attempt, now), after.account;
            && id in after.pending && after.pending[id].attempt == attempt && after.pending[id].action == action
            && (Commit(c, a, after.pending[id], works).verdict.Success? <==>
                 && works && Readable(c, s.account, attempt, now)
                 && a.row.passwordHash == s.account.row.passwordHash && !a.row.disabled && !ShutOut(a.row, known, now)
                 && !MustEnroll(a) && (a.row.totpNonce.Some? ==> FactorMet(c, a, after.pending[id])))
  {
    var begun := Step(c, s, Begin(id, attempt, action, now));
    PendingStays(c, begun, events, id);
    ReadsExactly(c, s.account, attempt, action, now);
    var after := Run(c, begun, events);
    CheckEnds(c, after.account, after.pending[id], works);
  }

  lemma ReadsExactly(c: Crypto, a: Account, attempt: Attempt, action: Action, now: int)
    ensures var p := Read(c, a, attempt, action, now);
            && p.known == ByKnownDevice(a, attempt, now)
            && p.hash == (if Readable(c, a, attempt, now) then a.row.passwordHash else None)
  {
    var p := Read(c, a, attempt, action, now);
    if ByKnownDevice(a, attempt, now) {
      var d :| d in a.signIn.devices && a.signIn.devices[d].hash == attempt.device.value
               && now < a.signIn.devices[d].createdAt + 31_536_000;
      assert a.signIn.devices[d].Live(now);
    }
  }
}
