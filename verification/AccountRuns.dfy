/** Every interleaving of an account's transactions, and what holds over all of them. */
module AccountRuns {
  import opened Options
  import opened SignIn
  import opened RecoveryCodes
  import opened Accounts
  import opened Spans

  /** A check is two events: `Begin` reads and verifies the password outside any
      transaction, `Finish` commits the decision, with anything in between. So is a use of
      a session: `LookUp` finds it, `RecordUse` writes the time down. The times are
      whatever the clock said; nothing here orders them. */
  datatype Event = Begin(id: nat, attempt: Attempt, action: Action, now: int)
                 | Finish(id: nat, works: bool)
                 | ConfirmTotp(session: Digest, code: string, drawn: set<Digest>, now: int)
                 | RequestReset(hash: Digest, now: int)
                 | CommandReset(hash: Digest, now: int)
                 | UseLink(hash: Digest, password: PasswordHash, now: int)
                 | CommandUnlock
                 | GiveUpMail(now: int)
                 | Retain(now: int)
                 | LookUp(id: nat, token: Digest, now: int)
                 | RecordUse(id: nat)
                 | EndOthers(token: Digest)
                 | LogOut(token: Digest)

  /** A lookup that found its session and has yet to record the use. */
  datatype Lookup = Lookup(token: Digest, now: int)

  /** The account's rows, the checks between their two transactions and the lookups
      between theirs. */
  datatype State = State(account: Account, pending: map<nat, Pending>, lookups: map<nat, Lookup>)

  /** What the event does to the account. */
  function Effect(c: Crypto, s: State, e: Event): Change {
    var a := s.account;
    match e
    case Begin(_, _, _, _) => Change(a, QUIET)
    case Finish(id, works) => if id in s.pending then Commit(c, a, s.pending[id], works).change else Change(a, QUIET)
    case ConfirmTotp(session, code, drawn, now) => Confirm(c, a, session, code, drawn, now)
    case RequestReset(hash, now) => QueueReset(a, hash, now)
    case CommandReset(hash, now) => Issue(a, hash, now)
    case UseLink(hash, password, now) => SubmitLink(a, hash, password, now)
    case CommandUnlock => Unlock(a)
    case GiveUpMail(now) => Change(a.(signIn := LinksExpired(a.signIn, now)), QUIET.(linksEnded := true))
    case Retain(now) => Change(a.(signIn := Retained(a.signIn, now)), QUIET)
    case LookUp(_, _, _) => Change(a, QUIET)
    case RecordUse(id) =>
      if id in s.lookups then Change(a.(signIn := Touched(a.signIn, s.lookups[id].token, s.lookups[id].now)), QUIET)
      else Change(a, QUIET)
    case EndOthers(token) => Change(a.(signIn := OnlySession(a.signIn, token)), QUIET)
    case LogOut(token) => Change(a.(signIn := WithoutSession(a.signIn, token)), QUIET)
  }

  function Step(c: Crypto, s: State, e: Event): State {
    State(Effect(c, s, e).account,
          match e
          case Begin(id, attempt, action, now) => s.pending[id := Read(c, s.account, attempt, action, now)]
          case Finish(id, _) => s.pending - {id}
          case _ => s.pending,
          match e
          case LookUp(id, token, now) =>
            if NeedsRecord(s.account.signIn, token, Active(s.account.row), now) then s.lookups[id := Lookup(token, now)]
            else s.lookups - {id}
          case RecordUse(id) => s.lookups - {id}
          case _ => s.lookups)
  }

  /** Sessions count only for an enabled account with a password. */
  predicate Active(u: User) {
    u.passwordHash.Some? && !u.disabled
  }

  function Run(c: Crypto, s: State, events: seq<Event>): State
    decreases |events|
  {
    if events == [] then s else Run(c, Step(c, s, events[0]), events[1..])
  }

  /** One report per event. */
  function Log(c: Crypto, s: State, events: seq<Event>): seq<Report>
    decreases |events|
  {
    if events == [] then [] else [Effect(c, s, events[0]).report] + Log(c, Step(c, s, events[0]), events[1..])
  }

  // ----- lockout: the ledger -----

  /** How many reports of the log carry a time of one kind. */
  function CountOf(log: seq<Report>, time: Report -> Option<int>): nat {
    if log == [] then 0 else (if time(log[0]).Some? then 1 else 0) + CountOf(log[1..], time)
  }

  function CountTime(r: Report): Option<int> {
    r.countedAt
  }

  function LockTime(r: Report): Option<int> {
    r.lockedAt
  }

  function DeviceCountTime(r: Report): Option<int> {
    r.deviceCountedAt
  }

  function WindowTime(r: Report): Option<int> {
    r.windowAt
  }

  /** Failures counted without a known device. */
  function CountedIn(log: seq<Report>): nat {
    CountOf(log, CountTime)
  }

  function LocksIn(log: seq<Report>): nat {
    CountOf(log, LockTime)
  }

  /** Failures counted from known devices. */
  function DeviceCountedIn(log: seq<Report>): nat {
    CountOf(log, DeviceCountTime)
  }

  function WindowsIn(log: seq<Report>): nat {
    CountOf(log, WindowTime)
  }

  function ClearedBy(r: Report): nat {
    if r.cleared.Some? then r.cleared.value else 0
  }

  /** Counted failures forgotten by a success or an unlock. */
  function ClearedIn(log: seq<Report>): nat {
    if log == [] then 0 else ClearedBy(log[0]) + ClearedIn(log[1..])
  }

  ghost predicate Bounded(u: User) {
    u.failedLogins < LOCK_AFTER && u.deviceFailures <= DEVICE_FAILURES_MAX
  }

  /** One transaction's effect on the lock fields, for the lemmas about them. */
  lemma LockEffect(c: Crypto, s: State, e: Event)
    requires Bounded(s.account.row)
    ensures var u, v, r := s.account.row, Effect(c, s, e).account.row, Effect(c, s, e).report;
            && Bounded(v)
            && (if r.countedAt.Some? then
                  && !e.CommandUnlock? && !r.unlocked && r.cleared.None?
                  && Fails(u, v, r, r.countedAt.value)
                else
                  && r.lockedAt.None? && r.mailedAt.None? && v.lockoutMailedAt == u.lockoutMailedAt
                  && v.failedLogins + ClearedBy(r) == u.failedLogins
                  && (r.unlocked <==> e.CommandUnlock?)
                  && (r.unlocked || v.lockedUntil == u.lockedUntil))
  {
    if e.Finish? && e.id in s.pending {
      CommitLockEffect(c, s.account, s.pending[e.id], e.works);
    }
  }

  /** `v` is `u` after one counted failure at `now`. */
  ghost predicate Fails(u: User, v: User, r: Report, now: int) {
    && !Blocked(u, false, now)
    && v.failedLogins == LockFailure(u, now).failedLogins
    && v.lockedUntil == LockFailure(u, now).lockedUntil
    && v.lockoutMailedAt == LockFailure(u, now).lockoutMailedAt
    && r.lockedAt == (if Locks(u) then Some(now) else None)
    && r.mailedAt == (if Mails(u, now) then Some(now) else None)
  }

  lemma CommitLockEffect(c: Crypto, a: Account, p: Pending, works: bool)
    requires Bounded(a.row)
    ensures var u, v, r := a.row, Commit(c, a, p, works).change.account.row, Commit(c, a, p, works).change.report;
            && Bounded(v) && !r.unlocked
            && (if r.countedAt.Some? then r.cleared.None? && Fails(u, v, r, r.countedAt.value)
                else
                  && r.lockedAt.None? && r.mailedAt.None? && v.lockoutMailedAt == u.lockoutMailedAt
                  && v.failedLogins + ClearedBy(r) == u.failedLogins && v.lockedUntil == u.lockedUntil)
  {
  }

  /** Over every run, whatever the clocks said: the failures counted are the ten each lock
      took, the ones still on the counter and the ones cleared; and the counters stay
      below ten and at most twenty. */
  lemma {:induction false} LockoutLedger(c: Crypto, s: State, events: seq<Event>)
    requires Bounded(s.account.row)
    ensures var after, log := Run(c, s, events).account.row, Log(c, s, events);
            && Bounded(after)
            && CountedIn(log) + s.account.row.failedLogins == LOCK_AFTER * LocksIn(log) + after.failedLogins + ClearedIn(log)
    decreases |events|
  {
    if events != [] {
      LockEffect(c, s, events[0]);
      LockoutLedger(c, Step(c, s, events[0]), events[1..]);
      assert Log(c, s, events)[1..] == Log(c, Step(c, s, events[0]), events[1..]);
    }
  }

  /** A check is decided once and a use recorded once. */
  lemma OnlyOnce(c: Crypto, s: State, id: nat, works: bool)
    ensures id !in Step(c, s, Finish(id, works)).pending && id !in Step(c, s, RecordUse(id)).lookups
    ensures id !in s.pending ==> Step(c, s, Finish(id, works)) == s
    ensures id !in s.lookups ==> Step(c, s, RecordUse(id)) == s
  {
    var s1, s2 := Step(c, s, Finish(id, works)), Step(c, s, RecordUse(id));
    assert id !in s.pending ==> s1.pending == s.pending;
    assert id !in s.lookups ==> s2.lookups == s.lookups;
  }

  // ----- positions in a run -----

  lemma {:induction false} LogLength(c: Crypto, s: State, events: seq<Event>)
    ensures |Log(c, s, events)| == |events|
    decreases |events|
  {
    if events != [] {
      LogLength(c, Step(c, s, events[0]), events[1..]);
    }
  }

  /** The log from position `i` on is the log of the rest of the run. */
  lemma {:induction false} LogSplit(c: Crypto, s: State, events: seq<Event>, i: nat)
    requires i < |events|
    ensures |Log(c, s, events)| == |events|
    ensures var at := Run(c, s, events[..i]);
            && Log(c, s, events)[i] == Effect(c, at, events[i]).report
            && Log(c, s, events)[i + 1..] == Log(c, Step(c, at, events[i]), events[i + 1..])
    decreases |events|
  {
    LogLength(c, s, events);
    var rest := events[1..];
    if i > 0 {
      LogSplit(c, Step(c, s, events[0]), rest, i - 1);
      assert events[..i][0] == events[0] && events[..i][1..] == rest[..i - 1];
      assert rest[i..] == events[i + 1..];
    }
  }

  lemma {:induction false} StaysBounded(c: Crypto, s: State, events: seq<Event>)
    requires Bounded(s.account.row)
    ensures Bounded(Run(c, s, events).account.row)
    decreases |events|
  {
    if events != [] {
      LockEffect(c, s, events[0]);
      StaysBounded(c, Step(c, s, events[0]), events[1..]);
    }
  }

  // ----- lockout: spacing -----

  /** Two locks without an unlock between them start at least 900 s apart. */
  lemma LocksApart(c: Crypto, s: State, events: seq<Event>, i: nat, j: nat)
    requires Bounded(s.account.row) && i < j < |events| == |Log(c, s, events)|
    requires Log(c, s, events)[i].lockedAt.Some? && Log(c, s, events)[j].lockedAt.Some?
    requires forall k :: i < k < j ==> !events[k].CommandUnlock?
    ensures Log(c, s, events)[j].lockedAt.value >= Log(c, s, events)[i].lockedAt.value + LOCK_SECONDS
  {
    StaysBounded(c, s, events[..i]);
    LogSplit(c, s, events, i);
    var at := Run(c, s, events[..i]);
    LockEffect(c, at, events[i]);
    LockHolds(c, Step(c, at, events[i]), events[i + 1..], Log(c, s, events)[i].lockedAt.value + LOCK_SECONDS, j - i - 1);
  }

  lemma {:induction false} LockHolds(c: Crypto, s: State, events: seq<Event>, until: int, j: nat)
    requires Bounded(s.account.row) && j < |events| == |Log(c, s, events)|
    requires s.account.row.lockedUntil.Some? && s.account.row.lockedUntil.value >= until
    requires forall k :: 0 <= k < j ==> !events[k].CommandUnlock?
    ensures Log(c, s, events)[j].lockedAt.Some? ==> Log(c, s, events)[j].lockedAt.value >= until
    decreases |events|
  {
    LockEffect(c, s, events[0]);
    if j > 0 {
      LockHolds(c, Step(c, s, events[0]), events[1..], until, j - 1);
    }
  }

  /** A lockout mail after one at `t` goes out at `t` again or at least 24 h later. */
  lemma LockoutMailsApart(c: Crypto, s: State, events: seq<Event>, i: nat, j: nat)
    requires Bounded(s.account.row) && i < j < |events| == |Log(c, s, events)|
    requires Log(c, s, events)[i].mailedAt.Some? && Log(c, s, events)[j].mailedAt.Some?
    ensures var t, u := Log(c, s, events)[i].mailedAt.value, Log(c, s, events)[j].mailedAt.value;
            u == t || u >= t + LOCKOUT_MAIL_SECONDS
  {
    var next := AfterMail(c, s, events, i);
    MailTimeHolds(c, next, events[i + 1..], Log(c, s, events)[i].mailedAt.value, j - i - 1);
  }

  lemma AfterMail(c: Crypto, s: State, events: seq<Event>, i: nat) returns (next: State)
    requires Bounded(s.account.row) && i < |events| == |Log(c, s, events)| && Log(c, s, events)[i].mailedAt.Some?
    ensures Log(c, next, events[i + 1..]) == Log(c, s, events)[i + 1..]
    ensures Bounded(next.account.row) && LockedPastMail(next.account.row, Log(c, s, events)[i].mailedAt.value)
  {
    StaysBounded(c, s, events[..i]);
    LogSplit(c, s, events, i);
    var at := Run(c, s, events[..i]);
    LockEffect(c, at, events[i]);
    next := Step(c, at, events[i]);
  }

  /** Without an unlock between them it goes out at least 24 h later. */
  lemma LockoutMailsDayApart(c: Crypto, s: State, events: seq<Event>, i: nat, j: nat)
    requires Bounded(s.account.row) && i < j < |events| == |Log(c, s, events)|
    requires Log(c, s, events)[i].mailedAt.Some? && Log(c, s, events)[j].mailedAt.Some?
    requires forall k :: i < k < j ==> !events[k].CommandUnlock?
    ensures Log(c, s, events)[j].mailedAt.value >= Log(c, s, events)[i].mailedAt.value + LOCKOUT_MAIL_SECONDS
  {
    var next := AfterMail(c, s, events, i);
    MailTimeLocked(c, next, events[i + 1..], Log(c, s, events)[i].mailedAt.value, j - i - 1);
  }

  ghost predicate MailedSince(u: User, t: int) {
    u.lockoutMailedAt.Some? && (u.lockoutMailedAt.value == t || u.lockoutMailedAt.value >= t + LOCKOUT_MAIL_SECONDS)
  }

  lemma {:induction false} MailTimeHolds(c: Crypto, s: State, events: seq<Event>, t: int, j: nat)
    requires Bounded(s.account.row) && j < |events| == |Log(c, s, events)|
    requires MailedSince(s.account.row, t)
    ensures var u := Log(c, s, events)[j].mailedAt; u.Some? ==> u.value == t || u.value >= t + LOCKOUT_MAIL_SECONDS
    decreases |events|
  {
    LockEffect(c, s, events[0]);
    if j > 0 {
      MailTimeHolds(c, Step(c, s, events[0]), events[1..], t, j - 1);
    }
  }

  /** The lock that the last mail announced outlasts the second it was mailed in. */
  ghost predicate LockedPastMail(u: User, t: int) {
    MailedSince(u, t) && u.lockedUntil.Some? && u.lockedUntil.value >= u.lockoutMailedAt.value + LOCK_SECONDS
  }

  lemma {:induction false} MailTimeLocked(c: Crypto, s: State, events: seq<Event>, t: int, j: nat)
    requires Bounded(s.account.row) && j < |events| == |Log(c, s, events)|
    requires LockedPastMail(s.account.row, t)
    requires forall k :: 0 <= k < j ==> !events[k].CommandUnlock?
    ensures var u := Log(c, s, events)[j].mailedAt; u.Some? ==> u.value >= t + LOCKOUT_MAIL_SECONDS
    decreases |events|
  {
    LockEffect(c, s, events[0]);
    if j > 0 {
      MailTimeLocked(c, Step(c, s, events[0]), events[1..], t, j - 1);
    }
  }

  /** A failure mails exactly when it locks and the last mail is a day old, or of this very
      second, or there was none. */
  lemma MailsExactly(u: User, now: int)
    ensures Mails(u, now) <==>
              u.failedLogins >= 9
              && (u.lockoutMailedAt.None? || u.lockoutMailedAt.value <= now - 86_400 || u.lockoutMailedAt.value == now)
  {
  }

  /** One lock keeps the 24 hours exactly when the last mail is not of this very second. */
  lemma MailKeepsDayWhen(u: User, now: int)
    requires Locks(u)
    ensures (Mails(u, now) ==> MailDue(u, now)) <==> u.lockoutMailedAt != Some(now)
  {
  }

  /** `n` sign-ins at time 0, one after the other, without a device and with a password
      that is not the account's. */
  function FailingChecks(n: nat): seq<Event> {
    seq(2 * n, i => if i % 2 == 0 then Begin(0, Attempt("", "", None), DisableTotp, 0) else Finish(0, true))
  }

  ghost predicate Rejects(c: Crypto, u: User) {
    u.passwordHash.Some? ==> !c.verify("", u.passwordHash.value)
  }

  /** The first of them: what it leaves, and the log and run it heads. */
  lemma FailingCheck(c: Crypto, s: State, n: nat) returns (next: State, reports: seq<Report>)
    requires Rejects(c, s.account.row) && s.account.row.lockedUntil.None? && Bounded(s.account.row)
    requires (s.account.row.lockoutMailedAt.None? || s.account.row.lockoutMailedAt == Some(0)) && n >= 1
    ensures Log(c, s, FailingChecks(n)) == reports + Log(c, next, FailingChecks(n - 1)) && |reports| == 2
    ensures Run(c, s, FailingChecks(n)) == Run(c, next, FailingChecks(n - 1))
    ensures var u, v := s.account.row, next.account.row;
            && v.passwordHash == u.passwordHash
            && if Locks(u) then reports[1].mailedAt == Some(0) && v.failedLogins == 0 && v.lockoutMailedAt == Some(0)
               else v == u.(failedLogins := u.failedLogins + 1)
  {
    var begin, finish, rest := Begin(0, Attempt("", "", None), DisableTotp, 0), Finish(0, true), FailingChecks(n - 1);
    var begun := Step(c, s, begin);
    next := Step(c, begun, finish);
    reports := [Effect(c, s, begin).report, Effect(c, begun, finish).report];
    assert FailingChecks(n) == [begin] + ([finish] + rest);
    TwoEvents(c, s, begin, finish, rest);
  }

  lemma TwoEvents(c: Crypto, s: State, e: Event, f: Event, rest: seq<Event>)
    ensures var next := Step(c, s, e);
            && Log(c, s, [e] + ([f] + rest)) == [Effect(c, s, e).report, Effect(c, next, f).report] + Log(c, Step(c, next, f), rest)
            && Run(c, s, [e] + ([f] + rest)) == Run(c, Step(c, next, f), rest)
  {
    var next := Step(c, s, e);
    LogCons(c, s, e, [f] + rest);
    LogCons(c, next, f, rest);
    RunCons(c, s, e, [f] + rest);
    RunCons(c, next, f, rest);
  }

  /** The one that makes ten locks and mails, also in the second of the last mail. */
  lemma {:induction false} TenthMails(c: Crypto, s: State, n: nat) returns (log: seq<Report>, after: State)
    requires Rejects(c, s.account.row) && s.account.row.lockedUntil.None? && Bounded(s.account.row)
    requires s.account.row.lockoutMailedAt.None? || s.account.row.lockoutMailedAt == Some(0)
    requires n >= 1 && s.account.row.failedLogins + n == LOCK_AFTER
    ensures log == Log(c, s, FailingChecks(n)) && after == Run(c, s, FailingChecks(n))
    ensures |log| == 2 * n && log[2 * n - 1].mailedAt == Some(0)
    ensures after.account.row.failedLogins == 0 && after.account.row.lockoutMailedAt == Some(0)
    ensures after.account.row.passwordHash == s.account.row.passwordHash
    decreases n
  {
    var next, reports := FailingCheck(c, s, n);
    if n > 1 {
      log, after := TenthMails(c, next, n - 1);
    } else {
      log, after := [], next;
    }
    log := reports + log;
  }

  /** With an unlock between them two lockout mails can go out in the same second: twenty
      failing sign-ins of a fresh account, an unlock after ten. */
  lemma LockoutMailRepeats(c: Crypto, s: State, n: nat)
    requires Rejects(c, s.account.row) && n == LOCK_AFTER
    requires s.account.row.failedLogins == s.account.row.deviceFailures == 0
    requires s.account.row.lockedUntil.None? && s.account.row.lockoutMailedAt.None?
    ensures var log := Log(c, s, FailingChecks(n) + ([CommandUnlock] + FailingChecks(n)));
            |log| == 41 && log[19].mailedAt == log[40].mailedAt == Some(0)
  {
    var log, locked := TenthMails(c, s, n);
    var unlocked := Step(c, locked, CommandUnlock);
    var more, _ := TenthMails(c, unlocked, n);
    LogConcat(c, s, FailingChecks(n), [CommandUnlock] + FailingChecks(n));
    LogCons(c, locked, CommandUnlock, FailingChecks(n));
  }

  lemma {:induction false} LogConcat(c: Crypto, s: State, events: seq<Event>, more: seq<Event>)
    ensures Log(c, s, events + more) == Log(c, s, events) + Log(c, Run(c, s, events), more)
    decreases |events|
  {
    if events == [] {
      assert events + more == more;
    } else {
      LogConcat(c, Step(c, s, events[0]), events[1..], more);
      assert events + more == [events[0]] + (events[1..] + more);
      LogCons(c, s, events[0], events[1..] + more);
    }
  }

  lemma RunCons(c: Crypto, s: State, e: Event, rest: seq<Event>)
    ensures Run(c, s, [e] + rest) == Run(c, Step(c, s, e), rest)
  {
    assert ([e] + rest)[1..] == rest;
  }

  lemma LogCons(c: Crypto, s: State, e: Event, rest: seq<Event>)
    ensures Log(c, s, [e] + rest) == [Effect(c, s, e).report] + Log(c, Step(c, s, e), rest)
  {
  }

  // ----- lockout: how many guesses -----

  lemma {:induction false} NothingCleared(c: Crypto, s: State, events: seq<Event>)
    requires |Log(c, s, events)| == |events| && forall k :: 0 <= k < |events| ==> Log(c, s, events)[k].cleared.None?
    ensures ClearedIn(Log(c, s, events)) == 0 && forall k :: 0 <= k < |events| ==> !events[k].CommandUnlock?
    decreases |events|
  {
    if events != [] {
      var log, rest := Log(c, s, events), Log(c, Step(c, s, events[0]), events[1..]);
      assert log[0] == Effect(c, s, events[0]).report && log[1..] == rest;
      assert forall k :: 0 <= k < |events| - 1 ==> rest[k] == log[k + 1];
      NothingCleared(c, Step(c, s, events[0]), events[1..]);
      assert forall k :: 0 < k < |events| ==> events[k] == events[1..][k - 1];
    }
  }

  /** The times of one kind are `gap` seconds apart, in the order of the log. */
  ghost predicate Spaced(log: seq<Report>, time: Report -> Option<int>, gap: int) {
    forall i, j :: 0 <= i < j < |log| && time(log[i]).Some? && time(log[j]).Some? ==>
      time(log[j]).value >= time(log[i]).value + gap
  }

  ghost predicate Within(log: seq<Report>, time: Report -> Option<int>, begin: int, end: int) {
    forall k :: 0 <= k < |log| && time(log[k]).Some? ==> begin <= time(log[k]).value <= end
  }

  /** So many fit between `begin` and `end`. */
  lemma {:induction false} SpacedFit(log: seq<Report>, time: Report -> Option<int>, gap: nat, begin: int, end: int)
    requires Spaced(log, time, gap) && Within(log, time, begin, end)
    ensures var n := CountOf(log, time); n == 0 || Intervals(n - 1, gap) <= end - begin
  {
    if log != [] {
      var rest := log[1..];
      assert forall k :: 0 <= k < |rest| ==> rest[k] == log[k + 1];
      SpacedFit(rest, time, gap, if time(log[0]).Some? then time(log[0]).value + gap else begin, end);
    }
  }

  lemma SpanFits(log: seq<Report>, time: Report -> Option<int>, gap: nat, begin: int, width: nat)
    requires gap > 0 && Spaced(log, time, gap) && Within(log, time, begin, begin + width)
    ensures CountOf(log, time) <= width / gap + 1
  {
    SpacedFit(log, time, gap, begin, begin + width);
    var n := CountOf(log, time);
    if n > 0 {
      IntervalsIsProduct(n - 1, gap);
      QuotientBound(n - 1, gap, width);
    }
  }

  lemma LocksAreSpaced(c: Crypto, s: State, events: seq<Event>)
    requires Bounded(s.account.row) && |Log(c, s, events)| == |events|
    requires forall k :: 0 <= k < |events| ==> !events[k].CommandUnlock?
    ensures Spaced(Log(c, s, events), LockTime, LOCK_SECONDS)
  {
    var log := Log(c, s, events);
    forall i, j | 0 <= i < j < |log| && log[i].lockedAt.Some? && log[j].lockedAt.Some?
      ensures log[j].lockedAt.value >= log[i].lockedAt.value + LOCK_SECONDS
    {
      LocksApart(c, s, events, i, j);
    }
  }

  /** In any stretch of any run without a success or an unlock, if the failures counted
      without a known device fall in a span of `width` seconds, there are at most ten for
      every 900 s begun, and nine. */
  lemma FailuresInSpan(c: Crypto, s: State, events: seq<Event>, begin: int, width: nat)
    requires Bounded(s.account.row) && |Log(c, s, events)| == |events|
    requires forall k :: 0 <= k < |events| ==> Log(c, s, events)[k].cleared.None?
    requires Within(Log(c, s, events), CountTime, begin, begin + width)
    ensures CountedIn(Log(c, s, events)) <= LOCK_AFTER * (width / LOCK_SECONDS + 1) + LOCK_AFTER - 1
  {
    NothingCleared(c, s, events);
    LockoutLedger(c, s, events);
    LocksInSpan(c, s, events, begin, width);
  }

  lemma LocksInSpan(c: Crypto, s: State, events: seq<Event>, begin: int, width: nat)
    requires Bounded(s.account.row) && |Log(c, s, events)| == |events|
    requires forall k :: 0 <= k < |events| ==> !events[k].CommandUnlock?
    requires Within(Log(c, s, events), CountTime, begin, begin + width)
    ensures LocksIn(Log(c, s, events)) <= width / LOCK_SECONDS + 1
  {
    var log := Log(c, s, events);
    LocksAreSpaced(c, s, events);
    forall k | 0 <= k < |log| && log[k].lockedAt.Some? ensures begin <= log[k].lockedAt.value <= begin + width {
      LockIsCounted(c, s, events, k);
      assert CountTime(log[k]).Some?;
    }
    SpanFits(log, LockTime, LOCK_SECONDS, begin, width);
  }

  lemma LockIsCounted(c: Crypto, s: State, events: seq<Event>, k: nat)
    requires Bounded(s.account.row) && k < |events| == |Log(c, s, events)| && Log(c, s, events)[k].lockedAt.Some?
    ensures Log(c, s, events)[k].countedAt == Log(c, s, events)[k].lockedAt
  {
    LogSplit(c, s, events, k);
    StaysBounded(c, s, events[..k]);
    LockEffect(c, Run(c, s, events[..k]), events[k]);
  }

  // ----- the device window -----

  /** Failures the open window still takes. */
  function Room(u: User): int {
    if u.deviceWindowStart.None? then 0 else DEVICE_FAILURES_MAX - u.deviceFailures
  }

  /** What one transaction does to the window. */
  lemma DeviceEffect(c: Crypto, s: State, e: Event)
    requires Bounded(s.account.row)
    ensures var u, v, r := s.account.row, Effect(c, s, e).account.row, Effect(c, s, e).report;
            && Room(v) + (if r.deviceCountedAt.Some? then 1 else 0) <= Room(u) + (if r.windowAt.Some? then DEVICE_FAILURES_MAX else 0)
            && (r.windowAt.Some? ==>
                 WindowOver(u, r.windowAt.value) && v.deviceWindowStart == r.windowAt == r.deviceCountedAt)
            && (r.windowAt.None? && r.cleared.None? ==> v.deviceWindowStart == u.deviceWindowStart)
  {
    if e.Finish? && e.id in s.pending {
      CommitDeviceEffect(c, s.account, s.pending[e.id], e.works);
    }
  }

  lemma CommitDeviceEffect(c: Crypto, a: Account, p: Pending, works: bool)
    requires Bounded(a.row)
    ensures var u, v, r := a.row, Commit(c, a, p, works).change.account.row, Commit(c, a, p, works).change.report;
            && Room(v) + (if r.deviceCountedAt.Some? then 1 else 0) <= Room(u) + (if r.windowAt.Some? then DEVICE_FAILURES_MAX else 0)
            && (r.windowAt.Some? ==>
                 WindowOver(u, r.windowAt.value) && v.deviceWindowStart == r.windowAt == r.deviceCountedAt)
            && (r.windowAt.None? && r.cleared.None? ==> v.deviceWindowStart == u.deviceWindowStart)
  {
  }

  /** Over every run, known devices get at most twenty counted failures per window, and
      what was left of the first. */
  lemma {:induction false} DeviceLedger(c: Crypto, s: State, events: seq<Event>)
    requires Bounded(s.account.row)
    ensures var after, log := Run(c, s, events).account.row, Log(c, s, events);
            DeviceCountedIn(log) + Room(after) <= DEVICE_FAILURES_MAX * WindowsIn(log) + Room(s.account.row)
    decreases |events|
  {
    if events != [] {
      DeviceEffect(c, s, events[0]);
      LockEffect(c, s, events[0]);
      DeviceLedger(c, Step(c, s, events[0]), events[1..]);
      assert Log(c, s, events)[1..] == Log(c, Step(c, s, events[0]), events[1..]);
    }
  }

  /** Windows without a success or an unlock between them start an hour apart. */
  lemma WindowsApart(c: Crypto, s: State, events: seq<Event>, i: nat, j: nat)
    requires Bounded(s.account.row) && i < j < |events| == |Log(c, s, events)|
    requires Log(c, s, events)[i].windowAt.Some? && Log(c, s, events)[j].windowAt.Some?
    requires forall k :: i < k < j ==> Log(c, s, events)[k].cleared.None?
    ensures Log(c, s, events)[j].windowAt.value >= Log(c, s, events)[i].windowAt.value + DEVICE_WINDOW_SECONDS
  {
    var log := Log(c, s, events);
    var next := AfterWindow(c, s, events, i);
    var rest := Log(c, next, events[i + 1..]);
    assert forall k :: 0 <= k < j - i - 1 ==> rest[k] == log[i + 1 + k];
    WindowHolds(c, next, events[i + 1..], log[i].windowAt.value, j - i - 1);
  }

  lemma AfterWindow(c: Crypto, s: State, events: seq<Event>, i: nat) returns (next: State)
    requires Bounded(s.account.row) && i < |events| == |Log(c, s, events)| && Log(c, s, events)[i].windowAt.Some?
    ensures Log(c, next, events[i + 1..]) == Log(c, s, events)[i + 1..]
    ensures Bounded(next.account.row) && next.account.row.deviceWindowStart == Log(c, s, events)[i].windowAt
  {
    StaysBounded(c, s, events[..i]);
    LogSplit(c, s, events, i);
    var at := Run(c, s, events[..i]);
    LockEffect(c, at, events[i]);
    DeviceEffect(c, at, events[i]);
    next := Step(c, at, events[i]);
  }

  lemma WindowStays(c: Crypto, s: State, e: Event, start: int)
    requires Bounded(s.account.row)
    requires s.account.row.deviceWindowStart.Some? && s.account.row.deviceWindowStart.value >= start
    ensures var v, r := Step(c, s, e).account.row, Effect(c, s, e).report;
            && Bounded(v) && (r.windowAt.Some? ==> r.windowAt.value >= start + DEVICE_WINDOW_SECONDS)
            && (r.cleared.None? ==> v.deviceWindowStart.Some? && v.deviceWindowStart.value >= start)
  {
    DeviceEffect(c, s, e);
    LockEffect(c, s, e);
  }

  lemma {:induction false} WindowHolds(c: Crypto, s: State, events: seq<Event>, start: int, j: nat)
    requires Bounded(s.account.row) && j < |events| == |Log(c, s, events)|
    requires s.account.row.deviceWindowStart.Some? && s.account.row.deviceWindowStart.value >= start
    requires forall k :: 0 <= k < j ==> Log(c, s, events)[k].cleared.None?
    ensures var at := Log(c, s, events)[j].windowAt; at.Some? ==> at.value >= start + DEVICE_WINDOW_SECONDS
    decreases |events|
  {
    WindowStays(c, s, events[0], start);
    if j > 0 {
      var log, rest := Log(c, s, events), Log(c, Step(c, s, events[0]), events[1..]);
      assert log[0] == Effect(c, s, events[0]).report;
      assert forall k :: 0 <= k < j - 1 ==> rest[k] == log[k + 1];
      WindowHolds(c, Step(c, s, events[0]), events[1..], start, j - 1);
    }
  }

  /** In any stretch of any run without a success or an unlock, if the failures counted
      from known devices fall in a span of `width` seconds, there are at most twenty for
      every hour begun, and what the first window still took. */
  lemma DeviceFailuresInSpan(c: Crypto, s: State, events: seq<Event>, begin: int, width: nat)
    requires Bounded(s.account.row) && |Log(c, s, events)| == |events|
    requires forall k :: 0 <= k < |events| ==> Log(c, s, events)[k].cleared.None?
    requires Within(Log(c, s, events), DeviceCountTime, begin, begin + width)
    ensures DeviceCountedIn(Log(c, s, events)) <=
              DEVICE_FAILURES_MAX * (width / DEVICE_WINDOW_SECONDS + 1) + Room(s.account.row)
  {
    DeviceLedger(c, s, events);
    StaysBounded(c, s, events);
    WindowsInSpan(c, s, events, begin, width);
  }

  lemma WindowsInSpan(c: Crypto, s: State, events: seq<Event>, begin: int, width: nat)
    requires Bounded(s.account.row) && |Log(c, s, events)| == |events|
    requires forall k :: 0 <= k < |events| ==> Log(c, s, events)[k].cleared.None?
    requires Within(Log(c, s, events), DeviceCountTime, begin, begin + width)
    ensures WindowsIn(Log(c, s, events)) <= width / DEVICE_WINDOW_SECONDS + 1
  {
    var log := Log(c, s, events);
    WindowsAreSpaced(c, s, events);
    forall k | 0 <= k < |log| && log[k].windowAt.Some? ensures begin <= log[k].windowAt.value <= begin + width {
      WindowIsCounted(c, s, events, k);
      assert DeviceCountTime(log[k]).Some?;
    }
    SpanFits(log, WindowTime, DEVICE_WINDOW_SECONDS, begin, width);
  }

  lemma WindowsAreSpaced(c: Crypto, s: State, events: seq<Event>)
    requires Bounded(s.account.row) && |Log(c, s, events)| == |events|
    requires forall k :: 0 <= k < |events| ==> Log(c, s, events)[k].cleared.None?
    ensures Spaced(Log(c, s, events), WindowTime, DEVICE_WINDOW_SECONDS)
  {
    var log := Log(c, s, events);
    forall i, j | 0 <= i < j < |log| && log[i].windowAt.Some? && log[j].windowAt.Some?
      ensures log[j].windowAt.value >= log[i].windowAt.value + DEVICE_WINDOW_SECONDS
    {
      WindowsApart(c, s, events, i, j);
    }
  }

  lemma WindowIsCounted(c: Crypto, s: State, events: seq<Event>, k: nat)
    requires Bounded(s.account.row) && k < |events| == |Log(c, s, events)| && Log(c, s, events)[k].windowAt.Some?
    ensures Log(c, s, events)[k].deviceCountedAt == Log(c, s, events)[k].windowAt
  {
    LogSplit(c, s, events, k);
    StaysBounded(c, s, events[..k]);
    DeviceEffect(c, Run(c, s, events[..k]), events[k]);
  }

  // ----- second factor -----

  /** What one transaction does to the second factor. */
  lemma FactorEffect(c: Crypto, s: State, e: Event)
    ensures var a, b, r := s.account, Effect(c, s, e).account, Effect(c, s, e).report;
            && (r.spent.LaterStep? ==> a.row.totpNonce.Some? && Later(a.row.totpLastStep, r.spent.step))
            && (r.spent.UnusedCode? ==> a.row.totpNonce.Some? && r.spent.code in a.codes)
            && (r.enrolled.None? && !r.unenrolled ==>
                 && b.row.totpNonce == a.row.totpNonce
                 && b.row.totpLastStep == if r.spent.LaterStep? then Some(r.spent.step) else a.row.totpLastStep)
            && (r.enrolled.Some? ==> r.spent.NotEnrolled? && b.row.totpLastStep == r.enrolled)
            && b.codes == match r.drawn
                          case Some(drawn) => drawn
                          case None => if r.spent.UnusedCode? then a.codes - {r.spent.code} else a.codes
  {
    if e.Finish? && e.id in s.pending {
      CommitFactorEffect(c, s.account, s.pending[e.id], e.works);
    }
  }

  ghost predicate Later(last: Option<int>, step: int) {
    last.None? || last.value < step
  }

  lemma CommitFactorEffect(c: Crypto, a: Account, p: Pending, works: bool)
    ensures var b, r := Commit(c, a, p, works).change.account, Commit(c, a, p, works).change.report;
            && r.enrolled.None?
            && (r.spent.LaterStep? ==> a.row.totpNonce.Some? && Later(a.row.totpLastStep, r.spent.step))
            && (r.spent.UnusedCode? ==> a.row.totpNonce.Some? && r.spent.code in a.codes)
            && (!r.unenrolled ==>
                 && b.row.totpNonce == a.row.totpNonce
                 && b.row.totpLastStep == if r.spent.LaterStep? then Some(r.spent.step) else a.row.totpLastStep)
            && b.codes == match r.drawn
                          case Some(drawn) => drawn
                          case None => if r.spent.UnusedCode? then a.codes - {r.spent.code} else a.codes
  {
  }

  /** Within one enrollment, every accepted step is later than each one accepted before,
      the enrolling one included (section 5.2 of RFC 6238). */
  lemma StepsIncrease(c: Crypto, s: State, events: seq<Event>, i: nat, j: nat, step: int)
    requires i < j < |events| == |Log(c, s, events)|
    requires var log := Log(c, s, events);
             && (log[i].spent == LaterStep(step) || log[i].enrolled == Some(step)) && !log[i].unenrolled
             && forall k :: i < k < j ==> log[k].enrolled.None? && !log[k].unenrolled
    ensures var later := Log(c, s, events)[j].spent; later.LaterStep? ==> later.step > step
  {
    var log := Log(c, s, events);
    var next := AfterStep(c, s, events, i, step);
    var rest := Log(c, next, events[i + 1..]);
    assert forall k :: 0 <= k < j - i - 1 ==> rest[k] == log[i + 1 + k];
    StepsStayLater(c, next, events[i + 1..], step, j - i - 1);
  }

  ghost predicate AcceptedUpTo(u: User, step: int) {
    u.totpLastStep.Some? && u.totpLastStep.value >= step
  }

  lemma AfterStep(c: Crypto, s: State, events: seq<Event>, i: nat, step: int) returns (next: State)
    requires i < |events| == |Log(c, s, events)| && !Log(c, s, events)[i].unenrolled
    requires Log(c, s, events)[i].spent == LaterStep(step) || Log(c, s, events)[i].enrolled == Some(step)
    ensures Log(c, next, events[i + 1..]) == Log(c, s, events)[i + 1..] && AcceptedUpTo(next.account.row, step)
  {
    LogSplit(c, s, events, i);
    var at := Run(c, s, events[..i]);
    FactorEffect(c, at, events[i]);
    next := Step(c, at, events[i]);
  }

  lemma AcceptsLater(c: Crypto, s: State, e: Event, step: int)
    requires AcceptedUpTo(s.account.row, step)
    ensures var r := Effect(c, s, e).report;
            && (r.spent.LaterStep? ==> r.spent.step > step)
            && (r.enrolled.None? && !r.unenrolled ==> AcceptedUpTo(Step(c, s, e).account.row, step))
  {
    FactorEffect(c, s, e);
  }

  lemma {:induction false} StepsStayLater(c: Crypto, s: State, events: seq<Event>, step: int, j: nat)
    requires j < |events| == |Log(c, s, events)| && AcceptedUpTo(s.account.row, step)
    requires forall k :: 0 <= k < j ==> Log(c, s, events)[k].enrolled.None? && !Log(c, s, events)[k].unenrolled
    ensures var later := Log(c, s, events)[j].spent; later.LaterStep? ==> later.step > step
    decreases |events|
  {
    AcceptsLater(c, s, events[0], step);
    if j > 0 {
      var log, rest := Log(c, s, events), Log(c, Step(c, s, events[0]), events[1..]);
      assert log[0] == Effect(c, s, events[0]).report;
      assert forall k :: 0 <= k < j - 1 ==> rest[k] == log[k + 1];
      StepsStayLater(c, Step(c, s, events[0]), events[1..], step, j - 1);
    }
  }

  /** A recovery code that was spent, or was not among newly drawn ones, never works again
      unless it is drawn again. */
  lemma CodesOnce(c: Crypto, s: State, events: seq<Event>, i: nat, j: nat, code: Digest)
    requires i < j < |events| == |Log(c, s, events)|
    requires var log := Log(c, s, events);
             && (log[i].spent == UnusedCode(code) || log[i].drawn.Some?)
             && forall k :: i <= k < j && log[k].drawn.Some? ==> code !in log[k].drawn.value
    ensures Log(c, s, events)[j].spent != UnusedCode(code)
  {
    LogSplit(c, s, events, i);
    var at, log := Run(c, s, events[..i]), Log(c, s, events);
    FactorEffect(c, at, events[i]);
    var rest := Log(c, Step(c, at, events[i]), events[i + 1..]);
    assert forall k :: 0 <= k < j - i - 1 ==> rest[k] == log[i + 1 + k];
    CodeStaysGone(c, Step(c, at, events[i]), events[i + 1..], code, j - i - 1);
  }

  lemma CodeEffect(c: Crypto, s: State, e: Event, code: Digest)
    requires code !in s.account.codes
    ensures var r := Effect(c, s, e).report;
            && r.spent != UnusedCode(code)
            && ((r.drawn.Some? ==> code !in r.drawn.value) ==> code !in Step(c, s, e).account.codes)
  {
    FactorEffect(c, s, e);
  }

  lemma {:induction false} CodeStaysGone(c: Crypto, s: State, events: seq<Event>, code: Digest, j: nat)
    requires j < |events| == |Log(c, s, events)|
    requires code !in s.account.codes
    requires forall k :: 0 <= k < j && Log(c, s, events)[k].drawn.Some? ==> code !in Log(c, s, events)[k].drawn.value
    ensures Log(c, s, events)[j].spent != UnusedCode(code)
    decreases |events|
  {
    CodeEffect(c, s, events[0], code);
    if j > 0 {
      var log, rest := Log(c, s, events), Log(c, Step(c, s, events[0]), events[1..]);
      assert log[0] == Effect(c, s, events[0]).report;
      assert forall k :: 0 <= k < j - 1 ==> rest[k] == log[k + 1];
      CodeStaysGone(c, Step(c, s, events[0]), events[1..], code, j - 1);
    }
  }

  // ----- reset links -----

  ghost predicate Dead(r: Rows, hash: Digest) {
    hash in r.links ==> r.links[hash].usedAt.Some?
  }

  ghost predicate OneUnused(r: Rows) {
    forall g, h :: g in r.links && h in r.links && r.links[g].usedAt.None? && r.links[h].usedAt.None? ==> g == h
  }

  /** What one transaction does to the links. */
  lemma LinkEffect(c: Crypto, s: State, e: Event)
    ensures var a, b, r := s.account.signIn, Effect(c, s, e).account.signIn, Effect(c, s, e).report;
            && (r.linkUsed.Some? ==> !Dead(a, r.linkUsed.value) && r.linksEnded && r.passwordSet)
            && (r.passwordSet || r.linkIssued.Some? ==> r.linksEnded)
            && (OneUnused(a) ==> OneUnused(b))
            && forall h: Digest :: r.linkIssued != Some(h) && (Dead(a, h) || r.linksEnded) ==> Dead(b, h)
  {
    if e.Finish? && e.id in s.pending {
      CommitLinkEffect(c, s.account, s.pending[e.id], e.works);
    }
  }

  lemma CommitLinkEffect(c: Crypto, a: Account, p: Pending, works: bool)
    ensures var b, r := Commit(c, a, p, works).change.account.signIn, Commit(c, a, p, works).change.report;
            && r.linkUsed.None? && r.linkIssued.None? && (r.linksEnded <==> r.passwordSet)
            && b.links == if r.linksEnded then AllUsed(a.signIn.links, p.now) else a.signIn.links
  {
  }

  /** Once a newer link is issued, a password is set, or its mail is given up, a link
      sets no password any more, unless the same token is issued again. In particular
      each link sets a password at most once. */
  lemma LinksEnd(c: Crypto, s: State, events: seq<Event>, i: nat, j: nat, hash: Digest)
    requires i < j < |events| == |Log(c, s, events)|
    requires var log := Log(c, s, events);
             && (events[i].GiveUpMail? || log[i].passwordSet || log[i].linkIssued.Some? || log[i].linkUsed.Some?)
             && forall k :: i <= k < j ==> log[k].linkIssued != Some(hash)
    ensures Log(c, s, events)[j].linkUsed != Some(hash)
  {
    LogSplit(c, s, events, i);
    var at, log := Run(c, s, events[..i]), Log(c, s, events);
    LinkEffect(c, at, events[i]);
    var rest := Log(c, Step(c, at, events[i]), events[i + 1..]);
    assert forall k :: 0 <= k < j - i - 1 ==> rest[k] == log[i + 1 + k];
    LinkStaysDead(c, Step(c, at, events[i]), events[i + 1..], hash, j - i - 1);
  }

  lemma {:induction false} LinkStaysDead(c: Crypto, s: State, events: seq<Event>, hash: Digest, j: nat)
    requires j < |events| == |Log(c, s, events)|
    requires Dead(s.account.signIn, hash)
    requires forall k :: 0 <= k < j ==> Log(c, s, events)[k].linkIssued != Some(hash)
    ensures Log(c, s, events)[j].linkUsed != Some(hash)
    decreases |events|
  {
    LinkEffect(c, s, events[0]);
    if j > 0 {
      var log, rest := Log(c, s, events), Log(c, Step(c, s, events[0]), events[1..]);
      assert log[0] == Effect(c, s, events[0]).report;
      assert forall k :: 0 <= k < j - 1 ==> rest[k] == log[k + 1];
      LinkStaysDead(c, Step(c, s, events[0]), events[1..], hash, j - 1);
    }
  }

  /** Two unused links never stand side by side. */
  lemma {:induction false} AtMostOneUnusedLink(c: Crypto, s: State, events: seq<Event>)
    requires OneUnused(s.account.signIn)
    ensures OneUnused(Run(c, s, events).account.signIn)
    decreases |events|
  {
    if events != [] {
      LinkEffect(c, s, events[0]);
      AtMostOneUnusedLink(c, Step(c, s, events[0]), events[1..]);
    }
  }

  // ----- sessions and device cookies -----

  ghost predicate NoDevice(r: Rows, hash: Digest) {
    forall d :: d in r.devices ==> r.devices[d].hash != hash
  }

  /** What one transaction does to sessions and device cookies. */
  lemma SignInEffect(c: Crypto, s: State, e: Event, token: Digest, hash: Digest)
    ensures var a, b, r := s.account.signIn, Effect(c, s, e).account.signIn, Effect(c, s, e).report;
            && (r.sessionNew != Some(token) && (token !in a.sessions || r.passwordSet) ==> token !in b.sessions)
            && (r.deviceNew != Some(hash) && (NoDevice(a, hash) || Forgets(r)) ==> NoDevice(b, hash))
  {
    if e.Finish? && e.id in s.pending {
      CommitSignInEffect(c, s.account, s.pending[e.id], e.works, token, hash);
    }
  }

  /** The transactions that forget every device cookie. */
  predicate Forgets(r: Report) {
    r.passwordSet || r.enrolled.Some? || r.unenrolled
  }

  lemma CommitSignInEffect(c: Crypto, a: Account, p: Pending, works: bool, token: Digest, hash: Digest)
    ensures var b, r := Commit(c, a, p, works).change.account.signIn, Commit(c, a, p, works).change.report;
            && (r.sessionNew != Some(token) && (token !in a.signIn.sessions || r.passwordSet) ==> token !in b.sessions)
            && (r.deviceNew != Some(hash) && (NoDevice(a.signIn, hash) || Forgets(r)) ==> NoDevice(b, hash))
  {
    var d := Decide(c, a, p);
    if d.verdict.Success? && works {
      ActSignInEffect(d.change.account, d.change.report, p.action, p.now, token, hash);
    }
  }

  lemma ActSignInEffect(a: Account, report: Report, action: Action, now: int, token: Digest, hash: Digest)
    requires report == QUIET.(spent := report.spent, cleared := report.cleared)
    ensures var b, r := Act(a, report, action, now).account.signIn, Act(a, report, action, now).report;
            && (r.sessionNew != Some(token) && (token !in a.signIn.sessions || r.passwordSet) ==> token !in b.sessions)
            && (r.deviceNew != Some(hash) && (NoDevice(a.signIn, hash) || Forgets(r)) ==> NoDevice(b, hash))
  {
  }

  /** After a password is set no session from before is there any more, and after that or
      a change of enrollment no device cookie from before is known, unless the same token
      is given out again. */
  lemma SignInsEnd(c: Crypto, s: State, events: seq<Event>, i: nat, token: Digest, hash: Digest, now: int)
    requires i < |events| == |Log(c, s, events)|
    requires forall k :: i <= k < |events| ==>
               Log(c, s, events)[k].sessionNew != Some(token) && Log(c, s, events)[k].deviceNew != Some(hash)
    ensures Log(c, s, events)[i].passwordSet ==> !SessionValid(Run(c, s, events).account.signIn, token, true, now)
    ensures Forgets(Log(c, s, events)[i]) ==> !KnownDevice(Run(c, s, events).account.signIn, hash, now)
  {
    LogSplit(c, s, events, i);
    RunSplit(c, s, events, i);
    var at, log := Run(c, s, events[..i]), Log(c, s, events);
    SignInEffect(c, at, events[i], token, hash);
    var next := Step(c, at, events[i]);
    var rest := Log(c, next, events[i + 1..]);
    assert forall k :: 0 <= k < |events| - i - 1 ==> rest[k] == log[i + 1 + k];
    SignInsStayGone(c, next, events[i + 1..], token, hash);
  }

  lemma {:induction false} RunSplit(c: Crypto, s: State, events: seq<Event>, i: nat)
    requires i < |events|
    ensures Run(c, s, events) == Run(c, Step(c, Run(c, s, events[..i]), events[i]), events[i + 1..])
    decreases |events|
  {
    var rest := events[1..];
    if i > 0 {
      RunSplit(c, Step(c, s, events[0]), rest, i - 1);
      assert events[..i][0] == events[0] && events[..i][1..] == rest[..i - 1];
      assert rest[i..] == events[i + 1..];
    }
  }

  lemma {:induction false} SignInsStayGone(c: Crypto, s: State, events: seq<Event>, token: Digest, hash: Digest)
    requires |Log(c, s, events)| == |events|
    requires forall k :: 0 <= k < |events| ==>
               Log(c, s, events)[k].sessionNew != Some(token) && Log(c, s, events)[k].deviceNew != Some(hash)
    ensures token !in s.account.signIn.sessions ==> token !in Run(c, s, events).account.signIn.sessions
    ensures NoDevice(s.account.signIn, hash) ==> NoDevice(Run(c, s, events).account.signIn, hash)
    decreases |events|
  {
    if events != [] {
      SignInEffect(c, s, events[0], token, hash);
      var log, rest := Log(c, s, events), Log(c, Step(c, s, events[0]), events[1..]);
      assert log[0] == Effect(c, s, events[0]).report;
      assert forall k :: 0 <= k < |events| - 1 ==> rest[k] == log[k + 1];
      SignInsStayGone(c, Step(c, s, events[0]), events[1..], token, hash);
    }
  }

  /** The log tells: a password changes only in a transaction reported to set one, and a
      submitted link sets the one it came with exactly when the link is reported used. */
  lemma PasswordEffect(c: Crypto, s: State, e: Event)
    ensures var a, b, r := s.account, Effect(c, s, e).account, Effect(c, s, e).report;
            && (!r.passwordSet ==> b.row.passwordHash == a.row.passwordHash)
            && (e.UseLink? && LinkValid(a.signIn, e.hash, !a.row.disabled, e.now) ==>
                 r.linkUsed == Some(e.hash) && b.row.passwordHash == Some(e.password))
            && (e.UseLink? && !LinkValid(a.signIn, e.hash, !a.row.disabled, e.now) ==> b == a && r.linkUsed.None?)
            && (!e.UseLink? ==> r.linkUsed.None?)
  {
    if e.Finish? && e.id in s.pending {
      CommitPassword(c, s.account, s.pending[e.id], e.works);
    }
  }

  lemma CommitPassword(c: Crypto, a: Account, p: Pending, works: bool)
    ensures var b, r := Commit(c, a, p, works).change.account, Commit(c, a, p, works).change.report;
            r.linkUsed.None? && (!r.passwordSet ==> b.row.passwordHash == a.row.passwordHash)
  {
  }

  // ----- what a success means -----

  /** What a check done all at once, on the rows as they are, would ask. */
  ghost predicate Passes(c: Crypto, a: Account, attempt: Attempt, known: bool, now: int) {
    && !a.row.disabled && !Blocked(a.row, known, now) && !Oversize(attempt)
    && a.row.passwordHash.Some? && c.verify(attempt.password, a.row.passwordHash.value)
    && match a.row.totpNonce
       case None => a.row.role.Maintainer?
       case Some(nonce) => FreshStep(c, a, nonce, Trim(attempt.code), now) || UnusedRecoveryCode(c, a, Trim(attempt.code))
  }

  /** `text` is the code of a step at most one away from now, later than the last accepted. */
  ghost predicate FreshStep(c: Crypto, a: Account, nonce: Nonce, text: string, now: int) {
    IsTotpCode(text) && exists step :: IsLatestMatch(c, nonce, text, now, step) && Later(a.row.totpLastStep, step)
  }

  ghost predicate UnusedRecoveryCode(c: Crypto, a: Account, text: string) {
    !IsTotpCode(text) && Normalize(text).Some? && c.sha(Normalize(text).value) in a.codes
  }

  /** Every pending check that matched a hash did verify its password against it. */
  ghost predicate PendingVerified(c: Crypto, s: State) {
    forall id :: id in s.pending && s.pending[id].hash.Some? ==>
      !Oversize(s.pending[id].attempt) && c.verify(s.pending[id].attempt.password, s.pending[id].hash.value)
  }

  lemma {:induction false} StaysVerified(c: Crypto, s: State, events: seq<Event>)
    requires PendingVerified(c, s)
    ensures PendingVerified(c, Run(c, s, events))
    decreases |events|
  {
    if events != [] {
      StaysVerified(c, Step(c, s, events[0]), events[1..]);
    }
  }

  /** Whatever happened between a check's read and its transaction, it succeeds exactly
      when a check done at once in the transaction would, and the hash it verified is the
      one still stored, and its action works. */
  lemma SuccessMeans(c: Crypto, s: State, events: seq<Event>, id: nat, works: bool)
    requires PendingVerified(c, s) && id in Run(c, s, events).pending
    ensures var a, p := Run(c, s, events).account, Run(c, s, events).pending[id];
            Commit(c, a, p, works).verdict.Success? <==>
              works && p.hash.Some? && p.hash == a.row.passwordHash && Passes(c, a, p.attempt, p.known, p.now)
  {
    StaysVerified(c, s, events);
    var a, p := Run(c, s, events).account, Run(c, s, events).pending[id];
    if a.row.totpNonce.Some? {
      FactorAccepted(c, a, a.row.totpNonce.value, p.attempt.code, p.now);
    }
  }

  lemma FactorAccepted(c: Crypto, a: Account, nonce: Nonce, input: string, now: int)
    requires a.row.totpNonce == Some(nonce)
    ensures !SecondFactor(c, a, input, now).NotEnrolled?
    ensures !SecondFactor(c, a, input, now).Refused? <==>
              FreshStep(c, a, nonce, Trim(input), now) || UnusedRecoveryCode(c, a, Trim(input))
  {
  }

  /** A success on an enrolled account spends the factor: the step is recorded or the code
      is gone, unless the action replaces them. Anything else spends nothing. */
  lemma SuccessSpends(c: Crypto, a: Account, p: Pending, works: bool)
    ensures var d := Commit(c, a, p, works);
            if d.verdict.Success? then
              && (a.row.totpNonce.Some? <==> !d.change.report.spent.NotEnrolled?) && !d.change.report.spent.Refused?
              && d.change.account.row.failedLogins == d.change.account.row.deviceFailures == 0
              && d.change.account.row.lockedUntil == a.row.lockedUntil
            else
              && d.change.report.spent.NotEnrolled?
              && d.change.account == a.(row := d.change.account.row)
              && d.change.account.row.totpNonce == a.row.totpNonce && d.change.account.row.totpLastStep == a.row.totpLastStep
              && d.change.account.row.passwordHash == a.row.passwordHash
  {
  }
}
