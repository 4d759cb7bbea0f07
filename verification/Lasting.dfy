/** What a success or a reset leaves behind, and for how long: sessions, device cookies,
    links, passwords and enrollments. */
module Lasting {
  import opened Options
  import opened Sets
  import opened SignIn
  import opened RecoveryCodes
  import opened Accounts
  import opened AccountRuns
  import opened Retention

  // ----- a login -----

  /** A login adds one session, with nothing pending, and leaves every other as it was. */
  lemma LoginAddsSession(c: Crypto, a: Account, p: Pending, token: Digest)
    requires var d := Commit(c, a, p, true); d.verdict.Success? && p.action.Login?
    ensures Commit(c, a, p, true).change.report.sessionNew == Some(p.action.session)
    ensures var before, after := a.signIn.sessions, Commit(c, a, p, true).change.account.signIn.sessions;
            if token == p.action.session then
              token in after && after[token].createdAt == after[token].lastSeen == p.now && after[token].pendingNonce.None?
            else
              (token in after <==> token in before) && (token in before ==> after[token] == before[token])
  {
    DecidesAlike(c, a, a.signIn, p);
  }

  lemma OnlyLoginsAdd(c: Crypto, s: State, e: Event)
    ensures var r := Effect(c, s, e).report;
            r.sessionNew.Some? || r.deviceNew.Some? ==>
              && e.Finish? && e.works && e.id in s.pending && s.pending[e.id].action.Login?
              && Commit(c, s.account, s.pending[e.id], true).verdict.Success?
              && (r.deviceNew.Some? ==> r.deviceNew == Some(s.pending[e.id].action.newDevice))
  {
    if e.Finish? && e.id in s.pending {
      CommitAdds(c, s.account, s.pending[e.id], e.works);
    }
  }

  lemma CommitAdds(c: Crypto, a: Account, p: Pending, works: bool)
    ensures var d := Commit(c, a, p, works);
            d.change.report.sessionNew.Some? || d.change.report.deviceNew.Some? ==>
              && works && p.action.Login? && d.verdict.Success?
              && (d.change.report.deviceNew.Some? ==> d.change.report.deviceNew == Some(p.action.newDevice))
  {
  }

  /** A session that a login at `u` gave out and nothing uses or ends is valid for exactly
      twelve hours, over every run, retention up to `t` included. */
  lemma NewSessionLasts(c: Crypto, s: State, e: Event, token: Digest, events: seq<Event>, t: int)
    requires Effect(c, s, e).report.sessionNew == Some(token)
    requires RunLeavesAlone(c, Step(c, s, e), events, token)
    requires forall i :: 0 <= i < |events| && events[i].Retain? ==> events[i].now <= t
    ensures e.Finish? && e.id in s.pending
    ensures var u := s.pending[e.id].now;
            u <= t ==> (SessionValid(Run(c, Step(c, s, e), events).account.signIn, token, true, t) <==> t < u + 43_200)
  {
    OnlyLoginsAdd(c, s, e);
    var u := s.pending[e.id].now;
    LoginAddsSession(c, s.account, s.pending[e.id], token);
    RunLeavesTimes(c, Step(c, s, e), events, token, u, u, t);
  }

  /** A login gives out a device cookie exactly when the request came without a known one;
      then its row has the next id, and otherwise the cookies stay as they were. */
  lemma LoginAddsDevice(c: Crypto, a: Account, p: Pending)
    requires Commit(c, a, p, true).verdict.Success? && p.action.Login?
    ensures var known := p.action.device.Some? && KnownDevice(a.signIn, p.action.device.value, p.now);
            var rows, r := Commit(c, a, p, true).change.account.signIn, Commit(c, a, p, true).change.report;
            if known then r.deviceNew.None? && rows.devices == a.signIn.devices
            else r.deviceNew == Some(p.action.newDevice) && rows == WithDevice(WithSession(a.signIn, p.action.session, p.now), p.action.newDevice, p.now)
  {
    DecidesAlike(c, a, a.signIn, p);
  }

  /** Device cookie `d` is there as given out at `u`, with at most `room` more to come
      before it could be the eleventh. */
  ghost predicate HasDevice(r: Rows, d: nat, hash: Digest, u: int, room: nat) {
    && (forall i :: i in r.devices ==> i < r.nextDevice)
    && d in r.devices && r.devices[d] == Device(hash, u)
    && |NewerThan(r.devices, d)| + room < DEVICES_KEPT
  }

  lemma FewerNewer(all: map<nat, Device>, some: map<nat, Device>, d: nat)
    requires d in all && d in some && forall i :: i in some ==> i in all && some[i] == all[i]
    ensures |NewerThan(some, d)| <= |NewerThan(all, d)|
  {
    assert NewerThan(some, d) <= NewerThan(all, d);
    SubsetSize(NewerThan(some, d), NewerThan(all, d));
  }

  lemma AnotherDevice(r: Rows, d: nat, hash: Digest, u: int, room: nat, added: Digest, now: int)
    requires HasDevice(r, d, hash, u, room) && room >= 1
    ensures HasDevice(WithDevice(r, added, now), d, hash, u, room - 1)
  {
    var all := r.devices[r.nextDevice := Device(added, now)];
    assert NewerThan(all, d) <= NewerThan(r.devices, d) + {r.nextDevice};
    SubsetSize(NewerThan(all, d), NewerThan(r.devices, d) + {r.nextDevice});
    FewerNewer(all, Kept(all), d);
  }

  lemma StepKeepsDevice(c: Crypto, s: State, e: Event, d: nat, hash: Digest, u: int, room: nat, t: int)
    requires HasDevice(s.account.signIn, d, hash, u, room) && t < u + DEVICE_SECONDS && (e.Retain? ==> e.now <= t)
    requires !Forgets(Effect(c, s, e).report) && (Effect(c, s, e).report.deviceNew.Some? ==> room >= 1)
    ensures HasDevice(Step(c, s, e).account.signIn, d, hash, u, if Effect(c, s, e).report.deviceNew.Some? then room - 1 else room)
  {
    if e.Finish? && e.id in s.pending {
      CommitKeepsDevice(c, s.account, s.pending[e.id], e.works, d, hash, u, room);
    } else if e.Retain? {
      FewerNewer(s.account.signIn.devices, Retained(s.account.signIn, e.now).devices, d);
    }
  }

  lemma CommitKeepsDevice(c: Crypto, a: Account, p: Pending, works: bool, d: nat, hash: Digest, u: int, room: nat)
    requires HasDevice(a.signIn, d, hash, u, room)
    requires var r := Commit(c, a, p, works).change.report; !Forgets(r) && (r.deviceNew.Some? ==> room >= 1)
    ensures var b, r := Commit(c, a, p, works).change.account.signIn, Commit(c, a, p, works).change.report;
            HasDevice(b, d, hash, u, if r.deviceNew.Some? then room - 1 else room)
  {
    DecidesAlike(c, a, a.signIn, p);
    if p.action.Login? && works && Commit(c, a, p, works).verdict.Success? {
      LoginAddsDevice(c, a, p);
      var signedIn := WithSession(a.signIn, p.action.session, p.now);
      assert HasDevice(signedIn, d, hash, u, room);
      if Commit(c, a, p, works).change.report.deviceNew.Some? {
        AnotherDevice(signedIn, d, hash, u, room, p.action.newDevice, p.now);
      }
    }
  }

  function DevicesIn(log: seq<Report>): nat {
    if log == [] then 0 else (if log[0].deviceNew.Some? then 1 else 0) + DevicesIn(log[1..])
  }

  lemma {:induction false} RunKeepsDevice(c: Crypto, s: State, events: seq<Event>, d: nat, hash: Digest, u: int, room: nat, t: int)
    requires HasDevice(s.account.signIn, d, hash, u, room) && t < u + DEVICE_SECONDS
    requires |Log(c, s, events)| == |events| && DevicesIn(Log(c, s, events)) <= room
    requires forall i :: 0 <= i < |events| ==> !Forgets(Log(c, s, events)[i]) && (events[i].Retain? ==> events[i].now <= t)
    ensures KnownDevice(Run(c, s, events).account.signIn, hash, t)
    decreases |events|
  {
    if events != [] {
      var log, next := Log(c, s, events), Step(c, s, events[0]);
      var rest := Log(c, next, events[1..]);
      assert log[0] == Effect(c, s, events[0]).report && log[1..] == rest;
      assert forall k :: 0 <= k < |events| - 1 ==> rest[k] == log[k + 1] && events[1..][k] == events[k + 1];
      StepKeepsDevice(c, s, events[0], d, hash, u, room, t);
      RunKeepsDevice(c, next, events[1..], d, hash, u, if log[0].deviceNew.Some? then room - 1 else room, t);
    }
  }

  /** A device cookie that a login at `u` gave out, when none is dated later, is known for a
      year, until every cookie is forgotten or ten more are given out. */
  lemma NewDeviceLasts(c: Crypto, s: State, e: Event, hash: Digest, events: seq<Event>, t: int)
    requires Effect(c, s, e).report.deviceNew == Some(hash) && e.Finish? && e.id in s.pending
    requires forall d :: d in s.account.signIn.devices ==>
               d < s.account.signIn.nextDevice && s.account.signIn.devices[d].createdAt <= s.pending[e.id].now
    requires |Log(c, Step(c, s, e), events)| == |events| && DevicesIn(Log(c, Step(c, s, e), events)) <= 9
    requires forall i :: 0 <= i < |events| ==>
               !Forgets(Log(c, Step(c, s, e), events)[i]) && (events[i].Retain? ==> events[i].now <= t)
    requires t < s.pending[e.id].now + 31_536_000
    ensures KnownDevice(Run(c, Step(c, s, e), events).account.signIn, hash, t)
  {
    OnlyLoginsAdd(c, s, e);
    var p, rows := s.pending[e.id], s.account.signIn;
    LoginAddsDevice(c, s.account, p);
    var all := rows.devices[rows.nextDevice := Device(hash, p.now)];
    assert NewerThan(all, rows.nextDevice) == {};
    FewerNewer(all, Kept(all), rows.nextDevice);
    RunKeepsDevice(c, Step(c, s, e), events, rows.nextDevice, hash, p.now, 9, t);
  }

  /** A request is let in exactly with the token of a session last used less than twelve
      hours and begun less than seven days ago, of an enabled account with a password. */
  lemma LetInExactly(c: Crypto, s: State, id: nat, token: Digest, now: int)
    ensures var sessions := s.account.signIn.sessions;
            AnswerOf(c, s, LookUp(id, token, now)).found <==>
              && s.account.row.passwordHash != None && !s.account.row.disabled && token in sessions
              && now < sessions[token].lastSeen + 43_200 && now < sessions[token].createdAt + 604_800
  {
  }

  // ----- signing out -----

  /** Signing out ends that session and no other; ending the others ends every other. */
  lemma SignOutEnds(c: Crypto, s: State, token: Digest, other: Digest)
    ensures var before, out, alone := s.account.signIn.sessions,
              Step(c, s, LogOut(token)).account.signIn.sessions, Step(c, s, EndOthers(token)).account.signIn.sessions;
            && (other in out <==> other in before && other != token) && (other in out ==> out[other] == before[other])
            && (other in alone <==> other in before && other == token) && (other in alone ==> alone[other] == before[other])
  {
  }

  // ----- a reset link -----

  /** A link comes from the command for any account, and from the form exactly for an
      enabled maintainer with a password. */
  lemma LinkComesFrom(c: Crypto, s: State, e: Event, hash: Digest)
    ensures var u := s.account.row;
            Effect(c, s, e).report.linkIssued == Some(hash) <==>
              || (e.CommandReset? && e.hash == hash)
              || (e.RequestReset? && e.hash == hash && u.role == Maintainer && !u.disabled && u.passwordHash != None)
  {
    if e.Finish? && e.id in s.pending {
      CommitLinkEffect(c, s.account, s.pending[e.id], e.works);
    }
  }

  /** The link is unused with this expiry, or deleted when it had passed. */
  ghost predicate HasLink(r: Rows, hash: Digest, expiresAt: int, t: int) {
    if hash in r.links then r.links[hash] == Link(expiresAt, None) else expiresAt <= t
  }

  lemma StepKeepsLink(c: Crypto, s: State, e: Event, hash: Digest, expiresAt: int, t: int)
    requires HasLink(s.account.signIn, hash, expiresAt, t) && (e.Retain? ==> e.now <= t)
    requires !Effect(c, s, e).report.linksEnded
    ensures HasLink(Step(c, s, e).account.signIn, hash, expiresAt, t)
  {
    if e.Finish? && e.id in s.pending {
      CommitLinkEffect(c, s.account, s.pending[e.id], e.works);
    }
  }

  lemma {:induction false} RunKeepsLink(c: Crypto, s: State, events: seq<Event>, hash: Digest, expiresAt: int, t: int)
    requires HasLink(s.account.signIn, hash, expiresAt, t) && |Log(c, s, events)| == |events|
    requires forall i :: 0 <= i < |events| ==> !Log(c, s, events)[i].linksEnded && (events[i].Retain? ==> events[i].now <= t)
    ensures HasLink(Run(c, s, events).account.signIn, hash, expiresAt, t)
    decreases |events|
  {
    if events != [] {
      var log, rest := Log(c, s, events), Log(c, Step(c, s, events[0]), events[1..]);
      assert log[0] == Effect(c, s, events[0]).report;
      assert forall k :: 0 <= k < |events| - 1 ==> rest[k] == log[k + 1] && events[1..][k] == events[k + 1];
      StepKeepsLink(c, s, events[0], hash, expiresAt, t);
      RunKeepsLink(c, Step(c, s, events[0]), events[1..], hash, expiresAt, t);
    }
  }

  /** Which transactions end links: a new one, a new password, a given-up mail. */
  lemma LinksEndBy(c: Crypto, s: State, e: Event)
    ensures var r := Effect(c, s, e).report;
            r.linksEnded <==> r.linkIssued.Some? || r.passwordSet || e.GiveUpMail?
  {
    if e.Finish? && e.id in s.pending {
      CommitLinkEffect(c, s.account, s.pending[e.id], e.works);
    }
  }

  /** A link issued at `u`, until something ends links, sets the password it is submitted
      with at `t` exactly before u + 3600 and while the account is enabled, over every run. */
  lemma NewLinkLasts(c: Crypto, s: State, e: Event, hash: Digest, events: seq<Event>, password: PasswordHash, t: int)
    requires Effect(c, s, e).report.linkIssued == Some(hash) && |Log(c, Step(c, s, e), events)| == |events|
    requires forall i :: 0 <= i < |events| ==>
               !Log(c, Step(c, s, e), events)[i].linksEnded && (events[i].Retain? ==> events[i].now <= t)
    ensures e.CommandReset? || e.RequestReset?
    ensures var after := Run(c, Step(c, s, e), events);
            var used := Effect(c, after, UseLink(hash, password, t));
            if t < e.now + 3600 && !after.account.row.disabled
            then used.report.linkUsed == Some(hash) && used.account.row.passwordHash == Some(password)
            else used == Change(after.account, QUIET)
  {
    LinkComesFrom(c, s, e, hash);
    RunKeepsLink(c, Step(c, s, e), events, hash, e.now + 3600, t);
  }

  // ----- passwords and enrollments -----

  /** A changed password is the one stored, and the only thing left to sign in with: no
      session is valid and no device known. */
  lemma PasswordIsChanged(c: Crypto, a: Account, p: Pending, hash: PasswordHash, token: Digest, t: int)
    requires Commit(c, a, p, true).verdict.Success? && p.action == ChangePassword(hash)
    ensures var d := Commit(c, a, p, true).change;
            && d.report.passwordSet && d.account.row.passwordHash == Some(hash)
            && !SessionValid(d.account.signIn, token, true, t) && !KnownDevice(d.account.signIn, token, t)
            && !LinkValid(d.account.signIn, token, true, t) && d.account.row.totpNonce == a.row.totpNonce
  {
    DecidesAlike(c, a, a.signIn, p);
  }

  /** A password is set by nothing else. */
  lemma OnlyTheseSetPasswords(c: Crypto, s: State, e: Event)
    ensures var r := Effect(c, s, e).report;
            r.passwordSet <==>
              || (e.UseLink? && LinkValid(s.account.signIn, e.hash, !s.account.row.disabled, e.now))
              || (e.Finish? && e.works && e.id in s.pending && s.pending[e.id].action.ChangePassword?
                  && Commit(c, s.account, s.pending[e.id], true).verdict.Success?)
  {
    if e.Finish? && e.id in s.pending {
      CommitSetsPassword(c, s.account, s.pending[e.id], e.works);
    }
  }

  lemma CommitSetsPassword(c: Crypto, a: Account, p: Pending, works: bool)
    ensures var d := Commit(c, a, p, works);
            d.change.report.passwordSet <==> works && d.verdict.Success? && p.action.ChangePassword?
  {
  }

  /** An enrollment begun and confirmed: after a successful start on a session that is
      there, and while its nonce is pending, the right code enrolls that nonce with its step
      spent, the drawn codes, this session alone with nothing pending and no device. */
  lemma EnrollmentCompletes(c: Crypto, s: State, e: Event, code: string, drawn: set<Digest>, now: int)
    requires e.Finish? && e.works && e.id in s.pending && s.pending[e.id].action.StartTotp?
    requires Commit(c, s.account, s.pending[e.id], true).verdict.Success?
    requires s.pending[e.id].action.session in s.account.signIn.sessions
    requires MatchingStep(c, s.pending[e.id].action.nonce, code, now).Some?
    ensures var StartTotp(session, nonce) := s.pending[e.id].action;
            var d := Effect(c, Step(c, s, e), ConfirmTotp(session, code, drawn, now));
            var kept := d.account.signIn.sessions;
            && d.account.row.totpNonce == Some(nonce) && d.account.row.totpLastStep == MatchingStep(c, nonce, code, now)
            && d.account.codes == drawn && d.account.signIn.devices == map[]
            && kept.Keys == {session} && kept[session] == s.account.signIn.sessions[session].(pendingNonce := None)
  {
    DecidesAlike(c, s.account, s.account.signIn, s.pending[e.id]);
  }

  /** Codes drawn afresh are the only ones, and each, typed in any case and spacing, is
      accepted at once. */
  lemma DrawnCodesWork(c: Crypto, a: Account, p: Pending, drawn: set<Digest>, code: string, input: string, now: int)
    requires Commit(c, a, p, true).verdict.Success? && p.action == RegenerateCodes(drawn) && a.row.totpNonce.Some?
    requires IsRecoveryCode(code) && c.sha(code) in drawn && Types(Trim(input), code)
    ensures var after := Commit(c, a, p, true).change.account;
            after.codes == drawn && SecondFactor(c, after, input, now) == UnusedCode(c.sha(code))
  {
    NormalizeReadsTyped(Trim(input), code);
    TypedIsLong(Trim(input), code);
  }

  lemma {:induction false} TypedIsLong(input: string, code: string)
    requires Types(input, code)
    ensures |input| >= |code|
  {
    if input != [] {
      if input[0] == '-' || input[0] == ' ' {
        TypedIsLong(input[1..], code);
      } else {
        TypedIsLong(input[1..], code[1..]);
      }
    }
  }

  /** Two-factor login turned off: no factor is asked for any more, no code is left and no
      device known. */
  lemma DisablingEnds(c: Crypto, a: Account, p: Pending, input: string, hash: Digest, now: int)
    requires Commit(c, a, p, true).verdict.Success? && p.action == DisableTotp
    ensures var after := Commit(c, a, p, true).change.account;
            && SecondFactor(c, after, input, now) == NotEnrolled && after.codes == {} && after.row.totpLastStep.None?
            && !KnownDevice(after.signIn, hash, now) && after.signIn.sessions == a.signIn.sessions
  {
    DecidesAlike(c, a, a.signIn, p);
  }

  /** A success clears both counts and the window, and leaves lock and mail time alone. */
  lemma SuccessClears(c: Crypto, a: Account, p: Pending)
    requires Commit(c, a, p, true).verdict.Success?
    ensures var v := Commit(c, a, p, true).change.account.row;
            && v.failedLogins == v.deviceFailures == 0 && v.deviceWindowStart.None?
            && v.lockedUntil == a.row.lockedUntil && v.lockoutMailedAt == a.row.lockoutMailedAt
            && v.role == a.row.role && v.disabled == a.row.disabled
  {
  }
}
