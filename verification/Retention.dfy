/** Retention of sign-in rows, seen from the account machine: what every later transaction
    does with it and without it. */
module Retention {
  import opened Options
  import opened SignIn
  import opened Accounts
  import opened AccountRuns

  // ----- rows with and without retention -----

  /** The time of the latest retention run so far, if there was one. */
  type Cut = Option<int>

  predicate NotBefore(cut: Cut, t: int) {
    cut.None? || cut.value <= t
  }

  function Latest(cut: Cut, v: int): Cut {
    if cut.Some? && cut.value > v then cut else Some(v)
  }

  predicate SessionStays(x: Session, cut: Cut) {
    cut.None? || x.Live(cut.value)
  }

  predicate DeviceStays(x: Device, cut: Cut) {
    cut.None? || x.Live(cut.value)
  }

  predicate LinkStays(x: Link, cut: Cut) {
    cut.None? || x.Live(cut.value)
  }

  /** `kept` has exactly the sessions of `r` that were live at the cut. */
  ghost predicate SessionsAlike(r: Rows, kept: Rows, cut: Cut) {
    forall t ::
      && (t in kept.sessions <==> t in r.sessions && SessionStays(r.sessions[t], cut))
      && (t in kept.sessions ==> kept.sessions[t] == r.sessions[t])
  }

  /** And exactly the device cookies. */
  ghost predicate DevicesAlike(r: Rows, kept: Rows, cut: Cut) {
    && kept.nextDevice == r.nextDevice
    && (forall d :: d in r.devices ==> d < r.nextDevice)
    && forall d ::
         && (d in kept.devices <==> d in r.devices && DeviceStays(r.devices[d], cut))
         && (d in kept.devices ==> kept.devices[d] == r.devices[d])
  }

  /** Of the links it may lack those that were dead at the cut. */
  ghost predicate LinksAlike(r: Rows, kept: Rows, cut: Cut) {
    forall h ::
      && (h in kept.links ==> h in r.links && kept.links[h] == r.links[h])
      && (h in r.links && h !in kept.links ==> !LinkStays(r.links[h], cut))
  }

  ghost predicate RowsAlike(r: Rows, kept: Rows, cut: Cut) {
    SessionsAlike(r, kept, cut) && DevicesAlike(r, kept, cut) && LinksAlike(r, kept, cut)
  }

  lemma RetainedAlike(r: Rows, kept: Rows, cut: Cut, v: int)
    requires RowsAlike(r, kept, cut)
    ensures RowsAlike(r, Retained(kept, v), Latest(cut, v))
  {
  }

  lemma ChecksAlike(r: Rows, kept: Rows, cut: Cut, t: int, token: Digest, hash: Digest, ok: bool)
    requires RowsAlike(r, kept, cut) && NotBefore(cut, t)
    ensures SessionValid(kept, token, ok, t) == SessionValid(r, token, ok, t)
    ensures NeedsRecord(kept, token, ok, t) == NeedsRecord(r, token, ok, t)
    ensures LinkValid(kept, hash, ok, t) == LinkValid(r, hash, ok, t)
  {
  }

  lemma DeviceCheckAlike(r: Rows, kept: Rows, cut: Cut, t: int, hash: Digest)
    requires DevicesAlike(r, kept, cut) && NotBefore(cut, t)
    ensures KnownDevice(kept, hash, t) == KnownDevice(r, hash, t)
  {
    if KnownDevice(r, hash, t) {
      var d :| d in r.devices && r.devices[d].hash == hash && r.devices[d].Live(t);
      assert d in kept.devices;
    }
  }

  lemma LiveDevicesAlike(r: Rows, kept: Rows, cut: Cut, t: int)
    requires DevicesAlike(r, kept, cut) && NotBefore(cut, t)
    ensures (map d | d in r.devices && r.devices[d].Live(t) :: r.devices[d])
         == (map d | d in kept.devices && kept.devices[d].Live(t) :: kept.devices[d])
  {
  }

  /** A missing device cookie is older than every one there, so it never decides which
      ten stay. */
  lemma SameRank(r: Rows, kept: Rows, cut: Cut, hash: Digest, now: int, d: nat)
    requires DevicesAlike(r, kept, cut) && NotBefore(cut, now)
    requires d in kept.devices || d == r.nextDevice
    ensures var added := Device(hash, now);
            NewerThan(r.devices[r.nextDevice := added], d) == NewerThan(kept.devices[r.nextDevice := added], d)
  {
  }

  lemma NewDeviceAlike(r: Rows, kept: Rows, cut: Cut, hash: Digest, now: int)
    requires DevicesAlike(r, kept, cut) && NotBefore(cut, now)
    ensures DevicesAlike(WithDevice(r, hash, now), WithDevice(kept, hash, now), cut)
  {
    var all, some := r.devices[r.nextDevice := Device(hash, now)], kept.devices[r.nextDevice := Device(hash, now)];
    forall d | d in some ensures NewerThan(all, d) == NewerThan(some, d) {
      SameRank(r, kept, cut, hash, now, d);
    }
    assert forall d :: d in Kept(some) <==> d in some && d in Kept(all);
  }

  lemma NewSessionAlike(r: Rows, kept: Rows, cut: Cut, token: Digest, now: int)
    requires RowsAlike(r, kept, cut) && NotBefore(cut, now)
    ensures RowsAlike(WithSession(r, token, now), WithSession(kept, token, now), cut)
  {
  }

  lemma ExpiredAlike(r: Rows, kept: Rows, cut: Cut, now: int)
    requires LinksAlike(r, kept, cut)
    ensures LinksAlike(LinksExpired(r, now), LinksExpired(kept, now), cut)
  {
  }

  lemma NewLinkAlike(r: Rows, kept: Rows, cut: Cut, hash: Digest, now: int)
    requires LinksAlike(r, kept, cut)
    ensures LinksAlike(WithLink(r, hash, now), WithLink(kept, hash, now), cut)
  {
    ExpiredAlike(r, kept, cut, now);
  }

  lemma PendingNonceAlike(r: Rows, kept: Rows, cut: Cut, session: Digest, nonce: Option<Nonce>)
    requires RowsAlike(r, kept, cut)
    ensures RowsAlike(WithPendingNonce(r, session, nonce), WithPendingNonce(kept, session, nonce), cut)
  {
  }

  lemma TouchedAlike(r: Rows, kept: Rows, cut: Cut, token: Digest, now: int)
    requires RowsAlike(r, kept, cut) && NotBefore(cut, now)
    requires token in r.sessions ==> r.sessions[token].Live(now)
    ensures RowsAlike(Touched(r, token, now), Touched(kept, token, now), cut)
  {
  }

  lemma FewerSessionsAlike(r: Rows, kept: Rows, cut: Cut, token: Digest)
    requires RowsAlike(r, kept, cut)
    ensures RowsAlike(OnlySession(r, token), OnlySession(kept, token), cut)
    ensures RowsAlike(WithoutSession(r, token), WithoutSession(kept, token), cut)
  {
  }

  // ----- one transaction with and without it -----

  /** The same account but for rows retention took away, and the same checks and lookups
      on their way. */
  ghost predicate Alike(s: State, k: State, cut: Cut) {
    && k == s.(account := s.account.(signIn := k.account.signIn))
    && RowsAlike(s.account.signIn, k.account.signIn, cut)
  }

  /** A lookup on its way found a session that is still valid at its time, or gone. */
  ghost predicate LookupsLive(s: State) {
    forall id :: id in s.lookups && s.lookups[id].token in s.account.signIn.sessions ==>
      s.account.signIn.sessions[s.lookups[id].token].Live(s.lookups[id].now)
  }

  /** The time the event's transaction judges sign-in rows by, if it does. */
  function TimeOf(s: State, e: Event): Option<int> {
    match e
    case Begin(_, _, _, now) => Some(now)
    case Finish(id, _) => if id in s.pending && s.pending[id].action.Login? then Some(s.pending[id].now) else None
    case UseLink(_, _, now) => Some(now)
    case LookUp(_, _, now) => Some(now)
    case RecordUse(id) => if id in s.lookups then Some(s.lookups[id].now) else None
    case _ => None
  }

  /** The event goes by a time not before the latest retention run, and gives out no
      session token that a lookup on its way carries. */
  ghost predicate Orderly(c: Crypto, s: State, e: Event, cut: Cut) {
    && (TimeOf(s, e).Some? ==> NotBefore(cut, TimeOf(s, e).value))
    && forall id :: id in s.lookups ==> Effect(c, s, e).report.sessionNew != Some(s.lookups[id].token)
  }

  /** A confirmation finds the nonce pending on its session. */
  predicate FindsNonce(s: State, e: Event) {
    && e.ConfirmTotp? && e.session in s.account.signIn.sessions
    && s.account.signIn.sessions[e.session].pendingNonce.Some?
  }

  /** Only a confirmation looks at a session without asking whether it is still live: if it
      finds a nonce, the session must have been live at the latest retention run. */
  predicate FindsSession(s: State, e: Event, cut: Cut) {
    FindsNonce(s, e) ==> SessionStays(s.account.signIn.sessions[e.session], cut)
  }

  /** What the event's transaction comes back with: what it did, how a check ended, what a
      confirmation found, and whether a lookup found its session or a check its device. */
  datatype Answer = Answer(report: Report, verdict: Option<Verdict>, confirmed: Option<Confirmed>, found: bool)

  function AnswerOf(c: Crypto, s: State, e: Event): Answer {
    Answer(Effect(c, s, e).report,
           if e.Finish? && e.id in s.pending then Some(Commit(c, s.account, s.pending[e.id], e.works).verdict) else None,
           if e.ConfirmTotp? then Some(ConfirmResult(c, s.account, e.session, e.code, e.now)) else None,
           match e
           case LookUp(_, token, now) => SessionValid(s.account.signIn, token, Active(s.account.row), now)
           case Begin(_, attempt, action, now) => Read(c, s.account, attempt, action, now).known
           case _ => false)
  }

  lemma DecidesAlike(c: Crypto, a: Account, rows: Rows, p: Pending)
    ensures var d, e := Decide(c, a, p), Decide(c, a.(signIn := rows), p);
            && e.verdict == d.verdict && e.change.report == d.change.report
            && d.change.account.signIn == a.signIn && e.change.account == d.change.account.(signIn := rows)
  {
  }

  lemma ActsAlike(a: Account, kept: Rows, report: Report, action: Action, now: int, cut: Cut)
    requires RowsAlike(a.signIn, kept, cut) && (action.Login? ==> NotBefore(cut, now))
    ensures var x, y := Act(a, report, action, now), Act(a.(signIn := kept), report, action, now);
            && y.report == x.report && y.account == x.account.(signIn := y.account.signIn)
            && RowsAlike(x.account.signIn, y.account.signIn, cut)
  {
    match action
    case Login(session, device, newDevice) =>
      NewSessionAlike(a.signIn, kept, cut, session, now);
      if device.Some? {
        DeviceCheckAlike(a.signIn, kept, cut, now, device.value);
      }
      NewDeviceAlike(WithSession(a.signIn, session, now), WithSession(kept, session, now), cut, newDevice, now);
    case ChangePassword(_) => ExpiredAlike(Ended(a.signIn), Ended(kept), cut, now);
    case StartTotp(session, nonce) => PendingNonceAlike(a.signIn, kept, cut, session, Some(nonce));
    case DisableTotp =>
    case RegenerateCodes(_) =>
  }

  lemma CommitsAlike(c: Crypto, a: Account, kept: Rows, p: Pending, works: bool, cut: Cut)
    requires RowsAlike(a.signIn, kept, cut) && (p.action.Login? ==> NotBefore(cut, p.now))
    ensures var x, y := Commit(c, a, p, works), Commit(c, a.(signIn := kept), p, works);
            && y.verdict == x.verdict && y.change.report == x.change.report
            && y.change.account == x.change.account.(signIn := y.change.account.signIn)
            && RowsAlike(x.change.account.signIn, y.change.account.signIn, cut)
  {
    DecidesAlike(c, a, kept, p);
    var d := Decide(c, a, p);
    if d.verdict.Success? && works {
      ActsAlike(d.change.account, kept, d.change.report, p.action, p.now, cut);
    }
  }

  lemma ConfirmsAlike(c: Crypto, s: State, k: State, e: Event, cut: Cut)
    requires Alike(s, k, cut) && e.ConfirmTotp? && FindsSession(s, e, cut)
    ensures AnswerOf(c, k, e) == AnswerOf(c, s, e) && Alike(Step(c, s, e), Step(c, k, e), cut)
  {
    if FindsNonce(s, e) {
      FewerSessionsAlike(s.account.signIn, k.account.signIn, cut, e.session);
      PendingNonceAlike(OnlySession(s.account.signIn, e.session), OnlySession(k.account.signIn, e.session), cut, e.session, None);
    }
  }

  lemma ConfirmsDiffer(c: Crypto, s: State, k: State, e: Event, cut: Cut)
    requires Alike(s, k, cut) && !FindsSession(s, e, cut)
    ensures AnswerOf(c, k, e) != AnswerOf(c, s, e)
  {
    assert !ConfirmResult(c, s.account, e.session, e.code, e.now).NotStarted?;
    assert ConfirmResult(c, k.account, e.session, e.code, e.now).NotStarted?;
  }

  lemma LooksAlike(c: Crypto, s: State, k: State, e: Event, cut: Cut)
    requires Alike(s, k, cut) && Orderly(c, s, e, cut) && LookupsLive(s) && (e.Begin? || e.LookUp? || e.RecordUse?)
    ensures AnswerOf(c, k, e) == AnswerOf(c, s, e) && Alike(Step(c, s, e), Step(c, k, e), cut)
  {
    var r, kept := s.account.signIn, k.account.signIn;
    if e.Begin? {
      if e.attempt.device.Some? {
        DeviceCheckAlike(r, kept, cut, e.now, e.attempt.device.value);
      }
    } else if e.LookUp? {
      ChecksAlike(r, kept, cut, e.now, e.token, e.token, Active(s.account.row));
    } else if e.id in s.lookups {
      TouchedAlike(r, kept, cut, s.lookups[e.id].token, s.lookups[e.id].now);
    }
  }

  lemma LinkEventsAlike(c: Crypto, s: State, k: State, e: Event, cut: Cut)
    requires Alike(s, k, cut) && Orderly(c, s, e, cut)
    requires e.RequestReset? || e.CommandReset? || e.UseLink? || e.GiveUpMail?
    ensures AnswerOf(c, k, e) == AnswerOf(c, s, e) && Alike(Step(c, s, e), Step(c, k, e), cut)
  {
    var r, kept := s.account.signIn, k.account.signIn;
    ExpiredAlike(r, kept, cut, e.now);
    if e.UseLink? {
      ChecksAlike(r, kept, cut, e.now, e.hash, e.hash, !s.account.row.disabled);
      ExpiredAlike(Ended(r), Ended(kept), cut, e.now);
    } else if !e.GiveUpMail? {
      NewLinkAlike(r, kept, cut, e.hash, e.now);
    }
  }

  /** One transaction goes the same with and without retention before it. */
  lemma StepsAlike(c: Crypto, s: State, k: State, e: Event, cut: Cut)
    requires Alike(s, k, cut) && Orderly(c, s, e, cut) && LookupsLive(s) && FindsSession(s, e, cut) && !e.Retain?
    ensures AnswerOf(c, k, e) == AnswerOf(c, s, e) && Alike(Step(c, s, e), Step(c, k, e), cut)
  {
    if e.Finish? {
      if e.id in s.pending {
        CommitsAlike(c, s.account, k.account.signIn, s.pending[e.id], e.works, cut);
      }
    } else if e.ConfirmTotp? {
      ConfirmsAlike(c, s, k, e, cut);
    } else if e.Begin? || e.LookUp? || e.RecordUse? {
      LooksAlike(c, s, k, e, cut);
    } else if e.RequestReset? || e.CommandReset? || e.UseLink? || e.GiveUpMail? {
      LinkEventsAlike(c, s, k, e, cut);
    } else if e.EndOthers? || e.LogOut? {
      FewerSessionsAlike(s.account.signIn, k.account.signIn, cut, e.token);
    }
  }

  /** What one transaction does to sessions, for lookups on their way. */
  lemma SessionEffect(c: Crypto, s: State, e: Event, token: Digest, t: int)
    requires token in s.account.signIn.sessions ==> s.account.signIn.sessions[token].Live(t)
    requires Effect(c, s, e).report.sessionNew != Some(token)
    ensures var sessions := Step(c, s, e).account.signIn.sessions; token in sessions ==> sessions[token].Live(t)
  {
    if e.Finish? && e.id in s.pending {
      CommitSessions(c, s.account, s.pending[e.id], e.works, token, t);
    }
  }

  lemma CommitSessions(c: Crypto, a: Account, p: Pending, works: bool, token: Digest, t: int)
    requires token in a.signIn.sessions ==> a.signIn.sessions[token].Live(t)
    requires Commit(c, a, p, works).change.report.sessionNew != Some(token)
    ensures var sessions := Commit(c, a, p, works).change.account.signIn.sessions; token in sessions ==> sessions[token].Live(t)
  {
    DecidesAlike(c, a, a.signIn, p);
  }

  lemma LookupsStayLive(c: Crypto, s: State, e: Event, cut: Cut)
    requires LookupsLive(s) && Orderly(c, s, e, cut)
    ensures LookupsLive(Step(c, s, e))
  {
    var next := Step(c, s, e);
    forall id | id in next.lookups && next.lookups[id].token in next.account.signIn.sessions
      ensures next.account.signIn.sessions[next.lookups[id].token].Live(next.lookups[id].now)
    {
      if id in s.lookups && next.lookups[id] == s.lookups[id] {
        SessionEffect(c, s, e, s.lookups[id].token, s.lookups[id].now);
      }
    }
  }

  // ----- whole runs with and without it -----

  function Answers(c: Crypto, s: State, events: seq<Event>): seq<Answer>
    decreases |events|
  {
    if events == [] then []
    else (if events[0].Retain? then [] else [AnswerOf(c, s, events[0])]) + Answers(c, Step(c, s, events[0]), events[1..])
  }

  function WithoutRetention(events: seq<Event>): seq<Event> {
    if events == [] then []
    else if events[0].Retain? then WithoutRetention(events[1..])
    else [events[0]] + WithoutRetention(events[1..])
  }

  function LastCut(events: seq<Event>, cut: Cut): Cut {
    if events == [] then cut
    else LastCut(events[1..], if events[0].Retain? then Latest(cut, events[0].now) else cut)
  }

  /** Every event is orderly, from the state the run without retention has then. */
  ghost predicate RunIsOrderly(c: Crypto, s: State, events: seq<Event>, cut: Cut)
    decreases |events|
  {
    if events == [] then true
    else if events[0].Retain? then RunIsOrderly(c, s, events[1..], Latest(cut, events[0].now))
    else Orderly(c, s, events[0], cut) && RunIsOrderly(c, Step(c, s, events[0]), events[1..], cut)
  }

  /** Every confirmation that finds a nonce has a session that was live at the latest
      retention. */
  ghost predicate ConfirmsFindSessions(c: Crypto, s: State, events: seq<Event>, cut: Cut)
    decreases |events|
  {
    if events == [] then true
    else if events[0].Retain? then ConfirmsFindSessions(c, s, events[1..], Latest(cut, events[0].now))
    else FindsSession(s, events[0], cut) && ConfirmsFindSessions(c, Step(c, s, events[0]), events[1..], cut)
  }

  lemma AnswersCons(c: Crypto, s: State, e: Event, rest: seq<Event>)
    requires !e.Retain?
    ensures Answers(c, s, [e] + rest) == [AnswerOf(c, s, e)] + Answers(c, Step(c, s, e), rest)
  {
    assert ([e] + rest)[1..] == rest;
  }

  /** Retention at any times, any number of times, is invisible to an orderly run exactly
      when every confirmation that finds a nonce comes from a session that was live at the
      latest retention; and then it leaves the same rows but for dead ones. */
  lemma {:induction false} RetentionIsInvisible(c: Crypto, s: State, k: State, events: seq<Event>, cut: Cut)
    requires Alike(s, k, cut) && LookupsLive(s) && RunIsOrderly(c, s, events, cut)
    ensures Answers(c, k, events) == Answers(c, s, WithoutRetention(events)) <==> ConfirmsFindSessions(c, s, events, cut)
    ensures ConfirmsFindSessions(c, s, events, cut) ==>
              Alike(Run(c, s, WithoutRetention(events)), Run(c, k, events), LastCut(events, cut))
    decreases |events|
  {
    if events != [] {
      var e, rest := events[0], events[1..];
      if e.Retain? {
        RetainedAlike(s.account.signIn, k.account.signIn, cut, e.now);
        RetentionIsInvisible(c, s, Step(c, k, e), rest, Latest(cut, e.now));
      } else {
        assert events == [e] + rest;
        AnswersCons(c, k, e, rest);
        AnswersCons(c, s, e, WithoutRetention(rest));
        RunCons(c, s, e, WithoutRetention(rest));
        if FindsSession(s, e, cut) {
          StepsAlike(c, s, k, e, cut);
          LookupsStayLive(c, s, e, cut);
          RetentionIsInvisible(c, Step(c, s, e), Step(c, k, e), rest, cut);
          HeadsAlike(AnswerOf(c, s, e), Answers(c, Step(c, k, e), rest), Answers(c, Step(c, s, e), WithoutRetention(rest)));
        } else {
          ConfirmsDiffer(c, s, k, e, cut);
          assert Answers(c, k, events)[0] != Answers(c, s, WithoutRetention(events))[0];
        }
      }
    }
  }

  lemma HeadsAlike(a: Answer, x: seq<Answer>, y: seq<Answer>)
    ensures [a] + x == [a] + y <==> x == y
  {
    assert ([a] + x)[1..] == x && ([a] + y)[1..] == y;
  }

  /** So after the run, for every time from the latest retention on, session lookups,
      device checks, link checks and the live device cookies are what they would be. */
  lemma LaterAnswersAlike(c: Crypto, s: State, events: seq<Event>, t: int, token: Digest, hash: Digest, ok: bool)
    requires (forall d :: d in s.account.signIn.devices ==> d < s.account.signIn.nextDevice) && LookupsLive(s)
    requires RunIsOrderly(c, s, events, None) && ConfirmsFindSessions(c, s, events, None)
    requires NotBefore(LastCut(events, None), t)
    ensures var plain, kept := Run(c, s, WithoutRetention(events)).account.signIn, Run(c, s, events).account.signIn;
            && SessionValid(kept, token, ok, t) == SessionValid(plain, token, ok, t)
            && LinkValid(kept, hash, ok, t) == LinkValid(plain, hash, ok, t)
            && KnownDevice(kept, hash, t) == KnownDevice(plain, hash, t)
            && (map d | d in plain.devices && plain.devices[d].Live(t) :: plain.devices[d])
            == (map d | d in kept.devices && kept.devices[d].Live(t) :: kept.devices[d])
  {
    RetentionIsInvisible(c, s, s, events, None);
    var plain, kept, cut := Run(c, s, WithoutRetention(events)).account.signIn, Run(c, s, events).account.signIn, LastCut(events, None);
    ChecksAlike(plain, kept, cut, t, token, hash, ok);
    DeviceCheckAlike(plain, kept, cut, t, hash);
    LiveDevicesAlike(plain, kept, cut, t);
  }

  // ----- where it shows -----

  ghost predicate DeviceFound(r: Rows, hash: Digest, t: int, v: int) {
    exists d :: d in r.devices && r.devices[d].hash == hash && r.devices[d].Live(t) && r.devices[d].Live(v)
  }

  /** What the event finds among the rows was live at `v` as well. */
  ghost predicate FindsOnlyLive(c: Crypto, s: State, e: Event, v: int) {
    var r := s.account.signIn;
    match e
    case LookUp(_, token, now) => SessionValid(r, token, Active(s.account.row), now) ==> r.sessions[token].Live(v)
    case Begin(_, attempt, _, now) =>
      attempt.device.Some? && KnownDevice(r, attempt.device.value, now) ==> DeviceFound(r, attempt.device.value, now, v)
    case Finish(id, works) =>
      id in s.pending && s.pending[id].action.Login? && s.pending[id].action.device.Some?
      && Commit(c, s.account, s.pending[id], works).verdict.Success?
      && KnownDevice(r, s.pending[id].action.device.value, s.pending[id].now) ==>
        DeviceFound(r, s.pending[id].action.device.value, s.pending[id].now, v)
    case UseLink(hash, _, now) => LinkValid(r, hash, !s.account.row.disabled, now) ==> r.links[hash].Live(v)
    case ConfirmTotp(_, _, _, _) => FindsSession(s, e, Some(v))
    case _ => true
  }

  /** Whatever the clocks say, a transaction right after a retention run at `v` tells the
      same as without it exactly when all it finds was live at `v`. */
  lemma ShowsExactly(c: Crypto, s: State, e: Event, v: int)
    ensures var k := s.(account := s.account.(signIn := Retained(s.account.signIn, v)));
            AnswerOf(c, k, e) == AnswerOf(c, s, e) <==> FindsOnlyLive(c, s, e, v)
  {
    var r, kept := s.account.signIn, Retained(s.account.signIn, v);
    if e.Finish? && e.id in s.pending {
      LoginShowsExactly(c, s.account, s.pending[e.id], e.works, v);
    } else if e.Begin? && e.attempt.device.Some? {
      DeviceFoundExactly(r, e.attempt.device.value, e.now, v);
    } else if e.ConfirmTotp? {
      ConfirmShowsExactly(c, s, e, v);
    }
  }

  lemma DeviceFoundExactly(r: Rows, hash: Digest, t: int, v: int)
    ensures KnownDevice(Retained(r, v), hash, t) <==> DeviceFound(r, hash, t, v)
  {
    var kept := Retained(r, v);
    if DeviceFound(r, hash, t, v) {
      var d :| d in r.devices && r.devices[d].hash == hash && r.devices[d].Live(t) && r.devices[d].Live(v);
      assert d in kept.devices && kept.devices[d].hash == hash;
    }
    if KnownDevice(kept, hash, t) {
      var d :| d in kept.devices && kept.devices[d].hash == hash && kept.devices[d].Live(t);
      assert d in r.devices && r.devices[d].Live(v);
    }
  }

  lemma LoginShowsExactly(c: Crypto, a: Account, p: Pending, works: bool, v: int)
    ensures var x, y := Commit(c, a, p, works), Commit(c, a.(signIn := Retained(a.signIn, v)), p, works);
            && y.verdict == x.verdict
            && (y.change.report == x.change.report <==>
                 (x.verdict.Success? && p.action.Login? && p.action.device.Some?
                  && KnownDevice(a.signIn, p.action.device.value, p.now) ==>
                    DeviceFound(a.signIn, p.action.device.value, p.now, v)))
  {
    DecidesAlike(c, a, Retained(a.signIn, v), p);
    if p.action.Login? && p.action.device.Some? {
      DeviceFoundExactly(a.signIn, p.action.device.value, p.now, v);
    }
  }

  /** A confirmation sees no retention at `v` exactly when its session was live at `v`, is
      not there, or has no nonce pending. */
  lemma ConfirmShowsExactly(c: Crypto, s: State, e: Event, v: int)
    requires e.ConfirmTotp?
    ensures var k, sessions := s.(account := s.account.(signIn := Retained(s.account.signIn, v))), s.account.signIn.sessions;
            AnswerOf(c, k, e) == AnswerOf(c, s, e) <==>
              || e.session !in sessions
              || sessions[e.session].Live(v)
              || sessions[e.session].pendingNonce.None?
  {
    var k := s.(account := s.account.(signIn := Retained(s.account.signIn, v)));
    if !FindsSession(s, e, Some(v)) {
      assert ConfirmResult(c, k.account, e.session, e.code, e.now).NotStarted?;
    }
  }

  /** It does show: a session reaches seven days after its request was let in, retention
      runs, and the confirmation no longer finds the nonce. Without retention a wrong code
      could be typed again, and the right one would have enrolled the account and forgotten
      its device cookie. */
  lemma ConfirmMissesSession(c: Crypto, s: State, token: Digest, nonce: Nonce, code: string, drawn: set<Digest>)
    requires s.account.signIn == Rows(map[token := Session(0, 604_799, Some(nonce))], map[0 := Device(token, 604_795)], 1, map[])
    requires s.account.row.totpNonce.None? && s.lookups == map[]
    ensures SessionValid(s.account.signIn, token, true, 604_799)
    ensures var confirm := ConfirmTotp(token, code, drawn, 604_800);
            var retained := Step(c, s, Retain(604_800));
            var matches := MatchingStep(c, nonce, code, 604_800).Some?;
            var plain, kept := Step(c, s, confirm).account, Step(c, retained, confirm).account;
            && RunIsOrderly(c, s, [Retain(604_800), confirm], None)
            && AnswerOf(c, s, confirm).confirmed == Some(if matches then Enrolled else WrongCode(nonce))
            && AnswerOf(c, retained, confirm).confirmed == Some(NotStarted)
            && (matches ==> plain.row.totpNonce == Some(nonce) && !KnownDevice(plain.signIn, token, 604_800))
            && kept.row.totpNonce.None? && KnownDevice(kept.signIn, token, 604_800)
  {
    var retained := Step(c, s, Retain(604_800));
    assert token !in retained.account.signIn.sessions;
    assert retained.account.signIn.devices[0].hash == token;
  }

  /** A use on its way shows too: retention between a lookup and its record takes the
      session exactly when its idle end has come by then, and someone can tell exactly
      while the recorded use and the session would have lasted. */
  lemma UseMissesSession(c: Crypto, s: State, id: nat, token: Digest, u: int, v: int, t: int)
    requires SessionValid(s.account.signIn, token, Active(s.account.row), u) && u <= v <= t
    ensures var session := s.account.signIn.sessions[token];
            var found := Step(c, s, LookUp(id, token, u));
            var plain, kept := Step(c, found, RecordUse(id)), Step(c, Step(c, found, Retain(v)), RecordUse(id));
            SessionValid(kept.account.signIn, token, true, t) == SessionValid(plain.account.signIn, token, true, t) <==>
              || u - session.lastSeen < TOUCH_SECONDS
              || v < session.lastSeen + IDLE_SECONDS
              || t >= u + IDLE_SECONDS
              || t >= session.createdAt + ABSOLUTE_SECONDS
  {
  }

  /** For example a session without any recorded use for twelve hours: found a second
      before its end, swept two seconds later, recorded in vain. */
  lemma UseIsRecordedInVain(c: Crypto, s: State, id: nat, token: Digest)
    requires s.account.signIn.sessions == map[token := Session(0, 0, None)] && Active(s.account.row)
    ensures var found := Step(c, s, LookUp(id, token, 43_199));
            && SessionValid(Step(c, found, RecordUse(id)).account.signIn, token, true, 43_201)
            && !SessionValid(Step(c, Step(c, found, Retain(43_201)), RecordUse(id)).account.signIn, token, true, 43_201)
  {
  }

  // ----- how long a session lasts -----

  /** The event neither ends nor uses the session, nor gives its token out again. */
  ghost predicate LeavesAlone(c: Crypto, s: State, e: Event, token: Digest) {
    && !(e.LogOut? && e.token == token) && !(e.EndOthers? && e.token != token)
    && !(e.RecordUse? && e.id in s.lookups && s.lookups[e.id].token == token)
    && (FindsNonce(s, e) && ConfirmResult(c, s.account, e.session, e.code, e.now).Enrolled? ==> e.session == token)
    && var r := Effect(c, s, e).report; r.sessionNew != Some(token) && !r.passwordSet
  }

  ghost predicate RunLeavesAlone(c: Crypto, s: State, events: seq<Event>, token: Digest)
    decreases |events|
  {
    events == [] || (LeavesAlone(c, s, events[0], token) && RunLeavesAlone(c, Step(c, s, events[0]), events[1..], token))
  }

  /** The session's row has these times, or is gone and would be dead at `t` anyway. */
  ghost predicate HasTimes(r: Rows, token: Digest, createdAt: int, lastSeen: int, t: int) {
    if token in r.sessions then r.sessions[token].createdAt == createdAt && r.sessions[token].lastSeen == lastSeen
    else !Session(createdAt, lastSeen, None).Live(t)
  }

  lemma StepLeavesTimes(c: Crypto, s: State, e: Event, token: Digest, createdAt: int, lastSeen: int, t: int)
    requires HasTimes(s.account.signIn, token, createdAt, lastSeen, t)
    requires LeavesAlone(c, s, e, token) && (e.Retain? ==> e.now <= t)
    ensures HasTimes(Step(c, s, e).account.signIn, token, createdAt, lastSeen, t)
  {
    if e.Finish? && e.id in s.pending {
      CommitLeavesTimes(c, s.account, s.pending[e.id], e.works, token, createdAt, lastSeen, t);
    }
  }

  lemma CommitLeavesTimes(c: Crypto, a: Account, p: Pending, works: bool, token: Digest, createdAt: int, lastSeen: int, t: int)
    requires HasTimes(a.signIn, token, createdAt, lastSeen, t)
    requires var r := Commit(c, a, p, works).change.report; r.sessionNew != Some(token) && !r.passwordSet
    ensures HasTimes(Commit(c, a, p, works).change.account.signIn, token, createdAt, lastSeen, t)
  {
    DecidesAlike(c, a, a.signIn, p);
  }

  lemma {:induction false} RunLeavesTimes(c: Crypto, s: State, events: seq<Event>, token: Digest, createdAt: int, lastSeen: int, t: int)
    requires HasTimes(s.account.signIn, token, createdAt, lastSeen, t)
    requires RunLeavesAlone(c, s, events, token)
    requires forall i :: 0 <= i < |events| && events[i].Retain? ==> events[i].now <= t
    ensures HasTimes(Run(c, s, events).account.signIn, token, createdAt, lastSeen, t)
    decreases |events|
  {
    if events != [] {
      StepLeavesTimes(c, s, events[0], token, createdAt, lastSeen, t);
      RunLeavesTimes(c, Step(c, s, events[0]), events[1..], token, createdAt, lastSeen, t);
    }
  }

  /** A session used at `u` and then left alone, whatever else happens and however often
      retention runs up to `t`: still valid at `t` through u + 42,900 s, dead from
      u + 43,200 s, and never valid from seven days after its login. */
  lemma SessionLifetime(c: Crypto, s: State, id: nat, token: Digest, u: int, events: seq<Event>, t: int)
    requires SessionValid(s.account.signIn, token, Active(s.account.row), u)
    requires s.account.signIn.sessions[token].lastSeen <= u <= t
    requires RunLeavesAlone(c, Step(c, Step(c, s, LookUp(id, token, u)), RecordUse(id)), events, token)
    requires forall i :: 0 <= i < |events| && events[i].Retain? ==> events[i].now <= t
    ensures var after := Run(c, Step(c, Step(c, s, LookUp(id, token, u)), RecordUse(id)), events).account.signIn;
            var capped := t >= s.account.signIn.sessions[token].createdAt + ABSOLUTE_SECONDS;
            && (t <= u + 42_900 && !capped ==> SessionValid(after, token, true, t))
            && (t >= u + 43_200 || capped ==> !SessionValid(after, token, true, t))
  {
    var used := Step(c, Step(c, s, LookUp(id, token, u)), RecordUse(id));
    var row := used.account.signIn.sessions[token];
    RunLeavesTimes(c, used, events, token, row.createdAt, row.lastSeen, t);
  }
}
