/** Accounts and outbox together: which transaction queues which mail, and what giving a
    mail up does to the accounts. */
module Server {
  import opened Options
  import opened SignIn
  import opened Accounts
  import opened Outbox
  import A = AccountRuns
  import M = OutboxRuns

  datatype State = State(accounts: map<UserId, A.State>, mail: M.State)

  /** `OnMail` carries the time its transaction's give-up actions read; `Unknown` is a
      reset asked for an address without an account. */
  datatype Event = OnAccount(user: UserId, event: A.Event)
                 | Unknown(now: int)
                 | OnMail(mail: M.Event, at: int)

  ghost predicate Enabled(s: State, e: Event) {
    match e
    case OnAccount(_, event) => !event.GiveUpMail?
    case Unknown(_) => true
    case OnMail(mail, _) => !mail.Enqueue? && M.Enabled(s.mail, mail)
  }

  /** The mail an account's transaction queues. */
  function Queues(c: Crypto, s: A.State, user: UserId, e: A.Event): Option<M.Event> {
    var r := A.Effect(c, s, e).report;
    match e
    case Finish(id, _) =>
      if r.mailedAt.Some? then Some(M.Enqueue(LOCKOUT, Some(user), false, r.mailedAt.value))
      else if id in s.pending && r.passwordSet then Some(M.Enqueue(PASSWORD_CHANGED, Some(user), false, s.pending[id].now))
      else None
    case RequestReset(_, now) =>
      Some(if r.linkIssued.Some? then M.Enqueue(RESET_LINK, Some(user), false, now) else M.Enqueue(RESET_LINK, None, true, now))
    case UseLink(_, _, now) => if r.passwordSet then Some(M.Enqueue(PASSWORD_CHANGED, Some(user), false, now)) else None
    case _ => None
  }

  /** The accounts whose links the worker's or retention's give-ups end. */
  function EndedBy(m: M.State, e: M.Event): set<UserId> {
    match e
    case PickUp(now, _) => Outbox.Ended(KINDS, m.box.rows, ExpiredIds(m.box.rows, now))
    case Retain(now) => Outbox.Ended(KINDS, m.box.rows, ExpiredIds(m.box.rows, now))
    case Finish(sent, endedAt) => if m.working.Some? then EndedByRecord(KINDS, m.box, m.working.value.id, sent, endedAt) else {}
    case _ => {}
  }

  /** What the event is to account `user`. */
  function Seen(s: State, user: UserId, e: Event): Option<A.Event> {
    match e
    case OnAccount(u, event) => if u == user then Some(event) else None
    case Unknown(_) => None
    case OnMail(mail, at) => if user in EndedBy(s.mail, mail) then Some(A.GiveUpMail(at)) else None
  }

  /** What the event is to the outbox. */
  function SeenByMail(c: Crypto, s: State, e: Event): Option<M.Event> {
    match e
    case OnAccount(u, event) => if u in s.accounts then Queues(c, s.accounts[u], u, event) else None
    case Unknown(now) => Some(M.Enqueue(RESET_LINK, None, true, now))
    case OnMail(mail, _) => Some(mail)
  }

  function Step(c: Crypto, s: State, e: Event): State {
    State(match e
          case OnAccount(u, event) => if u in s.accounts then s.accounts[u := A.Step(c, s.accounts[u], event)] else s.accounts
          case Unknown(_) => s.accounts
          case OnMail(mail, at) =>
            map u | u in s.accounts :: if u in EndedBy(s.mail, mail) then A.Step(c, s.accounts[u], A.GiveUpMail(at)) else s.accounts[u],
          match SeenByMail(c, s, e)
          case Some(mail) => M.Step(s.mail, mail)
          case None => s.mail)
  }

  function Run(c: Crypto, s: State, events: seq<Event>): State
    decreases |events|
  {
    if events == [] then s else Run(c, Step(c, s, events[0]), events[1..])
  }

  ghost predicate IsRun(c: Crypto, s: State, events: seq<Event>)
    decreases |events|
  {
    events == [] || (Enabled(s, events[0]) && IsRun(c, Step(c, s, events[0]), events[1..]))
  }

  // ----- each part's own run -----

  function OwnEvents(c: Crypto, s: State, events: seq<Event>, user: UserId): seq<A.Event>
    decreases |events|
  {
    if events == [] then []
    else
      var rest := OwnEvents(c, Step(c, s, events[0]), events[1..], user);
      match Seen(s, user, events[0])
      case Some(e) => [e] + rest
      case None => rest
  }

  function MailEvents(c: Crypto, s: State, events: seq<Event>): seq<M.Event>
    decreases |events|
  {
    if events == [] then []
    else
      var rest := MailEvents(c, Step(c, s, events[0]), events[1..]);
      match SeenByMail(c, s, events[0])
      case Some(e) => [e] + rest
      case None => rest
  }

  lemma StepIsOwn(c: Crypto, s: State, e: Event, user: UserId)
    requires user in s.accounts
    ensures user in Step(c, s, e).accounts
    ensures Step(c, s, e).accounts[user] == match Seen(s, user, e)
                                            case Some(own) => A.Step(c, s.accounts[user], own)
                                            case None => s.accounts[user]
  {
  }

  /** Every account in the server goes through a run of its own account machine, so all
      that holds over those runs holds here. */
  lemma {:induction false} AccountsRunAlone(c: Crypto, s: State, events: seq<Event>, user: UserId)
    requires user in s.accounts
    ensures user in Run(c, s, events).accounts
    ensures Run(c, s, events).accounts[user] == A.Run(c, s.accounts[user], OwnEvents(c, s, events, user))
    decreases |events|
  {
    if events != [] {
      var next := Step(c, s, events[0]);
      StepIsOwn(c, s, events[0], user);
      AccountsRunAlone(c, next, events[1..], user);
      var own := Seen(s, user, events[0]);
      if own.Some? {
        A.RunCons(c, s.accounts[user], own.value, OwnEvents(c, next, events[1..], user));
      }
    }
  }

  lemma SeenIsEnabled(c: Crypto, s: State, e: Event)
    requires Enabled(s, e) && SeenByMail(c, s, e).Some?
    ensures M.Enabled(s.mail, SeenByMail(c, s, e).value)
  {
  }

  /** And the outbox goes through a run of its own. */
  lemma {:induction false} MailRunsAlone(c: Crypto, s: State, events: seq<Event>)
    requires IsRun(c, s, events)
    ensures M.IsRun(s.mail, MailEvents(c, s, events))
    ensures Run(c, s, events).mail == M.Run(s.mail, MailEvents(c, s, events))
    decreases |events|
  {
    if events != [] {
      var next := Step(c, s, events[0]);
      MailRunsAlone(c, next, events[1..]);
      var own := SeenByMail(c, s, events[0]);
      if own.Some? {
        SeenIsEnabled(c, s, events[0]);
        var rest := MailEvents(c, next, events[1..]);
        assert ([own.value] + rest)[1..] == rest;
      }
    }
  }

  // ----- every mail that should be queued is, once -----

  function IsFor(e: M.Event, kind: Kind, user: Option<UserId>): nat {
    if e.Enqueue? && e.kind == kind && e.user == user && !e.placeholder then 1 else 0
  }

  /** Mails of one kind queued for `user`. */
  function Queued(events: seq<M.Event>, kind: Kind, user: Option<UserId>): nat {
    if events == [] then 0 else IsFor(events[0], kind, user) + Queued(events[1..], kind, user)
  }

  function PasswordsIn(log: seq<Report>): nat {
    if log == [] then 0 else (if log[0].passwordSet then 1 else 0) + PasswordsIn(log[1..])
  }

  function MailTime(r: Report): Option<int> {
    r.mailedAt
  }

  /** Links the reset form issued: the command mails nothing. */
  function FormLinks(c: Crypto, s: A.State, events: seq<A.Event>): nat
    decreases |events|
  {
    if events == [] then 0
    else (if events[0].RequestReset? && A.Effect(c, s, events[0]).report.linkIssued.Some? then 1 else 0)
         + FormLinks(c, A.Step(c, s, events[0]), events[1..])
  }

  lemma StepQueues(c: Crypto, s: State, e: Event, user: UserId)
    requires user in s.accounts && Enabled(s, e)
    ensures var own, mail := Seen(s, user, e), SeenByMail(c, s, e);
            var r := if own.Some? then A.Effect(c, s.accounts[user], own.value).report else QUIET;
            && (if mail.Some? then IsFor(mail.value, LOCKOUT, Some(user)) else 0) == (if r.mailedAt.Some? then 1 else 0)
            && (if mail.Some? then IsFor(mail.value, PASSWORD_CHANGED, Some(user)) else 0) == (if r.passwordSet then 1 else 0)
            && (if mail.Some? then IsFor(mail.value, RESET_LINK, Some(user)) else 0)
               == (if own.Some? && own.value.RequestReset? && r.linkIssued.Some? then 1 else 0)
  {
    var own := Seen(s, user, e);
    if own.Some? && own.value.Finish? && own.value.id in s.accounts[user].pending {
      CommitQueues(c, s.accounts[user].account, s.accounts[user].pending[own.value.id], own.value.works);
    }
  }

  /** A mail counts from the time its transaction went by. */
  lemma QueuedAtItsTime(c: Crypto, s: State, user: UserId, e: A.Event)
    requires user in s.accounts
    ensures var mail := SeenByMail(c, s, OnAccount(user, e));
            mail.Some? ==>
              && mail.value.Enqueue?
              && match e
                 case Finish(id, _) => id in s.accounts[user].pending && mail.value.now == s.accounts[user].pending[id].now
                 case RequestReset(_, now) => mail.value.now == now
                 case UseLink(_, _, now) => mail.value.now == now
                 case _ => false
  {
    if e.Finish? && e.id in s.accounts[user].pending {
      CommitQueues(c, s.accounts[user].account, s.accounts[user].pending[e.id], e.works);
    }
  }

  lemma CommitQueues(c: Crypto, a: Account, p: Pending, works: bool)
    ensures var r := Commit(c, a, p, works).change.report;
            && !(r.mailedAt.Some? && r.passwordSet) && r.linkIssued.None? && (r.mailedAt.Some? ==> r.mailedAt == Some(p.now))
  {
  }

  /** Over every run of the server an account's mails are exactly what happened to it: one
      lockout mail for each time a lock was to be mailed, one for each password set, one
      reset mail for each link the form issued. */
  lemma {:induction false} MailsMatch(c: Crypto, s: State, events: seq<Event>, user: UserId)
    requires user in s.accounts && IsRun(c, s, events)
    ensures var mails, own := MailEvents(c, s, events), OwnEvents(c, s, events, user);
            var log := A.Log(c, s.accounts[user], own);
            && Queued(mails, LOCKOUT, Some(user)) == A.CountOf(log, MailTime)
            && Queued(mails, PASSWORD_CHANGED, Some(user)) == PasswordsIn(log)
            && Queued(mails, RESET_LINK, Some(user)) == FormLinks(c, s.accounts[user], own)
    decreases |events|
  {
    if events != [] {
      var e, next := events[0], Step(c, s, events[0]);
      StepIsOwn(c, s, e, user);
      StepQueues(c, s, e, user);
      MailsMatch(c, next, events[1..], user);
      var mails, own := MailEvents(c, next, events[1..]), OwnEvents(c, next, events[1..], user);
      if SeenByMail(c, s, e).Some? {
        QueuedCons(SeenByMail(c, s, e).value, mails, user);
      }
      if Seen(s, user, e).Some? {
        LogsCons(c, s.accounts[user], Seen(s, user, e).value, own);
      }
    }
  }

  lemma QueuedCons(e: M.Event, mails: seq<M.Event>, user: UserId)
    ensures forall kind :: Queued([e] + mails, kind, Some(user)) == IsFor(e, kind, Some(user)) + Queued(mails, kind, Some(user))
  {
    assert ([e] + mails)[1..] == mails;
  }

  lemma LogsCons(c: Crypto, s: A.State, e: A.Event, rest: seq<A.Event>)
    ensures var log, after, r := A.Log(c, s, [e] + rest), A.Log(c, A.Step(c, s, e), rest), A.Effect(c, s, e).report;
            && A.CountOf(log, MailTime) == (if r.mailedAt.Some? then 1 else 0) + A.CountOf(after, MailTime)
            && PasswordsIn(log) == (if r.passwordSet then 1 else 0) + PasswordsIn(after)
    ensures FormLinks(c, s, [e] + rest) ==
              (if e.RequestReset? && A.Effect(c, s, e).report.linkIssued.Some? then 1 else 0) + FormLinks(c, A.Step(c, s, e), rest)
  {
    A.LogCons(c, s, e, rest);
    var log, after := A.Log(c, s, [e] + rest), A.Log(c, A.Step(c, s, e), rest);
    assert log[0] == A.Effect(c, s, e).report && log[1..] == after;
    assert ([e] + rest)[1..] == rest;
  }

  /** A reset asked for queues exactly one row, whoever asks for whom: without an account
      that may have a link, a placeholder of the same kind. */
  lemma EveryRequestQueues(c: Crypto, s: State, user: UserId, hash: Digest, now: int)
    requires user in s.accounts
    ensures var id, known, unknown := s.mail.box.nextId,
              Step(c, s, OnAccount(user, A.RequestReset(hash, now))).mail.box, Step(c, s, Unknown(now)).mail.box;
            && known.nextId == unknown.nextId == id + 1 && id in known.rows && id in unknown.rows
            && unknown.rows[id].placeholder && (known.rows[id].placeholder <==> !MayRequestReset(s.accounts[user].account.row))
            && known.rows[id].(user := None, placeholder := true) == unknown.rows[id]
  {
  }

  // ----- warnings go first -----

  /** The row is one of the three mails, with that mail's urgency, secrecy and lifetime. */
  ghost predicate IsOurs(row: Row) {
    || (row.kind == "account_reset_link" && !row.security && row.token && row.expiresAt == row.queuedAt + 3600)
    || (row.kind == "account_lockout" && row.security && !row.token && row.expiresAt == row.queuedAt + 86_400)
    || (row.kind == "account_password_changed" && row.security && !row.token && row.expiresAt == row.queuedAt + 86_400)
  }

  ghost predicate AllOurs(m: M.State) {
    forall id :: id in m.box.rows ==> IsOurs(m.box.rows[id])
  }

  lemma MailKeepsOurs(m: M.State, e: M.Event)
    requires AllOurs(m) && (e.Enqueue? ==> e.kind in KINDS)
    ensures AllOurs(M.Step(m, e))
  {
  }

  lemma QueuesOurs(c: Crypto, s: State, e: Event)
    requires Enabled(s, e) && SeenByMail(c, s, e).Some? && SeenByMail(c, s, e).value.Enqueue?
    ensures SeenByMail(c, s, e).value.kind in KINDS
  {
    assert KINDS[0] == RESET_LINK && KINDS[1] == LOCKOUT && KINDS[2] == PASSWORD_CHANGED;
  }

  lemma {:induction false} StaysOurs(c: Crypto, s: State, events: seq<Event>)
    requires AllOurs(s.mail) && IsRun(c, s, events)
    ensures AllOurs(Run(c, s, events).mail)
    decreases |events|
  {
    if events != [] {
      var mail := SeenByMail(c, s, events[0]);
      if mail.Some? {
        if mail.value.Enqueue? {
          QueuesOurs(c, s, events[0]);
        }
        MailKeepsOurs(s.mail, mail.value);
      }
      StaysOurs(c, Step(c, s, events[0]), events[1..]);
    }
  }

  /** In every run of the server a reset mail is attempted only when no warning, of a lock or
      of a changed password, is waiting and due. */
  lemma WarningsGoFirst(c: Crypto, s: State, events: seq<Event>, now: int, id: RowId, warning: RowId)
    requires AllOurs(s.mail) && M.Sound(s.mail) && IsRun(c, s, events)
    requires M.Enabled(Run(c, s, events).mail, M.PickUp(now, Pick.Attempt(id)))
    ensures var rows := Run(c, s, events).mail.box;
            && id in rows.rows
            && (rows.rows[id].kind == "account_reset_link" && M.Waiting(rows, warning, now) && rows.rows[warning].nextAttemptAt <= now ==>
                 rows.rows[warning].kind == "account_reset_link")
  {
    StaysOurs(c, s, events);
    MailRunsAlone(c, s, events);
    M.OutboxIsSound(s.mail, MailEvents(c, s, events));
    M.AttemptMeans(Run(c, s, events).mail, now, id);
  }

  // ----- reset mails and their links -----

  /** The event gives up row `id`: it has no attempt left before its deadline. */
  ghost predicate GivesUp(m: M.State, e: M.Event, id: RowId) {
    && id in m.box.rows && m.box.rows[id].outcome.None?
    && match e
       case PickUp(now, _) => m.box.rows[id].Deadline() <= now
       case Retain(now) => m.box.rows[id].Deadline() <= now
       case Finish(sent, endedAt) =>
         && m.working.Some? && m.working.value.id == id && !sent
         && endedAt + Delay(m.box.rows[id].attempts + 1) >= m.box.rows[id].Deadline()
       case _ => false
  }

  ghost predicate IsResetMail(row: Row, user: UserId) {
    row.kind == RESET_LINK.name && row.user == Some(user)
  }

  lemma {:induction false} FoundIsListed(kinds: seq<Kind>, name: string)
    ensures var found := FindKind(kinds, name); found.Some? ==> found.value in kinds && found.value.name == name
  {
    if kinds != [] {
      FoundIsListed(kinds[1..], name);
    }
  }

  lemma OnlyResetsEnd(row: Row, user: UserId)
    requires row.user == Some(user)
    ensures EndsLinks(KINDS, row) <==> IsResetMail(row, user)
  {
    FoundIsListed(KINDS, row.kind);
    assert KINDS[0] == RESET_LINK && !KINDS[1].endsLinks && !KINDS[2].endsLinks;
  }

  /** A worker's or retention's transaction ends an account's links exactly when it gives
      up some reset mail of that account. */
  lemma EndedExactly(m: M.State, e: M.Event, user: UserId)
    ensures user in EndedBy(m, e) <==> exists id :: GivesUp(m, e, id) && IsResetMail(m.box.rows[id], user)
  {
    if user in EndedBy(m, e) {
      var id := EndedWitness(m, e, user);
      OnlyResetsEnd(m.box.rows[id], user);
    }
    if id :| GivesUp(m, e, id) && IsResetMail(m.box.rows[id], user) {
      OnlyResetsEnd(m.box.rows[id], user);
      assert EndsLinks(KINDS, m.box.rows[id]);
      assert !e.Finish? ==> id in ExpiredIds(m.box.rows, e.now);
    }
  }

  lemma EndedWitness(m: M.State, e: M.Event, user: UserId) returns (id: RowId)
    requires user in EndedBy(m, e)
    ensures GivesUp(m, e, id) && m.box.rows[id].user == Some(user) && EndsLinks(KINDS, m.box.rows[id])
  {
    if e.Finish? {
      id := m.working.value.id;
    } else {
      assert user in Outbox.Ended(KINDS, m.box.rows, ExpiredIds(m.box.rows, e.now));
      id :| id in ExpiredIds(m.box.rows, e.now) && EndsLinks(KINDS, m.box.rows[id]) && m.box.rows[id].user.value == user;
    }
  }

  /** An unused link outlives a worker's or retention's transaction exactly when that
      gives up no reset mail of its account, whichever link the mail carried. */
  lemma LinkSurvivesExactly(c: Crypto, s: State, mail: M.Event, at: int, user: UserId, hash: Digest)
    requires user in s.accounts && !A.Dead(s.accounts[user].account.signIn, hash)
    ensures !A.Dead(Step(c, s, OnMail(mail, at)).accounts[user].account.signIn, hash) <==>
              !exists id :: GivesUp(s.mail, mail, id) && IsResetMail(s.mail.box.rows[id], user)
  {
    EndedExactly(s.mail, mail, user);
    StepIsOwn(c, s, OnMail(mail, at), user);
    A.LinkEffect(c, s.accounts[user], A.GiveUpMail(at));
  }

  /** Once a reset mail of the account is given up, no link the account had works again, in
      any later run and at any time, unless the same token is issued again. */
  lemma GivenUpLinkNeverWorks(c: Crypto, s: State, mail: M.Event, at: int, id: RowId, events: seq<Event>,
                              user: UserId, hash: Digest, t: int)
    requires user in s.accounts && GivesUp(s.mail, mail, id) && IsResetMail(s.mail.box.rows[id], user)
    requires forall k :: 0 <= k < |events| ==> !Issues(events[k], user, hash)
    ensures var after := Run(c, Step(c, s, OnMail(mail, at)), events);
            user in after.accounts && !LinkValid(after.accounts[user].account.signIn, hash, true, t)
  {
    GiveUpEndsLink(c, s, mail, at, id, user, hash);
    DeadLinkStaysDead(c, Step(c, s, OnMail(mail, at)), events, user, hash, t);
  }

  lemma GiveUpEndsLink(c: Crypto, s: State, mail: M.Event, at: int, id: RowId, user: UserId, hash: Digest)
    requires user in s.accounts && GivesUp(s.mail, mail, id) && IsResetMail(s.mail.box.rows[id], user)
    ensures var after := Step(c, s, OnMail(mail, at)).accounts; user in after && A.Dead(after[user].account.signIn, hash)
  {
    EndedExactly(s.mail, mail, user);
    StepIsOwn(c, s, OnMail(mail, at), user);
    A.LinkEffect(c, s.accounts[user], A.GiveUpMail(at));
  }

  lemma {:induction false} DeadLinkStaysDead(c: Crypto, s: State, events: seq<Event>, user: UserId, hash: Digest, at: int)
    requires user in s.accounts && A.Dead(s.accounts[user].account.signIn, hash)
    requires forall k :: 0 <= k < |events| ==> !Issues(events[k], user, hash)
    ensures user in Run(c, s, events).accounts
    ensures !LinkValid(Run(c, s, events).accounts[user].account.signIn, hash, true, at)
    decreases |events|
  {
    if events != [] {
      StepIsOwn(c, s, events[0], user);
      var own := Seen(s, user, events[0]);
      if own.Some? {
        OnlyIssuesIssue(c, s.accounts[user], own.value, hash);
        A.LinkEffect(c, s.accounts[user], own.value);
      }
      assert !Issues(events[0], user, hash);
      DeadLinkStaysDead(c, Step(c, s, events[0]), events[1..], user, hash, at);
    }
  }

  predicate Issues(e: Event, user: UserId, hash: Digest) {
    e.OnAccount? && e.user == user && (e.event.RequestReset? || e.event.CommandReset?) && e.event.hash == hash
  }

  lemma OnlyIssuesIssue(c: Crypto, s: A.State, e: A.Event, hash: Digest)
    requires !(e.RequestReset? || e.CommandReset?) || e.hash != hash
    ensures A.Effect(c, s, e).report.linkIssued != Some(hash)
  {
  }

  lemma Requested(c: Crypto, s: State, user: UserId, hash: Digest, now: int)
    requires user in s.accounts && MayRequestReset(s.accounts[user].account.row)
    ensures var next, a := Step(c, s, OnAccount(user, A.RequestReset(hash, now))), s.accounts[user];
            && next.accounts == s.accounts[user := a.(account := a.account.(signIn := WithLink(a.account.signIn, hash, now)))]
            && next.mail == s.mail.(box := Enqueued(s.mail.box, RESET_LINK, Some(user), false, now))
  {
  }

  lemma Mailed(first: int, second: int, user: UserId)
    ensures var box := Enqueued(Enqueued(M.START.box, RESET_LINK, Some(user), false, first), RESET_LINK, Some(user), false, second);
            && IsResetMail(box.rows[0], user) && box.rows[0].outcome.None? && box.rows[0].Deadline() == first + 3600
            && IsResetMail(box.rows[1], user) && box.rows[1].outcome.None? && box.rows[1].Deadline() == second + 3600
  {
  }

  /** A newer link ends with an older mail: asked for again after half an hour, while the
      first mail is still unsent, the second link dies when the first mail expires. */
  lemma OlderMailEndsNewerLink(c: Crypto, account: Account, user: UserId, first: Digest, second: Digest, s0: State, s1: State, s2: State)
    requires MayRequestReset(account.row) && s0 == State(map[user := A.State(account, map[], map[])], M.START)
    requires s1 == Step(c, s0, OnAccount(user, A.RequestReset(first, 0)))
    requires s2 == Step(c, s1, OnAccount(user, A.RequestReset(second, 1800)))
    ensures user in s2.accounts && LinkValid(s2.accounts[user].account.signIn, second, true, 3600)
    ensures var s3 := Step(c, s2, OnMail(M.Retain(3600), 3600));
            && A.Dead(s3.accounts[user].account.signIn, second)
            && 1 in s3.mail.box.rows && IsResetMail(s3.mail.box.rows[1], user) && s3.mail.box.rows[1].outcome.None?
  {
    Requested(c, s0, user, first, 0);
    Requested(c, s1, user, second, 1800);
    Mailed(0, 1800, user);
    assert GivesUp(s2.mail, M.Retain(3600), 0);
    LinkSurvivesExactly(c, s2, M.Retain(3600), 3600, user, second);
  }
}
