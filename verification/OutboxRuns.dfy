/** One worker and retention on one outbox, over every run. */
module OutboxRuns {
  import opened Options
  import opened Outbox

  /** The attempt the worker is making: its row and the time it was picked. */
  datatype Flight = Flight(id: RowId, startedAt: int)

  datatype State = State(box: Box, working: Option<Flight>)

  const START := State(Box(map[], 0), None)

  /** `Abandon` is a stop during an attempt: it goes unrecorded. */
  datatype Event = Enqueue(kind: Kind, user: Option<UserId>, placeholder: bool, now: int)
                 | PickUp(now: int, pick: Pick)
                 | Finish(sent: bool, endedAt: int)
                 | Abandon
                 | Retain(now: int)

  ghost predicate Enabled(s: State, e: Event) {
    match e
    case Enqueue(kind, _, _, _) => kind.lifetime > 0
    case PickUp(now, pick) => s.working.None? && Picked(Cleared(s.box, now).rows, now, pick)
    case Finish(_, _) => s.working.Some?
    case Abandon => s.working.Some?
    case Retain(_) => true
  }

  function Step(s: State, e: Event): State {
    match e
    case Enqueue(kind, user, placeholder, now) => s.(box := Enqueued(s.box, kind, user, placeholder, now))
    case PickUp(now, pick) =>
      State(Cleared(s.box, now), if pick.Attempt? then Some(Flight(pick.id, now)) else None)
    case Finish(sent, endedAt) =>
      State(if s.working.Some? then Recorded(s.box, s.working.value.id, sent, endedAt) else s.box, None)
    case Abandon => s.(working := None)
    case Retain(now) => s.(box := Retained(s.box, now))
  }

  function Run(s: State, events: seq<Event>): State
    decreases |events|
  {
    if events == [] then s else Run(Step(s, events[0]), events[1..])
  }

  ghost predicate IsRun(s: State, events: seq<Event>)
    decreases |events|
  {
    events == [] || (Enabled(s, events[0]) && IsRun(Step(s, events[0]), events[1..]))
  }

  // ----- without any assumption on the clock -----

  ghost predicate RowSound(row: Row) {
    && (row.token ==> row.outcome.None?)
    && (row.outcome.None? ==> row.nextAttemptAt < row.Deadline())
  }

  /** Every unsent row's next attempt is before its deadline, no row with a token carries
      an outcome, and ids were all handed out. */
  ghost predicate Sound(s: State) {
    && (forall id :: id in s.box.rows ==> id < s.box.nextId && RowSound(s.box.rows[id]))
    && (s.working.Some? ==> s.working.value.id < s.box.nextId)
  }

  lemma StepKeepsSound(s: State, e: Event)
    requires Sound(s) && Enabled(s, e)
    ensures Sound(Step(s, e))
  {
  }

  lemma {:induction false} OutboxIsSound(s: State, events: seq<Event>)
    requires Sound(s) && IsRun(s, events)
    ensures Sound(Run(s, events))
    decreases |events|
  {
    if events != [] {
      StepKeepsSound(s, events[0]);
      OutboxIsSound(Step(s, events[0]), events[1..]);
    }
  }

  /** Queuing keeps it exactly for kinds with a lifetime, as every kind declared has. */
  lemma LifetimesMatter(s: State, kind: Kind, user: Option<UserId>, placeholder: bool, now: int)
    requires Sound(s)
    ensures Sound(Step(s, Enqueue(kind, user, placeholder, now))) <==> kind.lifetime > 0
    ensures forall k :: k in KINDS ==> k.lifetime > 0
  {
    var after := Enqueued(s.box, kind, user, placeholder, now);
    assert s.box.nextId in after.rows;
    if kind.lifetime > 0 {
      StepKeepsSound(s, Enqueue(kind, user, placeholder, now));
    }
  }

  /** Unsent rows that are neither expired nor a due placeholder. */
  ghost predicate Waiting(box: Box, id: RowId, now: int) {
    && id in box.rows && box.rows[id].outcome.None? && !box.rows[id].Expired(now)
    && !(box.rows[id].placeholder && box.rows[id].Due(now))
  }

  lemma ClearedKeepsWaiting(box: Box, now: int, id: RowId)
    ensures (id in Cleared(box, now).rows && Cleared(box, now).rows[id].outcome.None?) <==> Waiting(box, id, now)
    ensures Waiting(box, id, now) ==> Cleared(box, now).rows[id] == box.rows[id]
  {
  }

  /** A picked row is waiting, due, no placeholder and before its deadline, and comes
      before every other such row, security mail first. */
  lemma AttemptMeans(s: State, now: int, id: RowId)
    requires Sound(s) && Enabled(s, PickUp(now, Attempt(id)))
    ensures Waiting(s.box, id, now) && s.box.rows[id].Due(now)
    ensures !s.box.rows[id].placeholder && now < s.box.rows[id].Deadline()
    ensures forall j :: Waiting(s.box, j, now) && s.box.rows[j].Due(now) && j != id ==>
              var row, other := s.box.rows[id], s.box.rows[j];
              && Precedes(id, row, j, other) && (other.security ==> row.security)
              && (other.security == row.security ==> row.nextAttemptAt <= other.nextAttemptAt)
              && (other.security == row.security && row.nextAttemptAt == other.nextAttemptAt ==>
                   row.queuedAt < other.queuedAt || (row.queuedAt == other.queuedAt && id < j))
  {
    ClearedKeepsWaiting(s.box, now, id);
    forall j | Waiting(s.box, j, now) && s.box.rows[j].Due(now) && j != id
      ensures Precedes(id, s.box.rows[id], j, s.box.rows[j])
    {
      ClearedKeepsWaiting(s.box, now, j);
    }
  }

  /** An idle worker that sleeps until `next` loses no row: nothing is due before, and no
      row's deadline passes by then; with no `next` there is nothing to send at all. */
  lemma IdleMeans(s: State, now: int, next: Option<int>, id: RowId)
    requires Sound(s) && Enabled(s, PickUp(now, Idle(next)))
    ensures next.Some? ==> next.value > now
    ensures Waiting(s.box, id, now) ==> next.Some? && next.value <= s.box.rows[id].nextAttemptAt < s.box.rows[id].Deadline()
    ensures next.Some? ==> exists j :: Waiting(s.box, j, now) && s.box.rows[j].nextAttemptAt == next.value
  {
    ClearedKeepsWaiting(s.box, now, id);
    if next.Some? {
      var rows := Cleared(s.box, now).rows;
      var j :| j in rows && rows[j].outcome.None? && rows[j].nextAttemptAt == next.value;
      ClearedKeepsWaiting(s.box, now, j);
    }
  }

  /** A row stops being unsent only by being sent, by having no attempt left before its
      deadline, or as a placeholder that came due. */
  lemma LeavesWhenDone(s: State, e: Event, id: RowId)
    requires Sound(s) && id in s.box.rows && s.box.rows[id].outcome.None?
    requires var after := Step(s, e).box.rows; id !in after || after[id].outcome.Some?
    ensures var row := s.box.rows[id];
            match e
            case PickUp(now, _) => row.Deadline() <= now || (row.placeholder && row.Due(now))
            case Retain(now) => row.Deadline() <= now
            case Finish(sent, endedAt) =>
              s.working.Some? && s.working.value.id == id && (sent || endedAt + Delay(row.attempts + 1) >= row.Deadline())
            case _ => false
  {
  }

  /** And it does stop: sent, or with no attempt left, it is gone if it carries a token and
      marked otherwise; a failure with time left moves it to exactly the next delay. */
  lemma FinishMeans(s: State, sent: bool, endedAt: int)
    requires s.working.Some? && s.working.value.id in s.box.rows && s.box.rows[s.working.value.id].outcome.None?
    ensures var id := s.working.value.id;
            var row, after := s.box.rows[id], Step(s, Finish(sent, endedAt)).box.rows;
            var again := endedAt + Delay(row.attempts + 1);
            && Step(s, Finish(sent, endedAt)).working.None? && Step(s, Abandon) == State(s.box, None)
            && (forall j :: j != id ==> (j in after <==> j in s.box.rows) && (j in after ==> after[j] == s.box.rows[j]))
            && if !sent && again < row.Deadline() then
                 id in after && after[id] == row.(attempts := row.attempts + 1, nextAttemptAt := again)
               else if row.token then id !in after
               else id in after && after[id] == row.(attempts := row.attempts + 1, outcome := Some(if sent then Sent else GivenUp))
  {
  }

  /** A pick or a retention run leaves no row past its deadline and no due placeholder
      unsent, and retention nothing that has ended. A pick keeps what it gives up, marked,
      unless it carries a token. */
  lemma ExpiredRowsEnd(s: State, now: int, pick: Pick, id: RowId)
    ensures var picked := Step(s, PickUp(now, pick)).box.rows;
            id in picked && picked[id].outcome.None? ==>
              picked[id].Deadline() > now && !(picked[id].placeholder && picked[id].nextAttemptAt <= now)
    ensures var picked := Step(s, PickUp(now, pick)).box.rows;
            id in s.box.rows && s.box.rows[id].Expired(now) ==>
              if s.box.rows[id].token then id !in picked
              else id in picked && picked[id] == s.box.rows[id].(outcome := Some(GivenUp))
    ensures var kept := Step(s, Retain(now)).box.rows; id in kept ==> kept[id].outcome.None? && kept[id].Deadline() > now
  {
  }

  // ----- a mail is delivered once -----

  /** Row `id` was given out and is not unsent. */
  ghost predicate Over(s: State, id: RowId) {
    id < s.box.nextId && (id in s.box.rows ==> s.box.rows[id].outcome.Some?)
  }

  lemma StaysOver(s: State, e: Event, id: RowId)
    requires Over(s, id)
    ensures Over(Step(s, e), id)
    ensures Enabled(s, e) ==> !(e.PickUp? && e.pick == Attempt(id))
  {
  }

  /** The event delivers row `id`: its attempt is recorded as sent. */
  predicate Delivers(s: State, e: Event, id: RowId) {
    Records(s, e, id) && e.sent
  }

  function Deliveries(s: State, events: seq<Event>, id: RowId): nat
    decreases |events|
  {
    if events == [] then 0
    else (if Delivers(s, events[0], id) then 1 else 0) + Deliveries(Step(s, events[0]), events[1..], id)
  }

  function Attempts(s: State, events: seq<Event>, id: RowId): nat
    decreases |events|
  {
    if events == [] then 0
    else (if events[0].PickUp? && events[0].pick == Attempt(id) then 1 else 0) + Attempts(Step(s, events[0]), events[1..], id)
  }

  lemma {:induction false} NothingAfterwards(s: State, events: seq<Event>, id: RowId)
    requires Over(s, id) && IsRun(s, events)
    ensures Deliveries(s, events, id) == 0 && Attempts(s, events, id) == 0 && Over(Run(s, events), id)
    decreases |events|
  {
    if events != [] {
      StaysOver(s, events[0], id);
      NothingAfterwards(Step(s, events[0]), events[1..], id);
    }
  }

  /** A row is recorded as sent at most once, and from then on it is not unsent and never
      attempted again. */
  lemma DeliveredOnce(s: State, e: Event, events: seq<Event>, id: RowId)
    requires Sound(s) && Delivers(s, e, id) && IsRun(Step(s, e), events)
    ensures Over(Run(Step(s, e), events), id)
    ensures Deliveries(Step(s, e), events, id) == 0 && Attempts(Step(s, e), events, id) == 0
  {
    FinishMeans(s, true, e.endedAt);
    NothingAfterwards(Step(s, e), events, id);
  }

  lemma {:induction false} AtMostOneDelivery(s: State, events: seq<Event>, id: RowId)
    requires Sound(s) && IsRun(s, events)
    ensures Deliveries(s, events, id) <= 1
    decreases |events|
  {
    if events != [] {
      StepKeepsSound(s, events[0]);
      if Delivers(s, events[0], id) {
        DeliveredOnce(s, events[0], events[1..], id);
      } else {
        AtMostOneDelivery(Step(s, events[0]), events[1..], id);
      }
    }
  }

  // ----- attempts that end no earlier than they start -----

  ghost predicate OnTime(s: State, events: seq<Event>)
    decreases |events|
  {
    events == [] ||
    (&& (events[0].Finish? && s.working.Some? ==> events[0].endedAt >= s.working.value.startedAt)
     && OnTime(Step(s, events[0]), events[1..]))
  }

  /** The delays before the attempt after `failures` failures, together. */
  function Offset(failures: nat): int {
    if failures == 0 then 0 else Offset(failures - 1) + Delay(failures)
  }

  lemma {:induction false} OffsetFormula(n: nat)
    requires n >= 3
    ensures Offset(n) == 2160 + 7200 * (n - 3)
  {
    if n > 3 {
      OffsetFormula(n - 1);
    } else {
      assert Offset(1) == 60 && Offset(2) == 360;
    }
  }

  /** No unsent row was tried faster than the delays allow. */
  ghost predicate Paced(s: State) {
    && Sound(s)
    && (forall id :: id in s.box.rows && s.box.rows[id].outcome.None? ==>
          s.box.rows[id].nextAttemptAt >= s.box.rows[id].queuedAt + Offset(s.box.rows[id].attempts))
    && (s.working.Some? && s.working.value.id in s.box.rows ==>
          s.box.rows[s.working.value.id].outcome.None? ==>
          s.box.rows[s.working.value.id].nextAttemptAt <= s.working.value.startedAt)
  }

  lemma StepKeepsPaced(s: State, e: Event)
    requires Paced(s) && Enabled(s, e) && (e.Finish? ==> e.endedAt >= s.working.value.startedAt)
    ensures Paced(Step(s, e))
  {
    StepKeepsSound(s, e);
    if e.PickUp? && e.pick.Attempt? {
      AttemptMeans(s, e.now, e.pick.id);
      ClearedKeepsWaiting(s.box, e.now, e.pick.id);
    }
  }

  lemma {:induction false} OutboxIsPaced(s: State, events: seq<Event>)
    requires Paced(s) && IsRun(s, events) && OnTime(s, events)
    ensures Paced(Run(s, events))
    decreases |events|
  {
    if events != [] {
      StepKeepsPaced(s, events[0]);
      OutboxIsPaced(Step(s, events[0]), events[1..]);
    }
  }

  lemma StartIsPaced()
    ensures Paced(START)
  {
  }

  /** The attempt after n - 1 recorded ones starts at least 2160 + 7200 (n - 4) seconds
      after queuing, for n of four or more, and before the deadline, a day after queuing
      at the latest; so there is no sixteenth. */
  lemma AttemptStarts(s: State, events: seq<Event>, now: int, id: RowId, n: nat)
    requires Paced(s) && IsRun(s, events) && OnTime(s, events)
    requires Enabled(Run(s, events), PickUp(now, Attempt(id)))
    requires id in Run(s, events).box.rows && n == Run(s, events).box.rows[id].attempts + 1
    ensures var row := Run(s, events).box.rows[id];
            && now < row.Deadline() <= row.queuedAt + MAX_AGE && n <= ATTEMPTS_MAX
            && (n >= 4 ==> now >= row.queuedAt + 2160 + 7200 * (n - 4))
  {
    OutboxIsPaced(s, events);
    AttemptMeans(Run(s, events), now, id);
    if n >= 4 {
      OffsetFormula(n - 1);
    }
  }

  lemma FewAttempts(row: Row)
    requires row.outcome.None? && RowSound(row) && row.nextAttemptAt >= row.queuedAt + Offset(row.attempts)
    ensures row.attempts < ATTEMPTS_MAX
  {
    if row.attempts >= 3 {
      OffsetFormula(row.attempts);
    }
  }

  /** Whether the event records an attempt of row `id`. */
  predicate Records(s: State, e: Event, id: RowId) {
    e.Finish? && s.working.Some? && s.working.value.id == id && id in s.box.rows && s.box.rows[id].outcome.None?
  }

  function AttemptsOf(s: State, events: seq<Event>, id: RowId): nat
    decreases |events|
  {
    if events == [] then 0
    else (if Records(s, events[0], id) then 1 else 0) + AttemptsOf(Step(s, events[0]), events[1..], id)
  }

  /** How many attempts of row `id` can still be recorded. */
  function Left(s: State, id: RowId): int {
    if id in s.box.rows then
      if s.box.rows[id].outcome.None? then ATTEMPTS_MAX - s.box.rows[id].attempts else 0
    else if id >= s.box.nextId then ATTEMPTS_MAX
    else 0
  }

  /** Every recorded attempt uses one up, and nothing gives one back. */
  lemma LeftDecreases(s: State, e: Event, id: RowId)
    requires Paced(s) && Enabled(s, e)
    ensures 0 <= Left(s, id)
    ensures Left(Step(s, e), id) <= Left(s, id) - (if Records(s, e, id) then 1 else 0)
  {
    if id in s.box.rows && s.box.rows[id].outcome.None? {
      FewAttempts(s.box.rows[id]);
    }
  }

  /** Over every run, a row has at most fifteen recorded attempts. */
  lemma {:induction false} AtMostFifteenAttempts(s: State, events: seq<Event>, id: RowId)
    requires Paced(s) && IsRun(s, events) && OnTime(s, events)
    ensures AttemptsOf(s, events, id) <= Left(s, id) <= ATTEMPTS_MAX
    decreases |events|
  {
    if events == [] {
      if id in s.box.rows && s.box.rows[id].outcome.None? {
        FewAttempts(s.box.rows[id]);
      }
    } else {
      LeftDecreases(s, events[0], id);
      StepKeepsPaced(s, events[0]);
      AtMostFifteenAttempts(Step(s, events[0]), events[1..], id);
    }
  }
}
