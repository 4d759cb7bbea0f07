/** The persistent outbox: queued mail, its retries and its end. */
module Outbox {
  import opened Options

  type UserId = nat
  type RowId = nat

  const RETRY_DELAYS: seq<int> := [60, 5 * 60, 30 * 60, 2 * 60 * 60]
  const MAX_AGE: int := 24 * 60 * 60
  const ATTEMPTS_MAX: nat := 15

  /** A kind of mail; `endsLinks` says that giving it up ends its account's reset links. */
  datatype Kind = Kind(name: string, security: bool, token: bool, lifetime: int, endsLinks: bool)

  const RESET_LINK := Kind("account_reset_link", false, true, 60 * 60, true)
  const LOCKOUT := Kind("account_lockout", true, false, 24 * 60 * 60, false)
  const PASSWORD_CHANGED := Kind("account_password_changed", true, false, 24 * 60 * 60, false)
  const KINDS := [RESET_LINK, LOCKOUT, PASSWORD_CHANGED]

  datatype Outcome = Sent | GivenUp

  /** An outbox row; `outcome` is `None` while it is unsent. */
  datatype Row = Row(
    kind: string,
    user: Option<UserId>,
    security: bool,
    token: bool,
    placeholder: bool,
    attempts: nat,
    nextAttemptAt: int,
    queuedAt: int,
    expiresAt: int,
    outcome: Option<Outcome>)
  {
    function Deadline(): int {
      if queuedAt + MAX_AGE < expiresAt then queuedAt + MAX_AGE else expiresAt
    }

    predicate Due(now: int) {
      outcome.None? && nextAttemptAt <= now
    }

    predicate Expired(now: int) {
      outcome.None? && Deadline() <= now
    }
  }

  /** Row ids are never used again. */
  datatype Box = Box(rows: map<RowId, Row>, nextId: RowId)

  function Enqueued(box: Box, kind: Kind, user: Option<UserId>, placeholder: bool, now: int): Box {
    Box(box.rows[box.nextId := Row(kind.name, user, kind.security, kind.token, placeholder, 0, now, now, now + kind.lifetime, None)],
        box.nextId + 1)
  }

  function Delay(failures: nat): int {
    RETRY_DELAYS[if failures == 0 then 0 else if failures > |RETRY_DELAYS| then |RETRY_DELAYS| - 1 else failures - 1]
  }

  function NextAttempt(failures: nat, endedAt: int, deadline: int): Option<int> {
    if endedAt + Delay(failures) < deadline then Some(endedAt + Delay(failures)) else None
  }

  function FindKind(kinds: seq<Kind>, name: string): Option<Kind> {
    if kinds == [] then None
    else if kinds[0].name == name then Some(kinds[0])
    else FindKind(kinds[1..], name)
  }

  predicate EndsLinks(kinds: seq<Kind>, row: Row) {
    FindKind(kinds, row.kind).Some? && FindKind(kinds, row.kind).value.endsLinks && row.user.Some?
  }

  /** The accounts whose links giving up `ids` ends. */
  function Ended(kinds: seq<Kind>, rows: map<RowId, Row>, ids: set<RowId>): set<UserId> {
    set id | id in ids && id in rows && EndsLinks(kinds, rows[id]) :: rows[id].user.value
  }

  /** `ids` given up: the rows with a token deleted, the others marked. */
  function GivenUpAll(rows: map<RowId, Row>, ids: set<RowId>): map<RowId, Row> {
    map id | id in rows && !(id in ids && rows[id].token) ::
      if id in ids then rows[id].(outcome := Some(GivenUp)) else rows[id]
  }

  function ExpiredIds(rows: map<RowId, Row>, now: int): set<RowId> {
    set id | id in rows && rows[id].Expired(now)
  }

  function DueIds(rows: map<RowId, Row>, now: int): set<RowId> {
    set id | id in rows && rows[id].Due(now)
  }

  function UnsentOf(rows: map<RowId, Row>, id: RowId): set<RowId> {
    if id in rows && rows[id].outcome.None? then {id} else {}
  }

  /** Giving up one row after others is giving up all of them. */
  lemma GivenUpOneMore(kinds: seq<Kind>, rows: map<RowId, Row>, ids: set<RowId>, id: RowId)
    requires id in rows && id !in ids && rows[id].outcome.None?
    ensures var some := GivenUpAll(rows, ids);
            && UnsentOf(some, id) == {id}
            && GivenUpAll(some, {id}) == GivenUpAll(rows, ids + {id})
            && Ended(kinds, rows, ids + {id}) == Ended(kinds, rows, ids) + Ended(kinds, some, {id})
  {
  }

  function WithoutDuePlaceholders(rows: map<RowId, Row>, now: int): map<RowId, Row> {
    map id | id in rows && !(rows[id].placeholder && rows[id].Due(now)) :: rows[id]
  }

  /** The outbox a worker chooses from at `now`. */
  function Cleared(box: Box, now: int): Box {
    box.(rows := WithoutDuePlaceholders(GivenUpAll(box.rows, ExpiredIds(box.rows, now)), now))
  }

  predicate Precedes(i: RowId, r: Row, j: RowId, q: Row) {
    if r.security != q.security then r.security
    else if r.nextAttemptAt != q.nextAttemptAt then r.nextAttemptAt < q.nextAttemptAt
    else if r.queuedAt != q.queuedAt then r.queuedAt < q.queuedAt
    else i < j
  }

  datatype Pick = Attempt(id: RowId) | Idle(next: Option<int>)

  /** `pick` is what to do at `now`: the first due row, or the earliest next attempt. */
  ghost predicate Picked(rows: map<RowId, Row>, now: int, pick: Pick) {
    match pick
    case Attempt(id) =>
      && id in rows && rows[id].Due(now)
      && forall j :: j in rows && rows[j].Due(now) && j != id ==> Precedes(id, rows[id], j, rows[j])
    case Idle(next) =>
      && (forall j :: j in rows ==> !rows[j].Due(now))
      && (next.Some? ==> exists j :: j in rows && rows[j].outcome.None? && rows[j].nextAttemptAt == next.value)
      && forall j :: j in rows && rows[j].outcome.None? ==> next.Some? && next.value <= rows[j].nextAttemptAt
  }

  /** An attempt's outcome recorded: sent, or failed and retried or given up. */
  function Recorded(box: Box, id: RowId, sent: bool, endedAt: int): Box {
    if id !in box.rows || box.rows[id].outcome.Some? then box
    else
      var row := box.rows[id].(attempts := box.rows[id].attempts + 1);
      if sent then box.(rows := if row.token then box.rows - {id} else box.rows[id := row.(outcome := Some(Sent))])
      else
        match NextAttempt(row.attempts, endedAt, row.Deadline())
        case Some(next) => box.(rows := box.rows[id := row.(nextAttemptAt := next)])
        case None => box.(rows := if row.token then box.rows - {id} else box.rows[id := row.(outcome := Some(GivenUp))])
  }

  /** The accounts whose links recording the outcome ends. */
  function EndedByRecord(kinds: seq<Kind>, box: Box, id: RowId, sent: bool, endedAt: int): set<UserId> {
    if !sent && id in box.rows && box.rows[id].outcome.None?
       && NextAttempt(box.rows[id].attempts + 1, endedAt, box.rows[id].Deadline()).None?
    then Ended(kinds, box.rows, {id})
    else {}
  }

  /** Retention: expired rows given up, then every row with an outcome deleted. */
  function Retained(box: Box, now: int): Box {
    var rows := GivenUpAll(box.rows, ExpiredIds(box.rows, now));
    box.(rows := map id | id in rows && rows[id].outcome.None? :: rows[id])
  }

  /** The `outbox` table as its transactions change it; each returns the accounts whose
      links its give-ups ended. */
  class OutboxTable {
    var rows: map<RowId, Row>
    var nextId: RowId

    constructor ()
      ensures Contents() == Box(map[], 0)
    {
      rows, nextId := map[], 0;
    }

    ghost function Contents(): Box
      reads this
    {
      Box(rows, nextId)
    }

    /** A new row under a new id, due at once and unexpired if its kind lives at all; every
        other row stays as it is. */
    method Enqueue(kind: Kind, user: Option<UserId>, placeholder: bool, now: int) returns (id: RowId)
      modifies this
      ensures id == old(nextId) && Contents() == Enqueued(old(Contents()), kind, user, placeholder, now)
      ensures (forall i :: i in old(rows) ==> i < old(nextId)) ==> id !in old(rows) && rows - {id} == old(rows)
      ensures rows[id].kind == kind.name && rows[id].user == user && rows[id].placeholder == placeholder
      ensures rows[id].security == kind.security && rows[id].token == kind.token
      ensures rows[id].Due(now) && rows[id].attempts == 0 && (rows[id].Expired(now) <==> kind.lifetime <= 0)
    {
      id := nextId;
      rows := rows[id := Row(kind.name, user, kind.security, kind.token, placeholder, 0, now, now, now + kind.lifetime, None)];
      nextId := nextId + 1;
    }

    method GiveUp(kinds: seq<Kind>, id: RowId) returns (ended: set<UserId>)
      modifies this`rows
      ensures rows == GivenUpAll(old(rows), UnsentOf(old(rows), id))
      ensures ended == Ended(kinds, old(rows), UnsentOf(old(rows), id))
    {
      ended := {};
      if id !in rows || rows[id].outcome.Some? {
        return;
      }
      var row := rows[id];
      var kind := FindKind(kinds, row.kind);
      if kind.Some? && kind.value.endsLinks && row.user.Some? {
        ended := {row.user.value};
      }
      if row.token {
        rows := rows - {id};
      } else {
        rows := rows[id := row.(outcome := Some(GivenUp))];
      }
    }

    method GiveUpExpired(kinds: seq<Kind>, now: int) returns (ended: set<UserId>)
      modifies this`rows
      ensures rows == GivenUpAll(old(rows), ExpiredIds(old(rows), now))
      ensures ended == Ended(kinds, old(rows), ExpiredIds(old(rows), now))
    {
      ghost var before := rows;
      var ids := set id | id in rows && rows[id].Expired(now);
      var left := ids;
      ended := {};
      while left != {}
        invariant left <= ids
        invariant rows == GivenUpAll(before, ids - left)
        invariant ended == Ended(kinds, before, ids - left)
        decreases |left|
      {
        var id :| id in left;
        GivenUpOneMore(kinds, before, ids - left, id);
        assert ids - (left - {id}) == ids - left + {id};
        var more := GiveUp(kinds, id);
        ended := ended + more;
        left := left - {id};
      }
    }

    /** First clears out what has expired and the placeholders that came due, then chooses. */
    method PickRow(kinds: seq<Kind>, now: int) returns (pick: Pick, ended: set<UserId>)
      modifies this`rows
      ensures Contents() == Cleared(old(Contents()), now) && Picked(rows, now, pick)
      ensures ended == Ended(kinds, old(rows), ExpiredIds(old(rows), now))
    {
      ended := GiveUpExpired(kinds, now);
      rows := map id | id in rows && !(rows[id].placeholder && rows[id].outcome.None? && rows[id].nextAttemptAt <= now) :: rows[id];
      pick := Choose(now);
    }

    method Choose(now: int) returns (pick: Pick)
      ensures Picked(rows, now, pick)
    {
      var due := DueIds(rows, now);
      if due != {} {
        var first := First(due);
        pick := Attempt(first);
      } else {
        assert forall j :: j in rows ==> (j in DueIds(rows, now) <==> rows[j].Due(now));
        var next := Earliest();
        pick := Idle(next);
      }
    }

    method First(ids: set<RowId>) returns (first: RowId)
      requires ids != {} && ids <= rows.Keys
      ensures first in ids && forall j :: j in ids && j != first ==> Precedes(first, rows[first], j, rows[j])
    {
      first :| first in ids;
      var left := ids - {first};
      while left != {}
        invariant first in ids && left <= ids
        invariant forall j :: j in ids - left && j != first ==> Precedes(first, rows[first], j, rows[j])
        decreases |left|
      {
        var id :| id in left;
        left := left - {id};
        if Precedes(id, rows[id], first, rows[first]) {
          first := id;
        }
      }
    }

    method Earliest() returns (next: Option<int>)
      ensures next.Some? ==> exists j :: j in rows && rows[j].outcome.None? && rows[j].nextAttemptAt == next.value
      ensures forall j :: j in rows && rows[j].outcome.None? ==> next.Some? && next.value <= rows[j].nextAttemptAt
    {
      next := None;
      var unsent := set id | id in rows && rows[id].outcome.None?;
      var left := unsent;
      while left != {}
        invariant left <= unsent
        invariant next.Some? ==> exists j :: j in rows && rows[j].outcome.None? && rows[j].nextAttemptAt == next.value
        invariant forall j :: j in unsent - left ==> next.Some? && next.value <= rows[j].nextAttemptAt
        decreases |left|
      {
        var id :| id in left;
        left := left - {id};
        if next.None? || rows[id].nextAttemptAt < next.value {
          next := Some(rows[id].nextAttemptAt);
        }
      }
    }

    method Record(kinds: seq<Kind>, id: RowId, sent: bool, endedAt: int) returns (ended: set<UserId>)
      modifies this`rows
      ensures Contents() == Recorded(old(Contents()), id, sent, endedAt)
      ensures ended == EndedByRecord(kinds, old(Contents()), id, sent, endedAt)
    {
      ended := {};
      if id !in rows || rows[id].outcome.Some? {
        return;
      }
      var row := rows[id];
      var attempts := row.attempts + 1;
      if sent && row.token {
        rows := rows - {id};
      } else if sent {
        rows := rows[id := row.(outcome := Some(Sent), attempts := attempts)];
      } else {
        var next := NextAttempt(attempts, endedAt, row.Deadline());
        if next.Some? {
          rows := rows[id := row.(attempts := attempts, nextAttemptAt := next.value)];
        } else {
          rows := rows[id := row.(attempts := attempts)];
          ended := GiveUp(kinds, id);
        }
      }
    }

    method Retention(kinds: seq<Kind>, now: int) returns (ended: set<UserId>)
      modifies this`rows
      ensures Contents() == Retained(old(Contents()), now)
      ensures ended == Ended(kinds, old(rows), ExpiredIds(old(rows), now))
    {
      ended := GiveUpExpired(kinds, now);
      rows := map id | id in rows && rows[id].outcome.None? :: rows[id];
    }
  }
}
