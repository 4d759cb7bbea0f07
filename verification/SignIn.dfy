/** An account's sessions, device cookies and reset links: the rows of the `sessions`,
    `known_devices` and `tokens` tables that name it. */
module SignIn {
  import opened Options
  import opened Sets

  /** The SHA-256 of a token, as stored. */
  type Digest = nat
  type Nonce = nat

  const IDLE_SECONDS: int := 12 * 60 * 60
  const ABSOLUTE_SECONDS: int := 7 * 24 * 60 * 60
  const TOUCH_SECONDS: int := 5 * 60
  const DEVICE_SECONDS: int := 365 * 24 * 60 * 60
  const DEVICES_KEPT: nat := 10
  const RESET_LIFETIME: int := 60 * 60

  datatype Session = Session(createdAt: int, lastSeen: int, pendingNonce: Option<Nonce>) {
    predicate Live(now: int) {
      lastSeen > now - IDLE_SECONDS && createdAt > now - ABSOLUTE_SECONDS
    }
  }

  datatype Device = Device(hash: Digest, createdAt: int) {
    predicate Live(now: int) {
      createdAt > now - DEVICE_SECONDS
    }
  }

  datatype Link = Link(expiresAt: int, usedAt: Option<int>) {
    predicate Live(now: int) {
      usedAt.None? && expiresAt > now
    }
  }

  datatype Rows = Rows(sessions: map<Digest, Session>, devices: map<nat, Device>, nextDevice: nat, links: map<Digest, Link>)

  // ----- sessions -----

  /** Whether `token` is a session at `now`; `active` says that the account has a
      password and is not disabled. */
  predicate SessionValid(r: Rows, token: Digest, active: bool, now: int) {
    active && token in r.sessions && r.sessions[token].Live(now)
  }

  /** The conditional update that records a use. */
  function Touched(r: Rows, token: Digest, now: int): Rows {
    if token in r.sessions && r.sessions[token].lastSeen < now
    then r.(sessions := r.sessions[token := r.sessions[token].(lastSeen := now)])
    else r
  }

  /** Whether a request that finds the session at `now` goes on to record its use. */
  predicate NeedsRecord(r: Rows, token: Digest, active: bool, now: int) {
    SessionValid(r, token, active, now) && now - r.sessions[token].lastSeen >= TOUCH_SECONDS
  }

  function WithSession(r: Rows, token: Digest, now: int): Rows {
    r.(sessions := r.sessions[token := Session(now, now, None)])
  }

  /** Every session and every device cookie gone. */
  function Ended(r: Rows): Rows {
    r.(sessions := map[], devices := map[])
  }

  function OnlySession(r: Rows, token: Digest): Rows {
    r.(sessions := map t | t in r.sessions && t == token :: r.sessions[t])
  }

  /** The nonce an enrollment waits with on its session; nothing if the session is gone. */
  function WithPendingNonce(r: Rows, session: Digest, pending: Option<Nonce>): Rows {
    if session !in r.sessions then r
    else r.(sessions := r.sessions[session := r.sessions[session].(pendingNonce := pending)])
  }

  function WithoutSession(r: Rows, token: Digest): Rows {
    r.(sessions := r.sessions - {token})
  }

  // ----- device cookies -----

  predicate KnownDevice(r: Rows, hash: Digest, now: int) {
    exists id :: id in r.devices && r.devices[id].hash == hash && r.devices[id].Live(now)
  }

  predicate Newer(devices: map<nat, Device>, i: nat, j: nat)
    requires i in devices && j in devices
  {
    devices[i].createdAt > devices[j].createdAt || (devices[i].createdAt == devices[j].createdAt && i > j)
  }

  function NewerThan(devices: map<nat, Device>, id: nat): set<nat>
    requires id in devices
  {
    set i | i in devices && Newer(devices, i, id)
  }

  /** The newest ten. */
  function Kept(devices: map<nat, Device>): map<nat, Device> {
    map id | id in devices && |NewerThan(devices, id)| < DEVICES_KEPT :: devices[id]
  }

  function WithDevice(r: Rows, hash: Digest, now: int): Rows {
    r.(devices := Kept(r.devices[r.nextDevice := Device(hash, now)]), nextDevice := r.nextDevice + 1)
  }

  // ----- reset links -----

  /** Every unused link marked used. */
  function AllUsed(links: map<Digest, Link>, now: int): map<Digest, Link> {
    map h | h in links :: if links[h].usedAt.None? then links[h].(usedAt := Some(now)) else links[h]
  }

  function LinksExpired(r: Rows, now: int): Rows {
    r.(links := AllUsed(r.links, now))
  }

  function WithLinkUsed(r: Rows, hash: Digest, now: int): Rows
    requires hash in r.links
  {
    r.(links := r.links[hash := r.links[hash].(usedAt := Some(now))])
  }

  /** A new link, after invalidating the others. */
  function WithLink(r: Rows, hash: Digest, now: int): Rows {
    r.(links := AllUsed(r.links, now)[hash := Link(now + RESET_LIFETIME, None)])
  }

  predicate LinkValid(r: Rows, hash: Digest, enabled: bool, now: int) {
    enabled && hash in r.links && r.links[hash].Live(now)
  }

  // ----- retention -----

  function Retained(r: Rows, now: int): Rows {
    r.(sessions := map t | t in r.sessions && r.sessions[t].Live(now) :: r.sessions[t],
       links := map h | h in r.links && r.links[h].Live(now) :: r.links[h],
       devices := map d | d in r.devices && r.devices[d].Live(now) :: r.devices[d])
  }

  /** The rows as transactions change them, statement by statement. */
  class SignInTables {
    var sessions: map<Digest, Session>
    var devices: map<nat, Device>
    var nextDevice: nat
    var links: map<Digest, Link>

    constructor (rows: Rows)
      ensures Contents() == rows
    {
      sessions, devices, nextDevice, links := rows.sessions, rows.devices, rows.nextDevice, rows.links;
    }

    ghost function Contents(): Rows
      reads this
    {
      Rows(sessions, devices, nextDevice, links)
    }

    /** A request's lookup, the first of its two transactions: the session's last
        recorded use if the session is valid. */
    method FindSession(token: Digest, active: bool, now: int) returns (lastSeen: Option<int>)
      ensures lastSeen.Some? <==> SessionValid(Contents(), token, active, now)
      ensures (lastSeen.Some? && now - lastSeen.value >= TOUCH_SECONDS) <==> NeedsRecord(Contents(), token, active, now)
    {
      if !active || token !in sessions {
        return None;
      }
      var session := sessions[token];
      if session.lastSeen <= now - IDLE_SECONDS || session.createdAt <= now - ABSOLUTE_SECONDS {
        return None;
      }
      return Some(session.lastSeen);
    }

    /** The second, when the first asks for it: later uses win, and nothing brings a
        deleted session back. */
    method RecordUse(token: Digest, now: int)
      modifies this`sessions
      ensures Contents() == Touched(old(Contents()), token, now)
      ensures sessions.Keys == old(sessions).Keys
      ensures forall t :: t in sessions ==>
                sessions[t] == old(sessions)[t].(lastSeen := if t == token && now > old(sessions)[t].lastSeen then now else old(sessions)[t].lastSeen)
    {
      if token in sessions && sessions[token].lastSeen < now {
        sessions := sessions[token := sessions[token].(lastSeen := now)];
      }
    }

    /** A login's new session and, unless the request carried a known one, device cookie. */
    method SignedIn(token: Digest, device: Option<Digest>, newDevice: Digest, now: int)
      modifies this
      ensures Contents() ==
        if device.Some? && KnownDevice(old(Contents()), device.value, now)
        then WithSession(old(Contents()), token, now)
        else WithDevice(WithSession(old(Contents()), token, now), newDevice, now)
    {
      sessions := sessions[token := Session(now, now, None)];
      var known := device.Some? && exists id :: id in devices && devices[id].hash == device.value && devices[id].Live(now);
      if !known {
        devices := devices[nextDevice := Device(newDevice, now)];
        nextDevice := nextDevice + 1;
        devices := map id | id in devices && |NewerThan(devices, id)| < DEVICES_KEPT :: devices[id];
      }
    }

    /** From here on no session is valid and no device is known, whatever the time. */
    method EndAll()
      modifies this`sessions, this`devices
      ensures Contents() == Ended(old(Contents()))
      ensures forall token, active, now :: !SessionValid(Contents(), token, active, now)
      ensures forall hash, now :: !KnownDevice(Contents(), hash, now)
      ensures forall hash, enabled, now :: LinkValid(Contents(), hash, enabled, now) == LinkValid(old(Contents()), hash, enabled, now)
    {
      sessions := map[];
      devices := map[];
    }

    method ForgetDevices()
      modifies this`devices
      ensures Contents() == old(Contents()).(devices := map[])
    {
      devices := map[];
    }

    method KeepOnly(token: Digest)
      modifies this`sessions
      ensures Contents() == OnlySession(old(Contents()), token)
    {
      sessions := map t | t in sessions && t == token :: sessions[t];
    }

    method PendingNonce(session: Digest) returns (pending: Option<Nonce>)
      ensures pending == if session in sessions then sessions[session].pendingNonce else None
    {
      pending := if session in sessions then sessions[session].pendingNonce else None;
    }

    method SetPendingNonce(session: Digest, pending: Option<Nonce>)
      modifies this`sessions
      ensures Contents() == WithPendingNonce(old(Contents()), session, pending)
    {
      if session in sessions {
        sessions := sessions[session := sessions[session].(pendingNonce := pending)];
      }
    }

    /** Consumes a reset link with one conditional update. */
    method ConsumeLink(hash: Digest, enabled: bool, now: int) returns (consumed: bool)
      modifies this`links
      ensures consumed == LinkValid(old(Contents()), hash, enabled, now)
      ensures Contents() == if consumed then WithLinkUsed(old(Contents()), hash, now) else old(Contents())
    {
      consumed := enabled && hash in links && links[hash].usedAt.None? && links[hash].expiresAt > now;
      if consumed {
        links := links[hash := links[hash].(usedAt := Some(now))];
      }
    }

    /** From here on no link is valid, whatever the time, and links already used keep the
        time they were used at. */
    method ExpireLinks(now: int)
      modifies this`links
      ensures Contents() == LinksExpired(old(Contents()), now)
      ensures forall hash, enabled, later :: !LinkValid(Contents(), hash, enabled, later)
      ensures forall hash :: hash in old(links) && old(links)[hash].usedAt.Some? ==> hash in links && links[hash] == old(links)[hash]
    {
      links := map h | h in links :: if links[h].usedAt.None? then links[h].(usedAt := Some(now)) else links[h];
    }

    method IssueLink(hash: Digest, now: int)
      modifies this`links
      ensures Contents() == WithLink(old(Contents()), hash, now)
    {
      ExpireLinks(now);
      links := links[hash := Link(now + RESET_LIFETIME, None)];
    }

    method Retention(now: int)
      modifies this
      ensures Contents() == Retained(old(Contents()), now)
      ensures forall t :: t in sessions <==> t in old(sessions) && old(sessions)[t].Live(now)
      ensures forall h :: h in links <==> h in old(links) && old(links)[h].Live(now)
      ensures forall d :: d in devices <==> d in old(devices) && old(devices)[d].Live(now)
    {
      sessions := map t | t in sessions && !(sessions[t].lastSeen <= now - IDLE_SECONDS || sessions[t].createdAt <= now - ABSOLUTE_SECONDS) :: sessions[t];
      links := map h | h in links && !(links[h].usedAt.Some? || links[h].expiresAt <= now) :: links[h];
      devices := map d | d in devices && !(devices[d].createdAt <= now - DEVICE_SECONDS) :: devices[d];
    }
  }

  // ----- which device cookies stay -----

  /** At most ten device cookies, and none forgotten for an older one. */
  lemma KeptIsNewestTen(devices: map<nat, Device>)
    ensures |Kept(devices)| <= 10
    ensures forall i, j :: i in Kept(devices) && j in devices && Newer(devices, j, i) ==> j in Kept(devices)
  {
    forall i, j | i in Kept(devices) && j in devices && Newer(devices, j, i) ensures j in Kept(devices) {
      FewerAbove(devices, i, j);
    }
    KeptIsSmall(devices, Kept(devices).Keys);
  }

  /** A new device cookie is kept exactly when fewer than ten are dated after it. */
  lemma NewDeviceKept(r: Rows, hash: Digest, now: int)
    requires forall d :: d in r.devices ==> d < r.nextDevice
    ensures r.nextDevice in WithDevice(r, hash, now).devices <==>
              |set d | d in r.devices && r.devices[d].createdAt > now| < 10
  {
    var devices := r.devices[r.nextDevice := Device(hash, now)];
    assert NewerThan(devices, r.nextDevice) == set d | d in r.devices && r.devices[d].createdAt > now;
  }

  lemma FewerAbove(devices: map<nat, Device>, i: nat, j: nat)
    requires i in devices && j in devices && Newer(devices, j, i)
    ensures |NewerThan(devices, j)| < |NewerThan(devices, i)|
  {
    assert j in NewerThan(devices, i) && j !in NewerThan(devices, j);
    ProperSubset(NewerThan(devices, j), NewerThan(devices, i), j);
  }

  lemma ProperSubset(a: set<nat>, b: set<nat>, x: nat)
    requires a <= b && x in b && x !in a
    ensures |a| < |b|
  {
    assert b == a + (b - a);
    assert x in b - a;
  }

  /** Every device of `ids` but the oldest is newer than the oldest. */
  lemma KeptIsSmall(devices: map<nat, Device>, ids: set<nat>)
    requires ids <= Kept(devices).Keys
    ensures |ids| <= DEVICES_KEPT
  {
    if ids != {} {
      var oldest := Oldest(devices, ids);
      assert ids - {oldest} <= NewerThan(devices, oldest);
      SubsetSize(ids - {oldest}, NewerThan(devices, oldest));
    }
  }

  lemma {:induction false} Oldest(devices: map<nat, Device>, ids: set<nat>) returns (oldest: nat)
    requires ids != {} && ids <= devices.Keys
    ensures oldest in ids && forall i :: i in ids && i != oldest ==> Newer(devices, i, oldest)
    decreases |ids|
  {
    var x :| x in ids;
    if ids == {x} {
      oldest := x;
    } else {
      var o := Oldest(devices, ids - {x});
      oldest := if Newer(devices, x, o) then o else x;
      forall i | i in ids && i != oldest ensures Newer(devices, i, oldest) {
        assert i == x || i == o || (i in ids - {x} && Newer(devices, i, o));
      }
    }
  }
}
