/** Known devices are unaffected by the failures of strangers. */
module Isolation {
  import opened Accounts
  import opened AccountRuns

  /** Equal but for what failures without a device cookie may write. */
  ghost predicate Alike(a: Account, b: Account) {
    a == b.(row := b.row.(failedLogins := a.row.failedLogins, lockedUntil := a.row.lockedUntil,
                          lockoutMailedAt := a.row.lockoutMailedAt))
  }

  /** The pending checks of others agree; one without a known device may differ. */
  ghost predicate PendingAlike(p: map<nat, Pending>, q: map<nat, Pending>, strangers: set<nat>) {
    forall id :: id !in strangers ==>
      && (id in p <==> id in q)
      && (id in p ==> p[id] == q[id] || (!p[id].known && !q[id].known))
  }

  predicate ByStranger(e: Event, strangers: set<nat>) {
    (e.Begin? || e.Finish?) && e.id in strangers
  }

  /** Along the run the strangers' checks fail and come without a known device, and every
      other check comes with one. */
  ghost predicate StrangersFail(c: Crypto, s: State, events: seq<Event>, strangers: set<nat>)
    decreases |events|
  {
    events == [] ||
    (&& (events[0].Finish? && events[0].id in s.pending ==>
           var p := s.pending[events[0].id];
           if events[0].id in strangers then !p.known && !Commit(c, s.account, p, events[0].works).verdict.Success?
           else p.known)
     && StrangersFail(c, Step(c, s, events[0]), events[1..], strangers))
  }

  function WithoutStrangers(events: seq<Event>, strangers: set<nat>): seq<Event> {
    if events == [] then []
    else if ByStranger(events[0], strangers) then WithoutStrangers(events[1..], strangers)
    else [events[0]] + WithoutStrangers(events[1..], strangers)
  }

  /** How each finished check of the others ended. */
  ghost function Verdicts(c: Crypto, s: State, events: seq<Event>, strangers: set<nat>): seq<Verdict>
    decreases |events|
  {
    if events == [] then []
    else
      (if events[0].Finish? && events[0].id in s.pending && events[0].id !in strangers
       then [Commit(c, s.account, s.pending[events[0].id], events[0].works).verdict] else [])
      + Verdicts(c, Step(c, s, events[0]), events[1..], strangers)
  }

  lemma StrangerWritesLockOnly(c: Crypto, a: Account, b: Account, p: Pending, works: bool)
    requires Alike(a, b) && !p.known && !Commit(c, a, p, works).verdict.Success?
    ensures Alike(Commit(c, a, p, works).change.account, b)
  {
  }

  lemma KnownReadsNoLock(c: Crypto, a: Account, b: Account, p: Pending, works: bool)
    requires Alike(a, b) && p.known
    ensures Commit(c, a, p, works).verdict == Commit(c, b, p, works).verdict
    ensures Alike(Commit(c, a, p, works).change.account, Commit(c, b, p, works).change.account)
  {
    DecidesAlike(c, a, b, p);
    var d, e := Decide(c, a, p), Decide(c, b, p);
    if d.verdict.Success? && works {
      ActsAlike(d.change.account, e.change.account, d.change.report, e.change.report, p.action, p.now);
    }
  }

  lemma DecidesAlike(c: Crypto, a: Account, b: Account, p: Pending)
    requires Alike(a, b) && p.known
    ensures Decide(c, a, p).verdict == Decide(c, b, p).verdict
    ensures Alike(Decide(c, a, p).change.account, Decide(c, b, p).change.account)
  {
  }

  lemma ActsAlike(a: Account, b: Account, r: Report, q: Report, action: Action, now: int)
    requires Alike(a, b)
    ensures Alike(Act(a, r, action, now).account, Act(b, q, action, now).account)
  {
  }

  lemma OthersAlike(c: Crypto, s: State, t: State, e: Event)
    requires Alike(s.account, t.account) && s.lookups == t.lookups && !e.Begin? && !e.Finish?
    ensures Alike(Step(c, s, e).account, Step(c, t, e).account) && Step(c, s, e).lookups == Step(c, t, e).lookups
  {
  }

  /** No run of failing checks without a known device, however long and at any times,
      changes how any check with a known device ends: with the strangers' events left out
      the others' verdicts are the same, and so is everything but the lock fields. */
  lemma {:induction false} DeviceIsolation(c: Crypto, s: State, t: State, events: seq<Event>, strangers: set<nat>)
    requires Alike(s.account, t.account) && PendingAlike(s.pending, t.pending, strangers) && s.lookups == t.lookups
    requires StrangersFail(c, s, events, strangers)
    ensures Verdicts(c, s, events, strangers) == Verdicts(c, t, WithoutStrangers(events, strangers), strangers)
    ensures Alike(Run(c, s, events).account, Run(c, t, WithoutStrangers(events, strangers)).account)
    decreases |events|
  {
    if events != [] {
      var e, rest := events[0], events[1..];
      if ByStranger(e, strangers) {
        StrangerStep(c, s, t, e, strangers);
        DeviceIsolation(c, Step(c, s, e), t, rest, strangers);
      } else {
        var kept := WithoutStrangers(events, strangers);
        assert kept[0] == e && kept[1..] == WithoutStrangers(rest, strangers);
        KnownStep(c, s, t, e, strangers);
        DeviceIsolation(c, Step(c, s, e), Step(c, t, e), rest, strangers);
      }
    }
  }

  lemma StrangerStep(c: Crypto, s: State, t: State, e: Event, strangers: set<nat>)
    requires Alike(s.account, t.account) && PendingAlike(s.pending, t.pending, strangers) && s.lookups == t.lookups
    requires ByStranger(e, strangers)
    requires e.Finish? && e.id in s.pending ==>
               !s.pending[e.id].known && !Commit(c, s.account, s.pending[e.id], e.works).verdict.Success?
    ensures Alike(Step(c, s, e).account, t.account) && PendingAlike(Step(c, s, e).pending, t.pending, strangers)
    ensures Step(c, s, e).lookups == t.lookups
  {
    if e.Finish? && e.id in s.pending {
      StrangerWritesLockOnly(c, s.account, t.account, s.pending[e.id], e.works);
    }
  }

  lemma KnownStep(c: Crypto, s: State, t: State, e: Event, strangers: set<nat>)
    requires Alike(s.account, t.account) && PendingAlike(s.pending, t.pending, strangers) && s.lookups == t.lookups
    requires !ByStranger(e, strangers) && (e.Finish? && e.id in s.pending ==> s.pending[e.id].known)
    ensures Alike(Step(c, s, e).account, Step(c, t, e).account) && Step(c, s, e).lookups == Step(c, t, e).lookups
    ensures PendingAlike(Step(c, s, e).pending, Step(c, t, e).pending, strangers)
    ensures e.Finish? ==> (e.id in s.pending <==> e.id in t.pending)
    ensures e.Finish? && e.id in s.pending ==>
              Commit(c, s.account, s.pending[e.id], e.works).verdict == Commit(c, t.account, t.pending[e.id], e.works).verdict
  {
    if e.Begin? {
      ReadsAlike(c, s.account, t.account, e.attempt, e.action, e.now);
    } else if e.Finish? {
      if e.id in s.pending {
        KnownReadsNoLock(c, s.account, t.account, s.pending[e.id], e.works);
      }
    } else {
      OthersAlike(c, s, t, e);
    }
  }

  lemma ReadsAlike(c: Crypto, a: Account, b: Account, attempt: Attempt, action: Action, now: int)
    requires Alike(a, b)
    ensures var p, q := Read(c, a, attempt, action, now), Read(c, b, attempt, action, now);
            p == q || (!p.known && !q.known)
  {
  }
}
