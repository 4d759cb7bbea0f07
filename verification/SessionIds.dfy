/** Requests find their session by token and then act on it by row id, and the table may
    give the id of a deleted row out again. When is that the same session? */
module SessionIds {
  import opened SignIn

  /** The `sessions` table of all accounts: the token of each row. */
  type Table = map<nat, Digest>

  datatype Event = LogIn(id: nat, token: Digest) | Delete(ids: set<nat>)

  /** A new row gets the id after the largest in the table, 1 in an empty one. */
  ghost predicate IsNext(t: Table, id: nat) {
    id >= 1 && (forall i :: i in t ==> i < id) && (id == 1 || id - 1 in t)
  }

  ghost predicate Enabled(t: Table, e: Event) {
    e.LogIn? ==> IsNext(t, e.id)
  }

  function Step(t: Table, e: Event): Table {
    match e
    case LogIn(id, token) => t[id := token]
    case Delete(ids) => t - ids
  }

  function Run(t: Table, events: seq<Event>): Table
    decreases |events|
  {
    if events == [] then t else Run(Step(t, events[0]), events[1..])
  }

  /** A run in which no login draws `token` again. */
  ghost predicate IsRun(t: Table, events: seq<Event>, token: Digest)
    decreases |events|
  {
    events == [] ||
    (&& Enabled(t, events[0]) && (events[0].LogIn? ==> events[0].token != token)
     && IsRun(Step(t, events[0]), events[1..], token))
  }

  /** Deleting, or updating, by the id is deleting, or updating, by the token. */
  ghost predicate MeansToken(t: Table, id: nat, token: Digest) {
    forall i :: i in t ==> (i == id <==> t[i] == token)
  }

  ghost predicate AlwaysMeansToken(t: Table, events: seq<Event>, id: nat, token: Digest)
    decreases |events|
  {
    MeansToken(t, id, token) && (events == [] || AlwaysMeansToken(Step(t, events[0]), events[1..], id, token))
  }

  /** Some login meets a table whose largest id is one below `id`. */
  ghost predicate GivenOutAgain(t: Table, events: seq<Event>, id: nat)
    decreases |events|
  {
    events != [] && ((events[0].LogIn? && IsNext(t, id)) || GivenOutAgain(Step(t, events[0]), events[1..], id))
  }

  lemma NextIsUnique(t: Table, i: nat, j: nat)
    requires IsNext(t, i) && IsNext(t, j)
    ensures i == j
  {
  }

  /** An id read for a session means that session, or nothing once it is deleted, through
      the whole run exactly when no login meets a table whose largest id is one below. */
  lemma {:induction false} IdMeansTokenExactly(t: Table, events: seq<Event>, id: nat, token: Digest)
    requires MeansToken(t, id, token) && IsRun(t, events, token)
    ensures AlwaysMeansToken(t, events, id, token) <==> !GivenOutAgain(t, events, id)
    decreases |events|
  {
    if events != [] {
      var e := events[0];
      if e.LogIn? && IsNext(t, id) {
        NextIsUnique(t, e.id, id);
        assert Step(t, e)[id] != token;
      } else {
        IdMeansTokenExactly(Step(t, e), events[1..], id, token);
      }
    }
  }

  ghost predicate AlwaysIn(t: Table, events: seq<Event>, id: nat)
    decreases |events|
  {
    id in t && (events == [] || AlwaysIn(Step(t, events[0]), events[1..], id))
  }

  /** So it does as long as it, or any session begun later, stays. */
  lemma {:induction false} LaterSessionProtects(t: Table, events: seq<Event>, id: nat, later: nat)
    requires id <= later && AlwaysIn(t, events, later)
    ensures !GivenOutAgain(t, events, id)
    decreases |events|
  {
    if events != [] {
      LaterSessionProtects(Step(t, events[0]), events[1..], id, later);
    }
  }

  /** It can fail: a logout is let in for the newest session, retention deletes that row, a
      login gets its id, and the logout ends the new session. Without retention the login
      gets another id and stays. */
  lemma LogoutEndsNewSession(older: Digest, newest: Digest, added: Digest)
    requires older != newest && newest != added && older != added
    ensures var t := map[1 := older, 2 := newest];
            var kept, plain := Run(t, [Delete({2}), LogIn(2, added)]), Run(t, [LogIn(3, added)]);
            && MeansToken(t, 2, newest) && IsRun(t, [Delete({2}), LogIn(2, added)], newest) && IsRun(t, [LogIn(3, added)], newest)
            && added in kept.Values && added !in (kept - {2}).Values && added in (plain - {2}).Values
  {
    var t := map[1 := older, 2 := newest];
    var deleted := Step(t, Delete({2}));
    assert deleted == map[1 := older];
    assert [Delete({2}), LogIn(2, added)][1..] == [LogIn(2, added)];
    assert Run(deleted, [LogIn(2, added)]) == map[1 := older, 2 := added];
    var kept, plain := Run(t, [Delete({2}), LogIn(2, added)]), Run(t, [LogIn(3, added)]);
    assert [LogIn(3, added)][1..] == [] && plain == Run(Step(t, LogIn(3, added)), []);
    assert kept == map[1 := older, 2 := added] && plain == t[3 := added];
    assert kept[2] == added && (plain - {2})[3] == added;
    assert kept - {2} == map[1 := older];
  }
}
