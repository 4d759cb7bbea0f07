/** The projects table, and the host map built from it. */
module Hosts {
  import opened Options

  type ProjectId = nat

  /** A project's settings: its custom domain, and everything else as one value. */
  datatype Settings = Settings(host: Option<string>, rest: nat)

  datatype Project = Project(slug: string, settings: Settings)

  /** The projects table; ids start at 1 and are never reused. */
  datatype Projects = Projects(rows: map<ProjectId, Project>, nextId: ProjectId)

  datatype Problem = SlugTaken | HostTaken | HostRule | HostMain

  datatype Outcome<T> = Ok(value: T) | Invalid(problem: Problem)

  // ----- changes -----

  function Lowercase(text: string): (r: string)
    ensures |r| == |text| && forall i :: 0 <= i < |r| ==> !('A' <= r[i] <= 'Z')
  {
    seq(|text|, i requires 0 <= i < |text| => if 'A' <= text[i] <= 'Z' then text[i] - 'A' + 'a' else text[i])
  }

  /** Reads what was typed, already trimmed, as a domain; nothing typed means no domain.
      `isDnsName` is the syntax check of a DNS name. */
  function ParseHost(text: string, main: string, isDnsName: string -> bool): (r: Outcome<Option<string>>)
    ensures r == Ok(None) <==> text == []
    ensures forall host :: r == Ok(Some(host)) <==>
              host == Lowercase(text) && host != [] && isDnsName(host) && '.' in host && host != main
    ensures r == Invalid(HostMain) <==> text != [] && Lowercase(text) == main && isDnsName(main) && '.' in main
    ensures r.Invalid? && r != Invalid(HostMain) ==> r == Invalid(HostRule)
  {
    var host := Lowercase(text);
    if host == "" then Ok(None)
    else if !isDnsName(host) || '.' !in host then Invalid(HostRule)
    else if host == main then Invalid(HostMain)
    else Ok(Some(host))
  }

  predicate HasHost(p: Project, host: string) {
    p.settings.host == Some(host)
  }

  predicate Taken(t: Projects, host: Option<string>, except: ProjectId) {
    host.Some? && exists id :: id in t.rows && id != except && HasHost(t.rows[id], host.value)
  }

  function Create(t: Projects, slug: string, settings: Settings): (Projects, Outcome<ProjectId>) {
    if exists id :: id in t.rows && t.rows[id].slug == slug then (t, Invalid(SlugTaken))
    else if Taken(t, settings.host, 0) then (t, Invalid(HostTaken))
    else (Projects(t.rows[t.nextId := Project(slug, settings)], t.nextId + 1), Ok(t.nextId))
  }

  function Update(t: Projects, id: ProjectId, settings: Settings): (Projects, Outcome<bool>) {
    if id !in t.rows || t.rows[id].settings == settings then (t, Ok(false))
    else if Taken(t, settings.host, id) then (t, Invalid(HostTaken))
    else (t.(rows := t.rows[id := t.rows[id].(settings := settings)]), Ok(true))
  }

  function Delete(t: Projects, id: ProjectId): (Projects, bool) {
    if id in t.rows then (t.(rows := t.rows - {id}), true) else (t, false)
  }

  /** The table as the writer changes it. */
  class ProjectsTable {
    var rows: map<ProjectId, Project>
    var nextId: ProjectId

    constructor ()
      ensures Contents() == Projects(map[], 1)
    {
      rows, nextId := map[], 1;
    }

    ghost function Contents(): Projects
      reads this
    {
      Projects(rows, nextId)
    }

    method HostTaken(host: Option<string>, except: ProjectId) returns (taken: bool)
      ensures taken == Taken(Contents(), host, except)
    {
      if host.None? {
        return false;
      }
      taken := exists id :: id in rows && id != except && HasHost(rows[id], host.value);
    }

    method CreateProject(slug: string, settings: Settings) returns (outcome: Outcome<ProjectId>)
      modifies this
      ensures (Contents(), outcome) == Create(old(Contents()), slug, settings)
    {
      if exists id :: id in rows && rows[id].slug == slug {
        return Invalid(SlugTaken);
      }
      var taken := HostTaken(settings.host, 0);
      if taken {
        return Invalid(Problem.HostTaken);
      }
      rows := rows[nextId := Project(slug, settings)];
      outcome := Ok(nextId);
      nextId := nextId + 1;
    }

    method UpdateProject(id: ProjectId, settings: Settings) returns (outcome: Outcome<bool>)
      modifies this
      ensures (Contents(), outcome) == Update(old(Contents()), id, settings)
    {
      if id !in rows || rows[id].settings == settings {
        return Ok(false);
      }
      var taken := HostTaken(settings.host, id);
      if taken {
        return Invalid(Problem.HostTaken);
      }
      rows := rows[id := rows[id].(settings := settings)];
      outcome := Ok(true);
    }

    method DeleteProject(id: ProjectId) returns (deleted: bool)
      modifies this
      ensures (Contents(), deleted) == Delete(old(Contents()), id)
    {
      if id !in rows {
        return false;
      }
      rows := rows - {id};
      deleted := true;
    }
  }

  /** No slug and no domain twice, no project on the main host, ids from 1 on. */
  ghost predicate Sound(t: Projects, main: string) {
    && (forall id :: id in t.rows ==> 1 <= id < t.nextId && !HasHost(t.rows[id], main))
    && (forall i, j :: i in t.rows && j in t.rows && i != j ==> t.rows[i].slug != t.rows[j].slug)
    && (forall i, j :: i in t.rows && j in t.rows && i != j && t.rows[i].settings.host.Some? ==>
         t.rows[i].settings.host != t.rows[j].settings.host)
    && t.nextId >= 1
  }

  /** Every change keeps the table sound, as long as the settings' domain came through
      `ParseHost`; a refused one changes nothing. */
  lemma ChangesKeepSound(t: Projects, main: string, slug: string, id: ProjectId, settings: Settings)
    requires Sound(t, main) && settings.host != Some(main)
    ensures Sound(Create(t, slug, settings).0, main) && Sound(Update(t, id, settings).0, main) && Sound(Delete(t, id).0, main)
    ensures Create(t, slug, settings).1.Invalid? ==> Create(t, slug, settings).0 == t
    ensures Update(t, id, settings).1 != Ok(true) ==> Update(t, id, settings).0 == t
  {
    CreateKeepsSound(t, main, slug, settings);
    UpdateKeepsSound(t, main, id, settings);
    DeleteKeepsSound(t, main, id);
  }

  lemma CreateKeepsSound(t: Projects, main: string, slug: string, settings: Settings)
    requires Sound(t, main) && settings.host != Some(main)
    ensures Sound(Create(t, slug, settings).0, main)
  {
  }

  lemma UpdateKeepsSound(t: Projects, main: string, id: ProjectId, settings: Settings)
    requires Sound(t, main) && settings.host != Some(main)
    ensures Sound(Update(t, id, settings).0, main)
  {
  }

  lemma DeleteKeepsSound(t: Projects, main: string, id: ProjectId)
    requires Sound(t, main)
    ensures Sound(Delete(t, id).0, main)
  {
  }

  /** What a change does: a project created is there under a new id, one updated has the new
      settings under its old slug, one deleted is gone, and no other is touched. */
  lemma ChangesDo(t: Projects, main: string, slug: string, id: ProjectId, settings: Settings, other: ProjectId)
    requires Sound(t, main)
    ensures var (created, outcome) := Create(t, slug, settings);
            && (outcome.Ok? <==> (forall i :: i in t.rows ==> t.rows[i].slug != slug)
                                 && (settings.host.Some? ==> forall i :: i in t.rows ==> t.rows[i].settings.host != settings.host))
            && (outcome.Ok? ==> outcome.value !in t.rows && outcome.value in created.rows && created.rows[outcome.value] == Project(slug, settings))
            && (outcome != Ok(other) ==> SameRow(t, created, other))
    ensures var (updated, outcome) := Update(t, id, settings);
            && (outcome == Ok(true) ==> id in t.rows && updated.rows[id] == Project(t.rows[id].slug, settings))
            && (outcome == Ok(false) <==> id !in t.rows || t.rows[id].settings == settings)
            && (other != id ==> SameRow(t, updated, other))
    ensures var (left, deleted) := Delete(t, id);
            && deleted == (id in t.rows) && id !in left.rows && (other != id ==> SameRow(t, left, other))
  {
  }

  ghost predicate SameRow(t: Projects, u: Projects, id: ProjectId) {
    (id in t.rows <==> id in u.rows) && (id in t.rows ==> t.rows[id] == u.rows[id])
  }

  // ----- the map -----

  datatype Entry = Main | ProjectEntry(id: ProjectId)

  datatype HostMap = HostMap(entries: map<string, Entry>, domains: map<string, string>) {
    function WithProject(host: string, id: ProjectId): HostMap {
      this.(entries := entries[host := ProjectEntry(id)])
    }

    function WithDomain(slug: string, host: string): HostMap {
      this.(domains := domains[slug := host])
    }

    function Get(host: string): Option<Entry> {
      if host in entries then Some(entries[host]) else None
    }

    function Domain(slug: string): Option<string> {
      if slug in domains then Some(domains[slug]) else None
    }
  }

  function MainOnly(main: string): HostMap {
    HostMap(map[main := Main], map[])
  }

  /** A row of the query for projects with a domain. */
  datatype Row = Row(id: ProjectId, slug: string, host: string)

  function Loaded(main: string, rows: seq<Row>): HostMap {
    if rows == [] then MainOnly(main)
    else
      var row := rows[|rows| - 1];
      Loaded(main, rows[..|rows| - 1]).WithProject(row.host, row.id).WithDomain(row.slug, row.host)
  }

  /** Builds the map row by row. */
  method Load(main: string, rows: seq<Row>) returns (hosts: HostMap)
    ensures hosts == Loaded(main, rows)
  {
    hosts := MainOnly(main);
    for i := 0 to |rows|
      invariant hosts == Loaded(main, rows[..i])
    {
      hosts := hosts.WithProject(rows[i].host, rows[i].id).WithDomain(rows[i].slug, rows[i].host);
      assert rows[..i + 1][..i] == rows[..i];
    }
    assert rows[..|rows|] == rows;
  }

  /** `rows` are the projects with a domain, in whatever order the database has them. */
  ghost predicate Lists(t: Projects, rows: seq<Row>) {
    && (forall i :: 0 <= i < |rows| ==> Listed(t, rows[i]))
    && (forall id :: id in t.rows && t.rows[id].settings.host.Some? ==>
         Row(id, t.rows[id].slug, t.rows[id].settings.host.value) in rows)
  }

  predicate Listed(t: Projects, row: Row) {
    row.id in t.rows && t.rows[row.id].slug == row.slug && HasHost(t.rows[row.id], row.host)
  }

  /** A direct search of the table for a host. */
  ghost predicate Answers(t: Projects, main: string, host: string, answer: Option<Entry>) {
    match answer
    case Some(Main) => host == main
    case Some(ProjectEntry(id)) => id in t.rows && HasHost(t.rows[id], host)
    case None => host != main && forall id :: id in t.rows ==> !HasHost(t.rows[id], host)
  }

  lemma {:induction false} LoadedEntry(main: string, rows: seq<Row>, host: string)
    ensures Loaded(main, rows).Get(host) == Some(Main) ==> host == main && forall i :: 0 <= i < |rows| ==> rows[i].host != main
    ensures Loaded(main, rows).Get(host).None? <==> host != main && forall i :: 0 <= i < |rows| ==> rows[i].host != host
    ensures forall id :: Loaded(main, rows).Get(host) == Some(ProjectEntry(id)) ==>
      exists i :: 0 <= i < |rows| && rows[i].host == host && rows[i].id == id
  {
    if rows != [] {
      var n := |rows| - 1;
      LoadedEntry(main, rows[..n], host);
      assert forall i :: 0 <= i < n ==> rows[..n][i] == rows[i];
      if rows[n].host == host {
        assert Loaded(main, rows).Get(host) == Some(ProjectEntry(rows[n].id));
      }
    }
  }

  /** Without the table's soundness: the main host answers as itself exactly when no
      project claims it, as one may after the base URL changed. */
  lemma MainAnswersUnlessClaimed(main: string, rows: seq<Row>)
    ensures Loaded(main, rows).Get(main) == Some(Main) <==> forall i :: 0 <= i < |rows| ==> rows[i].host != main
  {
    LoadedEntry(main, rows, main);
    if rows != [] && forall i :: 0 <= i < |rows| ==> rows[i].host != main {
      match Loaded(main, rows).Get(main) {
        case Some(ProjectEntry(_)) => assert false;
        case Some(Main) =>
      }
    }
  }

  /** With a sound table, in any row order, a lookup answers as a search of the table. */
  lemma LookupSearchesTable(t: Projects, main: string, rows: seq<Row>, host: string, answer: Option<Entry>)
    requires Sound(t, main) && Lists(t, rows)
    ensures Loaded(main, rows).Get(host) == answer <==> Answers(t, main, host, answer)
  {
    var found := Loaded(main, rows).Get(host);
    LoadedEntry(main, rows, host);
    assert Answers(t, main, host, found);
    if Answers(t, main, host, answer) {
      AnswersUnique(t, main, host, found, answer);
    }
  }

  lemma AnswersUnique(t: Projects, main: string, host: string, a: Option<Entry>, b: Option<Entry>)
    requires Sound(t, main) && Answers(t, main, host, a) && Answers(t, main, host, b)
    ensures a == b
  {
  }

  lemma {:induction false} LoadedDomain(main: string, rows: seq<Row>, slug: string)
    ensures Loaded(main, rows).Domain(slug).None? <==> forall i :: 0 <= i < |rows| ==> rows[i].slug != slug
    ensures forall host :: Loaded(main, rows).Domain(slug) == Some(host) ==>
      exists i :: 0 <= i < |rows| && rows[i].slug == slug && rows[i].host == host
  {
    if rows != [] {
      var n := |rows| - 1;
      LoadedDomain(main, rows[..n], slug);
      assert forall i :: 0 <= i < n ==> rows[..n][i] == rows[i];
      if rows[n].slug == slug {
        assert Loaded(main, rows).Domain(slug) == Some(rows[n].host);
      }
    }
  }

  /** The canonical redirect finds exactly the domain of the project with that slug. */
  lemma DomainSearchesTable(t: Projects, main: string, rows: seq<Row>, slug: string, host: string)
    requires Sound(t, main) && Lists(t, rows)
    ensures Loaded(main, rows).Domain(slug) == Some(host) <==>
      exists id :: id in t.rows && t.rows[id].slug == slug && HasHost(t.rows[id], host)
  {
    LoadedDomain(main, rows, slug);
    if id :| id in t.rows && t.rows[id].slug == slug && HasHost(t.rows[id], host) {
      assert Row(id, slug, host) in rows;
    }
  }

  lemma SameLookups(t: Projects, main: string, a: seq<Row>, b: seq<Row>)
    requires Sound(t, main) && Lists(t, a) && Lists(t, b)
    ensures forall host :: Loaded(main, a).Get(host) == Loaded(main, b).Get(host)
    ensures forall slug :: Loaded(main, a).Domain(slug) == Loaded(main, b).Domain(slug)
  {
    forall host ensures Loaded(main, a).Get(host) == Loaded(main, b).Get(host) {
      LookupSearchesTable(t, main, a, host, Loaded(main, a).Get(host));
      LookupSearchesTable(t, main, b, host, Loaded(main, a).Get(host));
    }
    forall slug ensures Loaded(main, a).Domain(slug) == Loaded(main, b).Domain(slug) {
      SameDomain(t, main, a, b, slug);
      SameDomain(t, main, b, a, slug);
    }
  }

  lemma SameDomain(t: Projects, main: string, a: seq<Row>, b: seq<Row>, slug: string)
    requires Sound(t, main) && Lists(t, a) && Lists(t, b)
    ensures var found := Loaded(main, a).Domain(slug);
            found.Some? ==> Loaded(main, b).Domain(slug) == found
  {
    var found := Loaded(main, a).Domain(slug);
    if found.Some? {
      DomainSearchesTable(t, main, a, slug, found.value);
      DomainSearchesTable(t, main, b, slug, found.value);
    }
  }

  /** The order of the rows does not matter. */
  lemma RowOrderDoesNotMatter(t: Projects, main: string, a: seq<Row>, b: seq<Row>)
    requires Sound(t, main) && Lists(t, a) && Lists(t, b)
    ensures Loaded(main, a) == Loaded(main, b)
  {
    SameLookups(t, main, a, b);
    var x, y := Loaded(main, a), Loaded(main, b);
    assert forall h :: h in x.entries <==> x.Get(h).Some?;
    assert forall h :: h in y.entries <==> y.Get(h).Some?;
    assert forall h :: h in x.domains <==> x.Domain(h).Some?;
    assert forall h :: h in y.domains <==> y.Domain(h).Some?;
    assert x.entries == y.entries;
    assert x.domains == y.domains;
  }
}

/** Keeping the published map current: refreshes after a change and a polling watcher,
    which share one connection behind a lock. */
module HostWatch {
  import opened Options
  import opened Hosts

  /** The lock's holder and how far it got: it may have loaded a map, which came from the
      committed table number `source`. */
  datatype Holder = Nobody
                  | Refreshing(loaded: Option<Copy>)
                  | Ticking(version: nat, loaded: Option<Copy>)

  /** A map and the number of the committed table it was loaded from. */
  datatype Copy = Copy(hosts: HostMap, source: nat)

  /** `tables` are all committed tables, oldest first; the data version of the watcher's
      connection is the number of the last. */
  datatype World = World(tables: seq<Projects>, published: Copy, seen: Option<nat>, holder: Holder)

  /** The main host, and the syntax check of a DNS name. */
  datatype Site = Site(main: string, isDnsName: string -> bool)

  /** A transaction another connection commits: a change of projects with the domain as
      typed, or one of other tables. */
  datatype Change = NewProject(slug: string, host: string, rest: nat)
                  | NewSettings(id: ProjectId, host: string, rest: nat)
                  | RemoveProject(id: ProjectId)
                  | Elsewhere

  /** The table it leaves; a refused change leaves it as it was. */
  function After(t: Projects, site: Site, change: Change): Projects {
    match change
    case NewProject(slug, text, rest) =>
      (match ParseHost(text, site.main, site.isDnsName)
       case Ok(host) => Create(t, slug, Settings(host, rest)).0
       case Invalid(_) => t)
    case NewSettings(id, text, rest) =>
      (match ParseHost(text, site.main, site.isDnsName)
       case Ok(host) => Update(t, id, Settings(host, rest)).0
       case Invalid(_) => t)
    case RemoveProject(id) => Delete(t, id).0
    case Elsewhere => t
  }

  lemma AfterIsSound(t: Projects, site: Site, change: Change)
    requires Hosts.Sound(t, site.main)
    ensures Hosts.Sound(After(t, site, change), site.main)
  {
    match change
    case NewProject(slug, text, rest) =>
      var parsed := ParseHost(text, site.main, site.isDnsName);
      if parsed.Ok? {
        ChangesKeepSound(t, site.main, slug, 0, Settings(parsed.value, rest));
      }
    case NewSettings(id, text, rest) =>
      var parsed := ParseHost(text, site.main, site.isDnsName);
      if parsed.Ok? {
        ChangesKeepSound(t, site.main, "", id, Settings(parsed.value, rest));
      }
    case RemoveProject(id) => ChangesKeepSound(t, site.main, "", id, Settings(None, 0));
    case Elsewhere =>
  }

  datatype Event = Commit(change: Change)
                 | StartRefresh
                 | StartTick
                 | LoadRows(rows: seq<Row>)
                 | Finish
                 | Fail

  function Version(w: World): nat
    requires w.tables != []
  {
    |w.tables| - 1
  }

  ghost predicate Enabled(w: World, e: Event)
    requires w.tables != []
  {
    match e
    case Commit(_) => true
    case StartRefresh | StartTick => w.holder.Nobody?
    case LoadRows(rows) => Loading(w) && Lists(w.tables[Version(w)], rows)
    case Finish => !w.holder.Nobody? && (w.holder.loaded.Some? || (w.holder.Ticking? && w.seen == Some(w.holder.version)))
    case Fail => !w.holder.Nobody?
  }

  /** The holder still has to load: a refresh always, a tick only after a new version. */
  predicate Loading(w: World) {
    || (w.holder.Refreshing? && w.holder.loaded.None?)
    || (w.holder.Ticking? && w.holder.loaded.None? && w.seen != Some(w.holder.version))
  }

  function Step(w: World, site: Site, e: Event): World
    requires w.tables != []
  {
    match e
    case Commit(change) => w.(tables := w.tables + [After(w.tables[Version(w)], site, change)])
    case StartRefresh => w.(holder := Refreshing(None))
    case StartTick => w.(holder := Ticking(Version(w), None))
    case LoadRows(rows) =>
      var copy := Some(Copy(Loaded(site.main, rows), Version(w)));
      w.(holder := if w.holder.Ticking? then Ticking(w.holder.version, copy) else Refreshing(copy))
    case Finish =>
      var published := if !w.holder.Nobody? && w.holder.loaded.Some? then w.holder.loaded.value else w.published;
      var seen := if w.holder.Ticking? then Some(w.holder.version) else w.seen;
      World(w.tables, published, seen, Nobody)
    case Fail => w.(holder := Nobody)
  }

  /** The copy is what loading the table it came from gives, in some row order. */
  ghost predicate Genuine(w: World, site: Site, copy: Copy) {
    && copy.source < |w.tables|
    && exists rows :: Lists(w.tables[copy.source], rows) && copy.hosts == Loaded(site.main, rows)
  }

  ghost predicate Sound(w: World, site: Site) {
    && w.tables != []
    && (forall i :: 0 <= i < |w.tables| ==> Hosts.Sound(w.tables[i], site.main))
    && Genuine(w, site, w.published)
    && (w.seen.Some? ==> w.seen.value <= w.published.source)
    && (w.holder.Ticking? ==> w.holder.version <= Version(w))
    && (!w.holder.Nobody? && w.holder.loaded.Some? ==>
         && Genuine(w, site, w.holder.loaded.value)
         && w.published.source <= w.holder.loaded.value.source
         && (w.holder.Ticking? ==> w.holder.version <= w.holder.loaded.value.source))
  }

  /** Every step keeps the published map genuine and never moves it back. */
  lemma StepKeepsSound(w: World, site: Site, e: Event)
    requires Sound(w, site) && Enabled(w, e)
    ensures Sound(Step(w, site, e), site)
    ensures w.published.source <= Step(w, site, e).published.source
  {
    if e.Commit? {
      AfterIsSound(w.tables[Version(w)], site, e.change);
    }
  }

  ghost predicate IsRun(w: World, site: Site, events: seq<Event>)
    decreases |events|
  {
    events == [] || (w.tables != [] && Enabled(w, events[0]) && IsRun(Step(w, site, events[0]), site, events[1..]))
  }

  function Run(w: World, site: Site, events: seq<Event>): World
    requires w.tables != []
    decreases |events|
  {
    if events == [] then w else Run(Step(w, site, events[0]), site, events[1..])
  }

  /** In every interleaving of commits, refreshes and ticks, some of them failing, the
      published map is the load of a committed table and never goes back to an older one;
      and whenever the version the watcher saw is the current one, it is the load of the
      current table. */
  lemma {:induction false} PublishedIsCommitted(w: World, site: Site, events: seq<Event>)
    requires Sound(w, site) && IsRun(w, site, events)
    ensures var after := Run(w, site, events);
            && Sound(after, site)
            && w.published.source <= after.published.source
            && (after.seen == Some(Version(after)) ==> after.published.source == Version(after))
    decreases |events|
  {
    if events != [] {
      StepKeepsSound(w, site, events[0]);
      PublishedIsCommitted(Step(w, site, events[0]), site, events[1..]);
    }
  }

  /** So after any run a watcher that is up to date routes exactly as a search of the
      current table, and that table is sound. */
  lemma CurrentWatcherRoutes(w: World, site: Site, events: seq<Event>, host: string, answer: Option<Entry>)
    requires Sound(w, site) && IsRun(w, site, events)
    requires var after := Run(w, site, events); after.seen == Some(|after.tables| - 1)
    ensures var after := Run(w, site, events);
            && after.tables != [] && Hosts.Sound(after.tables[Version(after)], site.main)
            && (after.published.hosts.Get(host) == answer <==> Answers(after.tables[Version(after)], site.main, host, answer))
  {
    PublishedIsCommitted(w, site, events);
    CurrentRoutes(Run(w, site, events), site, host, answer);
  }

  lemma CurrentRoutes(w: World, site: Site, host: string, answer: Option<Entry>)
    requires Sound(w, site) && w.seen == Some(Version(w))
    ensures w.published.hosts.Get(host) == answer <==> Answers(w.tables[Version(w)], site.main, host, answer)
  {
    var t := w.tables[Version(w)];
    var rows :| Lists(t, rows) && w.published.hosts == Loaded(site.main, rows);
    LookupSearchesTable(t, site.main, rows, host, answer);
  }

  // ----- changes get through -----

  /** The holder began when `v` was the current version, and what it loaded is no older. */
  ghost predicate Began(w: World, v: nat) {
    && w.tables != [] && v <= Version(w) && !w.holder.Nobody?
    && (w.holder.Ticking? ==> w.holder.version == v)
    && (w.holder.loaded.Some? ==> w.holder.loaded.value.source >= v)
  }

  lemma {:induction false} StillHolds(w: World, site: Site, events: seq<Event>, v: nat)
    requires Began(w, v) && IsRun(w, site, events)
    requires forall k :: 0 <= k < |events| ==> !events[k].Finish? && !events[k].Fail?
    ensures Began(Run(w, site, events), v) && Run(w, site, events).seen == w.seen
    ensures Run(w, site, events).holder.Ticking? == w.holder.Ticking?
    decreases |events|
  {
    if events != [] {
      assert forall k :: 0 <= k < |events| - 1 ==> events[1..][k] == events[k + 1];
      StillHolds(Step(w, site, events[0]), site, events[1..], v);
    }
  }

  /** The work of one holder: it takes the lock in `w`, and after `events`, none of which
      gives the lock up, is ready to finish in `held`. */
  ghost predicate Holding(w: World, site: Site, start: Event, events: seq<Event>, held: World) {
    && w.tables != [] && Enabled(w, start) && (start.StartRefresh? || start.StartTick?)
    && IsRun(Step(w, site, start), site, events) && held == Run(Step(w, site, start), site, events)
    && (forall k :: 0 <= k < |events| ==> !events[k].Finish? && !events[k].Fail?)
    && held.tables != [] && Enabled(held, Finish)
  }

  lemma HeldSince(w: World, site: Site, start: Event, events: seq<Event>, held: World)
    requires Sound(w, site) && Holding(w, site, start, events, held)
    ensures Sound(held, site) && Began(held, Version(w)) && held.holder.Ticking? == start.StartTick?
  {
    var begun := Step(w, site, start);
    StepKeepsSound(w, site, start);
    StillHolds(begun, site, events, Version(w));
    PublishedIsCommitted(begun, site, events);
  }

  /** A refresh that finishes, whatever is committed meanwhile, leaves a map no older than
      the table that was current when it began; and from then on none older is published. */
  lemma RefreshPublishes(w: World, site: Site, events: seq<Event>, held: World, later: seq<Event>)
    requires Sound(w, site) && Holding(w, site, StartRefresh, events, held) && IsRun(Step(held, site, Finish), site, later)
    ensures Step(held, site, Finish).tables != [] && Run(Step(held, site, Finish), site, later).published.source >= Version(w)
  {
    HeldSince(w, site, StartRefresh, events, held);
    FinishedRefresh(held, site, Version(w));
    PublishedIsCommitted(Step(held, site, Finish), site, later);
  }

  lemma FinishedRefresh(w: World, site: Site, v: nat)
    requires Sound(w, site) && Began(w, v) && w.holder.Refreshing? && Enabled(w, Finish)
    ensures var done := Step(w, site, Finish); Sound(done, site) && done.published.source >= v
  {
    StepKeepsSound(w, site, Finish);
  }

  /** A tick that finishes has seen the version it began with, and the map is no older. */
  lemma TickPublishes(w: World, site: Site, events: seq<Event>, held: World)
    requires Sound(w, site) && Holding(w, site, StartTick, events, held)
    ensures var done := Step(held, site, Finish);
            Sound(done, site) && done.seen == Some(Version(w)) && done.published.source >= Version(w)
  {
    HeldSince(w, site, StartTick, events, held);
    FinishedTick(held, site, Version(w));
  }

  lemma FinishedTick(w: World, site: Site, v: nat)
    requires Sound(w, site) && Began(w, v) && w.holder.Ticking? && Enabled(w, Finish)
    ensures var done := Step(w, site, Finish);
            Sound(done, site) && done.tables == w.tables && done.seen == Some(v) && done.published.source >= v
  {
    StepKeepsSound(w, site, Finish);
  }

  lemma {:induction false} NoCommits(w: World, site: Site, events: seq<Event>)
    requires w.tables != [] && forall k :: 0 <= k < |events| ==> !events[k].Commit?
    ensures Run(w, site, events).tables == w.tables
    decreases |events|
  {
    if events != [] {
      assert forall k :: 0 <= k < |events| - 1 ==> events[1..][k] == events[k + 1];
      NoCommits(Step(w, site, events[0]), site, events[1..]);
    }
  }

  /** So a tick with no commit since it began leaves requests routed by the current table. */
  lemma TickRoutes(w: World, site: Site, events: seq<Event>, held: World, host: string, answer: Option<Entry>)
    requires Sound(w, site) && Holding(w, site, StartTick, events, held)
    requires forall k :: 0 <= k < |events| ==> !events[k].Commit?
    ensures var done := Step(held, site, Finish);
            && done.tables == w.tables
            && (done.published.hosts.Get(host) == answer <==> Answers(w.tables[Version(w)], site.main, host, answer))
  {
    TickPublishes(w, site, events, held);
    NoCommits(Step(w, site, StartTick), site, events);
    CurrentRoutes(Step(held, site, Finish), site, host, answer);
  }

  /** A server starts with a sound table and the map loaded from it. */
  lemma StartIsSound(t: Projects, site: Site, rows: seq<Row>)
    requires Hosts.Sound(t, site.main) && Lists(t, rows)
    ensures Sound(World([t], Copy(Loaded(site.main, rows), 0), None, Nobody), site)
  {
  }
}
