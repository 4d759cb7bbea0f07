/** The reader pool: a semaphore of READERS permits in front of a vector of as many
    connections. Its safety rests on the order of drops, connection before permit. */
module ReaderPool {
  import opened Sets

  const READERS: nat := 4

  type Task = nat
  type Connection = nat

  /** `holders` own a permit, `held` says which connection a holder took, and the free
      connections lie in `free`, used as a stack. */
  datatype State = State(permits: nat, holders: set<Task>, held: map<Task, Connection>, free: seq<Connection>)

  /** A read acquires a permit, takes a connection, works, and on its way out, normal or
      unwinding from a panic, first puts the connection back and then drops the permit. */
  datatype Event = Acquire(task: Task) | Take(task: Task) | PutBack(task: Task) | Release(task: Task)

  predicate Enabled(s: State, e: Event) {
    match e
    case Acquire(task) => s.permits > 0 && task !in s.holders
    case Take(task) => task in s.holders && task !in s.held
    case PutBack(task) => task in s.held
    case Release(task) => task in s.holders && task !in s.held
  }

  /** `Take` expects a free connection; on an empty pool it would panic. */
  predicate Panics(s: State, e: Event) {
    e.Take? && s.free == []
  }

  function Step(s: State, e: Event): State
    requires Enabled(s, e) && !Panics(s, e)
  {
    match e
    case Acquire(task) => s.(permits := s.permits - 1, holders := s.holders + {task})
    case Take(task) => s.(held := s.held[task := s.free[|s.free| - 1]], free := s.free[..|s.free| - 1])
    case PutBack(task) => s.(held := s.held - {task}, free := s.free + [s.held[task]])
    case Release(task) => s.(permits := s.permits + 1, holders := s.holders - {task})
  }

  function Start(): State {
    State(READERS, {}, map[], seq(READERS, i => i))
  }

  /** Permits are conserved, connections are conserved, and every connection is in
      exactly one place. */
  ghost predicate Sound(s: State) {
    && s.permits + |s.holders| == READERS
    && s.held.Keys <= s.holders
    && |s.free| + |s.held| == READERS
    && (forall i, j :: 0 <= i < j < |s.free| ==> s.free[i] != s.free[j])
    && (forall t, u :: t in s.held && u in s.held && t != u ==> s.held[t] != s.held[u])
    && (forall t :: t in s.held ==> s.held[t] !in s.free)
  }

  lemma HolderFindsConnection(s: State, task: Task)
    requires Sound(s) && Enabled(s, Take(task))
    ensures s.free != []
  {
    assert s.held.Keys <= s.holders - {task};
    SubsetSize(s.held.Keys, s.holders - {task});
  }

  lemma TakeKeepsSound(s: State, task: Task)
    requires Sound(s) && Enabled(s, Take(task)) && s.free != []
    ensures Sound(Step(s, Take(task)))
  {
  }

  lemma PutBackKeepsSound(s: State, task: Task)
    requires Sound(s) && Enabled(s, PutBack(task))
    ensures Sound(Step(s, PutBack(task)))
  {
  }

  lemma StepKeepsSound(s: State, e: Event)
    requires Sound(s) && Enabled(s, e)
    ensures !Panics(s, e) && Sound(Step(s, e))
  {
    match e {
      case Take(task) =>
        HolderFindsConnection(s, task);
        TakeKeepsSound(s, task);
      case PutBack(task) => PutBackKeepsSound(s, task);
      case Acquire(_) =>
      case Release(_) =>
    }
  }

  /** Events a set of tasks may go through from `s`, in any interleaving. */
  ghost predicate IsRun(s: State, events: seq<Event>)
    decreases |events|
  {
    events == [] || (Enabled(s, events[0]) && (!Panics(s, events[0]) ==> IsRun(Step(s, events[0]), events[1..])))
  }

  ghost predicate Safe(s: State, events: seq<Event>)
    requires IsRun(s, events)
    decreases |events|
  {
    Sound(s) && (events == [] || (!Panics(s, events[0]) && Safe(Step(s, events[0]), events[1..])))
  }

  /** In every interleaving, a permit holder always finds a connection, and permits and
      connections are all accounted for at every moment. */
  lemma {:induction false} PoolIsSafe(s: State, events: seq<Event>)
    requires Sound(s) && IsRun(s, events)
    ensures Safe(s, events)
    decreases |events|
  {
    if events != [] {
      StepKeepsSound(s, events[0]);
      PoolIsSafe(Step(s, events[0]), events[1..]);
    }
  }

  lemma StartIsSound()
    ensures Sound(Start())
  {
  }

  /** A read alone gets a connection and leaves the pool as it found it. */
  lemma ReadRestoresPool(s: State, task: Task)
    requires Sound(s) && Enabled(s, Acquire(task))
    ensures var held := Step(s, Acquire(task));
            Enabled(held, Take(task)) && !Panics(held, Take(task)) && Enabled(Step(held, Take(task)), PutBack(task))
    ensures var back := Step(Step(Step(s, Acquire(task)), Take(task)), PutBack(task));
            Enabled(back, Release(task)) && Step(back, Release(task)) == s
  {
    var held := Step(s, Acquire(task));
    StepKeepsSound(s, Acquire(task));
    HolderFindsConnection(held, task);
    var back := Step(Step(held, Take(task)), PutBack(task));
    TakeAndPutBack(held, task);
    assert Step(back, Release(task)).holders == s.holders;
  }

  lemma TakeAndPutBack(s: State, task: Task)
    requires Enabled(s, Take(task)) && s.free != []
    ensures Step(Step(s, Take(task)), PutBack(task)) == s
  {
    var back := Step(Step(s, Take(task)), PutBack(task));
    assert back.free == s.free && back.held == s.held;
  }

  /** Dropping the permit first would break it: a reader that lets its permit go while it
      still holds its connection leaves the next permit holder without one. */
  lemma PermitFirstPanics()
    ensures var s := State(0, {0, 1, 2, 3}, map[0 := 3, 1 := 2, 2 := 1, 3 := 0], []);
            && Sound(s)
            && var early := s.(permits := 1, holders := s.holders - {0});
               var next := Step(early, Acquire(4));
               Enabled(early, Acquire(4)) && Enabled(next, Take(4)) && Panics(next, Take(4))
  {
    var s := State(0, {0, 1, 2, 3}, map[0 := 3, 1 := 2, 2 := 1, 3 := 0], []);
    assert s.held.Keys == {0, 1, 2, 3};
    assert |s.held| == |s.held.Keys|;
  }

  /** The pool as the server holds it. */
  class Readers {
    var permits: nat
    ghost var holders: set<Task>
    ghost var held: map<Task, Connection>
    var free: seq<Connection>

    ghost function Contents(): State
      reads this
    {
      State(permits, holders, held, free)
    }

    constructor ()
      ensures Contents() == Start() && Sound(Contents())
    {
      permits, holders, held, free := READERS, {}, map[], seq(READERS, i => i);
    }

    method AcquirePermit(ghost task: Task)
      requires Sound(Contents()) && Enabled(Contents(), Acquire(task))
      modifies this
      ensures Sound(Contents()) && Contents() == Step(old(Contents()), Acquire(task))
    {
      StepKeepsSound(Contents(), Acquire(task));
      permits := permits - 1;
      holders := holders + {task};
    }

    /** Pops the last free connection: a permit guarantees one. */
    method TakeConnection(ghost task: Task) returns (connection: Connection)
      requires Sound(Contents()) && Enabled(Contents(), Take(task))
      modifies this
      ensures Sound(Contents()) && !Panics(old(Contents()), Take(task))
      ensures Contents() == Step(old(Contents()), Take(task)) && held[task] == connection
    {
      StepKeepsSound(Contents(), Take(task));
      connection := free[|free| - 1];
      free := free[..|free| - 1];
      held := held[task := connection];
    }

    method PutConnectionBack(ghost task: Task, connection: Connection)
      requires Sound(Contents()) && Enabled(Contents(), PutBack(task)) && held[task] == connection
      modifies this
      ensures Sound(Contents()) && Contents() == Step(old(Contents()), PutBack(task))
    {
      StepKeepsSound(Contents(), PutBack(task));
      free := free + [connection];
      held := held - {task};
    }

    method ReleasePermit(ghost task: Task)
      requires Sound(Contents()) && Enabled(Contents(), Release(task))
      modifies this
      ensures Sound(Contents()) && Contents() == Step(old(Contents()), Release(task))
    {
      StepKeepsSound(Contents(), Release(task));
      permits := permits + 1;
      holders := holders - {task};
    }
  }
}
