/** When the background jobs run. Times are nanoseconds since the clock's start. */
module Schedule {
  const SWEEP_EVERY: nat := 60_000_000_000
  const RETENTION_EVERY: nat := 3_600_000_000_000

  datatype Job = Sweep | Retention

  /** `slot` is a whole number of periods after `due`. */
  ghost predicate OnGrid(due: nat, every: nat, slot: nat)
    requires every > 0
  {
    slot == due || (slot - every >= due && OnGrid(due, every, slot - every))
  }

  /** `slot` is the first one after `now`. */
  ghost predicate NextSlot(due: nat, every: nat, now: nat, slot: nat)
    requires every > 0
  {
    OnGrid(due, every, slot) && slot > now && (slot > due ==> slot - every <= now)
  }

  lemma NextSlotIsFirst(due: nat, every: nat, now: nat, slot: nat, other: nat)
    requires every > 0 && NextSlot(due, every, now, slot)
    requires OnGrid(due, every, other) && other > now
    ensures slot <= other
  {
    if other < slot {
      SlotsApart(due, every, other, slot);
    }
  }

  lemma {:induction false} SlotsApart(due: nat, every: nat, slot: nat, later: nat)
    requires every > 0 && slot < later && OnGrid(due, every, slot) && OnGrid(due, every, later)
    ensures later > due && later - slot >= every
    decreases slot + later
  {
    if later - every < slot {
      SlotsApart(due, every, later - every, slot);
    }
  }

  class Schedule {
    var nextSweep: nat
    var nextRetention: nat

    /** The first retention run needs no wait, the first sweep one period. */
    constructor (start: nat)
      ensures nextSweep == start + SWEEP_EVERY && nextRetention == start
    {
      nextSweep, nextRetention := start + SWEEP_EVERY, start;
    }

    /** What to run now, each job once however late it is, and moves it to its own next
        slot. */
    method Due(now: nat) returns (jobs: seq<Job>)
      modifies this
      ensures jobs == (if old(nextSweep) <= now then [Sweep] else []) + (if old(nextRetention) <= now then [Retention] else [])
      ensures NextSlot(old(nextSweep), SWEEP_EVERY, now, nextSweep)
      ensures NextSlot(old(nextRetention), RETENTION_EVERY, now, nextRetention)
    {
      jobs := [];
      if now >= nextSweep {
        jobs := jobs + [Sweep];
        while nextSweep <= now
          invariant OnGrid(old(nextSweep), SWEEP_EVERY, nextSweep)
          invariant nextSweep > old(nextSweep) ==> nextSweep - SWEEP_EVERY <= now
          invariant nextRetention == old(nextRetention)
          decreases now + SWEEP_EVERY - nextSweep
        {
          nextSweep := nextSweep + SWEEP_EVERY;
        }
      }
      if now >= nextRetention {
        jobs := jobs + [Retention];
        ghost var sweep := nextSweep;
        while nextRetention <= now
          invariant OnGrid(old(nextRetention), RETENTION_EVERY, nextRetention)
          invariant nextRetention > old(nextRetention) ==> nextRetention - RETENTION_EVERY <= now
          invariant nextSweep == sweep
          decreases now + RETENTION_EVERY - nextRetention
        {
          nextRetention := nextRetention + RETENTION_EVERY;
        }
      }
    }

    /** Nothing is due before the wake time, and something is at it. */
    method NextWake() returns (wake: nat)
      ensures wake <= nextSweep && wake <= nextRetention && (wake == nextSweep || wake == nextRetention)
    {
      wake := if nextSweep < nextRetention then nextSweep else nextRetention;
    }
  }
}
