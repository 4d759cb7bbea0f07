/** The in-memory rate limiter: GCRA buckets kept as theoretical arrival times.

    `Limits` is everything behind the limiter's lock, `Admit` and `Swept` say what one
    call does to it, and the class `Limiter` does the same work key by key. */
module RateLimiter {
  import opened Options
  import opened Spans

  /** Nanoseconds on the limiter's own clock. */
  type Duration = nat

  const SECOND: Duration := 1_000_000_000
  const HOUR: Duration := 3600 * SECOND
  const MAX_BUCKETS: nat := 100_000
  const AGGREGATE_FACTOR: nat := 8
  const PER_SOURCE_PER_HOUR: nat := 10
  const PER_ADDRESS_PER_HOUR: nat := 3

  /** A burst size and the time one more request takes to be earned. */
  datatype Budget = Budget(capacity: nat, interval: Duration) {
    function Times(factor: nat): Budget
      requires factor > 0
    {
      Budget(capacity * factor, interval / factor)
    }

    predicate Valid() {
      capacity > 0 && interval > 0
    }
  }

  function Per(capacity: nat, window: Duration): Budget
    requires capacity > 0
  {
    Budget(capacity, window / capacity)
  }

  datatype RateClass = Read | Login | Reset

  function ClassBudget(rateClass: RateClass): Budget {
    match rateClass
    case Read => Per(300, 60 * SECOND)
    case Login => Per(10, 15 * 60 * SECOND)
    case Reset => Per(5, HOUR)
  }

  datatype Address = IPv4(bits: nat) | IPv6(bits: nat)

  datatype Prefix = V4(bits: nat) | V6Slash64(bits: nat) | V6Slash48(bits: nat)

  /** The networks an address is counted under: itself for IPv4, and for IPv6 its upper
      half and that without the last sixteen bits. */
  function Prefixes(address: Address): (Prefix, Option<Prefix>) {
    match address
    case IPv4(bits) => (V4(bits), None)
    case IPv6(bits) =>
      var top := bits / 0x1_0000_0000_0000_0000;
      (V6Slash64(top), Some(V6Slash48(top / 0x1_0000)))
  }

  function MailSourcePrefix(address: Address): Prefix {
    match Prefixes(address)
    case (v4, None) => v4
    case (_, Some(slash48)) => slash48
  }

  datatype Key = Class(rateClass: RateClass, prefix: Prefix) | MailSource(prefix: Prefix) | MailAddress(mac: nat)

  datatype Overflow = ClassOverflow(rateClass: RateClass) | MailSourceOverflow | MailAddressOverflow

  /** The one budget a key's bucket can have. */
  function KeyBudget(key: Key): (b: Budget)
    ensures b.Valid()
  {
    match key
    case Class(c, V6Slash48(_)) => ClassBudget(c).Times(AGGREGATE_FACTOR)
    case Class(c, _) => ClassBudget(c)
    case MailSource(_) => Per(PER_SOURCE_PER_HOUR, HOUR)
    case MailAddress(_) => Per(PER_ADDRESS_PER_HOUR, HOUR)
  }

  function OverflowBudget(key: Overflow): (b: Budget)
    ensures b.Valid()
  {
    match key
    case ClassOverflow(c) => ClassBudget(c)
    case MailSourceOverflow => Per(PER_SOURCE_PER_HOUR, HOUR)
    case MailAddressOverflow => Per(PER_ADDRESS_PER_HOUR, HOUR)
  }

  /** The budgets of a limiter's buckets. */
  datatype Tariff = Tariff(key: Key -> Budget, overflow: Overflow -> Budget) {
    ghost predicate Valid() {
      (forall k :: key(k).Valid()) && (forall o :: overflow(o).Valid())
    }
  }

  const TARIFF := Tariff(KeyBudget, OverflowBudget)

  /** The overflow bucket standing in for a key that cannot get its own. */
  function OverflowOf(key: Key): Overflow {
    match key
    case Class(c, _) => ClassOverflow(c)
    case MailSource(_) => MailSourceOverflow
    case MailAddress(_) => MailAddressOverflow
  }

  datatype Bucket = Bucket(budget: Budget, tat: Duration) {
    predicate Admits(now: Duration)
      requires budget.Valid()
    {
      tat <= now + Intervals(budget.capacity - 1, budget.interval)
    }

    function Take(now: Duration): Bucket {
      this.(tat := Max(tat, now) + budget.interval)
    }

    predicate IsFull(now: Duration) {
      tat <= now
    }
  }

  function Full(budget: Budget, now: Duration): Bucket {
    Bucket(budget, now)
  }

  function Max(a: nat, b: nat): nat {
    if a < b then b else a
  }

  /** The buckets a demand is about. */
  datatype Footprint = Touching(keys: set<Key>, overflow: Overflow) {
    ghost predicate Legal() {
      forall k :: k in keys ==> OverflowOf(k) == overflow
    }
  }

  function KeySet(keys: seq<(Key, Budget)>): set<Key> {
    if keys == [] then {} else KeySet(keys[..|keys| - 1]) + {keys[|keys| - 1].0}
  }

  lemma KeySetStep(keys: seq<(Key, Budget)>, i: nat)
    requires i < |keys|
    ensures KeySet(keys[..i + 1]) == KeySet(keys[..i]) + {keys[i].0}
  {
    assert keys[..i + 1][..i] == keys[..i];
  }

  lemma MissingStep(keys: seq<(Key, Budget)>, i: nat, present: set<Key>)
    requires i < |keys| && keys[i].0 !in KeySet(keys[..i])
    ensures |KeySet(keys[..i + 1]) - present| == |KeySet(keys[..i]) - present| + if keys[i].0 in present then 0 else 1
  {
    KeySetStep(keys, i);
    if keys[i].0 in present {
      assert KeySet(keys[..i + 1]) - present == KeySet(keys[..i]) - present;
    } else {
      assert KeySet(keys[..i + 1]) - present == KeySet(keys[..i]) - present + {keys[i].0};
    }
  }

  /** What a request asks for: keys, each with the budget a new bucket would get, and the
      shared bucket it falls back to when the map has no room. */
  datatype Demand = Demand(keys: seq<(Key, Budget)>, overflow: (Overflow, Budget)) {
    function Keys(): set<Key> {
      KeySet(keys)
    }

    function Footprint(): Footprint {
      Touching(Keys(), overflow.0)
    }

    /** No key twice, and every budget the one its key determines. */
    predicate WellFormed() {
      && (forall i :: 0 <= i < |keys| ==> keys[i].0 !in KeySet(keys[..i]) && keys[i].1 == KeyBudget(keys[i].0))
      && overflow.1 == OverflowBudget(overflow.0)
    }
  }

  /** What the server asks the limiter: a class request, a mail to one address, or a
      public mail, which also draws on the instance-wide bucket. */
  datatype Request = ClassRequest(rateClass: RateClass, address: Address)
                   | AddressMail(mac: nat)
                   | PublicMail(address: Address)

  function DemandOf(request: Request): (d: Demand)
    ensures d.WellFormed() && d.Footprint().Legal()
  {
    match request
    case ClassRequest(c, address) =>
      var (own, aggregate) := Prefixes(address);
      var keys := [(Class(c, own), ClassBudget(c))];
      Demand(
        if aggregate.Some? then keys + [(Class(c, aggregate.value), ClassBudget(c).Times(AGGREGATE_FACTOR))] else keys,
        (ClassOverflow(c), ClassBudget(c)))
    case AddressMail(mac) =>
      Demand([(MailAddress(mac), Per(PER_ADDRESS_PER_HOUR, HOUR))],
             (MailAddressOverflow, Per(PER_ADDRESS_PER_HOUR, HOUR)))
    case PublicMail(address) =>
      Demand([(MailSource(MailSourcePrefix(address)), Per(PER_SOURCE_PER_HOUR, HOUR))],
             (MailSourceOverflow, Per(PER_SOURCE_PER_HOUR, HOUR)))
  }

  /** The limiter's maps and the instance-wide mail bucket. */
  datatype Limits = Limits(buckets: map<Key, Bucket>, overflow: map<Overflow, Bucket>, instance: Bucket)

  /** Each bucket has the budget its key determines. */
  ghost predicate Budgeted(t: Tariff, s: Limits) {
    && t.Valid()
    && (forall k :: k in s.buckets ==> s.buckets[k].budget == t.key(k))
    && (forall o :: o in s.overflow ==> s.overflow[o].budget == t.overflow(o))
    && s.instance.budget.Valid()
  }

  function Start(instance: Budget): Limits {
    Limits(map[], map[], Full(instance, 0))
  }

  function Missing(s: Limits, f: Footprint): set<Key> {
    f.keys - s.buckets.Keys
  }

  predicate UsesOverflow(s: Limits, f: Footprint) {
    Missing(s, f) != {} && |s.buckets| + |Missing(s, f)| > MAX_BUCKETS
  }

  /** Every bucket the demand would charge holds a token: the existing ones among its
      keys, the shared one if the map has no room for the rest, and the instance bucket
      if it draws on it. A bucket still to be created always does. */
  ghost predicate Admits(t: Tariff, s: Limits, f: Footprint, instance: bool, now: Duration)
    requires Budgeted(t, s)
  {
    && (forall k :: k in f.keys && k in s.buckets ==> s.buckets[k].Admits(now))
    && (UsesOverflow(s, f) && f.overflow in s.overflow ==> s.overflow[f.overflow].Admits(now))
    && (instance ==> s.instance.Admits(now))
  }

  /** The keys an admitted demand charges. */
  function ChargedKeys(s: Limits, f: Footprint): set<Key> {
    if UsesOverflow(s, f) then f.keys * s.buckets.Keys else f.keys
  }

  /** `buckets` with one token taken from each charged key's bucket, created full if
      missing. */
  function Taken(t: Tariff, buckets: map<Key, Bucket>, charged: set<Key>, now: Duration): map<Key, Bucket> {
    map k | k in buckets.Keys + charged ::
      if k !in charged then buckets[k]
      else if k in buckets then buckets[k].Take(now)
      else Full(t.key(k), now).Take(now)
  }

  lemma TakenOneMore(t: Tariff, buckets: map<Key, Bucket>, charged: set<Key>, key: Key, now: Duration)
    requires key !in charged
    ensures var bucket := if key in buckets then buckets[key] else Full(t.key(key), now);
            Taken(t, buckets, charged + {key}, now) == Taken(t, buckets, charged, now)[key := bucket.Take(now)]
  {
  }

  /** The state after an admitted demand took its tokens. */
  ghost function Charge(t: Tariff, s: Limits, f: Footprint, instance: bool, now: Duration): Limits {
    var o := f.overflow;
    Limits(
      Taken(t, s.buckets, ChargedKeys(s, f), now),
      if UsesOverflow(s, f)
      then s.overflow[o := (if o in s.overflow then s.overflow[o] else Full(t.overflow(o), now)).Take(now)]
      else s.overflow,
      if instance then s.instance.Take(now) else s.instance)
  }

  ghost function Admit(t: Tariff, s: Limits, f: Footprint, instance: bool, now: Duration): Limits
    requires Budgeted(t, s)
  {
    if Admits(t, s, f, instance, now) then Charge(t, s, f, instance, now) else s
  }

  /** What a sweep at `now` leaves: the buckets still ahead of that time. */
  function Swept(s: Limits, now: Duration): Limits {
    s.(buckets := map k | k in s.buckets && !s.buckets[k].IsFull(now) :: s.buckets[k],
       overflow := map o | o in s.overflow && !s.overflow[o].IsFull(now) :: s.overflow[o])
  }

  /** The instance-wide mail bucket. */
  class SingleBucket {
    var bucket: Bucket

    constructor (budget: Budget)
      ensures bucket == Full(budget, 0)
    {
      bucket := Full(budget, 0);
    }
  }

  class Limiter {
    var buckets: map<Key, Bucket>
    var overflow: map<Overflow, Bucket>

    constructor ()
      ensures forall budget :: Limits(buckets, overflow, Full(budget, 0)) == Start(budget)
    {
      buckets, overflow := map[], map[];
    }

    ghost function Contents(single: SingleBucket): Limits
      reads this, single
    {
      Limits(buckets, overflow, single.bucket)
    }

    /** Decides on a demand and charges it, as `Admit` says, in one go. With `instance` the
        single bucket has to agree and is charged as well. */
    method AdmitWith(demand: Demand, now: Duration, single: SingleBucket, instance: bool) returns (admitted: bool)
      requires demand.WellFormed() && Budgeted(TARIFF, Contents(single))
      modifies this, single
      ensures admitted == Admits(TARIFF, old(Contents(single)), demand.Footprint(), instance, now)
      ensures Contents(single) == Admit(TARIFF, old(Contents(single)), demand.Footprint(), instance, now)
    {
      var missing := CountMissing(demand, single);
      var useOverflow := missing > 0 && |buckets| + missing > MAX_BUCKETS;
      assert useOverflow == UsesOverflow(Contents(single), demand.Footprint());
      var (overflowKey, overflowBudget) := demand.overflow;
      admitted := KeysAdmit(demand, now, useOverflow, single);
      admitted := admitted && (!useOverflow || overflowKey !in overflow || overflow[overflowKey].Admits(now))
        && (!instance || single.bucket.Admits(now));
      if !admitted {
        return;
      }
      TakeFromKeys(demand, now, useOverflow);
      if useOverflow {
        var bucket := if overflowKey in overflow then overflow[overflowKey] else Full(overflowBudget, now);
        overflow := overflow[overflowKey := bucket.Take(now)];
      }
      if instance {
        single.bucket := single.bucket.Take(now);
      }
    }

    method CountMissing(demand: Demand, ghost single: SingleBucket) returns (missing: nat)
      requires demand.WellFormed()
      ensures missing == |Missing(Contents(single), demand.Footprint())|
    {
      missing := 0;
      for i := 0 to |demand.keys|
        invariant missing == |KeySet(demand.keys[..i]) - buckets.Keys|
      {
        MissingStep(demand.keys, i, buckets.Keys);
        if demand.keys[i].0 !in buckets {
          missing := missing + 1;
        }
      }
      assert demand.keys[..|demand.keys|] == demand.keys;
    }

    /** Whether every key's bucket admits; a missing one is then full, or not needed. */
    method KeysAdmit(demand: Demand, now: Duration, useOverflow: bool, ghost single: SingleBucket)
      returns (admitted: bool)
      requires demand.WellFormed() && Budgeted(TARIFF, Contents(single))
      ensures admitted == forall k :: k in demand.Keys() && k in buckets ==> buckets[k].Admits(now)
    {
      admitted := true;
      for i := 0 to |demand.keys|
        invariant admitted == forall k :: k in KeySet(demand.keys[..i]) && k in buckets ==> buckets[k].Admits(now)
      {
        KeySetStep(demand.keys, i);
        var (key, budget) := demand.keys[i];
        var admits := if key in buckets then buckets[key].Admits(now)
                      else useOverflow || Full(budget, now).Admits(now);
        admitted := admitted && admits;
      }
      assert demand.keys[..|demand.keys|] == demand.keys;
    }

    method TakeFromKeys(demand: Demand, now: Duration, useOverflow: bool)
      requires demand.WellFormed()
      modifies this`buckets
      ensures buckets == Taken(TARIFF, old(buckets), if useOverflow then demand.Keys() * old(buckets).Keys else demand.Keys(), now)
    {
      ghost var before := buckets;
      ghost var done: set<Key> := {};
      for i := 0 to |demand.keys|
        invariant done == if useOverflow then KeySet(demand.keys[..i]) * before.Keys else KeySet(demand.keys[..i])
        invariant buckets == Taken(TARIFF, before, done, now)
      {
        KeySetStep(demand.keys, i);
        var (key, budget) := demand.keys[i];
        TakenOneMore(TARIFF, before, done, key, now);
        if key in buckets {
          buckets := buckets[key := buckets[key].Take(now)];
          done := done + {key};
        } else if !useOverflow {
          buckets := buckets[key := Full(budget, now).Take(now)];
          done := done + {key};
        }
      }
      assert demand.keys[..|demand.keys|] == demand.keys;
    }

    method Sweep(now: Duration, single: SingleBucket)
      modifies this
      ensures Contents(single) == Swept(old(Contents(single)), now)
    {
      buckets := map k | k in buckets && !buckets[k].IsFull(now) :: buckets[k];
      overflow := map o | o in overflow && !overflow[o].IsFull(now) :: overflow[o];
    }
  }
}
