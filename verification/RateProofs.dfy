/** What the limiter promises over whole runs: spans, rotation, sweeps, token buckets. */
module RateRuns {
  import opened Options
  import opened RateLimiter
  import opened Sets
  import opened Spans

  /** A demand, with or without the instance bucket, or a sweep. */
  datatype Event = Ask(wants: Footprint, instance: bool, at: Duration) | Sweep(at: Duration) {
    ghost predicate Legal() {
      Ask? ==> wants.Legal()
    }
  }

  ghost predicate Admitted(t: Tariff, s: Limits, e: Event)
    requires Budgeted(t, s)
  {
    e.Ask? && Admits(t, s, e.wants, e.instance, e.at)
  }

  ghost function Step(t: Tariff, s: Limits, e: Event): Limits
    requires Budgeted(t, s)
  {
    match e
    case Ask(wants, instance, at) => Admit(t, s, wants, instance, at)
    case Sweep(at) => Swept(s, at)
  }

  ghost predicate Ordered(events: seq<Event>, from: Duration) {
    events == [] || (events[0].Legal() && from <= events[0].at && Ordered(events[1..], events[0].at))
  }

  /** Any bucket of the limiter. */
  datatype Meter = KeyMeter(key: Key) | OverflowMeter(overflow: Overflow) | InstanceMeter

  function BucketAt(s: Limits, m: Meter): Option<Bucket> {
    match m
    case KeyMeter(k) => if k in s.buckets then Some(s.buckets[k]) else None
    case OverflowMeter(o) => if o in s.overflow then Some(s.overflow[o]) else None
    case InstanceMeter => Some(s.instance)
  }

  function BudgetAt(t: Tariff, s: Limits, m: Meter): Budget {
    match m
    case KeyMeter(k) => t.key(k)
    case OverflowMeter(o) => t.overflow(o)
    case InstanceMeter => s.instance.budget
  }

  /** Whether `e` is admitted and takes a token from `m`. */
  ghost predicate Charges(t: Tariff, s: Limits, e: Event, m: Meter)
    requires Budgeted(t, s)
  {
    && Admitted(t, s, e)
    && match m
       case KeyMeter(k) => k in ChargedKeys(s, e.wants)
       case OverflowMeter(o) => UsesOverflow(s, e.wants) && o == e.wants.overflow
       case InstanceMeter => e.instance
  }

  /** How far ahead of time zero a meter's bucket is; a missing one is not. */
  function Tat(s: Limits, m: Meter): Duration {
    match BucketAt(s, m)
    case Some(b) => b.tat
    case None => 0
  }

  /** The meter's bucket, or the full one it would start as. */
  function OrFull(t: Tariff, s: Limits, m: Meter, now: Duration): Bucket {
    match BucketAt(s, m)
    case Some(b) => b
    case None => Full(BudgetAt(t, s, m), now)
  }

  lemma StepKeepsBudgets(t: Tariff, s: Limits, e: Event)
    requires Budgeted(t, s)
    ensures Budgeted(t, Step(t, s, e)) && Step(t, s, e).instance.budget == s.instance.budget
  {
    if e.Ask? {
      TakenBudgets(t, s.buckets, ChargedKeys(s, e.wants), e.at);
    }
  }

  lemma TakenBudgets(t: Tariff, buckets: map<Key, Bucket>, charged: set<Key>, now: Duration)
    requires forall k :: k in buckets ==> buckets[k].budget == t.key(k)
    ensures forall k :: k in Taken(t, buckets, charged, now) ==> Taken(t, buckets, charged, now)[k].budget == t.key(k)
  {
  }

  lemma MeterBudget(t: Tariff, s: Limits, e: Event, m: Meter)
    requires Budgeted(t, s)
    ensures BudgetAt(t, s, m).Valid() && BudgetAt(t, Step(t, s, e), m) == BudgetAt(t, s, m)
  {
  }

  lemma AskAtMeter(t: Tariff, s: Limits, e: Event, m: Meter)
    requires Budgeted(t, s) && e.Ask?
    ensures BucketAt(Step(t, s, e), m) ==
      if Charges(t, s, e, m) then Some(OrFull(t, s, m, e.at).Take(e.at)) else BucketAt(s, m)
  {
  }

  lemma ChargedBucketAdmits(t: Tariff, s: Limits, e: Event, m: Meter)
    requires Budgeted(t, s) && Charges(t, s, e, m)
    ensures OrFull(t, s, m, e.at).budget == BudgetAt(t, s, m) && BudgetAt(t, s, m).Valid()
    ensures OrFull(t, s, m, e.at).Admits(e.at)
  {
  }

  lemma SweepAtMeter(s: Limits, now: Duration, m: Meter)
    ensures BucketAt(Swept(s, now), m) == BucketAt(s, m)
      || (BucketAt(Swept(s, now), m).None? && BucketAt(s, m).Some? && BucketAt(s, m).value.IsFull(now))
  {
  }

  /** What a charge does to a bucket's arrival time. */
  lemma ChargeAtMeter(t: Tariff, s: Limits, e: Event, m: Meter)
    requires Budgeted(t, s) && Charges(t, s, e, m)
    ensures Tat(s, m) <= e.at + Intervals(BudgetAt(t, s, m).capacity - 1, BudgetAt(t, s, m).interval)
    ensures Tat(Step(t, s, e), m) == Max(Tat(s, m), e.at) + BudgetAt(t, s, m).interval
  {
    AskAtMeter(t, s, e, m);
    ChargedBucketAdmits(t, s, e, m);
  }

  /** One event seen from one bucket: a charge needs a token and takes it, a sweep drops
      only a full bucket, anything else leaves it alone. */
  lemma StepAtMeter(t: Tariff, s: Limits, e: Event, m: Meter)
    requires Budgeted(t, s)
    ensures Charges(t, s, e, m) ==>
      && Tat(s, m) <= e.at + Intervals(BudgetAt(t, s, m).capacity - 1, BudgetAt(t, s, m).interval)
      && Tat(Step(t, s, e), m) == Max(Tat(s, m), e.at) + BudgetAt(t, s, m).interval
    ensures !Charges(t, s, e, m) ==>
      Tat(Step(t, s, e), m) == Tat(s, m) || (e.Sweep? && Tat(s, m) <= e.at && BucketAt(Step(t, s, e), m).None?)
  {
    if e.Sweep? {
      SweepAtMeter(s, e.at, m);
    } else if Charges(t, s, e, m) {
      ChargeAtMeter(t, s, e, m);
    } else {
      AskAtMeter(t, s, e, m);
    }
  }

  // ----- reachable states -----

  /** Bounded, budgeted, and no bucket further ahead of `now` than its capacity. */
  ghost predicate Sound(t: Tariff, s: Limits, now: Duration) {
    && |s.buckets| <= 100_000
    && Budgeted(t, s)
    && forall m :: NotAhead(t, s, m, now)
  }

  ghost predicate NotAhead(t: Tariff, s: Limits, m: Meter, now: Duration) {
    Tat(s, m) <= now + Intervals(BudgetAt(t, s, m).capacity, BudgetAt(t, s, m).interval)
  }

  lemma StepKeepsNotAhead(t: Tariff, s: Limits, e: Event, m: Meter, now: Duration)
    requires Budgeted(t, s) && now <= e.at && NotAhead(t, s, m, now)
    ensures NotAhead(t, Step(t, s, e), m, e.at)
  {
    MeterBudget(t, s, e, m);
    StepAtMeter(t, s, e, m);
    if Charges(t, s, e, m) {
      TakeWithinCapacity(Tat(s, m), e.at, BudgetAt(t, s, m));
    }
  }

  lemma TakeWithinCapacity(tat: Duration, now: Duration, b: Budget)
    requires b.Valid() && tat <= now + Intervals(b.capacity - 1, b.interval)
    ensures Max(tat, now) + b.interval <= now + Intervals(b.capacity, b.interval)
  {
  }

  ghost function Run(t: Tariff, s: Limits, events: seq<Event>): Limits
    requires Budgeted(t, s)
    decreases |events|
  {
    if events == [] then s
    else
      StepKeepsBudgets(t, s, events[0]);
      Run(t, Step(t, s, events[0]), events[1..])
  }

  function LastTime(events: seq<Event>, from: Duration): Duration {
    if events == [] then from else LastTime(events[1..], events[0].at)
  }

  lemma StepKeepsBound(t: Tariff, s: Limits, e: Event)
    requires Budgeted(t, s) && |s.buckets| <= MAX_BUCKETS
    ensures |Step(t, s, e).buckets| <= MAX_BUCKETS
  {
    if e.Sweep? {
      SubsetSize(Step(t, s, e).buckets.Keys, s.buckets.Keys);
    } else if Admitted(t, s, e) {
      ChargeKeepsBound(t, s, e.wants, e.instance, e.at);
    }
  }

  lemma ChargeKeepsBound(t: Tariff, s: Limits, f: Footprint, instance: bool, now: Duration)
    requires |s.buckets| <= MAX_BUCKETS
    ensures |Charge(t, s, f, instance, now).buckets| <= MAX_BUCKETS
  {
    var after := Charge(t, s, f, instance, now).buckets.Keys;
    if UsesOverflow(s, f) || Missing(s, f) == {} {
      assert forall k :: k in f.keys && k !in s.buckets ==> k in Missing(s, f);
      assert after == s.buckets.Keys;
    } else {
      assert after == s.buckets.Keys + Missing(s, f);
    }
  }

  lemma StartIsSound(instance: Budget)
    requires instance.Valid()
    ensures Sound(TARIFF, Start(instance), 0)
  {
  }

  /** Every reachable state is sound: at most 100,000 buckets, each with its key's
      budget and at most one full capacity ahead of the last event. */
  lemma {:induction false} ReachableIsSound(t: Tariff, s: Limits, events: seq<Event>, from: Duration)
    requires Sound(t, s, from) && Ordered(events, from)
    ensures Sound(t, Run(t, s, events), LastTime(events, from))
    decreases |events|
  {
    if events != [] {
      var e := events[0];
      StepKeepsBudgets(t, s, e);
      forall m ensures NotAhead(t, Step(t, s, e), m, e.at) {
        StepKeepsNotAhead(t, s, e, m, from);
      }
      StepKeepsBound(t, s, e);
      ReachableIsSound(t, Step(t, s, e), events[1..], e.at);
    }
  }

  // ----- who shares a bucket -----

  function KeysOf(request: Request): set<Key> {
    DemandOf(request).Keys()
  }

  const TWO_64: nat := 0x1_0000_0000_0000_0000
  const TWO_80: nat := 0x1_0000_0000_0000_0000_0000

  /** Where an address is: the address itself, or the upper 64 and 48 bits. */
  datatype Place = Place4(bits: nat) | Place6(half: nat, net: nat)

  function PlaceOf(address: Address): Place {
    match address
    case IPv4(bits) => Place4(bits)
    case IPv6(bits) => Place6(bits / TWO_64, bits / TWO_80)
  }

  /** What a request is counted as. */
  datatype Weight = OfClass(rateClass: RateClass, place: Place) | OfMailTo(mac: nat) | OfMailFrom(place: Place)

  function WeightOf(request: Request): Weight {
    match request
    case ClassRequest(c, address) => OfClass(c, PlaceOf(address))
    case AddressMail(mac) => OfMailTo(mac)
    case PublicMail(address) => OfMailFrom(PlaceOf(address))
  }

  function KeysFor(w: Weight): set<Key> {
    match w
    case OfClass(c, Place4(bits)) => {Class(c, V4(bits))}
    case OfClass(c, Place6(half, net)) => {Class(c, V6Slash64(half)), Class(c, V6Slash48(net))}
    case OfMailTo(mac) => {MailAddress(mac)}
    case OfMailFrom(Place4(bits)) => {MailSource(V4(bits))}
    case OfMailFrom(Place6(_, net)) => {MailSource(V6Slash48(net))}
  }

  lemma Narrower(bits: nat)
    ensures bits / TWO_64 / 0x1_0000 == bits / TWO_80
  {
  }

  /** Written out, the keys of each request. */
  lemma KeysWrittenOut(request: Request)
    ensures KeysOf(request) == KeysFor(WeightOf(request))
  {
    var keys := DemandOf(request).keys;
    if !request.AddressMail? && request.address.IPv6? {
      Narrower(request.address.bits);
      assert keys[..|keys| - 1] == if request.ClassRequest? then [keys[0]] else [];
    }
  }

  /** Which two requests weigh on each other: class requests of one class from the same
      IPv4 address or the same IPv6 /48, public mails likewise, and mails to one address. */
  predicate Related(a: Request, b: Request) {
    match (a, b)
    case (ClassRequest(c, x), ClassRequest(d, y)) => c == d && SameNetwork(x, y)
    case (PublicMail(x), PublicMail(y)) => SameNetwork(x, y)
    case (AddressMail(m), AddressMail(n)) => m == n
    case _ => false
  }

  predicate SameNetwork(x: Address, y: Address) {
    match (x, y)
    case (IPv4(a), IPv4(b)) => a == b
    case (IPv6(a), IPv6(b)) => a / TWO_80 == b / TWO_80
    case _ => false
  }

  predicate Meet(v: Weight, w: Weight) {
    match (v, w)
    case (OfClass(c, x), OfClass(d, y)) => c == d && Near(x, y)
    case (OfMailFrom(x), OfMailFrom(y)) => Near(x, y)
    case (OfMailTo(m), OfMailTo(n)) => m == n
    case _ => false
  }

  predicate Near(x: Place, y: Place) {
    match (x, y)
    case (Place4(a), Place4(b)) => a == b
    case (Place6(_, a), Place6(_, b)) => a == b
    case _ => false
  }

  function WidestKey(w: Weight): (k: Key)
    ensures k in KeysFor(w)
  {
    match w
    case OfClass(c, Place4(bits)) => Class(c, V4(bits))
    case OfClass(c, Place6(_, net)) => Class(c, V6Slash48(net))
    case OfMailTo(mac) => MailAddress(mac)
    case OfMailFrom(Place4(bits)) => MailSource(V4(bits))
    case OfMailFrom(Place6(_, net)) => MailSource(V6Slash48(net))
  }

  lemma MeetingKeys(v: Weight, w: Weight)
    requires v.OfClass? && w.OfClass? && v.place.Place6? && w.place.Place6? && v.place.half == w.place.half ==> v.place.net == w.place.net
    ensures KeysFor(v) * KeysFor(w) != {} <==> Meet(v, w)
    ensures KeysFor(v) != {}
  {
    var last := WidestKey(v);
    assert last in KeysFor(v);
    if Meet(v, w) {
      assert last in KeysFor(v) * KeysFor(w);
    } else {
      assert forall k :: k in KeysFor(v) ==> k !in KeysFor(w);
    }
  }

  /** Two requests share a bucket exactly when they are related, and no request is without
      one. */
  lemma SharedKeys(a: Request, b: Request)
    ensures KeysOf(a) * KeysOf(b) != {} <==> Related(a, b)
    ensures KeysOf(a) != {}
  {
    KeysWrittenOut(a);
    KeysWrittenOut(b);
    if a.ClassRequest? && b.ClassRequest? && a.address.IPv6? && b.address.IPv6? {
      Narrower(a.address.bits);
      Narrower(b.address.bits);
    }
    MeetingKeys(WeightOf(a), WeightOf(b));
  }

  /** Of a class's IPv6 buckets two addresses share the narrow one exactly inside one /64. */
  lemma SharedNarrowKey(rateClass: RateClass, a: nat, b: nat)
    ensures KeysOf(ClassRequest(rateClass, IPv6(a))) == KeysOf(ClassRequest(rateClass, IPv6(b))) <==> a / TWO_64 == b / TWO_64
  {
    KeysWrittenOut(ClassRequest(rateClass, IPv6(a)));
    KeysWrittenOut(ClassRequest(rateClass, IPv6(b)));
    Narrower(a);
    Narrower(b);
    var v, w := OfClass(rateClass, Place6(a / TWO_64, a / TWO_80)), OfClass(rateClass, Place6(b / TWO_64, b / TWO_80));
    assert Class(rateClass, V6Slash64(v.place.half)) in KeysFor(v);
  }

  /** Falling back never mixes classes, mails by source and mails by address. */
  lemma OverflowsApart(j: Key, k: Key)
    ensures OverflowOf(j) == OverflowOf(k) <==>
              || (j.Class? && k.Class? && j.rateClass == k.rateClass)
              || (j.MailSource? && k.MailSource?)
              || (j.MailAddress? && k.MailAddress?)
  {
  }

  /** The allowances: a burst, and the time in which it is earned again. */
  predicate Allows(b: Budget, burst: nat, seconds: nat) {
    b.capacity == burst && b.capacity * b.interval == seconds * SECOND
  }

  lemma Allowances(prefix: Prefix, mac: nat, rateClass: RateClass)
    ensures var eight := if prefix.V6Slash48? then 8 else 1;
            && Allows(KeyBudget(Class(Read, prefix)), 300 * eight, 60)
            && Allows(KeyBudget(Class(Login, prefix)), 10 * eight, 900)
            && Allows(KeyBudget(Class(Reset, prefix)), 5 * eight, 3600)
    ensures Allows(KeyBudget(MailSource(prefix)), 10, 3600) && Allows(KeyBudget(MailAddress(mac)), 3, 3600)
    ensures OverflowBudget(ClassOverflow(rateClass)) == KeyBudget(Class(rateClass, V4(0)))
    ensures Allows(OverflowBudget(MailSourceOverflow), 10, 3600) && Allows(OverflowBudget(MailAddressOverflow), 3, 3600)
  {
  }

  // ----- when a request is admitted -----

  /** The buckets a demand needs a token of: its keys' where they are or can be, the shared
      one when there is no room for the rest, and the instance's if it asks for that. */
  predicate Needs(s: Limits, e: Event, m: Meter)
    requires e.Ask?
  {
    match m
    case KeyMeter(k) => k in e.wants.keys && (k in s.buckets || !UsesOverflow(s, e.wants))
    case OverflowMeter(o) => o == e.wants.overflow && UsesOverflow(s, e.wants)
    case InstanceMeter => e.instance
  }

  /** The bucket has the credit of one request. */
  predicate HasToken(t: Tariff, s: Limits, m: Meter, now: Duration) {
    Level(OrFull(t, s, m, now), now) >= BudgetAt(t, s, m).interval
  }

  /** A demand is admitted exactly when every bucket it needs has a token. */
  lemma AdmittedExactly(t: Tariff, s: Limits, e: Event)
    requires Budgeted(t, s) && e.Ask?
    ensures Admitted(t, s, e) <==> forall m :: Needs(s, e, m) ==> HasToken(t, s, m, e.at)
  {
    if Admitted(t, s, e) {
      forall m | Needs(s, e, m) ensures HasToken(t, s, m, e.at) {
        TokenMeans(t, s, m, e.at);
      }
    } else {
      var m := Refusing(t, s, e);
      TokenMeans(t, s, m, e.at);
    }
  }

  lemma Refusing(t: Tariff, s: Limits, e: Event) returns (m: Meter)
    requires Budgeted(t, s) && e.Ask? && !Admitted(t, s, e)
    ensures Needs(s, e, m) && BucketAt(s, m).Some?
    ensures BucketAt(s, m).value.budget.Valid() && !BucketAt(s, m).value.Admits(e.at)
  {
    if k :| k in e.wants.keys && k in s.buckets && !s.buckets[k].Admits(e.at) {
      m := KeyMeter(k);
    } else if UsesOverflow(s, e.wants) && e.wants.overflow in s.overflow && !s.overflow[e.wants.overflow].Admits(e.at) {
      m := OverflowMeter(e.wants.overflow);
    } else {
      m := InstanceMeter;
    }
  }

  /** And then exactly those are charged. */
  lemma ChargedExactly(t: Tariff, s: Limits, e: Event, m: Meter)
    requires Budgeted(t, s) && e.Ask?
    ensures Charges(t, s, e, m) <==> Admitted(t, s, e) && Needs(s, e, m)
  {
  }

  lemma TokenMeans(t: Tariff, s: Limits, m: Meter, now: Duration)
    requires Budgeted(t, s)
    ensures BudgetAt(t, s, m).Valid()
    ensures HasToken(t, s, m, now) <==> (BucketAt(s, m).Some? ==> BucketAt(s, m).value.budget.Valid() && BucketAt(s, m).value.Admits(now))
    ensures HasToken(t, s, m, now) <==> Tat(s, m) <= now + Intervals(BudgetAt(t, s, m).capacity - 1, BudgetAt(t, s, m).interval)
  {
    LevelDecides(OrFull(t, s, m, now), now);
  }

  /** The event takes nothing of `m`. */
  ghost predicate Spares(t: Tariff, s: Limits, e: Event, m: Meter)
    requires Budgeted(t, s)
  {
    e.Ask? ==> !Needs(s, e, m)
  }

  lemma SparedKeepsToken(t: Tariff, s: Limits, e: Event, m: Meter, now: Duration)
    requires Budgeted(t, s) && Spares(t, s, e, m) && e.at <= now
    ensures Budgeted(t, Step(t, s, e)) && HasToken(t, Step(t, s, e), m, now) == HasToken(t, s, m, now)
  {
    StepKeepsBudgets(t, s, e);
    MeterBudget(t, s, e, m);
    if e.Ask? {
      ChargedExactly(t, s, e, m);
    }
    StepAtMeter(t, s, e, m);
    TokenMeans(t, s, m, now);
    TokenMeans(t, Step(t, s, e), m, now);
  }

  /** Events that name none of `keys`, leave the instance bucket alone if `instance`, and do
      not overflow; sweeps among them. */
  ghost predicate Unrelated(t: Tariff, s: Limits, events: seq<Event>, keys: set<Key>, instance: bool)
    requires Budgeted(t, s)
    decreases |events|
  {
    events == [] ||
    (var e := events[0];
     StepKeepsBudgets(t, s, e);
     && (e.Ask? ==> e.wants.keys !! keys && !(instance && e.instance) && !UsesOverflow(s, e.wants))
     && Unrelated(t, Step(t, s, e), events[1..], keys, instance))
  }

  lemma {:induction false} SparedThroughout(t: Tariff, s: Limits, events: seq<Event>, keys: set<Key>, instance: bool,
                                            from: Duration, now: Duration, m: Meter)
    requires Budgeted(t, s) && Ordered(events, from) && LastTime(events, from) <= now && Unrelated(t, s, events, keys, instance)
    requires (m.KeyMeter? && m.key in keys) || (m.InstanceMeter? && instance)
    ensures Budgeted(t, Run(t, s, events)) && HasToken(t, Run(t, s, events), m, now) == HasToken(t, s, m, now)
    decreases |events|
  {
    if events != [] {
      var e := events[0];
      LastTimeIsLate(events[1..], e.at);
      SparedKeepsToken(t, s, e, m, now);
      SparedThroughout(t, Step(t, s, e), events[1..], keys, instance, e.at, now, m);
    }
  }

  lemma {:induction false} RunKeepsBudgets(t: Tariff, s: Limits, events: seq<Event>)
    requires Budgeted(t, s)
    ensures Budgeted(t, Run(t, s, events))
    decreases |events|
  {
    if events != [] {
      StepKeepsBudgets(t, s, events[0]);
      RunKeepsBudgets(t, Step(t, s, events[0]), events[1..]);
    }
  }

  lemma {:induction false} LastTimeIsLate(events: seq<Event>, from: Duration)
    requires Ordered(events, from)
    ensures from <= LastTime(events, from)
  {
    if events != [] {
      LastTimeIsLate(events[1..], events[0].at);
    }
  }

  /** What others do does not matter: after any ordered run of demands that share no bucket
      with it, and sweeps, while nothing overflows, a demand is answered as before. */
  lemma Undisturbed(t: Tariff, s: Limits, events: seq<Event>, from: Duration, e: Event)
    requires Budgeted(t, s) && Ordered(events, from) && e.Ask? && LastTime(events, from) <= e.at
    requires Unrelated(t, s, events, e.wants.keys, e.instance)
    requires !UsesOverflow(s, e.wants)
    ensures Budgeted(t, Run(t, s, events))
    ensures !UsesOverflow(Run(t, s, events), e.wants) ==> Admitted(t, Run(t, s, events), e) == Admitted(t, s, e)
  {
    RunKeepsBudgets(t, s, events);
    var after := Run(t, s, events);
    AdmittedExactly(t, s, e);
    AdmittedExactly(t, after, e);
    if !UsesOverflow(after, e.wants) {
      forall m | Needs(s, e, m) ensures Needs(after, e, m) && HasToken(t, after, m, e.at) == HasToken(t, s, m, e.at) {
        SparedThroughout(t, s, events, e.wants.keys, e.instance, from, e.at, m);
      }
      forall m | Needs(after, e, m) ensures Needs(s, e, m) {
      }
    }
  }

  // ----- sweeps do their work -----

  /** After a sweep every bucket left is ahead of its time, and no such bucket went. */
  lemma SweptLeavesAhead(s: Limits, now: Duration, m: Meter)
    requires !m.InstanceMeter?
    ensures BucketAt(Swept(s, now), m) == if Tat(s, m) > now then BucketAt(s, m) else None
  {
  }

  // ----- what one bucket hands out in a span -----

  /** One event as one bucket sees it. */
  datatype Glimpse = Glimpse(at: Duration, before: Duration, charged: bool, after: Duration)

  /** A charge needs a token and takes it; otherwise the bucket stays, or is dropped full. */
  predicate Moves(b: Budget, g: Glimpse)
    requires b.Valid()
  {
    if g.charged then
      && g.before <= g.at + Intervals(b.capacity - 1, b.interval)
      && g.after == Max(g.before, g.at) + b.interval
    else
      g.after == g.before || g.before <= g.at
  }

  /** Ordered glimpses of one bucket, the first after time `from` at arrival time `tat`. */
  predicate Linked(b: Budget, gs: seq<Glimpse>, from: Duration, tat: Duration)
    requires b.Valid()
  {
    gs == [] || (from <= gs[0].at && gs[0].before == tat && Moves(b, gs[0]) && Linked(b, gs[1..], gs[0].at, gs[0].after))
  }

  function CountIn(gs: seq<Glimpse>, a: Duration, b: Duration): nat {
    if gs == [] then 0
    else (if gs[0].charged && a <= gs[0].at <= b then 1 else 0) + CountIn(gs[1..], a, b)
  }

  /** The run as `m` sees it. */
  ghost function Seen(t: Tariff, s: Limits, events: seq<Event>, m: Meter): seq<Glimpse>
    requires Budgeted(t, s)
    decreases |events|
  {
    if events == [] then []
    else
      var e := events[0];
      StepKeepsBudgets(t, s, e);
      [Look(t, s, e, m)] + Seen(t, Step(t, s, e), events[1..], m)
  }

  ghost function Look(t: Tariff, s: Limits, e: Event, m: Meter): Glimpse
    requires Budgeted(t, s)
  {
    Glimpse(e.at, Tat(s, m), Charges(t, s, e, m), Tat(Step(t, s, e), m))
  }

  lemma LookMoves(t: Tariff, s: Limits, e: Event, m: Meter)
    requires Budgeted(t, s)
    ensures BudgetAt(t, s, m).Valid() && BudgetAt(t, Step(t, s, e), m) == BudgetAt(t, s, m)
    ensures Moves(BudgetAt(t, s, m), Look(t, s, e, m))
  {
    MeterBudget(t, s, e, m);
    StepAtMeter(t, s, e, m);
  }

  lemma LinkedCons(b: Budget, g: Glimpse, gs: seq<Glimpse>, from: Duration)
    requires b.Valid() && from <= g.at && Moves(b, g) && Linked(b, gs, g.at, g.after)
    ensures Linked(b, [g] + gs, from, g.before)
  {
  }

  /** Charges of `m` among `events` at times from `a` through `b`. */
  ghost function ChargesWithin(t: Tariff, s: Limits, events: seq<Event>, m: Meter, a: Duration, b: Duration): nat
    requires Budgeted(t, s)
  {
    CountIn(Seen(t, s, events, m), a, b)
  }

  lemma {:induction false} SeenIsLinked(t: Tariff, s: Limits, events: seq<Event>, m: Meter, from: Duration, b: Budget)
    requires Budgeted(t, s) && Ordered(events, from) && b == BudgetAt(t, s, m)
    ensures b.Valid() && Linked(b, Seen(t, s, events, m), from, Tat(s, m))
    decreases |events|
  {
    if events == [] {
      assert b.Valid();
    } else {
      var e := events[0];
      StepKeepsBudgets(t, s, e);
      LookMoves(t, s, e, m);
      SeenIsLinked(t, Step(t, s, e), events[1..], m, e.at, b);
      LinkedCons(b, Look(t, s, e, m), Seen(t, Step(t, s, e), events[1..], m), from);
    }
  }

  /** The most a budget hands out in a span of length `width`. */
  function SpanLimit(budget: Budget, width: Duration): nat
    requires budget.Valid()
  {
    budget.capacity + width / budget.interval
  }

  /** That limit without its division. */
  predicate WithinSpan(b: Budget, width: Duration, taken: nat) {
    Intervals(taken, b.interval) <= width + Intervals(b.capacity, b.interval)
  }

  lemma ChargeWithinSpan(b: Budget, g: Glimpse, a: Duration, width: Duration, taken: nat)
    requires b.Valid() && Moves(b, g) && g.charged && a <= g.at <= a + width
    requires taken == 0 || a + Intervals(taken, b.interval) <= Max(g.before, g.at)
    ensures WithinSpan(b, width, taken + 1)
    ensures a + Intervals(taken + 1, b.interval) <= g.after
  {
  }

  /** `taken` charges since `a` pushed the arrival time that far ahead, unless the bucket
      was dropped full, and then time itself is that far. */
  lemma {:induction false} SpanBoundFrom(b: Budget, gs: seq<Glimpse>, from: Duration, tat: Duration,
                                         a: Duration, width: Duration, taken: nat)
    requires b.Valid() && Linked(b, gs, from, tat)
    requires taken == 0 || a + Intervals(taken, b.interval) <= Max(tat, from)
    requires WithinSpan(b, width, taken)
    ensures WithinSpan(b, width, taken + CountIn(gs, a, a + width))
    decreases |gs|
  {
    if gs != [] {
      var g := gs[0];
      if g.at > a + width {
        NothingAfter(b, gs[1..], g.at, g.after, a, a + width);
      } else if g.charged && a <= g.at {
        ChargeWithinSpan(b, g, a, width, taken);
        SpanBoundFrom(b, gs[1..], g.at, g.after, a, width, taken + 1);
      } else {
        SpanBoundFrom(b, gs[1..], g.at, g.after, a, width, taken);
      }
    }
  }

  lemma {:induction false} NothingAfter(budget: Budget, gs: seq<Glimpse>, from: Duration, tat: Duration, a: Duration, b: Duration)
    requires budget.Valid() && Linked(budget, gs, from, tat) && b < from
    ensures CountIn(gs, a, b) == 0
    decreases |gs|
  {
    if gs != [] {
      NothingAfter(budget, gs[1..], gs[0].at, gs[0].after, a, b);
    }
  }

  lemma {:induction false} FewEnough(n: nat, free: nat, interval: Duration, width: Duration)
    requires interval > 0 && Intervals(n, interval) <= width + Intervals(free, interval)
    ensures n <= free + width / interval
    decreases free
  {
    if free == 0 {
      IntervalsIsProduct(n, interval);
      QuotientBound(n, interval, width);
    } else if n > 0 {
      FewEnough(n - 1, free - 1, interval, width);
    }
  }

  lemma CountBound(b: Budget, gs: seq<Glimpse>, from: Duration, tat: Duration, a: Duration, width: Duration)
    requires b.Valid() && Linked(b, gs, from, tat)
    ensures CountIn(gs, a, a + width) <= SpanLimit(b, width)
  {
    SpanBoundFrom(b, gs, from, tat, a, width, 0);
    FewEnough(CountIn(gs, a, a + width), b.capacity, b.interval, width);
  }

  /** No bucket, keyed, overflow or instance-wide, hands out more than its capacity plus
      one token per interval in any span, however often it is swept and created again. */
  lemma SpanBound(t: Tariff, s: Limits, events: seq<Event>, from: Duration, m: Meter, a: Duration, width: Duration)
    requires Budgeted(t, s) && Ordered(events, from) && BudgetAt(t, s, m).Valid()
    ensures ChargesWithin(t, s, events, m, a, a + width) <= SpanLimit(BudgetAt(t, s, m), width)
  {
    var b := BudgetAt(t, s, m);
    SeenIsLinked(t, s, events, m, from, b);
    CountBound(b, Seen(t, s, events, m), from, Tat(s, m), a, width);
  }

  // ----- what one network gets in a span -----

  /** Admitted demands naming `key` among `events` at times from `a` through `b`. */
  ghost function AdmittedWithin(t: Tariff, s: Limits, events: seq<Event>, key: Key, a: Duration, b: Duration): nat
    requires Budgeted(t, s)
    decreases |events|
  {
    if events == [] then 0
    else
      StepKeepsBudgets(t, s, events[0]);
      (if Admitted(t, s, events[0]) && key in events[0].wants.keys && a <= events[0].at <= b then 1 else 0)
      + AdmittedWithin(t, Step(t, s, events[0]), events[1..], key, a, b)
  }

  lemma {:induction false} AdmissionsAreCharged(t: Tariff, s: Limits, events: seq<Event>, from: Duration, key: Key, a: Duration, b: Duration)
    requires Budgeted(t, s) && Ordered(events, from)
    ensures AdmittedWithin(t, s, events, key, a, b) <=
      ChargesWithin(t, s, events, KeyMeter(key), a, b) + ChargesWithin(t, s, events, OverflowMeter(OverflowOf(key)), a, b)
    decreases |events|
  {
    if events != [] {
      var e := events[0];
      StepKeepsBudgets(t, s, e);
      if Admitted(t, s, e) && key in e.wants.keys {
        AdmissionCharges(t, s, e, key);
      }
      ChargesWithinStep(t, s, events, KeyMeter(key), a, b);
      ChargesWithinStep(t, s, events, OverflowMeter(OverflowOf(key)), a, b);
      AdmissionsAreCharged(t, Step(t, s, e), events[1..], e.at, key, a, b);
    }
  }

  lemma ChargesWithinStep(t: Tariff, s: Limits, events: seq<Event>, m: Meter, a: Duration, b: Duration)
    requires Budgeted(t, s) && events != [] && Budgeted(t, Step(t, s, events[0]))
    ensures ChargesWithin(t, s, events, m, a, b) ==
      (if Charges(t, s, events[0], m) && a <= events[0].at <= b then 1 else 0)
      + ChargesWithin(t, Step(t, s, events[0]), events[1..], m, a, b)
  {
  }

  lemma AdmissionCharges(t: Tariff, s: Limits, e: Event, key: Key)
    requires Budgeted(t, s) && e.Legal() && Admitted(t, s, e) && key in e.wants.keys
    ensures Charges(t, s, e, KeyMeter(key)) || Charges(t, s, e, OverflowMeter(OverflowOf(key)))
  {
  }

  /** A /48 is the address without its low 80 bits, and a class request from inside it
      always names its bucket: rotating addresses does not get around it. */
  lemma Slash48Names(rateClass: RateClass, bits: nat)
    ensures Class(rateClass, V6Slash48(bits / 0x1_0000_0000_0000_0000_0000)) in DemandOf(ClassRequest(rateClass, IPv6(bits))).Footprint().keys
  {
  }

  /** All class requests admitted from one IPv6 /48 in any span: at most eight times the
      class's capacity, one per eighth of its interval, and the class's overflow. */
  lemma Slash48Bound(s: Limits, events: seq<Event>, from: Duration, rateClass: RateClass, net: nat, a: Duration, width: Duration)
    requires Budgeted(TARIFF, s) && Ordered(events, from)
    ensures var b := ClassBudget(rateClass);
            AdmittedWithin(TARIFF, s, events, Class(rateClass, V6Slash48(net)), a, a + width) <=
              (8 * b.capacity + width / (b.interval / 8)) + (b.capacity + width / b.interval)
  {
    var b := ClassBudget(rateClass);
    var own := 8 * b.capacity + width / (b.interval / 8);
    var shared := b.capacity + width / b.interval;
    var key := Class(rateClass, V6Slash48(net));
    assert ChargesWithin(TARIFF, s, events, KeyMeter(key), a, a + width) <= own by {
      KeySpanBound(TARIFF, s, events, from, key, a, width);
    }
    assert ChargesWithin(TARIFF, s, events, OverflowMeter(ClassOverflow(rateClass)), a, a + width) <= shared by {
      OverflowSpanBound(TARIFF, s, events, from, ClassOverflow(rateClass), a, width);
    }
    AdmittedAtMost(TARIFF, s, events, from, key, a, a + width, own, shared);
  }

  lemma AdmittedAtMost(t: Tariff, s: Limits, events: seq<Event>, from: Duration, key: Key, a: Duration, b: Duration,
                       own: nat, shared: nat)
    requires Budgeted(t, s) && Ordered(events, from)
    requires ChargesWithin(t, s, events, KeyMeter(key), a, b) <= own
    requires ChargesWithin(t, s, events, OverflowMeter(OverflowOf(key)), a, b) <= shared
    ensures AdmittedWithin(t, s, events, key, a, b) <= own + shared
  {
    AdmissionsAreCharged(t, s, events, from, key, a, b);
  }

  lemma KeySpanBound(t: Tariff, s: Limits, events: seq<Event>, from: Duration, key: Key, a: Duration, width: Duration)
    requires Budgeted(t, s) && Ordered(events, from)
    ensures ChargesWithin(t, s, events, KeyMeter(key), a, a + width) <= SpanLimit(t.key(key), width)
  {
    SpanBound(t, s, events, from, KeyMeter(key), a, width);
  }

  lemma OverflowSpanBound(t: Tariff, s: Limits, events: seq<Event>, from: Duration, o: Overflow, a: Duration, width: Duration)
    requires Budgeted(t, s) && Ordered(events, from)
    ensures ChargesWithin(t, s, events, OverflowMeter(o), a, a + width) <= SpanLimit(t.overflow(o), width)
  {
    SpanBound(t, s, events, from, OverflowMeter(o), a, width);
  }

  // ----- sweeps change no answer -----

  /** The answers to the demands among `events`, in order. */
  ghost function Answers(t: Tariff, s: Limits, events: seq<Event>): seq<bool>
    requires Budgeted(t, s)
    decreases |events|
  {
    if events == [] then []
    else
      StepKeepsBudgets(t, s, events[0]);
      (if events[0].Ask? then [Admitted(t, s, events[0])] else []) + Answers(t, Step(t, s, events[0]), events[1..])
  }

  ghost predicate NeverOverflows(t: Tariff, s: Limits, events: seq<Event>)
    requires Budgeted(t, s)
    decreases |events|
  {
    events == [] ||
    (StepKeepsBudgets(t, s, events[0]);
     (events[0].Ask? ==> !UsesOverflow(s, events[0].wants)) && NeverOverflows(t, Step(t, s, events[0]), events[1..]))
  }

  function WithoutSweeps(events: seq<Event>): seq<Event> {
    if events == [] then []
    else if events[0].Sweep? then WithoutSweeps(events[1..])
    else [events[0]] + WithoutSweeps(events[1..])
  }

  /** `swept` lacks only buckets of `s` that are full at `now`. */
  ghost predicate LacksOnlyFull(s: Limits, swept: Limits, now: Duration) {
    && swept.instance == s.instance
    && swept.buckets.Keys <= s.buckets.Keys
    && (forall k :: k in s.buckets ==> if k in swept.buckets then swept.buckets[k] == s.buckets[k] else s.buckets[k].IsFull(now))
    && swept.overflow.Keys <= s.overflow.Keys
    && (forall o :: o in s.overflow ==> if o in swept.overflow then swept.overflow[o] == s.overflow[o] else s.overflow[o].IsFull(now))
  }

  lemma LaterStillFull(s: Limits, swept: Limits, now: Duration, later: Duration)
    requires LacksOnlyFull(s, swept, now) && now <= later
    ensures LacksOnlyFull(s, swept, later)
  {
  }

  lemma SweepDropsOnlyFull(s: Limits, swept: Limits, now: Duration, later: Duration)
    requires LacksOnlyFull(s, swept, now) && now <= later
    ensures LacksOnlyFull(s, Swept(swept, later), later)
  {
  }

  lemma SweptNeedsNoOverflow(s: Limits, swept: Limits, f: Footprint)
    requires swept.buckets.Keys <= s.buckets.Keys && |s.buckets| <= MAX_BUCKETS && !UsesOverflow(s, f)
    ensures !UsesOverflow(swept, f)
  {
    var room := s.buckets.Keys + Missing(s, f);
    assert |room| == |s.buckets.Keys| + |Missing(s, f)|;
    assert |swept.buckets.Keys + Missing(swept, f)| == |swept.buckets.Keys| + |Missing(swept, f)|;
    assert swept.buckets.Keys + Missing(swept, f) <= room;
    SubsetSize(swept.buckets.Keys + Missing(swept, f), room);
  }

  lemma FullBucketAdmits(b: Bucket, now: Duration)
    requires b.budget.Valid() && b.IsFull(now)
    ensures b.Admits(now) && b.Take(now) == Full(b.budget, now).Take(now)
  {
  }

  lemma SweptAnswersAlike(t: Tariff, s: Limits, swept: Limits, e: Event)
    requires Budgeted(t, s) && Budgeted(t, swept) && |s.buckets| <= MAX_BUCKETS
    requires e.Ask? && LacksOnlyFull(s, swept, e.at) && !UsesOverflow(s, e.wants)
    ensures !UsesOverflow(swept, e.wants)
    ensures Admitted(t, swept, e) == Admitted(t, s, e)
    ensures LacksOnlyFull(Step(t, s, e), Step(t, swept, e), e.at)
  {
    SweptNeedsNoOverflow(s, swept, e.wants);
    forall k | k in s.buckets && k !in swept.buckets ensures s.buckets[k].Admits(e.at) {
      FullBucketAdmits(s.buckets[k], e.at);
    }
    if Admitted(t, s, e) {
      SweptChargesAlike(t, s, swept, e.wants.keys, e.at);
    }
  }

  /** From its time on, a sweep makes no difference to any bucket: present or missing, it
      admits alike and is the same after a charge. */
  lemma SweepLeavesBucketsAlike(t: Tariff, s: Limits, now: Duration, later: Duration, m: Meter)
    requires Budgeted(t, s) && now <= later && BudgetAt(t, s, m).Valid()
    ensures var before, after := OrFull(t, s, m, later), OrFull(t, Swept(s, now), m, later);
            && before.budget == after.budget == BudgetAt(t, s, m)
            && after.Admits(later) == before.Admits(later) && after.Take(later) == before.Take(later)
  {
    SweepAtMeter(s, now, m);
    if BucketAt(s, m).Some? && BucketAt(Swept(s, now), m).None? {
      FullBucketAdmits(BucketAt(s, m).value, later);
    }
  }

  lemma SweptChargesAlike(t: Tariff, s: Limits, swept: Limits, keys: set<Key>, now: Duration)
    requires Budgeted(t, s) && LacksOnlyFull(s, swept, now)
    ensures var after, sweptAfter := Taken(t, s.buckets, keys, now), Taken(t, swept.buckets, keys, now);
            && sweptAfter.Keys <= after.Keys
            && forall k :: k in after ==> if k in sweptAfter then sweptAfter[k] == after[k] else after[k].IsFull(now)
  {
  }

  /** Sweeps at any times change no answer as long as the limiter that is never swept
      does not overflow, and the swept one then does not overflow either. */
  lemma {:induction false} SweepsAreInvisible(t: Tariff, s: Limits, swept: Limits, events: seq<Event>, from: Duration)
    requires Budgeted(t, s) && Budgeted(t, swept) && |s.buckets| <= MAX_BUCKETS
    requires LacksOnlyFull(s, swept, from) && Ordered(events, from)
    requires NeverOverflows(t, s, WithoutSweeps(events))
    ensures Answers(t, swept, events) == Answers(t, s, WithoutSweeps(events))
    ensures NeverOverflows(t, swept, events)
    decreases |events|
  {
    if events != [] {
      var e := events[0];
      StepKeepsBudgets(t, s, e);
      StepKeepsBudgets(t, swept, e);
      if e.Sweep? {
        SweepDropsOnlyFull(s, swept, from, e.at);
        SweepsAreInvisible(t, s, Step(t, swept, e), events[1..], e.at);
      } else {
        assert WithoutSweeps(events)[0] == e && WithoutSweeps(events)[1..] == WithoutSweeps(events[1..]);
        LaterStillFull(s, swept, from, e.at);
        SweptAnswersAlike(t, s, swept, e);
        StepKeepsBound(t, s, e);
        SweepsAreInvisible(t, Step(t, s, e), Step(t, swept, e), events[1..], e.at);
      }
    }
  }

  // ----- the token bucket behind the arrival time -----

  /** The plain token bucket, counted in nanoseconds of credit: refilled continuously up
      to its capacity, a request costs one interval. */
  datatype TokenBucket = TokenBucket(level: int, last: Duration) {
    function Refilled(b: Budget, now: Duration): TokenBucket
      requires last <= now
    {
      TokenBucket(Min(Intervals(b.capacity, b.interval), level + (now - last)), now)
    }
  }

  function Min(a: int, b: int): int {
    if a < b then a else b
  }

  /** A bucket's credit at `now`. */
  function Level(b: Bucket, now: Duration): int {
    Intervals(b.budget.capacity, b.budget.interval) - (if b.tat > now then b.tat - now else 0)
  }

  /** Answers of the arrival-time bucket to requests at `times`. */
  function ArrivalAnswers(b: Bucket, times: seq<Duration>): seq<bool>
    requires b.budget.Valid()
    decreases |times|
  {
    if times == [] then []
    else if b.Admits(times[0]) then [true] + ArrivalAnswers(b.Take(times[0]), times[1..])
    else [false] + ArrivalAnswers(b, times[1..])
  }

  ghost predicate TimesOrdered(times: seq<Duration>, from: Duration) {
    times == [] || (from <= times[0] && TimesOrdered(times[1..], times[0]))
  }

  /** Answers of the token bucket. */
  ghost function TokenAnswers(t: TokenBucket, b: Budget, times: seq<Duration>): seq<bool>
    requires TimesOrdered(times, t.last)
    decreases |times|
  {
    if times == [] then []
    else
      var filled := t.Refilled(b, times[0]);
      if filled.level >= b.interval
      then [true] + TokenAnswers(filled.(level := filled.level - b.interval), b, times[1..])
      else [false] + TokenAnswers(filled, b, times[1..])
  }

  lemma LevelRefills(b: Bucket, now: Duration, later: Duration)
    requires now <= later
    ensures Level(b, later) == Min(Intervals(b.budget.capacity, b.budget.interval), Level(b, now) + (later - now))
  {
  }

  lemma LevelDecides(b: Bucket, now: Duration)
    requires b.budget.Valid()
    ensures b.Admits(now) <==> Level(b, now) >= b.budget.interval
    ensures Level(b.Take(now), now) == Level(b, now) - b.budget.interval
  {
  }

  /** The arrival-time bucket answers every sequence of requests as the token bucket with
      the same credit does. */
  lemma {:induction false} RefinesTokenBucket(b: Bucket, t: TokenBucket, times: seq<Duration>)
    requires b.budget.Valid() && t.level == Level(b, t.last) && TimesOrdered(times, t.last)
    ensures ArrivalAnswers(b, times) == TokenAnswers(t, b.budget, times)
    decreases |times|
  {
    if times != [] {
      var now := times[0];
      LevelRefills(b, t.last, now);
      LevelDecides(b, now);
      var filled := t.Refilled(b.budget, now);
      if b.Admits(now) {
        RefinesTokenBucket(b.Take(now), filled.(level := filled.level - b.budget.interval), times[1..]);
      } else {
        RefinesTokenBucket(b, filled, times[1..]);
      }
    }
  }
}
