/** The token budget: one bucket per sender and one per group, refilled continuously, debited after
    the call, and stored under a key that expires when the bucket would be full again. Times are
    seconds on the clock Redis shares with the bot; rounding is not modelled. */
module TokenBudget {
  import opened Wrappers

  const SECONDS_PER_DAY: real := 86400.0

  datatype Bucket = Bucket(key: string, perDay: nat) {
    function Capacity(): real { perDay as real }
    function Rate(): real { perDay as real / SECONDS_PER_DAY }
  }

  // The Redis hash and the instant its key expires.
  datatype Entry = Entry(balance: real, at: real, expires: real)

  function Min(a: real, b: real): real {
    if a < b then a else b
  }

  function Ceil(x: real): int {
    -((-x).Floor)
  }

  predicate Live(stored: Option<Entry>, now: real) {
    stored.Some? && now < stored.value.expires
  }

  // The balance the script starts from: a missing bucket reads as full.
  function Reading(capacity: real, rate: real, stored: Option<Entry>, now: real): real {
    if Live(stored, now)
    then Min(capacity, stored.value.balance + (now - stored.value.at) * rate)
    else capacity
  }

  function Settled(capacity: real, rate: real, stored: Option<Entry>, now: real, cost: real): Entry
    requires rate > 0.0
  {
    var balance := Reading(capacity, rate, stored, now) - cost;
    Entry(balance, now, now + Ceil((capacity - balance) / rate) as real)
  }

  // The reference: a bucket whose record never expires

  datatype Record = Record(balance: real, at: real)

  function Kept(capacity: real, rate: real, record: Option<Record>, now: real): real {
    if record.Some?
    then Min(capacity, record.value.balance + (now - record.value.at) * rate)
    else capacity
  }

  datatype Settlement = Settlement(now: real, cost: real)

  ghost predicate InOrder(since: real, calls: seq<Settlement>)
    decreases |calls|
  {
    calls == [] || (since <= calls[0].now && calls[0].cost >= 0.0 && InOrder(calls[0].now, calls[1..]))
  }

  function Balances(capacity: real, rate: real, stored: Option<Entry>, calls: seq<Settlement>): seq<real>
    requires rate > 0.0
    decreases |calls|
  {
    if calls == [] then []
    else
      var entry := Settled(capacity, rate, stored, calls[0].now, calls[0].cost);
      [entry.balance] + Balances(capacity, rate, Some(entry), calls[1..])
  }

  function KeptBalances(capacity: real, rate: real, record: Option<Record>, calls: seq<Settlement>): seq<real>
    decreases |calls|
  {
    if calls == [] then []
    else
      var balance := Kept(capacity, rate, record, calls[0].now) - calls[0].cost;
      [balance] + KeptBalances(capacity, rate, Some(Record(balance, calls[0].now)), calls[1..])
  }

  ghost predicate Same(capacity: real, rate: real, stored: Option<Entry>, record: Option<Record>)
    requires rate > 0.0
  {
    if stored.None? then record.None?
    else
      && record == Some(Record(stored.value.balance, stored.value.at))
      && stored.value.balance <= capacity
      && stored.value.expires == stored.value.at + Ceil((capacity - stored.value.balance) / rate) as real
  }

  lemma EnoughTime(rate: real, missing: real, elapsed: real)
    requires rate > 0.0 && elapsed >= missing / rate
    ensures elapsed * rate >= missing
  {
    assert missing / rate * rate == missing;
  }

  // By the time the key is gone, the record it held would read full.
  lemma ExpiredReadsFull(capacity: real, rate: real, balance: real, elapsed: real)
    requires rate > 0.0 && elapsed >= Ceil((capacity - balance) / rate) as real
    ensures Min(capacity, balance + elapsed * rate) == capacity
  {
    var x := (capacity - balance) / rate;
    assert Ceil(x) as real >= x;
    EnoughTime(rate, capacity - balance, elapsed);
  }

  lemma SameReading(capacity: real, rate: real, stored: Option<Entry>, record: Option<Record>, now: real)
    requires rate > 0.0 && Same(capacity, rate, stored, record)
    ensures Reading(capacity, rate, stored, now) == Kept(capacity, rate, record, now)
  {
    if stored.Some? && !Live(stored, now) {
      ExpiredReadsFull(capacity, rate, stored.value.balance, now - stored.value.at);
    }
  }

  // Letting the key expire is unobservable.
  lemma {:induction false} ExpiryRefines(
    capacity: real, rate: real, stored: Option<Entry>, record: Option<Record>, since: real, calls: seq<Settlement>)
    requires rate > 0.0 && Same(capacity, rate, stored, record) && InOrder(since, calls)
    ensures Balances(capacity, rate, stored, calls) == KeptBalances(capacity, rate, record, calls)
    decreases |calls|
  {
    if calls != [] {
      var Settlement(now, cost) := calls[0];
      SameReading(capacity, rate, stored, record, now);
      var entry := Settled(capacity, rate, stored, now, cost);
      ExpiryRefines(
        capacity, rate, Some(entry), Some(Record(entry.balance, now)), now, calls[1..]);
    }
  }

  // Peeking

  function Costs(calls: seq<Settlement>): real {
    if calls == [] then 0.0 else calls[0].cost + Costs(calls[1..])
  }

  function Debits(calls: seq<Settlement>): seq<Settlement> {
    if calls == [] then []
    else if calls[0].cost == 0.0 then Debits(calls[1..])
    else [calls[0]] + Debits(calls[1..])
  }

  // The history without its peeks: every other settlement is in it, and as often.
  lemma {:induction false} DebitsExactly(calls: seq<Settlement>, c: Settlement)
    ensures multiset(Debits(calls))[c] == if c.cost == 0.0 then 0 else multiset(calls)[c]
    ensures Costs(Debits(calls)) == Costs(calls)
  {
    if calls != [] {
      DebitsExactly(calls[1..], c);
      assert calls == [calls[0]] + calls[1..];
    }
  }

  function RecordAfter(capacity: real, rate: real, record: Option<Record>, calls: seq<Settlement>): Option<Record>
    decreases |calls|
  {
    if calls == [] then record
    else
      var balance := Kept(capacity, rate, record, calls[0].now) - calls[0].cost;
      RecordAfter(capacity, rate, Some(Record(balance, calls[0].now)), calls[1..])
  }

  // Two records that read the same from `since` on.
  ghost predicate Alike(capacity: real, rate: real, a: Option<Record>, b: Option<Record>, since: real) {
    forall t :: t >= since ==> Kept(capacity, rate, a, t) == Kept(capacity, rate, b, t)
  }

  lemma Distributes(a: real, b: real, rate: real)
    ensures (a + b) * rate == a * rate + b * rate
  {}

  lemma KeptIsStepwise(capacity: real, rate: real, record: Option<Record>, now: real, t: real)
    requires rate > 0.0 && t >= now
    ensures Kept(capacity, rate, Some(Record(Kept(capacity, rate, record, now), now)), t)
         == Kept(capacity, rate, record, t)
  {
    Product(t - now, rate);
    if record.Some? {
      Distributes(now - record.value.at, t - now, rate);
    }
  }

  // Settling nothing never changes what the bucket reads later, so a budget check is free.
  lemma {:induction false} PeeksAreFree(
    capacity: real, rate: real, a: Option<Record>, b: Option<Record>, since: real, calls: seq<Settlement>, t: real)
    requires rate > 0.0 && InOrder(since, calls) && Alike(capacity, rate, a, b, since)
    requires t >= (if calls == [] then since else calls[|calls| - 1].now) && t >= since
    ensures Kept(capacity, rate, RecordAfter(capacity, rate, a, calls), t)
         == Kept(capacity, rate, RecordAfter(capacity, rate, b, Debits(calls)), t)
    decreases |calls|
  {
    if calls != [] {
      var Settlement(now, cost) := calls[0];
      var balance := Kept(capacity, rate, a, now) - cost;
      LastIsLatest(now, calls[1..]);
      if cost == 0.0 {
        forall u | u >= now
          ensures Kept(capacity, rate, Some(Record(balance, now)), u) == Kept(capacity, rate, b, u)
        {
          KeptIsStepwise(capacity, rate, a, now, u);
        }
        PeeksAreFree(capacity, rate, Some(Record(balance, now)), b, now, calls[1..], t);
      } else {
        var next := Some(Record(balance, now));
        PeeksAreFree(capacity, rate, next, next, now, calls[1..], t);
      }
    }
  }

  lemma {:induction false} LastIsLatest(since: real, calls: seq<Settlement>)
    requires InOrder(since, calls)
    ensures calls != [] ==> since <= calls[|calls| - 1].now
    decreases |calls|
  {
    if calls != [] {
      LastIsLatest(calls[0].now, calls[1..]);
    }
  }

  function StoredAfter(capacity: real, rate: real, stored: Option<Entry>, calls: seq<Settlement>): Option<Entry>
    requires rate > 0.0
    decreases |calls|
  {
    if calls == [] then stored
    else StoredAfter(
      capacity, rate, Some(Settled(capacity, rate, stored, calls[0].now, calls[0].cost)), calls[1..])
  }

  lemma {:induction false} StoredIsRecorded(
    capacity: real, rate: real, stored: Option<Entry>, record: Option<Record>, since: real, calls: seq<Settlement>)
    requires rate > 0.0 && Same(capacity, rate, stored, record) && InOrder(since, calls)
    ensures Same(capacity, rate, StoredAfter(capacity, rate, stored, calls),
                 RecordAfter(capacity, rate, record, calls))
    decreases |calls|
  {
    if calls != [] {
      var Settlement(now, cost) := calls[0];
      SameReading(capacity, rate, stored, record, now);
      var entry := Settled(capacity, rate, stored, now, cost);
      StoredIsRecorded(capacity, rate, Some(entry), Some(Record(entry.balance, now)), now, calls[1..]);
    }
  }

  lemma {:induction false} DebitsInOrder(since: real, early: real, calls: seq<Settlement>)
    requires InOrder(since, calls) && early <= since
    ensures InOrder(early, Debits(calls))
    decreases |calls|
  {
    if calls != [] {
      DebitsInOrder(calls[0].now, if calls[0].cost == 0.0 then early else calls[0].now, calls[1..]);
    }
  }

  // The same for the key that expires: dropping every peek from a history leaves each later reading.
  lemma PeeksLeaveNoTrace(capacity: real, rate: real, since: real, calls: seq<Settlement>, t: real)
    requires rate > 0.0 && InOrder(since, calls)
    requires t >= (if calls == [] then since else calls[|calls| - 1].now)
    ensures Reading(capacity, rate, StoredAfter(capacity, rate, None, calls), t)
         == Reading(capacity, rate, StoredAfter(capacity, rate, None, Debits(calls)), t)
  {
    LastIsLatest(since, calls);
    DebitsInOrder(since, since, calls);
    StoredIsRecorded(capacity, rate, None, None, since, calls);
    StoredIsRecorded(capacity, rate, None, None, since, Debits(calls));
    PeeksAreFree(capacity, rate, None, None, since, calls, t);
    SameReading(capacity, rate, StoredAfter(capacity, rate, None, calls),
                RecordAfter(capacity, rate, None, calls), t);
    SameReading(capacity, rate, StoredAfter(capacity, rate, None, Debits(calls)),
                RecordAfter(capacity, rate, None, Debits(calls)), t);
  }

  // When the next call may come

  // What the check sees of one bucket.
  datatype Peek = Peek(balance: real, capacity: real, rate: real) {
    predicate Ok() { rate > 0.0 && capacity >= 1.0 && balance <= capacity }

    // Its balance after a wait without spending.
    function At(wait: real): real { Min(capacity, balance + wait * rate) }
  }

  // The time a bucket takes to reach one token.
  function Delay(p: Peek): (d: real)
    requires p.Ok()
  {
    (1.0 - p.balance) / p.rate
  }

  function Wait(peeks: seq<Peek>): (wait: real)
    requires forall p :: p in peeks ==> p.Ok()
  {
    if peeks == [] then 0.0
    else
      var wait, last := Wait(peeks[..|peeks| - 1]), peeks[|peeks| - 1];
      if last.balance > 0.0 || Delay(last) <= wait then wait else Delay(last)
  }

  lemma DelayMeans(p: Peek, wait: real)
    requires p.Ok()
    ensures Delay(p) <= wait <==> 1.0 - p.balance <= wait * p.rate
    ensures p.balance <= 0.0 ==> Delay(p) > 0.0
  {
    var d := Delay(p);
    assert d * p.rate == 1.0 - p.balance;
    if d <= wait {
      assert (wait - d) * p.rate >= 0.0;
    } else {
      assert (d - wait) * p.rate > 0.0;
    }
    if d <= 0.0 {
      assert d * p.rate <= 0.0;
    }
  }

  // The wait is the longest delay among the buckets that refused, and zero when none did.
  lemma {:induction false} WaitIsLongest(peeks: seq<Peek>)
    requires forall p :: p in peeks ==> p.Ok()
    ensures Wait(peeks) >= 0.0
    ensures forall p :: p in peeks && p.balance <= 0.0 ==> Delay(p) <= Wait(peeks)
    ensures Wait(peeks) == 0.0 <==> forall p :: p in peeks ==> p.balance > 0.0
    ensures Wait(peeks) > 0.0 ==> exists p :: p in peeks && p.balance <= 0.0 && Delay(p) == Wait(peeks)
  {
    if peeks != [] {
      var rest, last := peeks[..|peeks| - 1], peeks[|peeks| - 1];
      assert forall p :: p in peeks <==> p in rest || p == last;
      WaitIsLongest(rest);
      DelayMeans(last, Wait(rest));
    }
  }

  lemma Product(a: real, b: real)
    requires a >= 0.0 && b >= 0.0
    ensures a * b >= 0.0
  {}

  lemma PositiveByThen(p: Peek, wait: real)
    requires p.Ok() && wait >= 0.0 && (p.balance <= 0.0 ==> Delay(p) <= wait)
    ensures p.At(wait) > 0.0
    ensures p.balance <= 0.0 ==> p.At(wait) >= 1.0
  {
    DelayMeans(p, wait);
    Product(wait, p.rate);
  }

  // At the promised time every bucket admits again, and those that refused hold a whole token.
  lemma RefillAdmits(peeks: seq<Peek>, p: Peek)
    requires (forall q :: q in peeks ==> q.Ok()) && p in peeks
    ensures p.At(Wait(peeks)) > 0.0
    ensures p.balance <= 0.0 ==> p.At(Wait(peeks)) >= 1.0
  {
    WaitIsLongest(peeks);
    PositiveByThen(p, Wait(peeks));
  }

  lemma TokenByThen(p: Peek, wait: real)
    requires p.Ok() && wait >= 0.0 && (p.balance <= 0.0 ==> Delay(p) <= wait)
    ensures p.At(wait) >= 1.0 <==> (0.0 < p.balance < 1.0 ==> Delay(p) <= wait)
  {
    DelayMeans(p, wait);
    assert wait * p.rate >= 0.0;
  }

  // An empty bucket of the call that takes at least as long to its token as `p`.
  ghost predicate Outlasted(peeks: seq<Peek>, p: Peek)
    requires p.Ok() && forall q :: q in peeks ==> q.Ok()
  {
    exists q :: q in peeks && q.balance <= 0.0 && Delay(p) <= Delay(q)
  }

  lemma OutlastedIsWithin(peeks: seq<Peek>, p: Peek)
    requires (forall q :: q in peeks ==> q.Ok()) && p in peeks && p.balance < 1.0
    ensures Outlasted(peeks, p) <==> Delay(p) <= Wait(peeks)
  {
    WaitIsLongest(peeks);
    DelayMeans(p, 0.0);
  }

  // "One token above zero" holds of every bucket exactly when each one left with a fraction of a
  // token has an empty one beside it that is no quicker: the check skips a bucket above zero.
  lemma WholeTokenExactly(peeks: seq<Peek>)
    requires forall q :: q in peeks ==> q.Ok()
    ensures (forall p :: p in peeks ==> p.At(Wait(peeks)) >= 1.0) <==>
            (forall p :: p in peeks && 0.0 < p.balance < 1.0 ==> Outlasted(peeks, p))
  {
    WaitIsLongest(peeks);
    forall p | p in peeks
      ensures p.At(Wait(peeks)) >= 1.0 <==> (0.0 < p.balance < 1.0 ==> Outlasted(peeks, p))
    {
      TokenByThen(p, Wait(peeks));
      if p.balance < 1.0 {
        OutlastedIsWithin(peeks, p);
      }
    }
  }

  // Overdraft, with at most `k` admitted calls in flight and at most `most` tokens each

  datatype Event = Admit(now: real) | Refuse(now: real) | Spend(now: real, cost: real) | Quit

  datatype Usage = Usage(record: Record, inFlight: nat)

  // `refill(a, b)` is what a bucket gains from a to b; the overdraft argument only needs it to add up.
  datatype Limits = Limits(capacity: real, refill: (real, real) -> real, k: nat, most: real) {
    ghost predicate Ok() {
      && capacity > 0.0 && most >= 0.0
      && (forall a, b :: a <= b ==> refill(a, b) >= 0.0)
      && (forall a, b, c :: a <= b <= c ==> refill(a, c) == refill(a, b) + refill(b, c))
    }

    // The bucket of the source gains at a constant rate.
    ghost predicate Steady(rate: real) {
      && capacity > 0.0 && most >= 0.0 && rate > 0.0
      && forall a, b :: refill(a, b) == (b - a) * rate
    }
  }

  lemma SteadyIsOk(l: Limits, rate: real)
    requires l.Steady(rate)
    ensures l.Ok()
  {
    forall a, b | a <= b ensures l.refill(a, b) >= 0.0 {
      Product(b - a, rate);
    }
    forall a, b, c | a <= b <= c ensures l.refill(a, c) == l.refill(a, b) + l.refill(b, c) {
      Distributes(b - a, c - b, rate);
    }
  }

  // The most `n` calls can cost.
  function Bill(n: nat, most: real): real {
    if n == 0 then 0.0 else Bill(n - 1, most) + most
  }

  lemma {:induction false} BillIsProduct(n: nat, most: real)
    ensures Bill(n, most) == n as real * most
  {
    if n > 0 {
      BillIsProduct(n - 1, most);
      assert n as real * most == (n - 1) as real * most + most;
    }
  }

  lemma {:induction false} BillGrows(m: nat, n: nat, most: real)
    requires m <= n && most >= 0.0
    ensures 0.0 <= Bill(m, most) <= Bill(n, most)
  {
    if m < n {
      BillGrows(m, n - 1, most);
    } else if n > 0 {
      BillGrows(n - 1, n - 1, most);
    }
  }

  function Level(l: Limits, u: Usage, now: real): real {
    Min(l.capacity, u.record.balance + l.refill(u.record.at, now))
  }

  // A check may refuse for this bucket or for the other one of its call, so at any balance.
  predicate Allowed(l: Limits, u: Usage, e: Event) {
    match e
    case Admit(now) => u.record.at <= now && u.inFlight < l.k && Level(l, u, now) > 0.0
    case Refuse(now) => u.record.at <= now
    case Spend(now, cost) => u.record.at <= now && u.inFlight > 0 && 0.0 <= cost <= l.most
    case Quit => u.inFlight > 0
  }

  // The check settles a cost of zero, the report the tokens used; a failed call reports nothing.
  function Used(l: Limits, u: Usage, e: Event): Usage
    requires Allowed(l, u, e)
  {
    match e
    case Admit(now) => Usage(Record(Level(l, u, now), now), u.inFlight + 1)
    case Refuse(now) => u.(record := Record(Level(l, u, now), now))
    case Spend(now, cost) => Usage(Record(Level(l, u, now) - cost, now), u.inFlight - 1)
    case Quit => u.(inFlight := u.inFlight - 1)
  }

  ghost predicate Valid(l: Limits, u: Usage, events: seq<Event>)
    decreases |events|
  {
    events == [] || (Allowed(l, u, events[0]) && Valid(l, Used(l, u, events[0]), events[1..]))
  }

  ghost function After(l: Limits, u: Usage, events: seq<Event>): Usage
    requires Valid(l, u, events)
    decreases |events|
  {
    if events == [] then u else After(l, Used(l, u, events[0]), events[1..])
  }

  function Spent(events: seq<Event>): real {
    if events == [] then 0.0
    else (if events[0].Spend? then events[0].cost else 0.0) + Spent(events[1..])
  }

  function Settlements(events: seq<Event>): seq<Settlement> {
    if events == [] then []
    else
      (match events[0]
       case Admit(now) => [Settlement(now, 0.0)]
       case Refuse(now) => [Settlement(now, 0.0)]
       case Spend(now, cost) => [Settlement(now, cost)]
       case Quit => [])
      + Settlements(events[1..])
  }

  lemma {:induction false} SpentIsSettled(events: seq<Event>)
    ensures Spent(events) == Costs(Settlements(events))
  {
    if events != [] {
      SpentIsSettled(events[1..]);
      FirstSettlement(events);
    }
  }

  ghost predicate Sound(l: Limits, u: Usage) {
    && u.inFlight <= l.k
    && u.record.balance <= l.capacity
    && u.record.balance > -Bill(l.k - u.inFlight, l.most)
  }

  // Between settlements the balance only grows, by at most the rate, and never past full.
  lemma LevelGrows(l: Limits, u: Usage, now: real)
    requires l.Ok() && u.record.at <= now && u.record.balance <= l.capacity
    ensures u.record.balance <= Level(l, u, now) <= l.capacity
    ensures Level(l, u, now) <= u.record.balance + l.refill(u.record.at, now)
  {}

  lemma EventKeepsSound(l: Limits, u: Usage, e: Event)
    requires l.Ok() && Sound(l, u) && Allowed(l, u, e)
    ensures Sound(l, Used(l, u, e))
  {
    if !e.Quit? {
      LevelGrows(l, u, e.now);
    }
    if e.Admit? {
      BillGrows(0, l.k - u.inFlight - 1, l.most);
    }
  }

  lemma {:induction false} RunKeepsSound(l: Limits, u: Usage, events: seq<Event>)
    requires l.Ok() && Sound(l, u) && Valid(l, u, events)
    ensures Sound(l, After(l, u, events))
    decreases |events|
  {
    if events != [] {
      EventKeepsSound(l, u, events[0]);
      RunKeepsSound(l, Used(l, u, events[0]), events[1..]);
    }
  }

  // The tokens spent are paid by the balance lost and the refill.
  lemma {:induction false} SpendingIsPaid(l: Limits, u: Usage, events: seq<Event>, to: real)
    requires l.Ok() && Sound(l, u) && Valid(l, u, events) && u.record.at <= to
    requires forall n :: 0 <= n < |events| && !events[n].Quit? ==> events[n].now <= to
    ensures Spent(events) <=
      u.record.balance - After(l, u, events).record.balance + l.refill(u.record.at, to)
    decreases |events|
  {
    if events != [] {
      var e, u' := events[0], Used(l, u, events[0]);
      EventKeepsSound(l, u, e);
      SpendingIsPaid(l, u', events[1..], to);
      if !e.Quit? {
        LevelGrows(l, u, e.now);
      }
    }
  }

  // The balances the expiring bucket returns during a run of events

  lemma FirstSettlement(events: seq<Event>)
    requires events != []
    ensures if events[0].Quit? then Settlements(events) == Settlements(events[1..])
            else Settlements(events) != [] && Settlements(events)[1..] == Settlements(events[1..])
    ensures events[0].Admit? || events[0].Refuse? ==> Settlements(events)[0] == Settlement(events[0].now, 0.0)
    ensures events[0].Spend? ==> Settlements(events)[0] == Settlement(events[0].now, events[0].cost)
  {}

  lemma {:induction false} SettlementsInOrder(l: Limits, u: Usage, events: seq<Event>)
    requires Valid(l, u, events)
    ensures InOrder(u.record.at, Settlements(events))
    decreases |events|
  {
    if events != [] {
      SettlementsInOrder(l, Used(l, u, events[0]), events[1..]);
      FirstSettlement(events);
    }
  }

  lemma LevelIsKept(l: Limits, rate: real, u: Usage, now: real)
    requires l.Steady(rate)
    ensures Level(l, u, now) == Kept(l.capacity, rate, Some(u.record), now)
  {}

  lemma {:induction false} KeptStayAbove(l: Limits, rate: real, u: Usage, events: seq<Event>)
    requires l.Steady(rate) && l.Ok() && Sound(l, u) && Valid(l, u, events)
    ensures forall b :: b in KeptBalances(l.capacity, rate, Some(u.record), Settlements(events)) ==>
      b > -Bill(l.k, l.most)
    decreases |events|
  {
    if events != [] {
      var u' := Used(l, u, events[0]);
      EventKeepsSound(l, u, events[0]);
      KeptStayAbove(l, rate, u', events[1..]);
      BillGrows(l.k - u'.inFlight, l.k, l.most);
      FirstSettlement(events);
      if !events[0].Quit? {
        LevelIsKept(l, rate, u, events[0].now);
      }
    }
  }

  lemma FullFromTheStart(capacity: real, rate: real, start: real, calls: seq<Settlement>)
    requires rate > 0.0 && InOrder(start, calls)
    ensures KeptBalances(capacity, rate, None, calls)
         == KeptBalances(capacity, rate, Some(Record(capacity, start)), calls)
  {
    if calls != [] {
      Product(calls[0].now - start, rate);
    }
  }

  lemma FullIsSound(l: Limits, start: real)
    requires l.Ok()
    ensures Sound(l, Usage(Record(l.capacity, start), 0))
  {
    BillGrows(0, l.k, l.most);
  }

  // No balance the expiring bucket ever returns is down to -k times the most a call costs.
  lemma OverdraftBounded(l: Limits, rate: real, start: real, events: seq<Event>)
    requires l.Steady(rate) && Valid(l, Usage(Record(l.capacity, start), 0), events)
    ensures forall b :: b in Balances(l.capacity, rate, None, Settlements(events)) ==> b > -Bill(l.k, l.most)
    ensures Bill(l.k, l.most) == l.k as real * l.most
  {
    SteadyIsOk(l, rate);
    FullIsSound(l, start);
    KeptStayAbove(l, rate, Usage(Record(l.capacity, start), 0), events);
    SettlementsInOrder(l, Usage(Record(l.capacity, start), 0), events);
    FullFromTheStart(l.capacity, rate, start, Settlements(events));
    ExpiryRefines(l.capacity, rate, None, None, start, Settlements(events));
    BillIsProduct(l.k, l.most);
  }

  lemma SpendingFrom(l: Limits, u: Usage, events: seq<Event>, to: real)
    requires l.Ok() && Sound(l, u) && Valid(l, u, events) && u.record.at <= to
    requires forall n :: 0 <= n < |events| && !events[n].Quit? ==> events[n].now <= to
    ensures Spent(events) < l.capacity + l.refill(u.record.at, to) + Bill(l.k, l.most)
  {
    RunKeepsSound(l, u, events);
    SpendingIsPaid(l, u, events, to);
    BillGrows(l.k - After(l, u, events).inFlight, l.k, l.most);
  }

  lemma SpendingWithin(l: Limits, start: real, before: seq<Event>, during: seq<Event>, from: real, to: real)
    requires l.Ok() && Valid(l, Usage(Record(l.capacity, start), 0), before)
    requires var u := After(l, Usage(Record(l.capacity, start), 0), before);
      u.record.at <= from <= to && Valid(l, u, during)
    requires forall n :: 0 <= n < |during| && !during[n].Quit? ==> from <= during[n].now <= to
    ensures Spent(during) < l.capacity + l.refill(from, to) + Bill(l.k, l.most)
  {
    FullIsSound(l, start);
    RunKeepsSound(l, Usage(Record(l.capacity, start), 0), before);
    SpendingAfterWaiting(l, After(l, Usage(Record(l.capacity, start), 0), before), during, from, to);
  }

  // Over any period the calls spend less than a full bucket, the refill of the period, and that
  // overdraft together.
  lemma SpendingBounded(
    l: Limits, rate: real, start: real, before: seq<Event>, during: seq<Event>, from: real, to: real)
    requires l.Steady(rate) && Valid(l, Usage(Record(l.capacity, start), 0), before)
    requires var u := After(l, Usage(Record(l.capacity, start), 0), before);
      u.record.at <= from <= to && Valid(l, u, during)
    requires forall n :: 0 <= n < |during| && !during[n].Quit? ==> from <= during[n].now <= to
    ensures Costs(Settlements(during)) < l.capacity + l.refill(from, to) + Bill(l.k, l.most)
    ensures l.refill(from, to) == (to - from) * rate && Bill(l.k, l.most) == l.k as real * l.most
  {
    SteadyIsOk(l, rate);
    SpentIsSettled(during);
    SpendingWithin(l, start, before, during, from, to);
    BillIsProduct(l.k, l.most);
  }

  lemma SpendingAfterWaiting(l: Limits, u: Usage, during: seq<Event>, from: real, to: real)
    requires l.Ok() && Sound(l, u) && Valid(l, u, during) && u.record.at <= from <= to
    requires forall n :: 0 <= n < |during| && !during[n].Quit? ==> from <= during[n].now <= to
    ensures Spent(during) < l.capacity + l.refill(from, to) + Bill(l.k, l.most)
  {
    LevelGrows(l, u, from);
    WaitingChangesNothing(l, u, from, during);
    SpendingFrom(l, u.(record := Record(Level(l, u, from), from)), during, to);
  }

  lemma {:induction false} WaitingChangesNothing(l: Limits, u: Usage, from: real, events: seq<Event>)
    requires l.Ok() && Valid(l, u, events) && u.record.at <= from
    requires forall n :: 0 <= n < |events| && !events[n].Quit? ==> from <= events[n].now
    ensures Valid(l, u.(record := Record(Level(l, u, from), from)), events)
    decreases |events|
  {
    if events != [] {
      var e, waiting := events[0], u.(record := Record(Level(l, u, from), from));
      if e.Quit? {
        WaitingChangesNothing(l, Used(l, u, e), from, events[1..]);
      } else {
        assert l.refill(u.record.at, e.now) == l.refill(u.record.at, from) + l.refill(from, e.now);
        assert Used(l, waiting, e) == Used(l, u, e);
      }
    }
  }

  // The service

  datatype Policy = Policy(userPerDay: nat, groupPerDay: nat, enforce: bool, owners: set<string>)

  predicate Positive(p: Policy) {
    p.userPerDay > 0 && p.groupPerDay > 0
  }

  ghost predicate Apart(buckets: seq<Bucket>) {
    forall i, j :: 0 <= i < j < |buckets| ==> buckets[i].key != buckets[j].key
  }

  function UserKey(sender: string): string {
    "agent_budget:user:" + sender
  }

  function GroupKey(jid: string): string {
    "agent_budget:group:" + jid
  }

  // A sender has one key in every chat, a chat one for every sender, and no two share one.
  lemma KeysAreOwn(a: string, b: string)
    ensures UserKey(a) != GroupKey(b)
    ensures UserKey(a) == UserKey(b) ==> a == b
    ensures GroupKey(a) == GroupKey(b) ==> a == b
  {
    assert UserKey(a)[13] == 'u' && GroupKey(b)[13] == 'g';
    assert UserKey(a)[18..] == a && UserKey(b)[18..] == b;
    assert GroupKey(a)[19..] == a && GroupKey(b)[19..] == b;
  }

  // The size of the bucket a call settles under a key, if any: the sender's own in every chat, in a group
  // the chat's too, for every sender, and for an owner none.
  function Settles(p: Policy, sender: string, jid: string, isGroup: bool, key: string): Option<nat> {
    if sender in p.owners then None
    else if key == UserKey(sender) then Some(p.userPerDay)
    else if isGroup && key == GroupKey(jid) then Some(p.groupPerDay)
    else None
  }

  function Buckets(p: Policy, sender: string, jid: string, isGroup: bool): (r: seq<Bucket>)
    requires Positive(p)
    ensures forall b :: b in r ==> b.perDay > 0
    ensures Apart(r)
    ensures r == [] <==> sender in p.owners
    ensures forall b :: b in r <==> Settles(p, sender, jid, isGroup, b.key) == Some(b.perDay)
  {
    if sender in p.owners then []
    else
      KeysAreOwn(sender, jid);
      [Bucket(UserKey(sender), p.userPerDay)] + if isGroup then [Bucket(GroupKey(jid), p.groupPerDay)] else []
  }

  function At(store: map<string, Entry>, key: string): Option<Entry> {
    if key in store then Some(store[key]) else None
  }

  function PeekAt(store: map<string, Entry>, b: Bucket, now: real): Peek {
    Peek(Reading(b.Capacity(), b.Rate(), At(store, b.key), now), b.Capacity(), b.Rate())
  }

  function Peeks(store: map<string, Entry>, buckets: seq<Bucket>, now: real): (r: seq<Peek>)
    ensures |r| == |buckets|
    ensures forall i :: 0 <= i < |r| ==> r[i] == PeekAt(store, buckets[i], now)
  {
    seq(|buckets|, i requires 0 <= i < |buckets| => PeekAt(store, buckets[i], now))
  }

  lemma PeeksOk(store: map<string, Entry>, buckets: seq<Bucket>, now: real)
    requires forall b :: b in buckets ==> b.perDay > 0
    ensures forall p :: p in Peeks(store, buckets, now) ==> p.Ok()
  {
    forall i | 0 <= i < |buckets| ensures PeekAt(store, buckets[i], now).Ok() {
      assert buckets[i] in buckets;
    }
  }

  // The store after the buckets are settled one after the other.
  function Debited(store: map<string, Entry>, buckets: seq<Bucket>, cost: nat, now: real): map<string, Entry>
    requires forall b :: b in buckets ==> b.perDay > 0
  {
    if buckets == [] then store
    else
      var before, b := Debited(store, buckets[..|buckets| - 1], cost, now), buckets[|buckets| - 1];
      before[b.key := Settled(b.Capacity(), b.Rate(), At(before, b.key), now, cost as real)]
  }

  lemma {:induction false} OthersUntouched(
    store: map<string, Entry>, buckets: seq<Bucket>, cost: nat, now: real, key: string)
    requires forall b :: b in buckets ==> b.perDay > 0 && b.key != key
    ensures At(Debited(store, buckets, cost, now), key) == At(store, key)
  {
    if buckets != [] {
      assert buckets[|buckets| - 1] in buckets;
      OthersUntouched(store, buckets[..|buckets| - 1], cost, now, key);
    }
  }

  // Each bucket of a call is settled once, from the entry the call found.
  lemma {:induction false} SettledOnce(
    store: map<string, Entry>, buckets: seq<Bucket>, cost: nat, now: real, i: nat)
    requires (forall b :: b in buckets ==> b.perDay > 0) && Apart(buckets) && i < |buckets|
    ensures var b := buckets[i];
      At(Debited(store, buckets, cost, now), b.key)
      == Some(Settled(b.Capacity(), b.Rate(), At(store, b.key), now, cost as real))
    decreases |buckets|
  {
    var front := buckets[..|buckets| - 1];
    if i < |front| {
      SettledOnce(store, front, cost, now, i);
    } else {
      OthersUntouched(store, front, cost, now, buckets[i].key);
    }
  }

  ghost predicate CallSettled(
    p: Policy, sender: string, jid: string, isGroup: bool, before: map<string, Entry>, after: map<string, Entry>,
    cost: nat, now: real)
    requires Positive(p)
  {
    forall key {:trigger At(after, key)} :: At(after, key) ==
      match Settles(p, sender, jid, isGroup, key)
      case None => At(before, key)
      case Some(perDay) =>
        Some(Settled(perDay as real, perDay as real / SECONDS_PER_DAY, At(before, key), now, cost as real))
  }

  lemma CallSettlesOwn(
    p: Policy, sender: string, jid: string, isGroup: bool, store: map<string, Entry>, cost: nat, now: real)
    requires Positive(p)
    ensures CallSettled(p, sender, jid, isGroup, store,
                        Debited(store, Buckets(p, sender, jid, isGroup), cost, now), cost, now)
  {
    var buckets := Buckets(p, sender, jid, isGroup);
    KeysAreOwn(sender, jid);
    forall key ensures At(Debited(store, buckets, cost, now), key) ==
      match Settles(p, sender, jid, isGroup, key)
      case None => At(store, key)
      case Some(perDay) =>
        Some(Settled(perDay as real, perDay as real / SECONDS_PER_DAY, At(store, key), now, cost as real))
    {
      if i: nat :| i < |buckets| && buckets[i].key == key {
        SettledOnce(store, buckets, cost, now, i);
      } else {
        OthersUntouched(store, buckets, cost, now, key);
      }
    }
  }

  // How long one bucket keeps a call waiting.
  function Due(store: map<string, Entry>, key: string, perDay: nat, now: real): (due: real)
    requires perDay > 0
  {
    var peek := PeekAt(store, Bucket(key, perDay), now);
    if peek.balance > 0.0 then 0.0 else (1.0 - peek.balance) / (perDay as real / SECONDS_PER_DAY)
  }

  function CallWait(p: Policy, sender: string, jid: string, isGroup: bool, store: map<string, Entry>, now: real): real
    requires Positive(p)
  {
    if sender in p.owners then 0.0
    else
      var user, group := Due(store, UserKey(sender), p.userPerDay, now), Due(store, GroupKey(jid), p.groupPerDay, now);
      if isGroup && group > user then group else user
  }

  // The calls of a bucket, checked and debited, are the events the bounds are about.

  // A check lets a call through for this bucket exactly when the event that admits it is allowed, and
  // then the call may cost anything up to the most.
  lemma ChecksAdmit(
    store: map<string, Entry>, key: string, perDay: nat, l: Limits, u: Usage, now: real)
    requires perDay > 0 && l.capacity == perDay as real && l.Steady(perDay as real / SECONDS_PER_DAY)
    requires Same(l.capacity, perDay as real / SECONDS_PER_DAY, At(store, key), Some(u.record))
    requires u.record.at <= now && u.inFlight < l.k
    ensures Due(store, key, perDay, now) == 0.0 <==> Allowed(l, u, Admit(now))
    ensures Allowed(l, u, Admit(now)) ==>
      forall then_, cost :: then_ >= now && 0.0 <= cost <= l.most ==>
        Allowed(l, Used(l, u, Admit(now)), Spend(then_, cost))
  {
    var rate, peek := perDay as real / SECONDS_PER_DAY, PeekAt(store, Bucket(key, perDay), now);
    SameReading(l.capacity, rate, At(store, key), Some(u.record), now);
    LevelIsKept(l, rate, u, now);
    assert peek.balance == Level(l, u, now);
    DelayMeans(peek, 0.0);
  }

  // And settling it leaves what the event leaves.
  lemma SettlingIsTheEvent(l: Limits, rate: real, u: Usage, e: Event, stored: Option<Entry>)
    requires l.Steady(rate) && Same(l.capacity, rate, stored, Some(u.record)) && Allowed(l, u, e) && !e.Quit?
    ensures var entry := Settled(l.capacity, rate, stored, e.now, if e.Spend? then e.cost else 0.0);
      Same(l.capacity, rate, Some(entry), Some(Used(l, u, e).record))
  {
    SameReading(l.capacity, rate, stored, Some(u.record), e.now);
    LevelIsKept(l, rate, u, e.now);
  }

  // A private call waits for the sender's bucket alone, a group call for the slower of the two.
  lemma WaitOfCall(p: Policy, sender: string, jid: string, isGroup: bool, store: map<string, Entry>, now: real)
    requires Positive(p)
    ensures var peeks := Peeks(store, Buckets(p, sender, jid, isGroup), now);
      (forall q :: q in peeks ==> q.Ok()) && Wait(peeks) == CallWait(p, sender, jid, isGroup, store, now)
  {
    var buckets := Buckets(p, sender, jid, isGroup);
    var peeks := Peeks(store, buckets, now);
    PeeksOk(store, buckets, now);
    if sender !in p.owners {
      assert peeks[..1][..0] == [] && peeks[..1] == [peeks[0]];
      DelayMeans(peeks[0], 0.0);
      assert Wait(peeks[..1]) == Due(store, UserKey(sender), p.userPerDay, now);
      if isGroup {
        DelayMeans(peeks[1], 0.0);
      } else {
        assert peeks == peeks[..1];
      }
    }
  }

  // With no spending in between, the reading after a wait is the one the check counts on.
  lemma ReadingAfterWait(store: map<string, Entry>, b: Bucket, now: real, wait: real)
    requires b.perDay > 0 && wait >= 0.0
    ensures var entry := Settled(b.Capacity(), b.Rate(), At(store, b.key), now, 0.0);
      Reading(b.Capacity(), b.Rate(), Some(entry), now + wait) == PeekAt(store, b, now).At(wait)
  {
    var entry := Settled(b.Capacity(), b.Rate(), At(store, b.key), now, 0.0);
    SameReading(b.Capacity(), b.Rate(), Some(entry), Some(Record(entry.balance, entry.at)), now + wait);
  }

  // A slow user bucket beside a fast group bucket. Each is debited a token by the user; half a day
  // later somebody else empties the group's. The check then waits one second for the group, and
  // the user's bucket, still short of a token, is not looked at.

  const SLOW_USERS := Policy(1, 86400, true, {})

  function UserBuckets(): (r: seq<Bucket>)
    ensures forall b :: b in r ==> b.perDay > 0
  {
    Buckets(SLOW_USERS, "u", "g", true)
  }

  function Drained(): map<string, Entry> {
    Debited(Debited(map[], UserBuckets(), 1, 0.0), Buckets(SLOW_USERS, "v", "g", true), 86400, 43200.0)
  }

  lemma OthersAreOther()
    ensures forall b :: b in Buckets(SLOW_USERS, "v", "g", true) ==> b.perDay > 0 && b.key != UserBuckets()[0].key
  {
    var user, others := UserBuckets()[0], Buckets(SLOW_USERS, "v", "g", true);
    assert user.key[13] == 'u' && others[1].key[13] == 'g';
    assert user.key[18] == 'u' && others[0].key[18] == 'v';
  }

  // The single token of a one-a-day bucket, spent at the start.
  lemma TokenSpent()
    ensures Settled(1.0, 1.0 / SECONDS_PER_DAY, None, 0.0, 1.0) == Entry(0.0, 0.0, SECONDS_PER_DAY)
    ensures Reading(1.0, 1.0 / SECONDS_PER_DAY, Some(Entry(0.0, 0.0, SECONDS_PER_DAY)), 43200.0) == 0.5
  {
  }

  lemma UserIsHalfway()
    ensures PeekAt(Drained(), UserBuckets()[0], 43200.0) == Peek(0.5, 1.0, 1.0 / SECONDS_PER_DAY)
  {
    var user := UserBuckets()[0];
    SettledOnce(map[], UserBuckets(), 1, 0.0, 0);
    OthersAreOther();
    OthersUntouched(
      Debited(map[], UserBuckets(), 1, 0.0), Buckets(SLOW_USERS, "v", "g", true), 86400, 43200.0, user.key);
    TokenSpent();
  }

  lemma GroupIsEmpty()
    ensures PeekAt(Drained(), UserBuckets()[1], 43200.0) == Peek(0.0, SECONDS_PER_DAY, 1.0)
  {
    var group := UserBuckets()[1];
    var first := Debited(map[], UserBuckets(), 1, 0.0);
    SettledOnce(map[], UserBuckets(), 1, 0.0, 1);
    SettledOnce(first, Buckets(SLOW_USERS, "v", "g", true), 86400, 43200.0, 1);
    assert first[group.key].balance == 86399.0 && first[group.key].at == 0.0;
    assert Reading(group.Capacity(), group.Rate(), At(first, group.key), 43200.0) == SECONDS_PER_DAY;
    var drained := Drained()[group.key];
    assert drained.balance == 0.0 && drained.at == 43200.0;
  }

  lemma OneEmptyOfTwo(user: Peek, group: Peek)
    requires user.Ok() && group.Ok() && user.balance > 0.0 && group.balance == 0.0 && group.rate == 1.0
    ensures Wait([user, group]) == 1.0
  {
    assert [user, group][..1] == [user] && [user][..0] == [];
    assert Wait([user]) == 0.0;
    assert Delay(group) == 1.0;
  }

  lemma FractionIsSkipped()
    ensures var peeks := Peeks(Drained(), UserBuckets(), 43200.0);
      && (forall p :: p in peeks ==> p.Ok())
      && Wait(peeks) == 1.0
      && PeekAt(Debited(Drained(), UserBuckets(), 0, 43200.0), UserBuckets()[0], 43201.0).balance < 1.0
  {
    UserIsHalfway();
    GroupIsEmpty();
    PeeksOk(Drained(), UserBuckets(), 43200.0);
    var user, group := Peek(0.5, 1.0, 1.0 / SECONDS_PER_DAY), Peek(0.0, SECONDS_PER_DAY, 1.0);
    assert Peeks(Drained(), UserBuckets(), 43200.0) == [user, group];
    OneEmptyOfTwo(user, group);
    SettledOnce(Drained(), UserBuckets(), 0, 43200.0, 0);
    ReadingAfterWait(Drained(), UserBuckets()[0], 43200.0, 1.0);
    assert user.At(1.0) == 0.5 + 1.0 / SECONDS_PER_DAY;
  }

  class Budget {
    var store: map<string, Entry>
    const policy: Policy

    constructor (policy: Policy)
      ensures this.policy == policy && store == map[]
    {
      this.policy := policy;
      store := map[];
    }

    method SettleOne(b: Bucket, cost: nat, now: real) returns (balance: real)
      requires b.perDay > 0
      modifies this
      ensures var entry := Settled(b.Capacity(), b.Rate(), At(old(store), b.key), now, cost as real);
        balance == entry.balance && store == old(store)[b.key := entry]
    {
      var entry := Settled(b.Capacity(), b.Rate(), At(store, b.key), now, cost as real);
      store := store[b.key := entry];
      balance := entry.balance;
    }

    method SettleAll(buckets: seq<Bucket>, cost: nat, now: real) returns (balances: seq<real>)
      requires (forall b :: b in buckets ==> b.perDay > 0) && Apart(buckets)
      modifies this
      ensures |balances| == |buckets|
      ensures forall i :: 0 <= i < |buckets| ==>
        balances[i] == PeekAt(old(store), buckets[i], now).balance - cost as real
      ensures store == Debited(old(store), buckets, cost, now)
    {
      balances := [];
      for n := 0 to |buckets|
        invariant |balances| == n && store == Debited(old(store), buckets[..n], cost, now)
        invariant forall i :: 0 <= i < n ==>
          balances[i] == PeekAt(old(store), buckets[i], now).balance - cost as real
      {
        OthersUntouched(old(store), buckets[..n], cost, now, buckets[n].key);
        assert buckets[..n + 1][..n] == buckets[..n];
        var balance := SettleOne(buckets[n], cost, now);
        balances := balances + [balance];
      }
      assert buckets[..|buckets|] == buckets;
    }

    // The loop of refill_at over the settled buckets.
    static method LongestDelay(rates: seq<real>, balances: seq<real>, ghost peeks: seq<Peek>)
      returns (wait: real)
      requires |rates| == |balances| == |peeks| && forall p :: p in peeks ==> p.Ok()
      requires forall i :: 0 <= i < |peeks| ==> peeks[i].rate == rates[i] && peeks[i].balance == balances[i]
      ensures wait == Wait(peeks)
    {
      wait := 0.0;
      for n := 0 to |balances|
        invariant wait == Wait(peeks[..n])
      {
        assert peeks[..n + 1][..n] == peeks[..n] && peeks[n] in peeks;
        if balances[n] > 0.0 {
          continue;
        }
        var own := (1.0 - balances[n]) / rates[n];
        wait := if own > wait then own else wait;
      }
      assert peeks[..|balances|] == peeks;
    }

    // The instant the sender may call again, or None when the call may go ahead now.
    method RefillAt(sender: string, jid: string, isGroup: bool, now: real) returns (refill: Option<real>)
      requires Positive(policy)
      modifies this
      ensures var wait := CallWait(policy, sender, jid, isGroup, old(store), now);
        refill == if policy.enforce && wait > 0.0 then Some(now + wait) else None
      ensures CallSettled(policy, sender, jid, isGroup, old(store), store, 0, now)
    {
      CallSettlesOwn(policy, sender, jid, isGroup, store, 0, now);
      WaitOfCall(policy, sender, jid, isGroup, store, now);
      var buckets := Buckets(policy, sender, jid, isGroup);
      ghost var peeks := Peeks(store, buckets, now);
      var balances := SettleAll(buckets, 0, now);
      var rates := seq(|buckets|, i requires 0 <= i < |buckets| => buckets[i].Rate());
      var wait := LongestDelay(rates, balances, peeks);
      WaitIsLongest(peeks);
      if wait == 0.0 || !policy.enforce {
        return None;
      }
      return Some(now + wait);
    }

    method Spend(sender: string, jid: string, isGroup: bool, tokens: nat, now: real)
      requires Positive(policy)
      modifies this
      ensures CallSettled(policy, sender, jid, isGroup, old(store), store, tokens, now)
    {
      CallSettlesOwn(policy, sender, jid, isGroup, store, tokens, now);
      var buckets := Buckets(policy, sender, jid, isGroup);
      var balances := SettleAll(buckets, tokens, now);
    }
  }
}
