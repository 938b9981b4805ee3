/** The protocol's run-level results: how often a command is answered, that the retry ladder ends,
    that no state is stuck, and that a quiet system has answered everything exactly once. */
module DeliveryProgress {
  import opened Wrappers
  import opened Envelopes
  import opened Delivery
  import opened DeliverySafety
  import opened DeliveryLoss

  // Crashes of a run that found `k` between its reply and its mark.
  ghost function CrashHits(s: State, steps: seq<Step>, k: Key): nat
    requires Valid(s, steps)
    decreases |steps|
  {
    if steps == [] then 0
    else
      (if steps[0].Crash? && exists i :: 0 <= i < |s.msgs| && Hit(s.msgs[i], k) then 1 else 0)
      + CrashHits(Next(s, steps[0]), steps[1..], k)
  }

  // Expiries of `k` in the inbox during a run.
  function Expiries(steps: seq<Step>, k: Key): nat {
    if steps == [] then 0 else (if steps[0] == Forget(k) then 1 else 0) + Expiries(steps[1..], k)
  }

  lemma {:induction false} CountersMatchRun(s: State, steps: seq<Step>, k: Key)
    requires Valid(s, steps)
    ensures After(s, steps).hits[k] == s.hits[k] + CrashHits(s, steps, k)
    ensures After(s, steps).forgotten[k] == s.forgotten[k] + Expiries(steps, k)
    decreases |steps|
  {
    if steps != [] {
      var s' := Next(s, steps[0]);
      HitKeysExact(s.msgs, k);
      assert steps[0].Crash? ==> s'.hits[k] == s.hits[k] + multiset(HitKeys(s.msgs))[k];
      CountersMatchRun(s', steps[1..], k);
    }
  }

  lemma RepliesBounded(steps: seq<Step>, k: Key)
    requires Valid(Init, steps)
    ensures After(Init, steps).replies[Reply(Some(k), false)]
         <= 1 + CrashHits(Init, steps, k) + Expiries(steps, k)
  {
    InvAlways(Init, steps);
    CountersMatchRun(Init, steps, k);
    assert Unexcused(After(Init, steps), k) <= 1;
  }

  // Every step the system takes without an arrival, a crash, an expiry or the operator.
  predicate System(st: Step) {
    !st.Arrive? && !st.Forget? && !st.Crash? && !st.Fetch? && !st.Resend? && !st.Drop? && !st.Abandon?
  }

  ghost predicate Quiet(s: State) {
    forall i :: 0 <= i < |s.msgs| ==> s.msgs[i].at in {InDlq, Fetched, Resent, Gone}
  }

  function Ladder(e: Envelope): (n: nat)
    ensures n >= 20
  {
    if e.attempts < MAX_ATTEMPTS then 20 * (MAX_ATTEMPTS - e.attempts) else 20
  }

  // The steps a message has left, its future retries included.
  function Weight(m: Message): nat {
    var ladder := Ladder(m.env);
    match m.at
    case InCommands => ladder
    case InRetry => ladder + 1
    case Unacked(stage) =>
      (match stage
       case Received => ladder - 1
       case Claimed => ladder - 2
       case Running => ladder - 3
       case Queued => ladder - 4
       case Exclusive => ladder - 5
       case DeadLettered => 6
       case Replied => 5
       case Known => 4
       case Marked => 4
       case Parked => 4
       case Skipped => 1
       case Settled => 1)
    case _ => 0
  }

  ghost function Work(s: State): nat {
    Total(s.msgs, Weight)
  }

  lemma MovesOne(s: State, st: Step)
    requires Enabled(s, st) && System(st) && !st.Fail?
    ensures |Next(s, st).msgs| == |s.msgs|
    ensures Next(s, st).msgs == s.msgs[st.i := Next(s, st).msgs[st.i]]
  {}

  lemma ReleaseWeightFalls(s: State, i: nat)
    requires Enabled(s, Release(i)) && s.msgs[i].env.attempts < MAX_ATTEMPTS
    ensures Weight(Next(s, Release(i)).msgs[i]) < Weight(s.msgs[i])
  {}

  lemma OwnWeightFalls(s: State, st: Step)
    requires Enabled(s, st) && System(st) && !st.Fail? && !st.Release?
    requires s.msgs[st.i].env.attempts < MAX_ATTEMPTS
    ensures Weight(Next(s, st).msgs[st.i]) < Weight(s.msgs[st.i])
  {
    assert Next(s, st).msgs[st.i].env == s.msgs[st.i].env;
  }

  lemma FailWeightFalls(s: State, i: nat, error: ExternalError)
    requires LadderOk(s) && Enabled(s, Fail(i, error))
    ensures var ms := Next(s, Fail(i, error)).msgs;
      && |ms| == |s.msgs| + 1
      && ms == s.msgs[i := ms[i]] + [ms[|s.msgs|]]
      && Weight(ms[i]) + Weight(ms[|s.msgs|]) < Weight(s.msgs[i])
  {}

  lemma WorkFalls(s: State, st: Step)
    requires LadderOk(s) && Enabled(s, st)
    ensures
      || st.Arrive? || st.Forget? || st.Crash? || st.Fetch? || st.Resend? || st.Drop? || st.Abandon?
      || Work(Next(s, st)) < Work(s)
  {
    if System(st) {
      var ms := Next(s, st).msgs;
      TotalUpdate(s.msgs, Weight, st.i, ms[st.i]);
      if st.Fail? {
        FailWeightFalls(s, st.i, st.error);
        TotalAppend(s.msgs[st.i := ms[st.i]], Weight, ms[|s.msgs|]);
      } else {
        MovesOne(s, st);
        if st.Release? {
          ReleaseWeightFalls(s, st.i);
        } else {
          OwnWeightFalls(s, st);
        }
      }
    }
  }

  // The retry ladder ends: with nothing arriving, crashing, expiring or being replayed, a run is never
  // longer than the work it starts with.
  lemma {:induction false} LadderEnds(s: State, steps: seq<Step>)
    requires Inv(s) && Valid(s, steps)
    requires forall st :: st in steps ==>
      !(st.Arrive? || st.Forget? || st.Crash? || st.Fetch? || st.Resend? || st.Drop? || st.Abandon?)
    ensures |steps| + Work(After(s, steps)) <= Work(s)
    decreases |steps|
  {
    if steps != [] {
      assert steps[0] in steps && forall st :: st in steps[1..] ==> st in steps;
      WorkFalls(s, steps[0]);
      InvKept(s, steps[0]);
      LadderEnds(Next(s, steps[0]), steps[1..]);
    }
  }

  // A step an open delivery can take by itself; only a queued one may have to wait.
  function OwnStep(i: nat, stage: Stage): Step
    requires stage != Queued
  {
    match stage
    case Received => Claim(i)
    case Claimed => AskInbox(i)
    case Running => Answer(i)
    case Exclusive => Answer(i)
    case DeadLettered => Answer(i)
    case Replied => Mark(i)
    case Known => Release(i)
    case Parked => Release(i)
    case Marked => Release(i)
    case Skipped => Ack(i)
    case Settled => Ack(i)
  }

  lemma NeverStuck(s: State) returns (st: Step)
    requires LaneOk(s) && !Quiet(s)
    ensures System(st) && Enabled(s, st) && Prompt(s, st)
  {
    if i :| 0 <= i < |s.msgs| && s.msgs[i].at.Unacked? {
      var stage := s.msgs[i].at.stage;
      assert s.msgs[i].at == Unacked(stage);
      if stage != Queued {
        st := OwnStep(i, stage);
      } else if s.lane == None {
        st := EnterLane(i);
      } else {
        var owner := s.lane.value;
        assert s.msgs[owner].at == Unacked(s.msgs[owner].at.stage);
        st := OwnStep(owner, s.msgs[owner].at.stage);
      }
    } else {
      TotalZero(s.msgs, Holders);
      var i :| 0 <= i < |s.msgs| && s.msgs[i].at !in {InDlq, Fetched, Resent, Gone};
      st := if s.msgs[i].at == InCommands then Deliver(i) else Requeue(i);
    }
  }

  // From every reachable state the system can go quiet, and it needs no luck: any choice of
  // system steps ends, and none of the states on the way is stuck.
  lemma {:induction false} Drains(s: State) returns (steps: seq<Step>)
    requires Inv(s)
    ensures Valid(s, steps) && PromptRun(s, steps) && Quiet(After(s, steps))
    ensures forall n :: 0 <= n < |steps| ==> System(steps[n])
    decreases Work(s)
  {
    if Quiet(s) {
      steps := [];
    } else {
      var st := NeverStuck(s);
      InvKept(s, st);
      WorkFalls(s, st);
      var rest := Drains(Next(s, st));
      steps := [st] + rest;
      assert steps[1..] == rest;
    }
  }

  lemma QuietIsServed(s: State, k: Key)
    requires Quiet(s) && Safe(s, k)
    ensures Served(s, k)
  {
    assert forall i: nat :: !Works(s, i, k);
  }

  ghost predicate Untouched(s: State) {
    && (forall i :: 0 <= i < |s.msgs| ==> !s.msgs[i].env.replayed)
    && (forall k :: Reply(k, true) !in s.replies)
  }

  predicate Undisturbed(st: Step) {
    !st.Crash? && !st.Forget? && !st.Resend?
  }

  lemma {:induction false} UntouchedAlways(s: State, steps: seq<Step>)
    requires Untouched(s) && Valid(s, steps)
    requires forall n :: 0 <= n < |steps| ==> Undisturbed(steps[n])
    ensures Untouched(After(s, steps))
    decreases |steps|
  {
    if steps != [] {
      UntouchedAlways(Next(s, steps[0]), steps[1..]);
    }
  }

  lemma {:induction false} NothingExcused(s: State, steps: seq<Step>, k: Key)
    requires Valid(s, steps) && forall n :: 0 <= n < |steps| ==> Undisturbed(steps[n])
    ensures CrashHits(s, steps, k) == 0 && Expiries(steps, k) == 0
    decreases |steps|
  {
    if steps != [] {
      NothingExcused(Next(s, steps[0]), steps[1..], k);
    }
  }

  lemma {:induction false} EnvelopeKept(s: State, steps: seq<Step>, i: nat)
    requires Valid(s, steps) && i < |s.msgs|
    ensures i < |After(s, steps).msgs| && After(s, steps).msgs[i].env == s.msgs[i].env
    decreases |steps|
  {
    if steps != [] {
      EnvelopeStays(s, steps[0], i);
      EnvelopeKept(Next(s, steps[0]), steps[1..], i);
    }
  }

  // What arrived is a message for good.
  lemma {:induction false} ArrivalStays(s: State, steps: seq<Step>, n: nat) returns (i: nat)
    requires Valid(s, steps) && n < |steps| && steps[n].Arrive?
    ensures i < |After(s, steps).msgs| && After(s, steps).msgs[i].env == steps[n].env
    decreases |steps|
  {
    if n == 0 {
      i := |s.msgs|;
      EnvelopeKept(Next(s, steps[0]), steps[1..], i);
    } else {
      i := ArrivalStays(Next(s, steps[0]), steps[1..], n - 1);
    }
  }

  lemma ArrivalServed(steps: seq<Step>, n: nat)
    requires Valid(Init, steps) && PromptRun(Init, steps) && Quiet(After(Init, steps))
    requires n < |steps| && steps[n].Arrive? && HasId(steps[n].env)
    ensures KeyOf(steps[n].env).Some? && Served(After(Init, steps), KeyOf(steps[n].env).value)
  {
    SharedKeyExactly(steps[n].env, steps[n].env);
    var i := ArrivalStays(Init, steps, n);
    var k := KeyOf(steps[n].env).value;
    assert Accepted(After(Init, steps), k);
    NeverLost(steps, k);
    QuietIsServed(After(Init, steps), k);
  }

  // In their own chat, the arrivals with the key of the n-th step's are copies of its command.
  ghost predicate OnlyCopies(steps: seq<Step>, n: nat)
    requires n < |steps| && steps[n].Arrive?
  {
    forall m :: 0 <= m < |steps| && steps[m].Arrive? && steps[m].env.jid == steps[n].env.jid
                && KeyOf(steps[m].env) == KeyOf(steps[n].env) ==>
      SameCommand(steps[m].env, steps[n].env)
  }

  lemma KeyIsForCopies(steps: seq<Step>, n: nat)
    requires n < |steps| && steps[n].Arrive? && HasId(steps[n].env)
    ensures OnlyCopies(steps, n)
  {
    SharedKeyExactly(steps[n].env, steps[n].env);
    forall m | 0 <= m < |steps| && steps[m].Arrive? && steps[m].env.jid == steps[n].env.jid
               && KeyOf(steps[m].env) == KeyOf(steps[n].env)
      ensures SameCommand(steps[m].env, steps[n].env)
    {
      KeyIsOwn(steps[m].env, steps[n].env);
    }
  }

  // Without crashes, expiries and replays, a quiet system has answered each command that arrived
  // exactly once, however often it arrived and however the deliveries interleaved.
  lemma ExactlyOnce(steps: seq<Step>, n: nat)
    requires Valid(Init, steps) && PromptRun(Init, steps) && Quiet(After(Init, steps))
    requires forall m :: 0 <= m < |steps| ==> Undisturbed(steps[m])
    requires n < |steps| && steps[n].Arrive? && HasId(steps[n].env)
    ensures After(Init, steps).replies[Reply(KeyOf(steps[n].env), false)] == 1 && OnlyCopies(steps, n)
  {
    ArrivalServed(steps, n);
    KeyIsForCopies(steps, n);
    var k := KeyOf(steps[n].env).value;
    UntouchedAlways(Init, steps);
    NothingExcused(Init, steps, k);
    RepliesBounded(steps, k);
  }

  // With them, it has still answered each.
  lemma AtLeastOnce(steps: seq<Step>, n: nat)
    requires Valid(Init, steps) && PromptRun(Init, steps) && Quiet(After(Init, steps))
    requires n < |steps| && steps[n].Arrive? && HasId(steps[n].env)
    ensures KeyOf(steps[n].env).Some? && Served(After(Init, steps), KeyOf(steps[n].env).value)
    ensures OnlyCopies(steps, n)
  {
    ArrivalServed(steps, n);
    KeyIsForCopies(steps, n);
  }

  // A claim is refused because another delivery of the same command holds it.
  lemma RefusedByCopy(steps: seq<Step>, i: nat) returns (h: nat)
    requires Valid(Init, steps) && Is(After(Init, steps), i, Unacked(Received))
    requires Refused(After(Init, steps), After(Init, steps).msgs[i].env)
    ensures var ms := After(Init, steps).msgs;
      && h < |ms| && h != i && ms[h].at.Unacked? && HoldsClaim(ms[h].at.stage) && !ms[h].env.replayed
      && (ms[h].env.jid == ms[i].env.jid ==> SameCommand(ms[h].env, ms[i].env))
  {
    InvAlways(Init, steps);
    var s := After(Init, steps);
    var k := ClaimKey(s.msgs[i].env).value;
    h :| Holds(s, h, k);
    if s.msgs[h].env.jid == s.msgs[i].env.jid {
      KeyIsOwn(s.msgs[h].env, s.msgs[i].env);
    }
  }

  // A mark in the inbox was put there for a message of its key.
  lemma {:induction false} MarkedFor(s: State, steps: seq<Step>, k: Key) returns (n: nat, j: nat)
    requires Valid(s, steps) && k !in s.inbox && k in After(s, steps).inbox
    ensures n < |steps| && steps[n] == Mark(j)
    ensures j < |After(s, steps).msgs| && KeyOf(After(s, steps).msgs[j].env) == Some(k)
    decreases |steps|
  {
    var t := Next(s, steps[0]);
    if k in t.inbox {
      n, j := 0, steps[0].i;
      EnvelopeKept(t, steps[1..], j);
    } else {
      n, j := MarkedFor(t, steps[1..], k);
      n := n + 1;
    }
  }

  // A command is taken for answered because a delivery of that command was answered and marked.
  lemma AnsweredByCopy(steps: seq<Step>, i: nat) returns (n: nat, j: nat)
    requires Valid(Init, steps) && Is(After(Init, steps), i, Unacked(Claimed))
    requires Answered(After(Init, steps), After(Init, steps).msgs[i].env)
    ensures n < |steps| && steps[n] == Mark(j)
    ensures var ms := After(Init, steps).msgs;
      && j < |ms| && KeyOf(ms[j].env) == KeyOf(ms[i].env)
      && (ms[j].env.jid == ms[i].env.jid ==> SameCommand(ms[j].env, ms[i].env))
  {
    var s := After(Init, steps);
    n, j := MarkedFor(Init, steps, KeyOf(s.msgs[i].env).value);
    if s.msgs[j].env.jid == s.msgs[i].env.jid {
      KeyIsOwn(s.msgs[j].env, s.msgs[i].env);
    }
  }

  function UnackedOf(ms: seq<Message>): set<nat> {
    set i: nat | i < |ms| && ms[i].at.Unacked?
  }

  lemma {:induction false} HoldersAreUnacked(ms: seq<Message>)
    ensures Total(ms, Holders) == |UnackedOf(ms)|
  {
    if ms != [] {
      var last := |ms| - 1;
      HoldersAreUnacked(ms[..last]);
      assert UnackedOf(ms) == UnackedOf(ms[..last]) + if ms[last].at.Unacked? then {last} else {};
    }
  }

  lemma LadderAndLane(steps: seq<Step>, i: nat, j: nat)
    requires Valid(Init, steps)
    requires i < |After(Init, steps).msgs| && j < |After(Init, steps).msgs|
    ensures After(Init, steps).msgs[i].env.attempts < MAX_ATTEMPTS
    ensures After(Init, steps).msgs[i].at == After(Init, steps).msgs[j].at == Unacked(Exclusive) ==> i == j
    ensures |UnackedOf(After(Init, steps).msgs)| <= PREFETCH_COUNT
  {
    InvAlways(Init, steps);
    HoldersAreUnacked(After(Init, steps).msgs);
  }

  // The run that loses a key: the retry copy comes back while its parking delivery still holds the
  // claim, is refused, and is acked.
  const LOST := Envelope("g@g.us", Some("7"), 0, false)
  const LOST_RETRY := LOST.(attempts := 1)

  lemma LostKey()
    ensures KeyOf(LOST) == KeyOf(LOST_RETRY) == Some("g@g.us:7")
  {
    assert "g@g.us" + ":" + "7" == "g@g.us:7";
  }

  ghost predicate Leads(s: State, steps: seq<Step>, t: State) {
    Valid(s, steps) && After(s, steps) == t
  }

  lemma Leading(s: State, st: Step, s': State, steps: seq<Step>, t: State)
    requires Enabled(s, st) && Next(s, st) == s' && Leads(s', steps, t)
    ensures Leads(s, [st] + steps, t)
  {
    assert ([st] + steps)[1..] == steps;
  }

  // The two copies of the key: the original parked, the retry copy in some place.
  function Held(retry: Place): State {
    Init.(msgs := [Message(LOST, Unacked(Parked)), Message(LOST_RETRY, retry)], running := {"g@g.us:7"})
  }

  function Alone(at: Place, running: set<Key>): State {
    Init.(msgs := [Message(LOST, at)], running := running)
  }

  const EMPTIED := Init.(msgs := [Message(LOST, Gone), Message(LOST_RETRY, Gone)])

  lemma AcksTheRefusal(steps: seq<Step>)
    requires Leads(Held(Gone), steps, EMPTIED)
    ensures Leads(Held(Unacked(Received)), [Claim(1)] + ([Ack(1)] + steps), EMPTIED)
  {
    LostKey();
    Leading(Held(Unacked(Skipped)), Ack(1), Held(Gone), steps, EMPTIED);
    Leading(Held(Unacked(Received)), Claim(1), Held(Unacked(Skipped)), [Ack(1)] + steps, EMPTIED);
  }

  lemma ReleasesTheClaim()
    ensures Leads(Held(Gone), [Release(0)] + ([Ack(0)] + []), EMPTIED)
  {
    LostKey();
    var settled := Init.(msgs := [Message(LOST, Unacked(Settled)), Message(LOST_RETRY, Gone)]);
    Leading(settled, Ack(0), EMPTIED, [], EMPTIED);
    Leading(Held(Gone), Release(0), settled, [Ack(0)] + [], EMPTIED);
  }

  lemma RetriesTooEarly(steps: seq<Step>)
    requires Leads(Held(Unacked(Received)), steps, EMPTIED)
    ensures Leads(Held(InRetry), [Requeue(1)] + ([Deliver(1)] + steps), EMPTIED)
  {
    var back := Held(InCommands);
    assert Total(back.msgs, Holders) == 1 by {
      TotalAppend([back.msgs[0]], Holders, back.msgs[1]);
      TotalAppend([], Holders, back.msgs[0]);
      assert back.msgs == [back.msgs[0]] + [back.msgs[1]] && [] + [back.msgs[0]] == [back.msgs[0]];
    }
    Leading(back, Deliver(1), Held(Unacked(Received)), steps, EMPTIED);
    Leading(Held(InRetry), Requeue(1), back, [Deliver(1)] + steps, EMPTIED);
  }

  lemma ParksOnce(steps: seq<Step>)
    requires Leads(Held(InRetry), steps, EMPTIED)
    ensures Leads(Alone(Unacked(Claimed), {"g@g.us:7"}), [AskInbox(0)] + ([Fail(0, ServiceError)] + steps), EMPTIED)
  {
    var running := Alone(Unacked(Running), {"g@g.us:7"});
    Leading(running, Fail(0, ServiceError), Held(InRetry), steps, EMPTIED);
    Leading(Alone(Unacked(Claimed), {"g@g.us:7"}), AskInbox(0), running, [Fail(0, ServiceError)] + steps, EMPTIED);
  }

  lemma ClaimsOnce(steps: seq<Step>)
    requires Leads(Alone(Unacked(Claimed), {"g@g.us:7"}), steps, EMPTIED)
    ensures Leads(Init, [Arrive(LOST)] + ([Deliver(0)] + ([Claim(0)] + steps)), EMPTIED)
  {
    LostKey();
    var arrived := Alone(InCommands, {});
    Leading(Alone(Unacked(Received), {}), Claim(0), Alone(Unacked(Claimed), {"g@g.us:7"}), steps, EMPTIED);
    Leading(arrived, Deliver(0), Alone(Unacked(Received), {}), [Claim(0)] + steps, EMPTIED);
    Leading(Init, Arrive(LOST), arrived, [Deliver(0)] + ([Claim(0)] + steps), EMPTIED);
  }

  // A run without crashes that ends quiet, with the key accepted and no reply at all.
  lemma EarlyRetryLosesTheKey() returns (steps: seq<Step>, k: Key)
    ensures Valid(Init, steps) && Quiet(After(Init, steps))
    ensures Accepted(After(Init, steps), k) && After(Init, steps).replies == multiset{}
  {
    LostKey();
    k := "g@g.us:7";
    ReleasesTheClaim();
    steps := [Release(0)] + ([Ack(0)] + []);
    AcksTheRefusal(steps);
    steps := [Claim(1)] + ([Ack(1)] + steps);
    RetriesTooEarly(steps);
    steps := [Requeue(1)] + ([Deliver(1)] + steps);
    ParksOnce(steps);
    steps := [AskInbox(0)] + ([Fail(0, ServiceError)] + steps);
    ClaimsOnce(steps);
    steps := [Arrive(LOST)] + ([Deliver(0)] + ([Claim(0)] + steps));
    assert KeyOf(EMPTIED.msgs[0].env) == Some(k);
  }
}
