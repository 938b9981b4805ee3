/** The command delivery protocol as a transition system.

    A message is one entry the broker ever held for a command, with the place it is in now. A
    delivery is an unacked message, with the await its handler is parked at. Every step below runs
    between two awaits of the consumer, or belongs to the broker, to Redis, to the operator's
    replay, or is a crash of the single consumer process. */
module Delivery {
  import opened Wrappers
  import opened Envelopes

  const PREFETCH_COUNT: nat := 4

  datatype Stage =
    | Received      // delivered, claim not attempted
    | Skipped       // claim refused, only the ack is left
    | Claimed       // claim attempted and not refused, the inbox not asked
    | Known         // the inbox knew the key; claim still held
    | Running       // the handler runs outside the lane
    | Queued        // the handler waits for the exclusive lane
    | Exclusive     // the handler runs inside the lane
    | Parked        // a retry copy is out; claim still held
    | DeadLettered  // a dead letter is out, the error reply is not
    | Replied       // the final reply is out, the inbox not marked
    | Marked        // the inbox is marked; claim still held
    | Settled       // claim and lane released, only the ack is left

  datatype Place = InCommands | InRetry | InDlq | Unacked(stage: Stage) | Fetched | Resent | Gone

  datatype Message = Message(env: Envelope, at: Place)

  datatype Reply = Reply(key: Option<Key>, replayed: bool)

  // `hits` counts the crashes that found a key between its reply and its mark, `forgotten` the
  // expiries of a key in the inbox; both only record history.
  datatype State = State(
    msgs: seq<Message>, running: set<Key>, inbox: set<Key>, lane: Option<nat>,
    replies: multiset<Reply>, hits: multiset<Key>, forgotten: multiset<Key>)

  datatype Step =
    | Arrive(env: Envelope)
    | Deliver(i: nat)
    | Claim(i: nat)
    | AskInbox(i: nat)
    | JoinLane(i: nat)
    | EnterLane(i: nat)
    | Fail(i: nat, error: ExternalError)
    | Answer(i: nat)
    | Mark(i: nat)
    | Release(i: nat)
    | Ack(i: nat)
    | Requeue(i: nat)
    | Forget(key: Key)
    | Crash
    | Fetch(i: nat)
    | Resend(i: nat)
    | Drop(i: nat)
    | Abandon

  const Init := State([], {}, {}, None, multiset{}, multiset{}, multiset{})

  ghost predicate Is(s: State, i: nat, at: Place) {
    i < |s.msgs| && s.msgs[i].at == at
  }

  predicate HoldsClaim(stage: Stage) {
    stage != Received && stage != Skipped && stage != Settled
  }

  // A final reply still lies ahead of a handler at one of these stages.
  predicate BeforeReply(stage: Stage) {
    stage == Running || stage == Queued || stage == Exclusive || stage == DeadLettered
  }

  function Moved(s: State, i: nat, at: Place): State
    requires i < |s.msgs|
  {
    s.(msgs := s.msgs[i := s.msgs[i].(at := at)])
  }

  function Without(all: set<Key>, one: Option<Key>): set<Key> {
    if one.Some? then all - {one.value} else all
  }

  function With(all: set<Key>, one: Option<Key>): set<Key> {
    if one.Some? then all + {one.value} else all
  }

  function Holders(m: Message): nat {
    if m.at.Unacked? then 1 else 0
  }

  function Total(ms: seq<Message>, w: Message -> nat): nat {
    if ms == [] then 0 else Total(ms[..|ms| - 1], w) + w(ms[|ms| - 1])
  }

  predicate Refused(s: State, e: Envelope) {
    ClaimKey(e).Some? && ClaimKey(e).value in s.running
  }

  predicate Answered(s: State, e: Envelope) {
    !e.replayed && KeyOf(e).Some? && KeyOf(e).value in s.inbox
  }

  // A failed run parks a retry copy, or buries a dead letter and still owes its reply.

  function FailStage(e: Envelope, error: ExternalError): Stage {
    if RouteOf(e, error).Retry? then Parked else DeadLettered
  }

  function CopyOf(e: Envelope, error: ExternalError): Message {
    match RouteOf(e, error)
    case Retry(retry) => Message(retry, InRetry)
    case Bury(dead) => Message(dead, InDlq)
  }

  function AfterCrash(m: Message): Message {
    if m.at.Unacked? then m.(at := InCommands) else m
  }

  function AfterAbandon(m: Message): Message {
    if m.at == Fetched || m.at == Resent then m.(at := InDlq) else m
  }

  predicate Hit(m: Message, k: Key) {
    m.at == Unacked(Replied) && ClaimKey(m.env) == Some(k)
  }

  function HitKeys(ms: seq<Message>): set<Key> {
    set i | 0 <= i < |ms| && ms[i].at == Unacked(Replied) && ClaimKey(ms[i].env).Some?
      :: ClaimKey(ms[i].env).value
  }

  ghost predicate Enabled(s: State, st: Step) {
    match st
    case Arrive(e) => e.attempts == 0 && !e.replayed
    case Deliver(i) => Is(s, i, InCommands) && Total(s.msgs, Holders) < PREFETCH_COUNT
    case Claim(i) => Is(s, i, Unacked(Received))
    case AskInbox(i) => Is(s, i, Unacked(Claimed))
    case JoinLane(i) => Is(s, i, Unacked(Running))
    case EnterLane(i) => Is(s, i, Unacked(Queued)) && s.lane == None
    case Fail(i, _) => Is(s, i, Unacked(Running)) || Is(s, i, Unacked(Exclusive))
    case Answer(i) =>
      Is(s, i, Unacked(Running)) || Is(s, i, Unacked(Exclusive)) || Is(s, i, Unacked(DeadLettered))
    case Mark(i) => Is(s, i, Unacked(Replied))
    case Release(i) => Is(s, i, Unacked(Known)) || Is(s, i, Unacked(Parked)) || Is(s, i, Unacked(Marked))
    case Ack(i) => Is(s, i, Unacked(Skipped)) || Is(s, i, Unacked(Settled))
    case Requeue(i) => Is(s, i, InRetry)
    case Forget(k) => k in s.inbox
    case Crash => true
    case Fetch(i) => Is(s, i, InDlq)
    case Resend(i) => Is(s, i, Fetched)
    case Drop(i) => Is(s, i, Resent)
    case Abandon => true
  }

  ghost function Next(s: State, st: Step): State
    requires Enabled(s, st)
  {
    match st
    case Arrive(e) => s.(msgs := s.msgs + [Message(e, InCommands)])
    case Deliver(i) => Moved(s, i, Unacked(Received))
    case Claim(i) =>
      if Refused(s, s.msgs[i].env) then Moved(s, i, Unacked(Skipped))
      else Moved(s, i, Unacked(Claimed)).(running := With(s.running, ClaimKey(s.msgs[i].env)))
    case AskInbox(i) => Moved(s, i, Unacked(if Answered(s, s.msgs[i].env) then Known else Running))
    case JoinLane(i) => Moved(s, i, Unacked(Queued))
    case EnterLane(i) => Moved(s, i, Unacked(Exclusive)).(lane := Some(i))
    case Fail(i, error) =>
      var s', copy := Moved(s, i, Unacked(FailStage(s.msgs[i].env, error))), CopyOf(s.msgs[i].env, error);
      s'.(msgs := s'.msgs + [copy])
    case Answer(i) =>
      Moved(s, i, Unacked(Replied)).(
        replies := s.replies + multiset{Reply(KeyOf(s.msgs[i].env), s.msgs[i].env.replayed)})
    case Mark(i) => Moved(s, i, Unacked(Marked)).(inbox := With(s.inbox, KeyOf(s.msgs[i].env)))
    case Release(i) =>
      Moved(s, i, Unacked(Settled)).(
        running := Without(s.running, ClaimKey(s.msgs[i].env)),
        lane := if s.lane == Some(i) then None else s.lane)
    case Ack(i) => Moved(s, i, Gone)
    case Requeue(i) => Moved(s, i, InCommands)
    case Forget(k) => s.(inbox := s.inbox - {k}, forgotten := s.forgotten + multiset{k})
    case Crash =>
      s.(msgs := seq(|s.msgs|, i requires 0 <= i < |s.msgs| => AfterCrash(s.msgs[i])),
         running := {}, lane := None, hits := s.hits + multiset(HitKeys(s.msgs)))
    case Fetch(i) => Moved(s, i, Fetched)
    case Resend(i) =>
      var s' := Moved(s, i, Resent);
      s'.(msgs := s'.msgs + [Message(Envelopes.Replayed(s.msgs[i].env), InCommands)])
    case Drop(i) => Moved(s, i, Gone)
    case Abandon =>
      s.(msgs := seq(|s.msgs|, i requires 0 <= i < |s.msgs| => AfterAbandon(s.msgs[i])))
  }

  // Runs

  ghost predicate Valid(s: State, steps: seq<Step>)
    decreases |steps|
  {
    steps == [] || (Enabled(s, steps[0]) && Valid(Next(s, steps[0]), steps[1..]))
  }

  ghost function After(s: State, steps: seq<Step>): State
    requires Valid(s, steps)
    decreases |steps|
  {
    if steps == [] then s else After(Next(s, steps[0]), steps[1..])
  }
}
