/** The consumer as the source writes it: an object that claims, asks the inbox, runs the handler,
    routes a failure, publishes and marks, in that order. Each effect is proved to be one step of
    the protocol, so a delivery nothing interrupts is one of its runs. */
module CommandConsumer {
  import opened Wrappers
  import opened Envelopes
  import opened Delivery

  // What the command handler comes back with; only an external error is retried.
  datatype Outcome = Success | BotError | UnexpectedError | Failed(error: ExternalError)

  class Consumer {
    var msgs: seq<Message>
    var running: set<Key>
    var inbox: set<Key>
    var lane: Option<nat>
    var replies: multiset<Reply>

    constructor ()
      ensures View() == Init
    {
      msgs, running, inbox, lane, replies := [], {}, {}, None, multiset{};
    }

    ghost function View(): State
      reads this
    {
      State(msgs, running, inbox, lane, replies, multiset{}, multiset{})
    }

    // DeliveryGuard.claim: the check and the add, with no await between them.
    method TryClaim(i: nat) returns (claimed: bool)
      requires Is(View(), i, Unacked(Received))
      modifies this
      ensures View() == Next(old(View()), Claim(i))
      ensures claimed <==> !Refused(old(View()), old(msgs[i].env))
    {
      var key := ClaimKey(msgs[i].env);
      claimed := !(key.Some? && key.value in running);
      if claimed && key.Some? {
        running := running + {key.value};
      }
      msgs := msgs[i := msgs[i].(at := Unacked(if claimed then Claimed else Skipped))];
    }

    // DeliveryGuard.already_answered.
    method AlreadyAnswered(i: nat) returns (answered: bool)
      requires Is(View(), i, Unacked(Claimed))
      modifies this
      ensures View() == Next(old(View()), AskInbox(i))
      ensures answered <==> Answered(old(View()), old(msgs[i].env))
    {
      var key := KeyOf(msgs[i].env);
      answered := key.Some? && !msgs[i].env.replayed && key.value in inbox;
      msgs := msgs[i := msgs[i].(at := Unacked(if answered then Known else Running))];
    }

    // CommandConsumer._enter_lane, when the lane is free.
    method EnterFreeLane(i: nat)
      requires Is(View(), i, Unacked(Running)) && lane == None
      modifies this
      ensures View() == InLane(old(View()), i)
    {
      lane := Some(i);
      msgs := msgs[i := msgs[i].(at := Unacked(Exclusive))];
      ghost var queued := Next(old(View()), JoinLane(i));
      assert View() == Next(queued, EnterLane(i));
    }

    // RetryRouter.route: true once dead-lettered.
    method Route(i: nat, error: ExternalError) returns (buried: bool)
      requires Is(View(), i, Unacked(Running)) || Is(View(), i, Unacked(Exclusive))
      modifies this
      ensures View() == Next(old(View()), Fail(i, error))
      ensures buried <==> RouteOf(old(msgs[i].env), error).Bury?
    {
      var envelope := msgs[i].env;
      var attempts := envelope.attempts + 1;
      if attempts < MaxAttempts(error) {
        envelope := envelope.(attempts := attempts);
        msgs := msgs[i := msgs[i].(at := Unacked(Parked))] + [Message(envelope, InRetry)];
        return false;
      }
      msgs := msgs[i := msgs[i].(at := Unacked(DeadLettered))] + [Message(envelope, InDlq)];
      return true;
    }

    // CommandConsumer._publish_reply: the reply first, the mark only once it is out.
    method PublishReply(i: nat)
      requires Enabled(View(), Answer(i))
      modifies this
      ensures Valid(old(View()), [Answer(i), Mark(i)])
      ensures View() == After(old(View()), [Answer(i), Mark(i)])
      ensures View() == Next(Next(old(View()), Answer(i)), Mark(i))
    {
      var envelope := msgs[i].env;
      replies := replies + multiset{Reply(KeyOf(envelope), envelope.replayed)};
      msgs := msgs[i := msgs[i].(at := Unacked(Replied))];
      ghost var replied := View();
      assert replied == Next(old(View()), Answer(i));
      if KeyOf(envelope).Some? {
        inbox := inbox + {KeyOf(envelope).value};
      }
      msgs := msgs[i := msgs[i].(at := Unacked(Marked))];
      assert View() == Next(replied, Mark(i));
      TwoSteps(old(View()), Answer(i), Mark(i));
    }

    // The exits of the claim and of the lane.
    method ReleaseAll(i: nat)
      requires Enabled(View(), Release(i))
      modifies this
      ensures View() == Next(old(View()), Release(i))
    {
      var key := ClaimKey(msgs[i].env);
      if key.Some? {
        running := running - {key.value};
      }
      if lane == Some(i) {
        lane := None;
      }
      msgs := msgs[i := msgs[i].(at := Unacked(Settled))];
    }

    // CommandConsumer._answer, once the handler is back with its outcome.
    method Finish(i: nat, outcome: Outcome)
      requires Is(View(), i, Unacked(Running)) || Is(View(), i, Unacked(Exclusive))
      modifies this
      ensures View() == Finished(old(View()), i, outcome)
    {
      if outcome.Failed? {
        var buried := Route(i, outcome.error);
        if buried {
          PublishReply(i);
        }
      } else {
        PublishReply(i);
      }
    }

    // CommandConsumer._handle, uninterrupted: an exclusive command finds the lane free.
    method Handle(i: nat, exclusive: bool, outcome: Outcome)
      requires Is(View(), i, Unacked(Received)) && (exclusive ==> lane == None)
      modifies this
      ensures View() == Handled(old(View()), i, exclusive, outcome)
    {
      var claimed := TryClaim(i);
      if !claimed {
        return;
      }
      var answered := AlreadyAnswered(i);
      if !answered {
        if exclusive {
          EnterFreeLane(i);
        }
        Finish(i, outcome);
      }
      ReleaseAll(i);
    }
  }

  // Queueing for the free lane and entering it.
  ghost function InLane(s: State, i: nat): (s': State)
    requires Is(s, i, Unacked(Running)) && s.lane == None
    ensures Is(s', i, Unacked(Exclusive)) && s'.lane == Some(i)
  {
    Next(Next(s, JoinLane(i)), EnterLane(i))
  }

  ghost function Finished(s: State, i: nat, outcome: Outcome): (s': State)
    requires Is(s, i, Unacked(Running)) || Is(s, i, Unacked(Exclusive))
    ensures Enabled(s', Release(i))
  {
    if !outcome.Failed? then Next(Next(s, Answer(i)), Mark(i))
    else
      var failed := Next(s, Fail(i, outcome.error));
      if RouteOf(s.msgs[i].env, outcome.error).Retry? then failed
      else Next(Next(failed, Answer(i)), Mark(i))
  }

  ghost function Handled(s: State, i: nat, exclusive: bool, outcome: Outcome): State
    requires Is(s, i, Unacked(Received)) && (exclusive ==> s.lane == None)
  {
    var claim := Next(s, Claim(i));
    if Refused(s, s.msgs[i].env) then claim
    else
      var asked := Next(claim, AskInbox(i));
      if Answered(s, s.msgs[i].env) then Next(asked, Release(i))
      else Next(Finished(if exclusive then InLane(asked, i) else asked, i, outcome), Release(i))
  }

  lemma TwoSteps(s: State, a: Step, b: Step)
    requires Enabled(s, a) && Enabled(Next(s, a), b)
    ensures Valid(s, [a, b]) && After(s, [a, b]) == Next(Next(s, a), b)
  {
    assert [a, b][1..] == [b] && [b][1..] == [];
    var end := Next(Next(s, a), b);
    assert Valid(end, []) && After(end, []) == end;
    assert Valid(Next(s, a), [b]) && After(Next(s, a), [b]) == end;
  }

  ghost predicate Run(s: State, steps: seq<Step>, t: State) {
    Valid(s, steps) && After(s, steps) == t
  }

  lemma {:induction false} RunMore(s: State, steps: seq<Step>, t: State, st: Step)
    requires Run(s, steps, t) && Enabled(t, st)
    ensures Run(s, steps + [st], Next(t, st))
    decreases |steps|
  {
    if steps == [] {
      assert steps + [st] == [st] && Valid(Next(s, st), [st][1..]);
    } else {
      assert (steps + [st])[1..] == steps[1..] + [st];
      RunMore(Next(s, steps[0]), steps[1..], t, st);
    }
  }

  lemma FinishedIsARun(s: State, steps: seq<Step>, t: State, i: nat, outcome: Outcome) returns (more: seq<Step>)
    requires Run(s, steps, t) && (Is(t, i, Unacked(Running)) || Is(t, i, Unacked(Exclusive)))
    ensures Run(s, more, Finished(t, i, outcome))
  {
    more := steps;
    var at := t;
    if outcome.Failed? {
      RunMore(s, more, at, Fail(i, outcome.error));
      more, at := more + [Fail(i, outcome.error)], Next(at, Fail(i, outcome.error));
    }
    if !outcome.Failed? || RouteOf(t.msgs[i].env, outcome.error).Bury? {
      RunMore(s, more, at, Answer(i));
      more, at := more + [Answer(i)], Next(at, Answer(i));
      RunMore(s, more, at, Mark(i));
      more := more + [Mark(i)];
    }
  }

  // The consumer refines the protocol: handling a delivery without interruption is a run of it.
  lemma HandledIsARun(s: State, i: nat, exclusive: bool, outcome: Outcome) returns (steps: seq<Step>)
    requires Is(s, i, Unacked(Received)) && (exclusive ==> s.lane == None)
    ensures Valid(s, steps) && After(s, steps) == Handled(s, i, exclusive, outcome)
  {
    RunMore(s, [], s, Claim(i));
    steps := [] + [Claim(i)];
    if !Refused(s, s.msgs[i].env) {
      var at := Next(s, Claim(i));
      RunMore(s, steps, at, AskInbox(i));
      steps, at := steps + [AskInbox(i)], Next(at, AskInbox(i));
      if !Answered(s, s.msgs[i].env) {
        if exclusive {
          RunMore(s, steps, at, JoinLane(i));
          RunMore(s, steps + [JoinLane(i)], Next(at, JoinLane(i)), EnterLane(i));
          steps, at := steps + [JoinLane(i)] + [EnterLane(i)], InLane(at, i);
        }
        steps := FinishedIsARun(s, steps, at, i, outcome);
        at := Finished(at, i, outcome);
      }
      RunMore(s, steps, at, Release(i));
      steps := steps + [Release(i)];
    }
  }

  // A download is never tried again, anything else twice.
  predicate Retried(e: Envelope, outcome: Outcome) {
    outcome == Failed(ServiceError) && e.attempts < 2
  }

  lemma FinishedLeaves(s: State, i: nat, outcome: Outcome)
    requires Is(s, i, Unacked(Running)) || Is(s, i, Unacked(Exclusive))
    ensures
      var s', e := Finished(s, i, outcome), s.msgs[i].env;
      && |s'.msgs| >= |s.msgs| && s'.msgs[i].env == e
      && s'.running == s.running && s'.lane == s.lane
      && s'.replies == (if Retried(e, outcome) then s.replies
                        else s.replies + multiset{Reply(KeyOf(e), e.replayed)})
      && s'.inbox == (if Retried(e, outcome) then s.inbox else With(s.inbox, KeyOf(e)))
      && s'.msgs[|s.msgs|..] ==
           (if !outcome.Failed? then []
            else if Retried(e, outcome) then [Message(e.(attempts := e.attempts + 1), InRetry)]
            else [Message(e, InDlq)])
  {
    if outcome.Failed? && !Retried(s.msgs[i].env, outcome) {
      var failed := Next(s, Fail(i, outcome.error));
      assert failed.replies == s.replies && failed.msgs[i].env == s.msgs[i].env;
    }
  }

  lemma ClaimReturned(s: State, i: nat, t: State)
    requires Is(s, i, Unacked(Received)) && !Refused(s, s.msgs[i].env) && s.lane != Some(i)
    requires Enabled(t, Release(i)) && t.msgs[i].env == s.msgs[i].env
    requires t.running == With(s.running, ClaimKey(s.msgs[i].env))
    requires t.lane == s.lane || (s.lane == None && t.lane == Some(i))
    ensures Next(t, Release(i)).running == s.running && Next(t, Release(i)).lane == s.lane
    ensures |Next(t, Release(i)).msgs| == |t.msgs|
    ensures forall j :: 0 <= j < |t.msgs| && j != i ==> Next(t, Release(i)).msgs[j] == t.msgs[j]
  {
    var key := ClaimKey(s.msgs[i].env);
    if key.Some? {
      assert s.running + {key.value} - {key.value} == s.running;
    }
  }

  // A release moves its delivery and publishes nothing.
  lemma ReleaseLeaves(t: State, i: nat, n: nat)
    requires Enabled(t, Release(i)) && i < n <= |t.msgs|
    ensures var t' := Next(t, Release(i));
      |t'.msgs| == |t.msgs| && t'.msgs[n..] == t.msgs[n..] && t'.replies == t.replies && t'.inbox == t.inbox
  {
  }

  // Claiming, asking and entering the lane leave everything else as it was.
  lemma EnteredLeaves(s: State, i: nat, exclusive: bool)
    requires Is(s, i, Unacked(Received)) && (exclusive ==> s.lane == None)
    requires !Refused(s, s.msgs[i].env) && !Answered(s, s.msgs[i].env)
    ensures
      var asked := Next(Next(s, Claim(i)), AskInbox(i));
      && Is(asked, i, Unacked(Running)) && asked.lane == s.lane
      && var t := if exclusive then InLane(asked, i) else asked;
         && |t.msgs| == |s.msgs| && t.msgs[i].env == s.msgs[i].env
         && t.replies == s.replies && t.inbox == s.inbox
         && t.running == With(s.running, ClaimKey(s.msgs[i].env))
         && t.lane == if exclusive then Some(i) else s.lane
  {
  }

  lemma IgnoredLeaves(s: State, i: nat, exclusive: bool, outcome: Outcome)
    requires Is(s, i, Unacked(Received)) && s.lane != Some(i) && (exclusive ==> s.lane == None)
    requires Refused(s, s.msgs[i].env) || Answered(s, s.msgs[i].env)
    ensures var s' := Handled(s, i, exclusive, outcome);
      && s'.running == s.running && s'.lane == s.lane && s'.replies == s.replies && s'.inbox == s.inbox
      && |s'.msgs| == |s.msgs|
  {
    if !Refused(s, s.msgs[i].env) {
      ClaimReturned(s, i, Next(Next(s, Claim(i)), AskInbox(i)));
    }
  }

  // The state the handler runs in.
  lemma EnteredState(s: State, i: nat, exclusive: bool, outcome: Outcome) returns (t: State)
    requires Is(s, i, Unacked(Received)) && (exclusive ==> s.lane == None)
    requires !Refused(s, s.msgs[i].env) && !Answered(s, s.msgs[i].env)
    ensures Is(t, i, Unacked(Running)) || Is(t, i, Unacked(Exclusive))
    ensures |t.msgs| == |s.msgs| && t.msgs[i].env == s.msgs[i].env && t.replies == s.replies && t.inbox == s.inbox
    ensures t.running == With(s.running, ClaimKey(s.msgs[i].env)) && t.lane == if exclusive then Some(i) else s.lane
    ensures Handled(s, i, exclusive, outcome) == Next(Finished(t, i, outcome), Release(i))
  {
    EnteredLeaves(s, i, exclusive);
    var asked := Next(Next(s, Claim(i)), AskInbox(i));
    t := if exclusive then InLane(asked, i) else asked;
  }

  lemma WorkedLeaves(s: State, i: nat, exclusive: bool, outcome: Outcome)
    requires Is(s, i, Unacked(Received)) && s.lane != Some(i) && (exclusive ==> s.lane == None)
    requires !Refused(s, s.msgs[i].env) && !Answered(s, s.msgs[i].env)
    ensures
      var s', e := Handled(s, i, exclusive, outcome), s.msgs[i].env;
      && s'.running == s.running && s'.lane == s.lane
      && s'.replies == (if Retried(e, outcome) then s.replies
                        else s.replies + multiset{Reply(KeyOf(e), e.replayed)})
      && s'.inbox == (if Retried(e, outcome) then s.inbox else With(s.inbox, KeyOf(e)))
      && |s'.msgs| >= |s.msgs|
      && s'.msgs[|s.msgs|..] ==
           (if !outcome.Failed? then []
            else if Retried(e, outcome) then [Message(e.(attempts := e.attempts + 1), InRetry)]
            else [Message(e, InDlq)])
  {
    var entered := EnteredState(s, i, exclusive, outcome);
    FinishedLeaves(entered, i, outcome);
    var done := Finished(entered, i, outcome);
    ClaimReturned(s, i, done);
    ReleaseLeaves(done, i, |s.msgs|);
  }

  // What it leaves behind: no claim of its own, and one reply, one retry copy, or nothing.
  lemma HandledLeaves(s: State, i: nat, exclusive: bool, outcome: Outcome)
    requires Is(s, i, Unacked(Received)) && s.lane != Some(i) && (exclusive ==> s.lane == None)
    ensures
      var s', e := Handled(s, i, exclusive, outcome), s.msgs[i].env;
      var ignored := Refused(s, e) || Answered(s, e);
      && s'.running == s.running && s'.lane == s.lane
      && s'.replies == (if ignored || Retried(e, outcome) then s.replies
                        else s.replies + multiset{Reply(KeyOf(e), e.replayed)})
      && s'.inbox == (if ignored || Retried(e, outcome) then s.inbox else With(s.inbox, KeyOf(e)))
      && |s'.msgs| >= |s.msgs|
      && s'.msgs[|s.msgs|..] ==
           (if ignored || !outcome.Failed? then []
            else if Retried(e, outcome) then [Message(e.(attempts := e.attempts + 1), InRetry)]
            else [Message(e, InDlq)])
  {
    if Refused(s, s.msgs[i].env) || Answered(s, s.msgs[i].env) {
      IgnoredLeaves(s, i, exclusive, outcome);
    } else {
      WorkedLeaves(s, i, exclusive, outcome);
    }
  }

  // A duplicate of an answered command gets no reply while its mark lasts, and another one after it expires.
  lemma ExpiryAnswersAgain(s: State, i: nat, k: Key, exclusive: bool)
    requires Is(s, i, Unacked(Received)) && s.lane != Some(i) && (exclusive ==> s.lane == None)
    requires ClaimKey(s.msgs[i].env) == Some(k) && k in s.inbox && k !in s.running
    ensures Handled(s, i, exclusive, Success).replies == s.replies
    ensures var forgot := Next(s, Forget(k));
      && Is(forgot, i, Unacked(Received))
      && Handled(forgot, i, exclusive, Success).replies == s.replies + multiset{Reply(Some(k), false)}
  {
    HandledLeaves(s, i, exclusive, Success);
    HandledLeaves(Next(s, Forget(k)), i, exclusive, Success);
  }

  // scripts/replay_dlq.py: the operator's replay, which drains the queue it finds.
  class DlqReplayer {
    var dlq: seq<Envelope>
    var commands: seq<Envelope>

    constructor (dlq: seq<Envelope>, commands: seq<Envelope>)
      ensures this.dlq == dlq && this.commands == commands
    {
      this.dlq, this.commands := dlq, commands;
    }

    method Replay() returns (replayed: nat)
      modifies this
      ensures dlq == [] && replayed == |old(dlq)|
      ensures |commands| == |old(commands)| + replayed && commands[..|old(commands)|] == old(commands)
      ensures forall n :: 0 <= n < replayed ==>
        commands[|old(commands)| + n] == old(dlq)[n].(attempts := 0, replayed := true)
    {
      replayed := 0;
      while dlq != []
        invariant replayed <= |old(dlq)| && dlq == old(dlq)[replayed..]
        invariant |commands| == |old(commands)| + replayed
        invariant commands[..|old(commands)|] == old(commands)
        invariant forall n :: 0 <= n < replayed ==>
          commands[|old(commands)| + n] == Replayed(old(dlq)[n])
        decreases |dlq|
      {
        commands := commands + [Replayed(dlq[0])];
        dlq := dlq[1..];
        replayed := replayed + 1;
      }
    }
  }
}
