/** Replies to the operator's replays. A replay asks neither the claim nor the inbox, so nothing keeps
    a key from being answered again: every copy sent back owes one reply, and a crash that returns a
    delivery which has already done its part makes it owe another. The count is exact. */
module DeliveryReplays {
  import opened Wrappers
  import opened Envelopes
  import opened Delivery
  import opened DeliverySafety
  import opened DeliveryLoss
  import DeliveryProgress

  predicate IsReplay(m: Message, key: Option<Key>) {
    m.env.replayed && KeyOf(m.env) == key
  }

  // A replay that still has its reply, or a retry that has it, ahead.
  function Owes(key: Option<Key>): (w: Message -> nat) {
    m => if IsReplay(m, key) && Productive(m.at) then 1 else 0
  }

  // A replay that has done its part and is not acked: a crash makes it run again.
  function Repeats(key: Option<Key>): (w: Message -> nat) {
    m => if IsReplay(m, key) && m.at.Unacked? && !Productive(m.at) then 1 else 0
  }

  // Replays of `key` during a run, and the deliveries of one that crashes made run again.

  ghost function Resends(s: State, steps: seq<Step>, key: Option<Key>): nat
    requires Valid(s, steps)
    decreases |steps|
  {
    if steps == [] then 0
    else
      (if steps[0].Resend? && KeyOf(s.msgs[steps[0].i].env) == key then 1 else 0)
      + Resends(Next(s, steps[0]), steps[1..], key)
  }

  ghost function CrashRepeats(s: State, steps: seq<Step>, key: Option<Key>): nat
    requires Valid(s, steps)
    decreases |steps|
  {
    if steps == [] then 0
    else
      (if steps[0].Crash? then Total(s.msgs, Repeats(key)) else 0)
      + CrashRepeats(Next(s, steps[0]), steps[1..], key)
  }

  // Replies out, and replies owed.
  ghost function Account(s: State, key: Option<Key>): nat {
    s.replies[Reply(key, true)] + Total(s.msgs, Owes(key))
  }

  lemma MovedOwes(s: State, i: nat, at: Place, key: Option<Key>)
    requires i < |s.msgs|
    ensures Total(Moved(s, i, at).msgs, Owes(key))
         == Total(s.msgs, Owes(key)) - Owes(key)(s.msgs[i]) + Owes(key)(s.msgs[i].(at := at))
  {
    TotalUpdate(s.msgs, Owes(key), i, s.msgs[i].(at := at));
  }

  lemma {:induction false} CrashOwes(ms: seq<Message>, after: seq<Message>, key: Option<Key>)
    requires |after| == |ms| && forall i :: 0 <= i < |ms| ==> after[i] == AfterCrash(ms[i])
    ensures Total(after, Owes(key)) == Total(ms, Owes(key)) + Total(ms, Repeats(key))
  {
    if ms != [] {
      CrashOwes(ms[..|ms| - 1], after[..|ms| - 1], key);
    }
  }

  // A failed replay passes what it owes on to its retry copy, or keeps it until its error reply.
  lemma FailPasses(m: Message, error: ExternalError, key: Option<Key>)
    requires m.at == Unacked(Running) || m.at == Unacked(Exclusive)
    ensures Owes(key)(m.(at := Unacked(FailStage(m.env, error)))) + Owes(key)(CopyOf(m.env, error)) == Owes(key)(m)
  {
  }

  lemma FailKeeps(s: State, i: nat, error: ExternalError, key: Option<Key>)
    requires Enabled(s, Fail(i, error))
    ensures Account(Next(s, Fail(i, error)), key) == Account(s, key)
  {
    var at := Unacked(FailStage(s.msgs[i].env, error));
    FailPasses(s.msgs[i], error, key);
    MovedOwes(s, i, at, key);
    TotalAppend(Moved(s, i, at).msgs, Owes(key), CopyOf(s.msgs[i].env, error));
  }

  lemma ResendOwes(m: Message, key: Option<Key>)
    requires m.at == Fetched
    ensures Owes(key)(m) == Owes(key)(m.(at := Resent)) == 0
    ensures Owes(key)(Message(Envelopes.Replayed(m.env), InCommands)) == if KeyOf(m.env) == key then 1 else 0
  {
  }

  lemma ResendAdds(s: State, i: nat, key: Option<Key>)
    requires Enabled(s, Resend(i))
    ensures Account(Next(s, Resend(i)), key) == Account(s, key) + if KeyOf(s.msgs[i].env) == key then 1 else 0
  {
    ResendOwes(s.msgs[i], key);
    MovedOwes(s, i, Resent, key);
    TotalAppend(Moved(s, i, Resent).msgs, Owes(key), Message(Envelopes.Replayed(s.msgs[i].env), InCommands));
  }

  lemma AnswerPays(s: State, i: nat, key: Option<Key>)
    requires Enabled(s, Answer(i))
    ensures Account(Next(s, Answer(i)), key) == Account(s, key)
  {
    MovedOwes(s, i, Unacked(Replied), key);
  }

  // The steps that move one message and publish nothing.
  predicate OnlyMoves(st: Step) {
    !st.Arrive? && !st.Fail? && !st.Answer? && !st.Resend? && !st.Crash? && !st.Abandon? && !st.Forget?
  }

  lemma MovesOnly(s: State, st: Step)
    requires Enabled(s, st) && OnlyMoves(st)
    ensures var s' := Next(s, st);
      st.i < |s.msgs| == |s'.msgs| && s'.msgs == Moved(s, st.i, s'.msgs[st.i].at).msgs && s'.replies == s.replies
  {
  }

  lemma ReplayStaysOwing(s: State, st: Step)
    requires Enabled(s, st) && OnlyMoves(st) && s.msgs[st.i].env.replayed
    ensures Productive(Next(s, st).msgs[st.i].at) <==> Productive(s.msgs[st.i].at)
  {
  }

  lemma AccountKept(s: State, st: Step, key: Option<Key>)
    requires Enabled(s, st)
    ensures Account(Next(s, st), key) == Account(s, key)
      + (if st.Resend? && KeyOf(s.msgs[st.i].env) == key then 1 else 0)
      + (if st.Crash? then Total(s.msgs, Repeats(key)) else 0)
  {
    var s' := Next(s, st);
    if st.Arrive? {
      TotalAppend(s.msgs, Owes(key), Message(st.env, InCommands));
    } else if st.Fail? {
      FailKeeps(s, st.i, st.error, key);
    } else if st.Answer? {
      AnswerPays(s, st.i, key);
    } else if st.Resend? {
      ResendAdds(s, st.i, key);
    } else if st.Crash? {
      CrashOwes(s.msgs, s'.msgs, key);
    } else if st.Abandon? {
      TotalSame(s.msgs, s'.msgs, Owes(key));
    } else if !st.Forget? {
      MovesOnly(s, st);
      if s.msgs[st.i].env.replayed {
        ReplayStaysOwing(s, st);
      }
      MovedOwes(s, st.i, s'.msgs[st.i].at, key);
    }
  }

  lemma {:induction false} AccountAlways(s: State, steps: seq<Step>, key: Option<Key>)
    requires Valid(s, steps)
    ensures Account(After(s, steps), key) == Account(s, key) + Resends(s, steps, key) + CrashRepeats(s, steps, key)
    decreases |steps|
  {
    if steps != [] {
      AccountKept(s, steps[0], key);
      AccountAlways(Next(s, steps[0]), steps[1..], key);
    }
  }

  // In every run the replies to replays of a key, and those still owed, are exactly its replays and
  // the deliveries of them that crashes made run again.
  lemma ReplayRepliesExactly(steps: seq<Step>, key: Option<Key>)
    requires Valid(Init, steps)
    ensures After(Init, steps).replies[Reply(key, true)] + Total(After(Init, steps).msgs, Owes(key))
         == Resends(Init, steps, key) + CrashRepeats(Init, steps, key)
  {
    AccountAlways(Init, steps, key);
  }

  // A replay nothing interrupts moves one dead letter to the commands, as a first attempt of the operator.
  lemma ReplayMovesOne(s: State, i: nat)
    requires Is(s, i, InDlq)
    ensures var e := s.msgs[i].env;
            var steps := [Fetch(i), Resend(i), Drop(i)];
      && Valid(s, steps)
      && After(s, steps) == s.(
           msgs := s.msgs[i := Message(e, Gone)] + [Message(Envelope(e.jid, e.messageId, 0, true), InCommands)])
  {
    var steps := [Fetch(i), Resend(i), Drop(i)];
    var fetched := Next(s, Fetch(i));
    var sent := Next(fetched, Resend(i));
    var dropped := Next(sent, Drop(i));
    assert steps[1..] == [Resend(i), Drop(i)] && steps[1..][1..] == [Drop(i)] && steps[1..][1..][1..] == [];
    assert Valid(dropped, []) && After(dropped, []) == dropped;
    assert Valid(sent, [Drop(i)]) && After(sent, [Drop(i)]) == dropped;
    assert Valid(fetched, steps[1..]) && After(fetched, steps[1..]) == dropped;
  }

  // Dead letters stay for the operator, whatever crashes and abandoned replays there are.

  ghost predicate Waits(s: State, i: nat) {
    Is(s, i, InDlq) || Is(s, i, Fetched)
  }

  ghost predicate SentBack(s: State, e: Envelope) {
    exists i :: 0 <= i < |s.msgs| && s.msgs[i].env == Envelope(e.jid, e.messageId, 0, true)
  }

  lemma WaitsOn(s: State, st: Step, i: nat)
    requires Enabled(s, st) && Waits(s, i) && st != Resend(i)
    ensures Waits(Next(s, st), i)
  {
  }

  // A dead letter is in the queue until a replay has put a copy of it back among the commands.
  lemma {:induction false} DeadLetterStays(s: State, steps: seq<Step>, i: nat)
    requires Valid(s, steps) && Waits(s, i)
    ensures Waits(After(s, steps), i) || SentBack(After(s, steps), s.msgs[i].env)
    decreases |steps|
  {
    if steps != [] {
      var t, e := Next(s, steps[0]), s.msgs[i].env;
      EnvelopeStays(s, steps[0], i);
      if steps[0] == Resend(i) {
        assert t.msgs[|s.msgs|].env == Envelope(e.jid, e.messageId, 0, true);
        DeliveryProgress.EnvelopeKept(t, steps[1..], |s.msgs|);
      } else {
        WaitsOn(s, steps[0], i);
        DeadLetterStays(t, steps[1..], i);
      }
    }
  }
}
