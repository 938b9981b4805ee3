/** When a keyed command can be lost. The claim refuses a duplicate while another delivery of the
    key is open, and the refusal acks it. That is safe while the holder still owes a reply, has
    replied, or has a retry copy waiting; it is not safe once the holder's own retry copy is the one
    being refused. So no key is lost as long as a retry copy stays parked until the delivery that
    parked it has released its claim, and one step alone can ever lose a key. */
module DeliveryLoss {
  import opened Wrappers
  import opened Envelopes
  import opened Delivery
  import opened DeliverySafety

  // A reply for the message's key can still come out of this place on its own.
  predicate Productive(at: Place) {
    match at
    case InCommands => true
    case InRetry => true
    case Unacked(stage) => stage == Received || stage == Claimed || BeforeReply(stage)
    case _ => false
  }

  ghost predicate Works(s: State, i: nat, k: Key) {
    i < |s.msgs| && KeyOf(s.msgs[i].env) == Some(k) && Productive(s.msgs[i].at)
  }

  ghost predicate Accepted(s: State, k: Key) {
    exists i :: 0 <= i < |s.msgs| && KeyOf(s.msgs[i].env) == Some(k)
  }

  ghost predicate Safe(s: State, k: Key) {
    Served(s, k) || exists i: nat :: Works(s, i, k)
  }

  // An original that parked its retry and has not released its claim.
  ghost predicate Parking(s: State, i: nat, k: Key) {
    Is(s, i, Unacked(Parked)) && ClaimKey(s.msgs[i].env) == Some(k)
  }

  // The retry TTL outlives the publish that parked the copy: what a deployment has to grant.
  ghost predicate Prompt(s: State, st: Step) {
    forall i: nat, k ::
      st.Requeue? && st.i < |s.msgs| && Parking(s, i, k) ==> ClaimKey(s.msgs[st.i].env) != Some(k)
  }

  ghost predicate PromptRun(s: State, steps: seq<Step>)
    requires Valid(s, steps)
    decreases |steps|
  {
    steps == [] || (Prompt(s, steps[0]) && PromptRun(Next(s, steps[0]), steps[1..]))
  }

  ghost predicate Backed(s: State) {
    forall i: nat, k :: Parking(s, i, k) ==>
      exists j :: 0 <= j < |s.msgs| && s.msgs[j].at == InRetry && ClaimKey(s.msgs[j].env) == Some(k)
  }

  // The one step that can lose `k`: the claim refuses the last productive copy because its holder
  // has already parked.
  ghost predicate DropsLast(s: State, st: Step, k: Key) {
    && st.Claim?
    && st.i < |s.msgs|
    && ClaimKey(s.msgs[st.i].env) == Some(k)
    && (exists h: nat :: Parking(s, h, k))
    && !Served(s, k)
    && (forall j: nat :: Works(s, j, k) ==> j == st.i)
  }

  // A productive message stays so until its own handler fails, answers, or is turned away.

  lemma WorksOnward(s: State, st: Step, i: nat, k: Key)
    requires Enabled(s, st) && Works(s, i, k)
    requires st.Claim? || st.AskInbox? || st.JoinLane? || st.EnterLane?
    requires st == Claim(i) ==> !Refused(s, s.msgs[i].env)
    requires st == AskInbox(i) ==> !Answered(s, s.msgs[i].env)
    ensures Works(Next(s, st), i, k)
  {}

  lemma WorksBesideNew(s: State, st: Step, i: nat, k: Key)
    requires Enabled(s, st) && Works(s, i, k)
    requires st.Arrive? || st.Resend? || (st.Fail? && st.i != i)
    ensures Works(Next(s, st), i, k)
  {}

  lemma WorksPastRelease(s: State, n: nat, i: nat, k: Key)
    requires Enabled(s, Release(n)) && Works(s, i, k)
    ensures Works(Next(s, Release(n)), i, k)
  {
    assert n != i;
  }

  lemma WorksThrough(s: State, st: Step, i: nat, k: Key)
    requires Enabled(s, st) && Works(s, i, k)
    requires !(st.Claim? || st.AskInbox? || st.JoinLane? || st.EnterLane?)
    requires !(st.Arrive? || st.Resend? || st.Fail? || st.Release?) && st != Answer(i)
    ensures Works(Next(s, st), i, k)
  {}

  lemma StaysWorking(s: State, st: Step, i: nat, k: Key)
    requires Enabled(s, st) && Works(s, i, k)
    requires st == Claim(i) ==> !Refused(s, s.msgs[i].env)
    requires st == AskInbox(i) ==> !Answered(s, s.msgs[i].env)
    requires st != Answer(i) && !(st.Fail? && st.i == i)
    ensures Works(Next(s, st), i, k)
  {
    if st.Claim? || st.AskInbox? || st.JoinLane? || st.EnterLane? {
      WorksOnward(s, st, i, k);
    } else if st.Arrive? || st.Resend? || st.Fail? {
      WorksBesideNew(s, st, i, k);
    } else if st.Release? {
      WorksPastRelease(s, st.i, i, k);
    } else {
      WorksThrough(s, st, i, k);
    }
  }

  lemma WorkSurvives(s: State, st: Step, i: nat, k: Key)
    requires InboxOk(s) && Enabled(s, st) && Works(s, i, k)
    requires st == Claim(i) ==> !Refused(s, s.msgs[i].env)
    ensures Safe(Next(s, st), k)
  {
    var s' := Next(s, st);
    if st.Fail? && st.i == i {
      assert Works(s', i, k) || Works(s', |s.msgs|, k);
    } else if st == Answer(i) {
      RepliesKept(s, st, Reply(Some(k), s.msgs[i].env.replayed));
      assert Served(s', k);
    } else if st == AskInbox(i) && Answered(s, s.msgs[i].env) {
      assert k in s.inbox;
      ServedKept(s, st, k);
    } else {
      StaysWorking(s, st, i, k);
    }
  }

  lemma HolderBacks(s: State, h: nat, k: Key)
    requires InboxOk(s) && Holds(s, h, k)
    ensures Served(s, k) || Parking(s, h, k) || Works(s, h, k)
  {
    var stage := s.msgs[h].at.stage;
    assert s.msgs[h].at == Unacked(stage);
    if stage == Parked {
      assert Parking(s, h, k);
    } else if stage == Known || stage == Replied || stage == Marked {
      assert AfterReply(s, h, k);
    } else {
      assert Works(s, h, k);
    }
  }

  // The last copy refused leaves nothing behind.
  lemma DropLoses(s: State, i: nat, k: Key)
    requires ClaimsOk(s) && Enabled(s, Claim(i)) && DropsLast(s, Claim(i), k)
    ensures !Safe(Next(s, Claim(i)), k)
  {
    var s' := Next(s, Claim(i));
    var h: nat :| Parking(s, h, k);
    assert Holds(s, h, k);
    forall j: nat ensures !Works(s', j, k) {
      assert j < |s.msgs| && j != i ==> s'.msgs[j] == s.msgs[j];
      assert Works(s', j, k) && j != i ==> Works(s, j, k);
    }
  }

  // Exactly one situation loses a key, in every state any run reaches.
  lemma LossExactly(s: State, st: Step, k: Key)
    requires ClaimsOk(s) && InboxOk(s) && Enabled(s, st) && Safe(s, k)
    ensures !Safe(Next(s, st), k) <==> DropsLast(s, st, k)
  {
    if DropsLast(s, st, k) {
      DropLoses(s, st.i, k);
    } else if Served(s, k) {
      ServedKept(s, st, k);
    } else {
      var i: nat :| Works(s, i, k);
      if st == Claim(i) && Refused(s, s.msgs[i].env) {
        var h: nat :| Holds(s, h, k);
        HolderBacks(s, h, k);
        var j: nat :| Works(s, j, k) && j != i;
        WorkSurvives(s, st, j, k);
      } else {
        WorkSurvives(s, st, i, k);
      }
    }
  }

  lemma RetryStays(s: State, st: Step, j: nat)
    requires Enabled(s, st) && j < |s.msgs| && s.msgs[j].at == InRetry && st != Requeue(j)
    ensures j < |Next(s, st).msgs| && Next(s, st).msgs[j] == s.msgs[j]
  {}

  lemma ParkingCameFrom(s: State, st: Step, i: nat, k: Key)
    requires Enabled(s, st) && Parking(Next(s, st), i, k)
    ensures Parking(s, i, k)
      || (st.Fail? && |Next(s, st).msgs| == |s.msgs| + 1
          && Next(s, st).msgs[|s.msgs|].at == InRetry && ClaimKey(Next(s, st).msgs[|s.msgs|].env) == Some(k))
  {}

  lemma BackedKept(s: State, st: Step)
    requires Backed(s) && Enabled(s, st) && Prompt(s, st)
    ensures Backed(Next(s, st))
  {
    var s' := Next(s, st);
    forall i: nat, k | Parking(s', i, k)
      ensures exists j :: 0 <= j < |s'.msgs| && s'.msgs[j].at == InRetry && ClaimKey(s'.msgs[j].env) == Some(k)
    {
      ParkingCameFrom(s, st, i, k);
      if Parking(s, i, k) {
        var j :| 0 <= j < |s.msgs| && s.msgs[j].at == InRetry && ClaimKey(s.msgs[j].env) == Some(k);
        RetryStays(s, st, j);
      }
    }
  }

  lemma BackedNeverDrops(s: State, st: Step, k: Key)
    requires Backed(s) && Enabled(s, st)
    ensures !DropsLast(s, st, k)
  {
    if DropsLast(s, st, k) {
      var h: nat :| Parking(s, h, k);
      var j :| 0 <= j < |s.msgs| && s.msgs[j].at == InRetry && ClaimKey(s.msgs[j].env) == Some(k);
      assert Works(s, j, k);
      assert false;
    }
  }

  // Only an arrival brings in a key the broker has not seen.
  lemma KeyOrigin(s: State, st: Step, i: nat)
    requires Enabled(s, st) && i < |Next(s, st).msgs|
    ensures (st.Arrive? && i == |s.msgs|)
      || exists j :: 0 <= j < |s.msgs| && KeyOf(s.msgs[j].env) == KeyOf(Next(s, st).msgs[i].env)
  {
    var s' := Next(s, st);
    if i < |s.msgs| {
      assert KeyOf(s.msgs[i].env) == KeyOf(s'.msgs[i].env);
    } else if !st.Arrive? {
      assert KeyOf(s.msgs[st.i].env) == KeyOf(s'.msgs[i].env);
    }
  }

  lemma NewKeyWorks(s: State, st: Step, k: Key)
    requires Enabled(s, st) && !Accepted(s, k) && Accepted(Next(s, st), k)
    ensures Safe(Next(s, st), k)
  {
    var s' := Next(s, st);
    var i :| 0 <= i < |s'.msgs| && KeyOf(s'.msgs[i].env) == Some(k);
    KeyOrigin(s, st, i);
    assert Works(s', i, k);
  }

  // Every accepted key has a reply or a message that can still produce one.
  ghost predicate Kept(s: State, k: Key) {
    Accepted(s, k) ==> Safe(s, k)
  }

  lemma AcceptedStays(s: State, st: Step, k: Key)
    requires Enabled(s, st) && Accepted(s, k)
    ensures Accepted(Next(s, st), k)
  {
    var i :| 0 <= i < |s.msgs| && KeyOf(s.msgs[i].env) == Some(k);
    EnvelopeStays(s, st, i);
  }

  lemma EnvelopeStays(s: State, st: Step, i: nat)
    requires Enabled(s, st) && i < |s.msgs|
    ensures i < |Next(s, st).msgs| && Next(s, st).msgs[i].env == s.msgs[i].env
  {}

  lemma KeptExactly(s: State, st: Step, k: Key)
    requires ClaimsOk(s) && InboxOk(s) && Enabled(s, st) && Kept(s, k)
    ensures !Kept(Next(s, st), k) <==> DropsLast(s, st, k)
  {
    if Accepted(s, k) {
      AcceptedStays(s, st, k);
      LossExactly(s, st, k);
    } else if Accepted(Next(s, st), k) {
      NewKeyWorks(s, st, k);
    }
  }

  ghost predicate KeptThroughout(s: State, steps: seq<Step>, k: Key)
    requires Valid(s, steps)
    decreases |steps|
  {
    Kept(s, k) && (steps == [] || KeptThroughout(Next(s, steps[0]), steps[1..], k))
  }

  ghost predicate NeverDrops(s: State, steps: seq<Step>, k: Key)
    requires Valid(s, steps)
    decreases |steps|
  {
    steps == [] || (!DropsLast(s, steps[0], k) && NeverDrops(Next(s, steps[0]), steps[1..], k))
  }

  lemma {:induction false} KeptFrom(s: State, steps: seq<Step>, k: Key)
    requires Inv(s) && Kept(s, k) && Valid(s, steps)
    ensures KeptThroughout(s, steps, k) <==> NeverDrops(s, steps, k)
    decreases |steps|
  {
    if steps != [] {
      InvKept(s, steps[0]);
      KeptExactly(s, steps[0], k);
      if Kept(Next(s, steps[0]), k) {
        KeptFrom(Next(s, steps[0]), steps[1..], k);
      }
    }
  }

  // A run keeps a key throughout if and only if none of its steps is the one that loses it.
  lemma LostExactly(steps: seq<Step>, k: Key)
    requires Valid(Init, steps)
    ensures KeptThroughout(Init, steps, k) <==> NeverDrops(Init, steps, k)
  {
    KeptFrom(Init, steps, k);
  }

  lemma {:induction false} PromptNeverDrops(s: State, steps: seq<Step>, k: Key)
    requires Backed(s) && Valid(s, steps) && PromptRun(s, steps)
    ensures NeverDrops(s, steps, k)
    decreases |steps|
  {
    if steps != [] {
      BackedNeverDrops(s, steps[0], k);
      BackedKept(s, steps[0]);
      PromptNeverDrops(Next(s, steps[0]), steps[1..], k);
    }
  }

  lemma {:induction false} KeptAtTheEnd(s: State, steps: seq<Step>, k: Key)
    requires Valid(s, steps) && KeptThroughout(s, steps, k)
    ensures Kept(After(s, steps), k)
    decreases |steps|
  {
    if steps != [] {
      KeptAtTheEnd(Next(s, steps[0]), steps[1..], k);
    }
  }

  // No keyed command is lost by crashes, duplicates, redeliveries, expired marks or replays.
  lemma NeverLost(steps: seq<Step>, k: Key)
    requires Valid(Init, steps) && PromptRun(Init, steps)
    ensures Accepted(After(Init, steps), k) ==> Safe(After(Init, steps), k)
  {
    PromptNeverDrops(Init, steps, k);
    LostExactly(steps, k);
    KeptAtTheEnd(Init, steps, k);
  }
}
