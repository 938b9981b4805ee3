/** What every run of the delivery protocol keeps, and the bound on final replies. */
module DeliverySafety {
  import opened Wrappers
  import opened Envelopes
  import opened Delivery

  ghost predicate Holds(s: State, i: nat, k: Key) {
    && i < |s.msgs|
    && s.msgs[i].at.Unacked?
    && HoldsClaim(s.msgs[i].at.stage)
    && ClaimKey(s.msgs[i].env) == Some(k)
  }

  ghost predicate ClaimsOk(s: State) {
    && (forall i: nat, k :: Holds(s, i, k) ==> k in s.running)
    && (forall i: nat, j: nat, k :: Holds(s, i, k) && Holds(s, j, k) ==> i == j)
    && (forall k :: k in s.running ==> exists i: nat :: Holds(s, i, k))
  }

  ghost predicate LadderOk(s: State) {
    forall i :: 0 <= i < |s.msgs| ==> s.msgs[i].env.attempts < MAX_ATTEMPTS
  }

  predicate MayHoldLane(at: Place) {
    match at
    case Unacked(stage) =>
      || stage == Exclusive || stage == Parked || stage == DeadLettered || stage == Replied || stage == Marked
    case _ => false
  }

  // The lane belongs to one delivery, from the moment it runs inside to the release.
  ghost predicate LaneOk(s: State) {
    && (s.lane.Some? ==>
          s.lane.value < |s.msgs| && MayHoldLane(s.msgs[s.lane.value].at))
    && (forall i :: 0 <= i < |s.msgs| && s.msgs[i].at == Unacked(Exclusive) ==> s.lane == Some(i))
  }

  ghost predicate Served(s: State, k: Key) {
    Reply(Some(k), false) in s.replies || Reply(Some(k), true) in s.replies
  }

  ghost predicate AfterReply(s: State, i: nat, k: Key) {
    && i < |s.msgs|
    && KeyOf(s.msgs[i].env) == Some(k)
    && s.msgs[i].at.Unacked?
    && (s.msgs[i].at.stage == Known || s.msgs[i].at.stage == Replied || s.msgs[i].at.stage == Marked)
  }

  ghost predicate InboxOk(s: State) {
    && (forall k :: k in s.inbox ==> Served(s, k))
    && (forall i: nat, k :: AfterReply(s, i, k) ==> Served(s, k))
  }

  // Final replies to originals of `k`, less the ones a crash or an expired mark excuses.
  ghost function Unexcused(s: State, k: Key): int {
    s.replies[Reply(Some(k), false)] as int - s.hits[k] as int - s.forgotten[k] as int
  }

  ghost predicate BoundOk(s: State) {
    && (forall k :: Unexcused(s, k) <= 1)
    && (forall k :: Unexcused(s, k) == 1 ==>
          k in s.inbox || exists i :: 0 <= i < |s.msgs| && Hit(s.msgs[i], k))
    && (forall i: nat, k :: Holds(s, i, k) && BeforeReply(s.msgs[i].at.stage) ==> Unexcused(s, k) <= 0)
  }

  ghost predicate PrefetchOk(s: State) {
    Total(s.msgs, Holders) <= PREFETCH_COUNT
  }

  ghost predicate Inv(s: State) {
    ClaimsOk(s) && LadderOk(s) && LaneOk(s) && InboxOk(s) && BoundOk(s) && PrefetchOk(s)
  }

  lemma {:induction false} TotalUpdate(ms: seq<Message>, w: Message -> nat, i: nat, m: Message)
    requires i < |ms|
    ensures Total(ms[i := m], w) == Total(ms, w) - w(ms[i]) + w(m)
    decreases |ms|
  {
    var last := |ms| - 1;
    if i == last {
      assert ms[i := m][..last] == ms[..last];
    } else {
      assert ms[i := m][..last] == ms[..last][i := m];
      TotalUpdate(ms[..last], w, i, m);
    }
  }

  lemma {:induction false} TotalAppend(ms: seq<Message>, w: Message -> nat, m: Message)
    ensures Total(ms + [m], w) == Total(ms, w) + w(m)
  {
    assert (ms + [m])[..|ms|] == ms;
  }

  lemma {:induction false} TotalZero(ms: seq<Message>, w: Message -> nat)
    requires forall i :: 0 <= i < |ms| ==> w(ms[i]) == 0
    ensures Total(ms, w) == 0
  {
    if ms != [] {
      TotalZero(ms[..|ms| - 1], w);
    }
  }

  lemma {:induction false} TotalSame(ms: seq<Message>, ms': seq<Message>, w: Message -> nat)
    requires |ms| == |ms'| && forall i :: 0 <= i < |ms| ==> w(ms[i]) == w(ms'[i])
    ensures Total(ms, w) == Total(ms', w)
  {
    if ms != [] {
      TotalSame(ms[..|ms| - 1], ms'[..|ms| - 1], w);
    }
  }

  // Only three steps take or drop a claim.

  lemma HoldsBesideNew(s: State, st: Step, i: nat, k: Key)
    requires Enabled(s, st) && (st.Arrive? || st.Resend? || st.Fail?)
    ensures Holds(Next(s, st), i, k) <==> Holds(s, i, k)
  {}

  lemma HoldsThrough(s: State, st: Step, i: nat, k: Key)
    requires Enabled(s, st) && !st.Claim? && !st.Release? && !st.Crash?
    requires !(st.Arrive? || st.Resend? || st.Fail?)
    ensures Holds(Next(s, st), i, k) <==> Holds(s, i, k)
  {}

  lemma HoldsSame(s: State, st: Step, i: nat, k: Key)
    requires Enabled(s, st) && !st.Claim? && !st.Release? && !st.Crash?
    ensures Holds(Next(s, st), i, k) <==> Holds(s, i, k)
  {
    if st.Arrive? || st.Resend? || st.Fail? {
      HoldsBesideNew(s, st, i, k);
    } else {
      HoldsThrough(s, st, i, k);
    }
  }

  lemma HoldsAfterClaim(s: State, i: nat, j: nat, k: Key)
    requires Enabled(s, Claim(i))
    ensures Holds(Next(s, Claim(i)), j, k) <==>
      Holds(s, j, k) || (j == i && ClaimKey(s.msgs[i].env) == Some(k) && k !in s.running)
  {}

  lemma HoldsAfterRelease(s: State, i: nat, j: nat, k: Key)
    requires Enabled(s, Release(i))
    ensures Holds(Next(s, Release(i)), j, k) <==> Holds(s, j, k) && j != i
  {}

  lemma ClaimsKeptByClaim(s: State, i: nat)
    requires ClaimsOk(s) && Enabled(s, Claim(i))
    ensures ClaimsOk(Next(s, Claim(i)))
  {
    var s' := Next(s, Claim(i));
    forall j: nat, k
      ensures Holds(s', j, k) <==>
        Holds(s, j, k) || (j == i && ClaimKey(s.msgs[i].env) == Some(k) && k !in s.running)
    {
      HoldsAfterClaim(s, i, j, k);
    }
    forall k | k in s'.running ensures exists j: nat :: Holds(s', j, k) {
      if k in s.running {
        var j: nat :| Holds(s, j, k);
        assert Holds(s', j, k);
      } else {
        assert Holds(s', i, k);
      }
    }
  }

  lemma ClaimsKeptByRelease(s: State, i: nat)
    requires ClaimsOk(s) && Enabled(s, Release(i))
    ensures ClaimsOk(Next(s, Release(i)))
  {
    var s' := Next(s, Release(i));
    forall j: nat, k ensures Holds(s', j, k) <==> Holds(s, j, k) && j != i {
      HoldsAfterRelease(s, i, j, k);
    }
    if ClaimKey(s.msgs[i].env).Some? {
      assert Holds(s, i, ClaimKey(s.msgs[i].env).value);
    }
    forall k | k in s'.running ensures exists j: nat :: Holds(s', j, k) {
      var j: nat :| Holds(s, j, k);
      assert Holds(s', j, k);
    }
  }

  lemma ClaimsKept(s: State, st: Step)
    requires ClaimsOk(s) && Enabled(s, st)
    ensures ClaimsOk(Next(s, st))
  {
    var s' := Next(s, st);
    if st.Claim? {
      ClaimsKeptByClaim(s, st.i);
    } else if st.Release? {
      ClaimsKeptByRelease(s, st.i);
    } else if st.Crash? {
      assert forall i: nat, k :: !Holds(s', i, k);
    } else {
      forall i: nat, k ensures Holds(s', i, k) <==> Holds(s, i, k) {
        HoldsSame(s, st, i, k);
      }
    }
  }

  // What is added starts the ladder, goes on along it, or carries over what it had.
  lemma AddedOnLadder(s: State, st: Step)
    requires LadderOk(s) && Enabled(s, st) && (st.Arrive? || st.Resend? || st.Fail?)
    ensures LadderOk(Next(s, st))
  {}

  lemma MovedOnLadder(s: State, st: Step)
    requires LadderOk(s) && Enabled(s, st) && !(st.Arrive? || st.Resend? || st.Fail?)
    ensures LadderOk(Next(s, st))
  {}

  lemma LadderKept(s: State, st: Step)
    requires LadderOk(s) && Enabled(s, st)
    ensures LadderOk(Next(s, st))
  {
    if st.Arrive? || st.Resend? || st.Fail? {
      AddedOnLadder(s, st);
    } else {
      MovedOnLadder(s, st);
    }
  }

  lemma OwnerStays(s: State, st: Step)
    requires LaneOk(s) && Enabled(s, st) && Next(s, st).lane.Some?
    ensures var owner := Next(s, st).lane.value;
      owner < |s.msgs| <= |Next(s, st).msgs| && MayHoldLane(Next(s, st).msgs[owner].at)
  {}

  lemma InsideEnters(s: State, i: nat, j: nat)
    requires LaneOk(s) && Enabled(s, EnterLane(j)) && Is(Next(s, EnterLane(j)), i, Unacked(Exclusive))
    ensures Next(s, EnterLane(j)).lane == Some(i)
  {}

  lemma InsideStays(s: State, st: Step, i: nat)
    requires LaneOk(s) && Enabled(s, st) && !st.EnterLane? && Is(Next(s, st), i, Unacked(Exclusive))
    ensures Is(s, i, Unacked(Exclusive)) && Next(s, st).lane == s.lane
  {}

  lemma InsideOwns(s: State, st: Step, i: nat)
    requires LaneOk(s) && Enabled(s, st) && Is(Next(s, st), i, Unacked(Exclusive))
    ensures Next(s, st).lane == Some(i)
  {
    if st.EnterLane? {
      InsideEnters(s, i, st.i);
    } else {
      InsideStays(s, st, i);
    }
  }

  lemma LaneKept(s: State, st: Step)
    requires LaneOk(s) && Enabled(s, st)
    ensures LaneOk(Next(s, st))
  {
    if Next(s, st).lane.Some? {
      OwnerStays(s, st);
    }
    forall i: nat | Is(Next(s, st), i, Unacked(Exclusive)) ensures Next(s, st).lane == Some(i) {
      InsideOwns(s, st, i);
    }
  }

  lemma RepliesKept(s: State, st: Step, r: Reply)
    requires Enabled(s, st)
    ensures Next(s, st).replies[r] == s.replies[r] +
      if st.Answer? && r == Reply(KeyOf(s.msgs[st.i].env), s.msgs[st.i].env.replayed) then 1 else 0
  {}

  lemma ServedKept(s: State, st: Step, k: Key)
    requires Enabled(s, st) && Served(s, k)
    ensures Served(Next(s, st), k)
  {
    RepliesKept(s, st, Reply(Some(k), false));
    RepliesKept(s, st, Reply(Some(k), true));
  }

  lemma ReplyStaged(s: State, st: Step, i: nat, k: Key)
    requires Enabled(s, st) && AfterReply(Next(s, st), i, k) && (st.Answer? || st.AskInbox? || st.Mark?)
    ensures AfterReply(s, i, k) || st == Answer(i) || (st == AskInbox(i) && k in s.inbox)
    ensures st == Answer(i) ==> i < |s.msgs| && KeyOf(s.msgs[i].env) == Some(k)
  {}

  lemma ReplyStayed(s: State, st: Step, i: nat, k: Key)
    requires Enabled(s, st) && AfterReply(Next(s, st), i, k) && !(st.Answer? || st.AskInbox? || st.Mark?)
    ensures AfterReply(s, i, k)
  {}

  lemma AfterReplyServed(s: State, st: Step, i: nat, k: Key)
    requires InboxOk(s) && Enabled(s, st) && AfterReply(Next(s, st), i, k)
    ensures Served(Next(s, st), k)
  {
    if st.Answer? || st.AskInbox? || st.Mark? {
      ReplyStaged(s, st, i, k);
    } else {
      ReplyStayed(s, st, i, k);
    }
    if st == Answer(i) {
      RepliesKept(s, st, Reply(Some(k), s.msgs[i].env.replayed));
    } else {
      ServedKept(s, st, k);
    }
  }

  lemma InboxKept(s: State, st: Step)
    requires InboxOk(s) && Enabled(s, st)
    ensures InboxOk(Next(s, st))
  {
    var s' := Next(s, st);
    forall i: nat, k | AfterReply(s', i, k) ensures Served(s', k) {
      AfterReplyServed(s, st, i, k);
    }
    forall k | k in s'.inbox ensures Served(s', k) {
      if k in s.inbox {
        ServedKept(s, st, k);
      } else {
        assert AfterReply(s, st.i, k) && AfterReply(s', st.i, k);
      }
    }
  }

  lemma HitKeysExact(ms: seq<Message>, k: Key)
    ensures k in HitKeys(ms) <==> exists i :: 0 <= i < |ms| && Hit(ms[i], k)
  {
    if k in HitKeys(ms) {
      var i :| 0 <= i < |ms| && ms[i].at == Unacked(Replied) && ClaimKey(ms[i].env).Some?
        && ClaimKey(ms[i].env).value == k;
      assert Hit(ms[i], k);
    }
  }

  lemma BoundKeptByCrash(s: State)
    requires BoundOk(s)
    ensures BoundOk(Next(s, Crash))
  {
    var s' := Next(s, Crash);
    forall k
      ensures Unexcused(s', k) == Unexcused(s, k) - if k in HitKeys(s.msgs) then 1 else 0
      ensures k in HitKeys(s.msgs) <==> exists i :: 0 <= i < |s.msgs| && Hit(s.msgs[i], k)
    {
      HitKeysExact(s.msgs, k);
      assert s'.hits[k] == s.hits[k] + multiset(HitKeys(s.msgs))[k];
    }
    assert forall i: nat, k :: !Holds(s', i, k);
  }

  lemma AnswerCounts(s: State, i: nat, k: Key)
    requires Enabled(s, Answer(i))
    ensures Unexcused(Next(s, Answer(i)), k) == Unexcused(s, k) + if ClaimKey(s.msgs[i].env) == Some(k) then 1 else 0
  {}

  lemma AnswerHit(s: State, i: nat, k: Key)
    requires BoundOk(s) && ClaimsOk(s) && Enabled(s, Answer(i)) && Unexcused(Next(s, Answer(i)), k) == 1
    ensures var s' := Next(s, Answer(i));
      k in s'.inbox || exists j :: 0 <= j < |s'.msgs| && Hit(s'.msgs[j], k)
  {
    AnswerCounts(s, i, k);
    var s' := Next(s, Answer(i));
    if ClaimKey(s.msgs[i].env) == Some(k) {
      assert Hit(s'.msgs[i], k);
    } else if k !in s.inbox {
      var j :| 0 <= j < |s.msgs| && Hit(s.msgs[j], k);
      assert Hit(s'.msgs[j], k);
    }
  }

  lemma AnswerLeavesOthers(s: State, i: nat, j: nat, k: Key)
    requires Enabled(s, Answer(i)) && Holds(Next(s, Answer(i)), j, k)
    requires BeforeReply(Next(s, Answer(i)).msgs[j].at.stage)
    ensures j != i && Holds(s, j, k) && BeforeReply(s.msgs[j].at.stage)
  {}

  lemma BoundKeptByAnswer(s: State, i: nat)
    requires BoundOk(s) && ClaimsOk(s) && Enabled(s, Answer(i))
    ensures BoundOk(Next(s, Answer(i)))
  {
    var s', own := Next(s, Answer(i)), ClaimKey(s.msgs[i].env);
    if own.Some? {
      assert Holds(s, i, own.value);
    }
    forall k ensures Unexcused(s', k) <= 1 {
      AnswerCounts(s, i, k);
    }
    forall k | Unexcused(s', k) == 1
      ensures k in s'.inbox || exists j :: 0 <= j < |s'.msgs| && Hit(s'.msgs[j], k)
    {
      AnswerHit(s, i, k);
    }
    forall j: nat, k | Holds(s', j, k) && BeforeReply(s'.msgs[j].at.stage) ensures Unexcused(s', k) <= 0 {
      AnswerLeavesOthers(s, i, j, k);
      AnswerCounts(s, i, k);
    }
  }

  lemma BoundKeptByInbox(s: State, i: nat)
    requires BoundOk(s) && ClaimsOk(s) && Enabled(s, AskInbox(i))
    ensures BoundOk(Next(s, AskInbox(i)))
  {
    var s', e := Next(s, AskInbox(i)), s.msgs[i].env;
    if ClaimKey(e).Some? {
      assert Holds(s, i, ClaimKey(e).value);
    }
    forall k | Unexcused(s, k) == 1 && k !in s.inbox
      ensures exists j :: 0 <= j < |s'.msgs| && Hit(s'.msgs[j], k)
      ensures ClaimKey(e) != Some(k)
    {
      var j :| 0 <= j < |s.msgs| && Hit(s.msgs[j], k);
      assert Holds(s, j, k) && j != i && Hit(s'.msgs[j], k);
    }
    forall j: nat, k | Holds(s', j, k) && BeforeReply(s'.msgs[j].at.stage) ensures Unexcused(s', k) <= 0 {
      if j == i {
        assert Unexcused(s, k) <= 1;
      } else {
        assert Holds(s, j, k);
      }
    }
  }

  lemma BoundKeptByMark(s: State, i: nat)
    requires BoundOk(s) && Enabled(s, Mark(i))
    ensures BoundOk(Next(s, Mark(i)))
  {
    var s' := Next(s, Mark(i));
    forall k ensures Unexcused(s', k) == Unexcused(s, k) {}
    forall k | Unexcused(s, k) == 1
      ensures k in s'.inbox || exists j :: 0 <= j < |s'.msgs| && Hit(s'.msgs[j], k)
    {
      if k !in s.inbox {
        var j :| 0 <= j < |s.msgs| && Hit(s.msgs[j], k);
        if j != i {
          assert Hit(s'.msgs[j], k);
        }
      }
    }
    forall j: nat, k | Holds(s', j, k) && BeforeReply(s'.msgs[j].at.stage)
      ensures Holds(s, j, k) && BeforeReply(s.msgs[j].at.stage)
    {}
  }

  lemma BoundKeptByForget(s: State, key: Key)
    requires BoundOk(s) && Enabled(s, Forget(key))
    ensures BoundOk(Next(s, Forget(key)))
  {
    var s' := Next(s, Forget(key));
    forall k ensures Unexcused(s', k) == Unexcused(s, k) - if k == key then 1 else 0 {}
    assert forall j: nat, k :: Holds(s', j, k) ==> Holds(s, j, k);
  }

  lemma HitStays(s: State, st: Step, i: nat, k: Key)
    requires Enabled(s, st) && !st.Crash? && !st.Mark? && i < |s.msgs| && Hit(s.msgs[i], k)
    ensures Hit(Next(s, st).msgs[i], k)
  {}

  lemma PendingCameFrom(s: State, st: Step, i: nat, k: Key)
    requires Enabled(s, st) && !st.Crash? && !st.Answer? && !st.AskInbox?
    requires Holds(Next(s, st), i, k) && BeforeReply(Next(s, st).msgs[i].at.stage)
    ensures Holds(s, i, k) && BeforeReply(s.msgs[i].at.stage)
  {}

  lemma BoundKept(s: State, st: Step)
    requires BoundOk(s) && ClaimsOk(s) && Enabled(s, st)
    ensures BoundOk(Next(s, st))
  {
    if {
      case st.Crash? => BoundKeptByCrash(s);
      case st.Answer? => BoundKeptByAnswer(s, st.i);
      case st.AskInbox? => BoundKeptByInbox(s, st.i);
      case st.Mark? => BoundKeptByMark(s, st.i);
      case st.Forget? => BoundKeptByForget(s, st.key);
      case !st.Crash? && !st.Answer? && !st.AskInbox? && !st.Mark? && !st.Forget? =>
        var s' := Next(s, st);
        assert s'.replies == s.replies && s'.hits == s.hits && s'.forgotten == s.forgotten
          && s'.inbox == s.inbox && |s.msgs| <= |s'.msgs|;
        assert forall k :: Unexcused(s', k) == Unexcused(s, k);
        forall i: nat, k
          ensures i < |s.msgs| && Hit(s.msgs[i], k) ==> Hit(s'.msgs[i], k)
          ensures Holds(s', i, k) && BeforeReply(s'.msgs[i].at.stage) ==>
            Holds(s, i, k) && BeforeReply(s.msgs[i].at.stage)
        {
          if i < |s.msgs| && Hit(s.msgs[i], k) {
            HitStays(s, st, i, k);
          }
          if Holds(s', i, k) && BeforeReply(s'.msgs[i].at.stage) {
            PendingCameFrom(s, st, i, k);
          }
        }
    }
  }

  lemma HoldersMoved(s: State, i: nat, at: Place)
    requires i < |s.msgs|
    ensures Total(Moved(s, i, at).msgs, Holders)
         == Total(s.msgs, Holders) - Holders(s.msgs[i]) + if at.Unacked? then 1 else 0
  {
    TotalUpdate(s.msgs, Holders, i, s.msgs[i].(at := at));
  }

  // A step that adds no message and delivers none raises no count.
  lemma HoldersKept(s: State, st: Step)
    requires Enabled(s, st) && !st.Arrive? && !st.Deliver? && !st.Fail? && !st.Resend?
    ensures Total(Next(s, st).msgs, Holders) <= Total(s.msgs, Holders)
  {
    var s' := Next(s, st);
    if st.Crash? {
      TotalZero(s'.msgs, Holders);
    } else if st.Abandon? {
      TotalSame(s.msgs, s'.msgs, Holders);
    } else if !st.Forget? {
      HoldersMoved(s, st.i, s'.msgs[st.i].at);
    }
  }

  lemma PrefetchKept(s: State, st: Step)
    requires PrefetchOk(s) && Enabled(s, st)
    ensures PrefetchOk(Next(s, st))
  {
    var s' := Next(s, st);
    match st
    case Arrive(e) => TotalAppend(s.msgs, Holders, Message(e, InCommands));
    case Deliver(i) => HoldersMoved(s, i, Unacked(Received));
    case Fail(i, _) =>
      HoldersMoved(s, i, s'.msgs[i].at);
      TotalAppend(Moved(s, i, s'.msgs[i].at).msgs, Holders, s'.msgs[|s.msgs|]);
    case Resend(i) =>
      HoldersMoved(s, i, Resent);
      TotalAppend(Moved(s, i, Resent).msgs, Holders, s'.msgs[|s.msgs|]);
    case _ => HoldersKept(s, st);
  }

  lemma InvKept(s: State, st: Step)
    requires Inv(s) && Enabled(s, st)
    ensures Inv(Next(s, st))
  {
    ClaimsKept(s, st);
    LadderKept(s, st);
    LaneKept(s, st);
    InboxKept(s, st);
    BoundKept(s, st);
    PrefetchKept(s, st);
  }

  lemma {:induction false} InvAlways(s: State, steps: seq<Step>)
    requires Inv(s) && Valid(s, steps)
    ensures Inv(After(s, steps))
    decreases |steps|
  {
    if steps != [] {
      InvKept(s, steps[0]);
      InvAlways(Next(s, steps[0]), steps[1..]);
    }
  }
}
