/** Turns that overlap: two messages of one user in a chat, which share a checkpoint and which nothing
    keeps from being handled at once. A turn loads the checkpoint when it starts, works on its own
    copy, and the graph saves that copy over the shared one after each node. One clock runs through
    them all. A proposal is named by the turn that made it. */
module ConversationRaces {
  import opened Wrappers
  import opened Conversations

  // A turn between two nodes; `origin` is the turn whose proposal its copy holds.
  datatype Flight = Flight(turn: Turn, at: Node, local: Checkpoint, origin: Option<nat>)

  datatype Execution = Execution(answer: Turn, proposal: Option<nat>, command: string)

  // `proposals` remembers what each proposing turn stored, `runs` the proposals run so far.
  datatype Chat = Chat(
    clock: real, shared: Checkpoint, origin: Option<nat>, flights: map<nat, Flight>, next: nat,
    proposals: map<nat, Conversation>, runs: seq<Execution>)

  // A node that reads the time reads `now`.
  datatype Step = Load(turn: Turn) | Move(id: nat, now: real) | Wait(now: real) | Expire

  const NEW := Chat(0.0, START, None, map[], 0, map[], [])

  predicate Enabled(s: Chat, step: Step) {
    match step
    case Load(_) => true
    case Move(id, now) => id in s.flights && s.clock <= now
    case Wait(now) => s.clock <= now
    case Expire => true
  }

  // The times of a turn are those its first and last node read.
  function Timed(f: Flight, now: real): Turn {
    if f.at == RouteInput then f.turn.(now := now)
    else if Rank(f.at) == 0 then f.turn.(repliedAt := now)
    else f.turn
  }

  function NextNode(at: Node, s: Checkpoint): Option<Node> {
    match at
    case RouteInput => Some(AfterInput(s))
    case RetrieveExamples => Some(AfterRetrieval(s))
    case CallLlm => AfterLlm(s)
    case _ => None
  }

  // A proposal is held only while the conversation has one.
  function Kept(origin: Option<nat>, s: Checkpoint): Option<nat> {
    if s.conversation.proposed == "" then None else origin
  }

  function Ended(s: Chat, id: nat, f: Flight, stored: Checkpoint): Chat {
    Chat(
      s.clock, stored, Kept(Some(id), stored), s.flights - {id}, s.next,
      if stored.conversation.proposed == "" then s.proposals else s.proposals[id := stored.conversation],
      s.runs + if f.at == ExecuteProposed then [Execution(f.turn, f.origin, f.local.conversation.proposed)] else [])
  }

  function Passed(s: Chat, id: nat, f: Flight, stored: Checkpoint): Chat {
    var origin, node := Kept(f.origin, stored), NextNode(f.at, stored);
    s.(shared := stored, origin := origin,
       flights := if node.Some? then s.flights[id := Flight(f.turn, node.value, stored, origin)]
                  else s.flights - {id})
  }

  // One node of one turn; a failed lookup ends the turn with nothing saved.
  function Next(s: Chat, step: Step): Chat
    requires Enabled(s, step)
  {
    match step
    case Load(turn) =>
      s.(flights := s.flights[s.next := Flight(turn, RouteInput, s.shared, s.origin)], next := s.next + 1)
    case Wait(now) => s.(clock := now)
    case Expire => s.(shared := START, origin := None)
    case Move(id, now) =>
      var f := s.flights[id].(turn := Timed(s.flights[id], now));
      var stored, later := Visit(f.at, f.local, f.turn), s.(clock := now);
      if stored.None? then later.(flights := s.flights - {id})
      else if Rank(f.at) == 0 then Ended(later, id, f, stored.value)
      else Passed(later, id, f, stored.value)
  }

  predicate Valid(s: Chat, steps: seq<Step>)
    decreases |steps|
  {
    steps == [] || (Enabled(s, steps[0]) && Valid(Next(s, steps[0]), steps[1..]))
  }

  function After(s: Chat, steps: seq<Step>): Chat
    requires Valid(s, steps)
    decreases |steps|
  {
    if steps == [] then s else After(Next(s, steps[0]), steps[1..])
  }

  // What every interleaving keeps

  // A held proposal is, whole, the conversation its turn stored.
  ghost predicate HoldsIt(s: Chat, c: Conversation, origin: Option<nat>) {
    && (c.status == AwaitingConfirmation <==> c.proposed != "")
    && (c.proposed != "" <==> origin.Some?)
    && (origin.Some? ==> origin.value in s.proposals && s.proposals[origin.value] == c)
    && (origin.Some? ==> c.askedAt <= s.clock)
  }

  predicate InWindow(now: real, askedAt: real) {
    askedAt <= now <= askedAt + RESUME_WINDOW_SECONDS
  }

  ghost predicate FlightOk(s: Chat, f: Flight) {
    && HoldsIt(s, f.local.conversation, f.origin)
    && (f.at == ExecuteProposed ==>
          && f.origin.Some? && f.turn.reply == Yes
          && InWindow(f.turn.now, f.local.conversation.askedAt))
  }

  // The execution is of a proposal some turn made, in its window, on a yes.
  ghost predicate RunOk(s: Chat, e: Execution) {
    && e.proposal.Some? && e.proposal.value in s.proposals
    && e.command == s.proposals[e.proposal.value].proposed != ""
    && e.answer.reply == Yes
    && InWindow(e.answer.now, s.proposals[e.proposal.value].askedAt)
  }

  ghost predicate Inv(s: Chat) {
    && HoldsIt(s, s.shared.conversation, s.origin)
    && (forall id :: id in s.flights ==> id < s.next && id !in s.proposals && FlightOk(s, s.flights[id]))
    && (forall id :: id in s.proposals ==> id < s.next)
    && (forall i :: 0 <= i < |s.runs| ==> RunOk(s, s.runs[i]))
  }

  lemma StoredHolds(s: Chat, id: nat, now: real)
    requires Inv(s) && Enabled(s, Move(id, now))
    ensures var t := Next(s, Move(id, now)); HoldsIt(t, t.shared.conversation, t.origin)
  {
  }

  // The proposals a state remembers are not forgotten or changed.
  lemma Remembered(s: Chat, step: Step, p: nat)
    requires Inv(s) && Enabled(s, step) && p in s.proposals
    ensures p in Next(s, step).proposals && Next(s, step).proposals[p] == s.proposals[p]
  {
  }

  lemma MovedFlightHolds(s: Chat, id: nat, now: real)
    requires Inv(s) && Enabled(s, Move(id, now)) && id in Next(s, Move(id, now)).flights
    ensures FlightOk(Next(s, Move(id, now)), Next(s, Move(id, now)).flights[id])
  {
    StoredHolds(s, id, now);
  }

  lemma LoadedFlightHolds(s: Chat, turn: Turn)
    requires Inv(s)
    ensures var t := Next(s, Load(turn)); FlightOk(t, t.flights[s.next])
  {
  }

  // The other flights are as they were, and what they hold is remembered.
  lemma OtherFlightHolds(s: Chat, step: Step, id: nat)
    requires Inv(s) && Enabled(s, step) && id in s.flights && !(step.Move? && step.id == id)
    ensures var t := Next(s, step); id in t.flights && t.flights[id] == s.flights[id] && FlightOk(t, t.flights[id])
  {
    if s.flights[id].origin.Some? {
      Remembered(s, step, s.flights[id].origin.value);
    }
  }

  lemma FlightsHold(s: Chat, step: Step, id: nat)
    requires Inv(s) && Enabled(s, step) && id in Next(s, step).flights
    ensures FlightOk(Next(s, step), Next(s, step).flights[id])
  {
    if step.Move? && step.id == id {
      MovedFlightHolds(s, id, step.now);
    } else if id in s.flights {
      OtherFlightHolds(s, step, id);
    } else {
      LoadedFlightHolds(s, step.turn);
    }
  }

  lemma RunsHold(s: Chat, step: Step, i: nat)
    requires Inv(s) && Enabled(s, step) && i < |Next(s, step).runs|
    ensures RunOk(Next(s, step), Next(s, step).runs[i])
  {
    var e := Next(s, step).runs[i];
    if i < |s.runs| {
      assert e == s.runs[i];
    }
    Remembered(s, step, e.proposal.value);
  }

  lemma SharedHolds(s: Chat, step: Step)
    requires Inv(s) && Enabled(s, step)
    ensures var t := Next(s, step); HoldsIt(t, t.shared.conversation, t.origin)
  {
    if step.Move? {
      StoredHolds(s, step.id, step.now);
    }
  }

  lemma NamesKept(s: Chat, step: Step)
    requires Inv(s) && Enabled(s, step)
    ensures forall id :: id in Next(s, step).flights ==> id < Next(s, step).next && id !in Next(s, step).proposals
    ensures forall id :: id in Next(s, step).proposals ==> id < Next(s, step).next
  {
  }

  lemma InvKept(s: Chat, step: Step)
    requires Inv(s) && Enabled(s, step)
    ensures Inv(Next(s, step))
  {
    var t := Next(s, step);
    SharedHolds(s, step);
    NamesKept(s, step);
    forall id | id in t.flights ensures FlightOk(t, t.flights[id]) {
      FlightsHold(s, step, id);
    }
    forall i: nat | i < |t.runs| ensures RunOk(t, t.runs[i]) {
      RunsHold(s, step, i);
    }
  }

  lemma {:induction false} InvAlways(s: Chat, steps: seq<Step>)
    requires Inv(s) && Valid(s, steps)
    ensures Inv(After(s, steps))
    decreases |steps|
  {
    if steps != [] {
      InvKept(s, steps[0]);
      InvAlways(Next(s, steps[0]), steps[1..]);
    }
  }

  // However turns interleave, what runs on a yes is exactly what some turn proposed before, at most
  // the resume window earlier.
  lemma RunsAreProposals(steps: seq<Step>, i: nat)
    requires Valid(NEW, steps) && i < |After(NEW, steps).runs|
    ensures RunOk(After(NEW, steps), After(NEW, steps).runs[i])
  {
    InvAlways(NEW, steps);
  }

  // How often a proposal runs

  function Times(runs: seq<Execution>, p: nat): nat {
    if runs == [] then 0
    else Times(runs[..|runs| - 1], p) + if runs[|runs| - 1].proposal == Some(p) then 1 else 0
  }

  // A message that says yes.
  function Accepting(): Turn {
    Offer().(text := "sim", reply := Yes)
  }

  // A turn about to run the proposal, whatever the time.
  ghost predicate Committed(s: Chat, id: nat, p: nat) {
    id in s.flights && s.flights[id].origin == Some(p) && s.flights[id].at == ExecuteProposed
  }

  // A turn that will save the proposal again, or run it itself.
  ghost predicate Carries(s: Chat, id: nat, p: nat) {
    && id in s.flights && s.flights[id].origin == Some(p)
    && (s.flights[id].at == RouteInput || s.flights[id].at == RetrieveExamples || s.flights[id].at == CallLlm)
  }

  ghost predicate InTime(s: Chat, p: nat) {
    p in s.proposals && s.clock <= s.proposals[p].askedAt + RESUME_WINDOW_SECONDS
  }

  // Some turn will run the proposal, or it is in its window and held where a yes can find it.
  ghost predicate Live(s: Chat, p: nat) {
    || (exists id: nat :: Committed(s, id, p))
    || (InTime(s, p) && (s.origin == Some(p) || exists id: nat :: Carries(s, id, p)))
  }

  lemma TimesAfter(s: Chat, step: Step, p: nat)
    requires Enabled(s, step)
    ensures Times(Next(s, step).runs, p) == Times(s.runs, p) +
      if step.Move? && Committed(s, step.id, p) then 1 else 0
  {
    var t := Next(s, step);
    if t.runs != s.runs {
      assert t.runs[..|s.runs|] == s.runs;
    }
  }

  // A turn comes to be committed only from the router, in time.
  lemma CommittedFrom(s: Chat, step: Step, p: nat, id: nat)
    requires Inv(s) && Enabled(s, step) && p < s.next && p !in s.flights && Committed(Next(s, step), id, p)
    ensures Committed(s, id, p) || (Carries(s, id, p) && InTime(s, p))
  {
  }

  lemma CarriedFrom(s: Chat, step: Step, p: nat, id: nat)
    requires Inv(s) && Enabled(s, step) && p < s.next && p !in s.flights && Carries(Next(s, step), id, p)
    ensures Carries(s, id, p) || s.origin == Some(p)
  {
  }

  lemma SharedFrom(s: Chat, step: Step, p: nat)
    requires Inv(s) && Enabled(s, step) && p < s.next && p !in s.flights && Next(s, step).origin == Some(p)
    ensures s.origin == Some(p) || (step.Move? && Carries(s, step.id, p))
  {
  }

  lemma TimePasses(s: Chat, step: Step, p: nat)
    requires Inv(s) && Enabled(s, step) && p !in s.flights && InTime(Next(s, step), p)
    ensures InTime(s, p)
  {
  }

  lemma DeadStays(s: Chat, step: Step, p: nat)
    requires Inv(s) && Enabled(s, step) && p < s.next && p !in s.flights && !Live(s, p)
    ensures Times(Next(s, step).runs, p) == Times(s.runs, p)
    ensures p !in Next(s, step).flights && !Live(Next(s, step), p)
  {
    var t := Next(s, step);
    TimesAfter(s, step, p);
    if id: nat :| Committed(t, id, p) {
      CommittedFrom(s, step, p, id);
    }
    if InTime(t, p) {
      TimePasses(s, step, p);
      if t.origin == Some(p) {
        SharedFrom(s, step, p);
      } else if id: nat :| Carries(t, id, p) {
        CarriedFrom(s, step, p, id);
      }
    }
  }

  lemma {:induction false} DeadAlways(s: Chat, steps: seq<Step>, p: nat)
    requires Inv(s) && Valid(s, steps) && p < s.next && p !in s.flights && !Live(s, p)
    ensures Times(After(s, steps).runs, p) == Times(s.runs, p)
    decreases |steps|
  {
    if steps != [] {
      InvKept(s, steps[0]);
      DeadStays(s, steps[0], p);
      DeadAlways(Next(s, steps[0]), steps[1..], p);
    }
  }

  // Steps that run `p` once more.
  ghost predicate RunsOnce(s: Chat, steps: seq<Step>, p: nat) {
    Valid(s, steps) && Times(After(s, steps).runs, p) == Times(s.runs, p) + 1
  }

  lemma Prepend(s: Chat, step: Step, steps: seq<Step>, p: nat)
    requires Enabled(s, step) && Times(Next(s, step).runs, p) == Times(s.runs, p)
    requires RunsOnce(Next(s, step), steps, p)
    ensures RunsOnce(s, [step] + steps, p)
  {
    assert ([step] + steps)[1..] == steps;
  }

  lemma CommittedRuns(s: Chat, id: nat, p: nat)
    requires Committed(s, id, p)
    ensures RunsOnce(s, [Move(id, s.clock)], p)
  {
    TimesAfter(s, Move(id, s.clock), p);
    assert [Move(id, s.clock)][1..] == [];
  }

  // A yes in the window, routed, is about to run what its copy holds.
  lemma YesCommits(s: Chat, id: nat, p: nat)
    requires Inv(s) && Carries(s, id, p) && InTime(s, p)
    requires s.flights[id].at == RouteInput && s.flights[id].turn.reply == Yes
    ensures Committed(Next(s, Move(id, s.clock)), id, p)
  {
  }

  lemma YesRuns(s: Chat, id: nat, p: nat)
    requires Inv(s) && Carries(s, id, p) && InTime(s, p)
    requires s.flights[id].at == RouteInput && s.flights[id].turn.reply == Yes
    ensures RunsOnce(s, [Move(id, s.clock), Move(id, s.clock)], p)
  {
    var step := Move(id, s.clock);
    TimesAfter(s, step, p);
    YesCommits(s, id, p);
    CommittedRuns(Next(s, step), id, p);
    Prepend(s, step, [step], p);
    assert [step] + [step] == [step, step];
  }

  lemma SharedRuns(s: Chat, p: nat) returns (steps: seq<Step>)
    requires Inv(s) && s.origin == Some(p) && InTime(s, p)
    ensures RunsOnce(s, steps, p)
  {
    var t := Next(s, Load(Accepting()));
    InvKept(s, Load(Accepting()));
    TimesAfter(s, Load(Accepting()), p);
    YesRuns(t, s.next, p);
    var moves := [Move(s.next, s.clock), Move(s.next, s.clock)];
    Prepend(s, Load(Accepting()), moves, p);
    steps := [Load(Accepting())] + moves;
  }

  // Any other carrier saves the proposal over the shared checkpoint.
  lemma CarrierSaves(s: Chat, id: nat, p: nat)
    requires Inv(s) && Carries(s, id, p) && InTime(s, p)
    ensures var t := Next(s, Move(id, s.clock)); t.origin == Some(p) && InTime(t, p)
  {
  }

  lemma CarrierRuns(s: Chat, id: nat, p: nat) returns (steps: seq<Step>)
    requires Inv(s) && Carries(s, id, p) && InTime(s, p)
    ensures RunsOnce(s, steps, p)
  {
    var step := Move(id, s.clock);
    CarrierSaves(s, id, p);
    InvKept(s, step);
    TimesAfter(s, step, p);
    var rest := SharedRuns(Next(s, step), p);
    Prepend(s, step, rest, p);
    steps := [step] + rest;
  }

  lemma LiveRuns(s: Chat, p: nat) returns (steps: seq<Step>)
    requires Inv(s) && Live(s, p)
    ensures RunsOnce(s, steps, p)
  {
    if id: nat :| Committed(s, id, p) {
      CommittedRuns(s, id, p);
      steps := [Move(id, s.clock)];
    } else if s.origin == Some(p) {
      steps := SharedRuns(s, p);
    } else {
      var id: nat :| Carries(s, id, p);
      steps := CarrierRuns(s, id, p);
    }
  }

  // No run from here on runs the proposal again.
  ghost predicate Spent(s: Chat, p: nat) {
    forall steps :: Valid(s, steps) ==> Times(After(s, steps).runs, p) == Times(s.runs, p)
  }

  // A proposal can still run if and only if a turn is about to run it, or it is in its window and
  // the shared checkpoint holds it or a turn in flight carries it.
  lemma SpentExactly(s: Chat, p: nat)
    requires Inv(s) && p < s.next && p !in s.flights
    ensures Spent(s, p) <==> !Live(s, p)
  {
    if Live(s, p) {
      var steps := LiveRuns(s, p);
      assert Valid(s, steps) && Times(After(s, steps).runs, p) != Times(s.runs, p);
    } else {
      forall steps | Valid(s, steps) ensures Times(After(s, steps).runs, p) == Times(s.runs, p) {
        DeadAlways(s, steps, p);
      }
    }
  }

  // With no turn in flight, the checkpoint's expiry spends every proposal.
  lemma ExpirySpends(s: Chat, p: nat)
    requires Inv(s) && p < s.next && s.flights == map[]
    ensures Spent(Next(s, Expire), p)
  {
    InvKept(s, Expire);
    SpentExactly(Next(s, Expire), p);
  }

  // Nor does a proposal outlive its window, unless a turn is already about to run it.
  lemma WaitingSpends(s: Chat, now: real, p: nat)
    requires Inv(s) && p < s.next && p !in s.flights && s.clock <= now
    requires p in s.proposals ==> now > s.proposals[p].askedAt + RESUME_WINDOW_SECONDS
    ensures Spent(Next(s, Wait(now)), p) <==> forall id: nat :: !Committed(s, id, p)
  {
    var t := Next(s, Wait(now));
    InvKept(s, Wait(now));
    SpentExactly(t, p);
    assert forall id: nat :: Committed(t, id, p) <==> Committed(s, id, p);
  }

  lemma OthersStay(s: Chat, id: nat, now: real, p: nat, other: nat)
    requires Inv(s) && Enabled(s, Move(id, now)) && s.flights[id].at == ExecuteProposed
    ensures var t := Next(s, Move(id, now));
      && (Committed(t, other, p) <==> other != id && Committed(s, other, p))
      && (Carries(t, other, p) <==> Carries(s, other, p))
      && t.origin == None && t.proposals == s.proposals && t.clock == now
  {
  }

  // The answer that runs a proposal spends it exactly when, at that time, no other turn is about to
  // run it and none still carries it in its window.
  lemma AnswerSpendsExactly(s: Chat, id: nat, now: real, p: nat)
    requires Inv(s) && Enabled(s, Move(id, now)) && Committed(s, id, p)
    ensures Times(Next(s, Move(id, now)).runs, p) == Times(s.runs, p) + 1
    ensures Spent(Next(s, Move(id, now)), p) <==>
      && (forall other: nat :: Committed(s, other, p) ==> other == id)
      && (now <= s.proposals[p].askedAt + RESUME_WINDOW_SECONDS ==> forall other: nat :: !Carries(s, other, p))
  {
    var t := Next(s, Move(id, now));
    InvKept(s, Move(id, now));
    TimesAfter(s, Move(id, now), p);
    forall other: nat
      ensures Committed(t, other, p) <==> other != id && Committed(s, other, p)
      ensures Carries(t, other, p) <==> Carries(s, other, p)
      ensures t.origin == None && t.proposals == s.proposals && t.clock == now
    {
      OthersStay(s, id, now, p, other);
    }
    SpentExactly(t, p);
  }

  // An uninterrupted turn does what the graph's walk does, so it is one turn of a run of turns.
  lemma {:induction false} AloneIsTheWalk(s: Chat, id: nat) returns (steps: seq<Step>)
    requires id in s.flights && Walk(s.flights[id].at, s.flights[id].local, s.flights[id].turn).Ended?
    requires var turn := s.flights[id].turn;
      s.clock <= turn.repliedAt && (s.flights[id].at == RouteInput ==> s.clock <= turn.now <= turn.repliedAt)
    ensures Valid(s, steps) && forall i :: 0 <= i < |steps| ==> steps[i].Move? && steps[i].id == id
    ensures var w, t := Walk(s.flights[id].at, s.flights[id].local, s.flights[id].turn), After(s, steps);
      && t.shared == w.after && t.flights == s.flights - {id} && t.next == s.next
      && |t.runs| == |s.runs| + (if w.at == ExecuteProposed then 1 else 0) && t.runs[..|s.runs|] == s.runs
      && (w.at == ExecuteProposed ==> Ran(w) == Some(t.runs[|s.runs|].command))
    decreases Rank(s.flights[id].at)
  {
    var f := s.flights[id];
    var now := if f.at == RouteInput then f.turn.now else if Rank(f.at) == 0 then f.turn.repliedAt else s.clock;
    var t := Next(s, Move(id, now));
    assert Timed(f, now) == f.turn;
    var rest: seq<Step> := [];
    if Rank(f.at) > 0 {
      rest := AloneIsTheWalk(t, id);
    }
    steps := [Move(id, now)] + rest;
    assert steps[1..] == rest && Valid(t, rest);
  }

  // Two messages of a user that say yes, handled at once, run one proposal twice.

  ghost predicate Leads(s: Chat, steps: seq<Step>, t: Chat) {
    Valid(s, steps) && After(s, steps) == t
  }

  ghost predicate Reaches(s: Chat, t: Chat) {
    exists steps :: Leads(s, steps, t)
  }

  lemma {:induction false} LeadsOn(s: Chat, first: seq<Step>, t: Chat, more: seq<Step>, u: Chat)
    requires Leads(s, first, t) && Leads(t, more, u)
    ensures Leads(s, first + more, u)
    decreases |first|
  {
    if first == [] {
      assert first + more == more;
    } else {
      LeadsOn(Next(s, first[0]), first[1..], t, more, u);
      assert (first + more)[1..] == first[1..] + more;
    }
  }

  lemma OneStep(t: Chat, step: Step)
    requires Enabled(t, step)
    ensures Leads(t, [step], Next(t, step))
  {
    var next := Next(t, step);
    assert [step][1..] == [] && Valid(next, []) && After(next, []) == next;
  }

  lemma ReachesNext(s: Chat, t: Chat, step: Step)
    requires Reaches(s, t) && Inv(t) && Enabled(t, step)
    ensures Reaches(s, Next(t, step)) && Inv(Next(t, step))
  {
    var steps :| Leads(s, steps, t);
    OneStep(t, step);
    LeadsOn(s, steps, t, [step], Next(t, step));
    InvKept(t, step);
  }

  const OFFERED := Conversation(AwaitingConfirmation, "x?", ",x", "?", 0, 0.0)

  // The chat while its first turn is at the n-th node of its way to an offer, and when it is out.
  ghost predicate Offering(s: Chat, n: nat) {
    && s.next == 1 && s.runs == [] && s.clock == 0.0
    && if n >= 4 then s.flights == map[] && s.origin == Some(0) && s.shared.conversation == OFFERED
       else
         && s.flights.Keys == {0} && s.flights[0].turn == Offer() && s.flights[0].local.conversation == FRESH
         && s.flights[0].at == [RouteInput, RetrieveExamples, CallLlm, Confirming][n]
         && (n == 3 ==> s.flights[0].local.decision == Some(Offer().answer))
  }

  lemma OfferMoves(s: Chat, n: nat)
    requires Offering(s, n) && n < 4
    ensures Enabled(s, Move(0, 0.0)) && Offering(Next(s, Move(0, 0.0)), n + 1)
  {
  }

  lemma OfferIsMade() returns (t: Chat)
    ensures Reaches(NEW, t) && Inv(t) && Offering(t, 4)
  {
    assert Leads(NEW, [], NEW);
    ReachesNext(NEW, NEW, Load(Offer()));
    t := Next(NEW, Load(Offer()));
    for n := 0 to 4
      invariant Reaches(NEW, t) && Inv(t) && Offering(t, n)
    {
      OfferMoves(t, n);
      ReachesNext(NEW, t, Move(0, 0.0));
      t := Next(t, Move(0, 0.0));
    }
  }

  // A turn that loaded the offer and says yes.
  ghost predicate Accepts(s: Chat, id: nat) {
    && id in s.flights && s.flights[id].at == RouteInput && s.flights[id].turn == Accepting()
    && s.flights[id].origin == Some(0) && s.flights[id].local.conversation == OFFERED && s.clock == 0.0
  }

  lemma AcceptRoutes(s: Chat, id: nat)
    requires Accepts(s, id)
    ensures var m := Next(s, Move(id, 0.0));
      id in m.flights && m.flights[id].at == ExecuteProposed && m.flights[id].origin == Some(0)
  {
  }

  lemma OthersUntouched(s: Chat, id: nat, other: nat)
    requires Enabled(s, Move(id, 0.0)) && other in s.flights && other != id
    ensures other in Next(s, Move(id, 0.0)).flights && Next(s, Move(id, 0.0)).flights[other] == s.flights[other]
  {
  }

  lemma AcceptReaches(s: Chat, id: nat, other: nat) returns (t: Chat)
    requires Reaches(NEW, s) && Inv(s) && Accepts(s, id) && other != id
    ensures Reaches(NEW, t) && Inv(t) && Times(t.runs, 0) == Times(s.runs, 0) + 1
    ensures Accepts(s, other) ==> Accepts(t, other)
  {
    var m := Next(s, Move(id, 0.0));
    AcceptRoutes(s, id);
    ReachesNext(NEW, s, Move(id, 0.0));
    ReachesNext(NEW, m, Move(id, 0.0));
    t := Next(m, Move(id, 0.0));
    TimesAfter(s, Move(id, 0.0), 0);
    TimesAfter(m, Move(id, 0.0), 0);
    if other in s.flights {
      OthersUntouched(s, id, other);
      OthersUntouched(m, id, other);
    }
  }

  lemma TwoYesesRunTwice()
    ensures exists t :: Reaches(NEW, t) && Times(t.runs, 0) == 2
  {
    var offered := OfferIsMade();
    ReachesNext(NEW, offered, Load(Accepting()));
    var loaded := Next(offered, Load(Accepting()));
    ReachesNext(NEW, loaded, Load(Accepting()));
    var both := Next(loaded, Load(Accepting()));
    assert Accepts(both, 1) && Accepts(both, 2);
    var once := AcceptReaches(both, 1, 2);
    var twice := AcceptReaches(once, 2, 1);
  }
}
