/** The conversation of one user in a chat with the agent: the checkpointed state, the graph's nodes
    and edges, and whole runs of turns that do not overlap. Every turn is proved to do what the log
    of the turns before it calls for. ConversationRaces is about turns that do overlap. */
module Conversations {
  import opened Wrappers

  // The conversation

  datatype Status = Idle | AwaitingConfirmation | AwaitingAnswer

  // What ConfirmationReply makes of a message.
  datatype Reply = Yes | No | Other

  datatype Intent = Request | Confirmed | Denied

  const RESUME_WINDOW_SECONDS := 180.0
  const MAX_ATTEMPTS := 2
  const FRESH := Conversation(Idle, "", "", "", 0, 0.0)

  datatype Conversation = Conversation(
    status: Status, question: string, proposed: string, request: string, attempts: nat, askedAt: real)
  {
    predicate Exhausted() {
      attempts >= MAX_ATTEMPTS
    }

    function Resumed(now: real): Conversation {
      if now - askedAt > RESUME_WINDOW_SECONDS then FRESH else this
    }

    function Awaiting(asked: string, now: real, command: string, text: string): Conversation {
      if command != "" then
        Conversation(AwaitingConfirmation, asked, command, text, attempts, now)
      else
        Conversation(AwaitingAnswer, asked, "", "", attempts + 1, now)
    }

    function IntentOf(reply: Reply): Intent {
      if status != AwaitingConfirmation then Request
      else match reply
        case Yes => Confirmed
        case No => Denied
        case Other => Request
    }
  }

  // Decisions and retrieval

  datatype Outcome =
    Command | Direct | Confirm | Clarify | Suggest | Unresolvable | Unavailable | OverBudget
  | Accepted | Refused | MenuHint

  datatype Decision = Decision(outcome: Outcome, command: string, text: string)

  // What the mapper can return, whatever the model answers.
  predicate InRange(d: Decision) {
    match d.outcome
    case Command => true
    case Confirm => d.command != "" && d.text != ""
    case Clarify => d.command == "" && d.text != ""
    case Suggest => d.command == "" && d.text != ""
    case Unresolvable => d.command == "" && d.text != ""
    case Unavailable => d.command == "" && d.text != ""
    case OverBudget => d.command == "" && d.text != ""
    case _ => false
  }

  datatype Example = Example(text: string, command: string, score: real)

  const DIRECT_MATCH_SIMILARITY := 0.97

  // No example scores above `e`, and none before it scores as much.
  ghost predicate Top(examples: seq<Example>, e: Example) {
    && (forall o :: o in examples ==> o.score <= e.score)
    && exists i :: 0 <= i < |examples| && examples[i] == e && forall j :: 0 <= j < i ==> examples[j].score < e.score
  }

  // The first of the best scores.
  function Best(examples: seq<Example>): (best: Option<Example>)
    ensures best.None? <==> examples == []
    ensures best.Some? ==> Top(examples, best.value)
  {
    if examples == [] then None
    else
      var first, later := examples[0], Best(examples[1..]);
      assert examples == [first] + examples[1..];
      if later.Some? && later.value.score > first.score then
        assert Top(examples, later.value) by {
          var i :| && 0 <= i < |examples[1..]| && examples[1..][i] == later.value
                   && forall j :: 0 <= j < i ==> examples[1..][j].score < later.value.score;
          assert examples[i + 1] == later.value;
          assert forall j :: 1 <= j < i + 1 ==> examples[j] == examples[1..][j - 1];
        }
        later
      else
        Some(first)
  }

  // A reply to a question, pending or quoted, is never matched directly.
  function DirectMatch(context: string, examples: seq<Example>): Option<Decision> {
    var best := Best(examples);
    if context == "" && best.Some? && best.value.score >= DIRECT_MATCH_SIMILARITY then
      Some(Decision(Direct, best.value.command, ""))
    else
      None
  }

  // The graph

  datatype Node =
    RouteInput | RetrieveExamples | CallLlm
  | Execute | ExecuteProposed | Confirming | Ask | AskAgain | Hint | Suggesting | Fallback

  const TERMINALS := {Execute, ExecuteProposed, Confirming, Ask, AskAgain, Hint, Suggesting, Fallback}

  // Everything the checkpoint carries from turn to turn.
  datatype Checkpoint = Checkpoint(
    conversation: Conversation, intent: Intent, examples: seq<Example>, decision: Option<Decision>)

  const START := Checkpoint(FRESH, Request, [], None)

  // One message, and everything the world answers while it is handled.
  datatype Turn = Turn(
    text: string, quoted: string, reply: Reply, now: real, repliedAt: real,
    retrieved: seq<Example>, answer: Decision)

  const ASK_AGAIN_QUESTION := "O que você queria?"

  // A reply that leaves the decision's text pending, with its command when it has one.
  function KeptWaiting(s: Checkpoint, t: Turn): Option<Checkpoint> {
    if s.decision.None? then None
    else
      var d := s.decision.value;
      Some(s.(conversation := s.conversation.Awaiting(d.text, t.repliedAt, d.command, t.text)))
  }

  // A node's effect on the state; None is the source's KeyError.
  function Visit(node: Node, s: Checkpoint, t: Turn): Option<Checkpoint> {
    match node
    case RouteInput =>
      var conversation := s.conversation.Resumed(t.now);
      Some(s.(conversation := conversation, intent := conversation.IntentOf(t.reply)))
    case RetrieveExamples =>
      var context := if t.quoted != "" then t.quoted else s.conversation.question;
      Some(s.(examples := t.retrieved, decision := DirectMatch(context, t.retrieved)))
    case CallLlm => Some(s.(decision := Some(t.answer)))
    case ExecuteProposed => Some(s.(conversation := FRESH))
    case Hint => Some(s.(conversation := FRESH))
    case AskAgain => Some(s.(conversation := s.conversation.Awaiting(ASK_AGAIN_QUESTION, t.repliedAt, "", t.text)))
    case Confirming => KeptWaiting(s, t)
    case Ask => KeptWaiting(s, t)
    case _ => if s.decision.None? then None else Some(s.(conversation := FRESH))
  }

  function AfterInput(s: Checkpoint): Node {
    match s.intent
    case Confirmed => ExecuteProposed
    case Denied => AskAgain
    case Request => RetrieveExamples
  }

  function AfterRetrieval(s: Checkpoint): Node {
    if s.decision.Some? then Execute else CallLlm
  }

  function AfterLlm(s: Checkpoint): Option<Node> {
    var outcome := if s.decision.Some? then s.decision.value.outcome else Unresolvable;
    if outcome == Clarify && s.conversation.Exhausted() then Some(Hint)
    else match outcome
      case Command => Some(Execute)
      case Confirm => Some(Confirming)
      case Clarify => Some(Ask)
      case Suggest => Some(Suggesting)
      case Unresolvable => Some(Fallback)
      case Unavailable => Some(Fallback)
      case OverBudget => Some(Fallback)
      case _ => None
  }

  function Rank(node: Node): nat {
    match node
    case RouteInput => 3
    case RetrieveExamples => 2
    case CallLlm => 1
    case _ => 0
  }

  // `before` is what the last node read, `after` what it stored.
  datatype Walked = Ended(at: Node, before: Checkpoint, after: Checkpoint) | KeyError

  function Walk(node: Node, s: Checkpoint, t: Turn): Walked
    decreases Rank(node)
  {
    var visited := Visit(node, s, t);
    if visited.None? then KeyError
    else
      var after := visited.value;
      match node
      case RouteInput => Walk(AfterInput(after), after, t)
      case RetrieveExamples => Walk(AfterRetrieval(after), after, t)
      case CallLlm =>
        var next := AfterLlm(after);
        if next.Some? then Walk(next.value, after, t) else KeyError
      case _ => Ended(node, s, after)
  }

  // What a terminal node does to the world.

  function Ran(w: Walked): Option<string> {
    if w.KeyError? then None
    else match w.at
      case Execute => if w.before.decision.Some? then Some(w.before.decision.value.command) else None
      case ExecuteProposed => Some(w.before.conversation.proposed)
      case _ => None
  }

  // The examples a command that ran is judged against.
  function Judged(w: Walked): seq<Example> {
    if w.Ended? && (w.at == Execute || w.at == ExecuteProposed) then w.before.examples else []
  }

  // The request and the proposal a denial is logged with.
  function Denial(w: Walked): Option<(string, string)> {
    if w.Ended? && w.at == AskAgain then
      Some((w.before.conversation.request, w.before.conversation.proposed))
    else None
  }

  // Runs

  datatype Input = Said(turn: Turn) | Forgot

  // A turn as an observer sees it, or the checkpoint expiring in the store.
  datatype Event =
    Spoke(turn: Turn, at: Node, ran: Option<string>, judged: seq<Example>, denial: Option<(string, string)>)
  | Erased

  datatype Session = Session(checkpoint: Checkpoint, log: seq<Event>)

  ghost predicate AllInRange(inputs: seq<Input>) {
    forall i :: 0 <= i < |inputs| && inputs[i].Said? ==> InRange(inputs[i].turn.answer)
  }

  function EventOf(t: Turn, w: Walked): Event
    requires w.Ended?
  {
    Spoke(t, w.at, Ran(w), Judged(w), Denial(w))
  }

  function Play(inputs: seq<Input>): Session
    requires AllInRange(inputs)
    decreases |inputs|
  {
    if inputs == [] then Session(START, [])
    else
      var so := Play(inputs[..|inputs| - 1]);
      match inputs[|inputs| - 1]
      case Forgot => Session(START, so.log + [Erased])
      case Said(t) =>
        EveryTurnEnds(so.checkpoint, t);
        var w := Walk(RouteInput, so.checkpoint, t);
        Session(w.after, so.log + [EventOf(t, w)])
  }

  // Whatever the checkpoint holds, a turn reaches a terminal node and looks up nothing missing.
  lemma EveryTurnEnds(s: Checkpoint, t: Turn)
    requires InRange(t.answer)
    ensures Walk(RouteInput, s, t).Ended? && Walk(RouteInput, s, t).at in TERMINALS
  {
  }

  // What the log alone calls for

  predicate Waits(node: Node) {
    node == Confirming || node == Ask || node == AskAgain
  }

  // The previous turn left a question, and it is still in the window.
  predicate Pending(log: seq<Event>, now: real) {
    && log != [] && log[|log| - 1].Spoke? && Waits(log[|log| - 1].at)
    && now - log[|log| - 1].turn.repliedAt <= RESUME_WINDOW_SECONDS
  }

  predicate Proposed(log: seq<Event>, now: real) {
    Pending(log, now) && log[|log| - 1].at == Confirming
  }

  // How many turns ended at one of `nodes` since the conversation last started over.
  function Tally(log: seq<Event>, nodes: set<Node>): nat
    decreases |log|
  {
    if log == [] || log[|log| - 1].Erased? || !Waits(log[|log| - 1].at) then 0
    else
      var e, past := log[|log| - 1], log[..|log| - 1];
      (if Pending(past, e.turn.now) then Tally(past, nodes) else 0) + (if e.at in nodes then 1 else 0)
  }

  const SPENDING := {Ask, AskAgain}

  // A retrieved text that is all but the message.
  predicate Near(t: Turn) {
    exists e :: e in t.retrieved && e.score >= DIRECT_MATCH_SIMILARITY
  }

  function Matched(log: seq<Event>, t: Turn): Option<Decision> {
    if !Pending(log, t.now) && t.quoted == "" && Near(t)
    then Some(Decision(Direct, Best(t.retrieved).value.command, ""))
    else None
  }

  function Due(log: seq<Event>, t: Turn): Node {
    if Proposed(log, t.now) && t.reply == Yes then ExecuteProposed
    else if Proposed(log, t.now) && t.reply == No then AskAgain
    else if Matched(log, t).Some? then Execute
    else match t.answer.outcome
      case Command => Execute
      case Confirm => Confirming
      case Clarify => if Pending(log, t.now) && Tally(log, SPENDING) >= MAX_ATTEMPTS then Hint else Ask
      case Suggest => Suggesting
      case _ => Fallback
  }

  function DueCommand(log: seq<Event>, t: Turn): Option<string> {
    match Due(log, t)
    case ExecuteProposed =>
      if log != [] && log[|log| - 1].Spoke? then Some(log[|log| - 1].turn.answer.command) else None
    case Execute => Some(if Matched(log, t).Some? then Matched(log, t).value.command else t.answer.command)
    case _ => None
  }

  // The state the log leaves, as far as later turns can tell.
  function LeftBy(log: seq<Event>): Conversation {
    if log == [] || log[|log| - 1].Erased? then FRESH
    else
      var e, spent := log[|log| - 1], Tally(log, SPENDING);
      match e.at
      case Confirming =>
        Conversation(AwaitingConfirmation, e.turn.answer.text, e.turn.answer.command, e.turn.text,
                     spent, e.turn.repliedAt)
      case Ask => Conversation(AwaitingAnswer, e.turn.answer.text, "", "", spent, e.turn.repliedAt)
      case AskAgain => Conversation(AwaitingAnswer, ASK_AGAIN_QUESTION, "", "", spent, e.turn.repliedAt)
      case _ => FRESH
  }

  ghost predicate Honest(log: seq<Event>) {
    log != [] && log[|log| - 1].Spoke? ==>
      var e := log[|log| - 1];
      && InRange(e.turn.answer)
      && (e.at == Confirming ==> e.turn.answer.outcome == Confirm)
      && (e.at == Ask ==> e.turn.answer.outcome == Clarify)
  }

  ghost predicate Tied(s: Checkpoint, log: seq<Event>) {
    && s.conversation == LeftBy(log)
    && Honest(log)
    && (log != [] && log[|log| - 1].Spoke? && log[|log| - 1].at == Confirming
        ==> s.examples == log[|log| - 1].turn.retrieved)
  }

  // A question of the conversation the turn is in time to answer.
  predicate Asked(c: Conversation, t: Turn) {
    c.question != "" && t.now - c.askedAt <= RESUME_WINDOW_SECONDS
  }

  // A yes or a no to a proposal, in time.
  predicate Answers(c: Conversation, t: Turn) {
    c.status == AwaitingConfirmation && t.now - c.askedAt <= RESUME_WINDOW_SECONDS && t.reply != Other
  }

  lemma NearIsMatched(context: string, t: Turn)
    ensures DirectMatch(context, t.retrieved)
         == if context == "" && Near(t) then Some(Decision(Direct, Best(t.retrieved).value.command, "")) else None
  {
  }

  // Where the first node sends a turn, and the question it leaves.
  lemma Routed(s: Checkpoint, t: Turn) returns (routed: Checkpoint)
    ensures Walk(RouteInput, s, t) == Walk(AfterInput(routed), routed, t)
    ensures AfterInput(routed) == RetrieveExamples <==> !Answers(s.conversation, t)
    ensures Answers(s.conversation, t) ==> Walk(RouteInput, s, t).Ended? && Walk(RouteInput, s, t).at != Execute
    ensures routed.conversation.question != "" <==> Asked(s.conversation, t)
  {
    routed := Visit(RouteInput, s, t).value;
  }

  // Whatever the checkpoint holds, a turn runs a command of its own exactly if it answers no proposal
  // and either the model says so, or nothing was asked or quoted and a retrieved text is near enough;
  // then what runs is the best of those.
  lemma DirectRunsExactly(s: Checkpoint, t: Turn)
    requires InRange(t.answer)
    ensures var w := Walk(RouteInput, s, t);
      var answers := Answers(s.conversation, t);
      var direct := !answers && !Asked(s.conversation, t) && t.quoted == "" && Near(t);
      && w.Ended?
      && (w.at == Execute <==> direct || (!answers && t.answer.outcome == Command))
      && (w.at == Execute && !direct ==> Ran(w) == Some(t.answer.command))
      && (direct ==> exists e ::
            Top(t.retrieved, e) && e.score >= DIRECT_MATCH_SIMILARITY && Ran(w) == Some(e.command))
  {
    var routed := Routed(s, t);
    if !Answers(s.conversation, t) {
      NearIsMatched(if t.quoted != "" then t.quoted else routed.conversation.question, t);
      RequestTurn(routed, t);
    }
  }

  lemma ResumedByLog(log: seq<Event>, now: real)
    requires Honest(log)
    ensures LeftBy(log).Resumed(now) == if Pending(log, now) then LeftBy(log) else FRESH
    ensures Pending(log, now) <==> LeftBy(log).Resumed(now).question != ""
    ensures Proposed(log, now) <==> LeftBy(log).Resumed(now).status == AwaitingConfirmation
  {
  }

  lemma RequestTurn(s: Checkpoint, t: Turn)
    requires InRange(t.answer)
    ensures var w := Walk(RetrieveExamples, s, t);
            var near := DirectMatch(if t.quoted != "" then t.quoted else s.conversation.question, t.retrieved);
      && w.Ended? && w.at != ExecuteProposed && w.at != AskAgain
      && w.before == s.(examples := t.retrieved, decision := if near.Some? then near else Some(t.answer))
      && Some(w.at) == (if near.Some? then Some(Execute) else AfterLlm(w.before))
      && Some(w.after) == Visit(w.at, w.before, t)
  {
  }

  lemma TurnFromState(s: Checkpoint, log: seq<Event>, t: Turn)
    requires Tied(s, log) && InRange(t.answer)
    ensures var w := Walk(RouteInput, s, t);
      && w.Ended? && w.at == Due(log, t)
      && w.before.conversation == (if Pending(log, t.now) then LeftBy(log) else FRESH)
      && (w.at == ExecuteProposed || w.at == AskAgain ==> w.before.examples == s.examples)
      && (w.at != ExecuteProposed && w.at != AskAgain ==>
          && w.before.examples == t.retrieved
          && w.before.decision == if Matched(log, t).Some? then Matched(log, t) else Some(t.answer))
      && Some(w.after) == Visit(w.at, w.before, t)
  {
    ResumedByLog(log, t.now);
    var routed := Visit(RouteInput, s, t).value;
    assert Walk(RouteInput, s, t) == Walk(AfterInput(routed), routed, t);
    RequestTurn(routed, t);
  }

  // The heart: a turn does what the log calls for, and leaves a state the longer log explains.
  lemma TurnFollowsLog(s: Checkpoint, log: seq<Event>, t: Turn)
    requires Tied(s, log) && InRange(t.answer)
    ensures var w := Walk(RouteInput, s, t);
      && w.Ended? && w.at == Due(log, t) && Ran(w) == DueCommand(log, t)
      && Tied(w.after, log + [EventOf(t, w)])
      && Judged(w) == (match w.at
                       case ExecuteProposed => log[|log| - 1].turn.retrieved
                       case Execute => t.retrieved
                       case _ => [])
      && (w.at == AskAgain ==>
          Denial(w) == Some((log[|log| - 1].turn.text, log[|log| - 1].turn.answer.command)))
  {
    TurnFromState(s, log, t);
    var longer := log + [EventOf(t, Walk(RouteInput, s, t))];
    assert longer[..|longer| - 1] == log;
  }

  // The log of a run: one event an input, each due from the events before it.
  ghost predicate ItsDue(log: seq<Event>, i: nat)
    requires i < |log|
  {
    log[i].Spoke? ==>
      && InRange(log[i].turn.answer)
      && log[i].at == Due(log[..i], log[i].turn) && log[i].ran == DueCommand(log[..i], log[i].turn)
      && (log[i].at == Execute ==> log[i].judged == log[i].turn.retrieved)
      && (log[i].at == ExecuteProposed ==> i > 0 && log[i - 1].Spoke? && log[i].judged == log[i - 1].turn.retrieved)
      && (log[i].at == AskAgain ==>
          && i > 0 && log[i - 1].Spoke?
          && log[i].denial == Some((log[i - 1].turn.text, log[i - 1].turn.answer.command)))
  }

  ghost predicate FollowsLog(log: seq<Event>) {
    forall i: nat | i < |log| :: ItsDue(log, i)
  }

  lemma FollowsMore(log: seq<Event>, e: Event)
    requires FollowsLog(log) && ItsDue(log + [e], |log|)
    ensures FollowsLog(log + [e])
  {
    forall i: nat | i < |log| + 1 ensures ItsDue(log + [e], i) {
      if i < |log| {
        assert ItsDue(log, i) && (log + [e])[..i] == log[..i];
      }
    }
  }

  lemma {:induction false} RunsFollowLog(inputs: seq<Input>)
    requires AllInRange(inputs)
    ensures |Play(inputs).log| == |inputs|
    ensures FollowsLog(Play(inputs).log)
    ensures Tied(Play(inputs).checkpoint, Play(inputs).log)
    decreases |inputs|
  {
    if inputs != [] {
      var front := inputs[..|inputs| - 1];
      RunsFollowLog(front);
      var so := Play(front);
      if inputs[|inputs| - 1].Said? {
        var t := inputs[|inputs| - 1].turn;
        TurnFollowsLog(so.checkpoint, so.log, t);
        var e := EventOf(t, Walk(RouteInput, so.checkpoint, t));
        assert (so.log + [e])[..|so.log|] == so.log;
        FollowsMore(so.log, e);
      } else {
        FollowsMore(so.log, Erased);
      }
    }
  }

  // Main results

  // A proposal runs exactly when the turn right before made it, at most the resume window earlier, and
  // the user says yes; what runs is that proposal, judged on its own examples; and none runs twice.
  lemma ProposalsRunOnce(inputs: seq<Input>, i: nat)
    requires AllInRange(inputs) && i < |Play(inputs).log| && Play(inputs).log[i].Spoke?
    ensures var log := Play(inputs).log;
      && (log[i].at == ExecuteProposed <==>
          && i > 0 && log[i - 1].Spoke? && log[i - 1].at == Confirming && log[i].turn.reply == Yes
          && log[i].turn.now - log[i - 1].turn.repliedAt <= RESUME_WINDOW_SECONDS)
      && (log[i].at == ExecuteProposed ==>
          && log[i].ran == Some(log[i - 1].turn.answer.command)
          && log[i].judged == log[i - 1].turn.retrieved
          && forall j: nat :: j < i && log[j].Spoke? && log[j].at == ExecuteProposed ==> j < i - 1)
  {
    RunsFollowLog(inputs);
    var log := Play(inputs).log;
    assert ItsDue(log, i) && |log[..i]| == i;
  }

  // A decision that runs is the one this very turn made, whatever decision the checkpoint still held:
  // the model's, or the best of the retrieved examples when one is near enough and nothing was asked.
  lemma DecisionsRunInTheirTurn(inputs: seq<Input>, i: nat)
    requires AllInRange(inputs) && i < |Play(inputs).log| && Play(inputs).log[i].Spoke?
    ensures var log := Play(inputs).log;
            var t := log[i].turn;
            var answeredNow := log[i].at == ExecuteProposed || log[i].at == AskAgain;
            var near := !Pending(log[..i], t.now) && t.quoted == "" && Near(t);
      && (log[i].at == Execute <==> !answeredNow && (near || t.answer.outcome == Command))
      && (log[i].at == Execute ==> log[i].judged == t.retrieved)
      && (log[i].at == Execute && !near ==> log[i].ran == Some(t.answer.command))
      && (log[i].at == Execute && near ==> exists e ::
            Top(t.retrieved, e) && e.score >= DIRECT_MATCH_SIMILARITY && log[i].ran == Some(e.command))
      && (log[i].ran.Some? <==> log[i].at == Execute || log[i].at == ExecuteProposed)
  {
    RunsFollowLog(inputs);
    assert ItsDue(Play(inputs).log, i);
  }

  // A denial is logged next to the request and the proposal of the turn before.
  lemma DenialsNameTheirProposal(inputs: seq<Input>, i: nat)
    requires AllInRange(inputs) && i < |Play(inputs).log| && Play(inputs).log[i].Spoke?
    requires Play(inputs).log[i].at == AskAgain
    ensures var log := Play(inputs).log;
      && i > 0 && log[i - 1].Spoke? && log[i - 1].at == Confirming && log[i].turn.reply == No
      && log[i].denial == Some((log[i - 1].turn.text, log[i - 1].turn.answer.command))
  {
    RunsFollowLog(inputs);
    var log := Play(inputs).log;
    assert ItsDue(log, i) && |log[..i]| == i;
  }

  lemma {:induction false} TallySplits(log: seq<Event>)
    ensures Tally(log, SPENDING) == Tally(log, {Ask}) + Tally(log, {AskAgain})
    decreases |log|
  {
    if log != [] {
      TallySplits(log[..|log| - 1]);
    }
  }

  lemma {:induction false} AsksAreFew(log: seq<Event>)
    requires FollowsLog(log)
    ensures Tally(log, {Ask}) <= MAX_ATTEMPTS
    decreases |log|
  {
    if log != [] {
      var past := log[..|log| - 1];
      forall i: nat | i < |past| ensures ItsDue(past, i) {
        assert ItsDue(log, i) && past[..i] == log[..i];
      }
      AsksAreFew(past);
      TallySplits(past);
      assert ItsDue(log, |log| - 1);
    }
  }

  // What the checkpoint holds after any run: a proposal exactly while one awaits its confirmation, and
  // the attempts, which are the clarifications and denials since the last start, the former capped.
  lemma StateOfRuns(inputs: seq<Input>)
    requires AllInRange(inputs)
    ensures var c, log := Play(inputs).checkpoint.conversation, Play(inputs).log;
      && (c.proposed != "" <==> c.status == AwaitingConfirmation)
      && (c.question != "" <==> c.status != Idle)
      && (c.status == Idle ==> c == FRESH)
      && c.attempts == Tally(log, {Ask}) + Tally(log, {AskAgain})
      && Tally(log, {Ask}) <= MAX_ATTEMPTS
  {
    RunsFollowLog(inputs);
    TallySplits(Play(inputs).log);
    AsksAreFew(Play(inputs).log);
  }

  // Denials are not capped: alternating a low-confidence command and a no spends any number of attempts.

  function Offer(): Turn {
    Turn("?", "", Other, 0.0, 0.0, [], Decision(Confirm, ",x", "x?"))
  }

  function Refusal(): Turn {
    Offer().(text := "não", reply := No)
  }

  lemma OneMoreTurn(inputs: seq<Input>, t: Turn)
    requires AllInRange(inputs) && InRange(t.answer)
    ensures AllInRange(inputs + [Said(t)])
    ensures var log, longer := Play(inputs).log, Play(inputs + [Said(t)]).log;
      && longer != [] && longer[..|longer| - 1] == log
      && longer[|longer| - 1].Spoke? && longer[|longer| - 1].turn == t && longer[|longer| - 1].at == Due(log, t)
  {
    var more := inputs + [Said(t)];
    assert more[..|more| - 1] == inputs && more[|more| - 1] == Said(t);
    RunsFollowLog(inputs);
    TurnFollowsLog(Play(inputs).checkpoint, Play(inputs).log, t);
  }

  predicate JustDenied(log: seq<Event>) {
    log != [] && log[|log| - 1].Spoke? && log[|log| - 1].at == AskAgain && log[|log| - 1].turn.repliedAt == 0.0
  }

  lemma OfferThenRefusal(log: seq<Event>, offered: seq<Event>, refused: seq<Event>)
    requires log == [] || JustDenied(log)
    requires offered != [] && offered[..|offered| - 1] == log
    requires refused != [] && refused[..|refused| - 1] == offered
    requires var e := offered[|offered| - 1]; e.Spoke? && e.turn == Offer() && e.at == Due(log, Offer())
    requires var e := refused[|refused| - 1]; e.Spoke? && e.turn == Refusal() && e.at == Due(offered, Refusal())
    ensures JustDenied(refused) && Tally(refused, {AskAgain}) == Tally(log, {AskAgain}) + 1
  {
    assert Due(log, Offer()) == Confirming;
    assert Due(offered, Refusal()) == AskAgain;
    assert Tally(offered, {AskAgain}) == Tally(log, {AskAgain});
  }

  // A run of nothing but denied proposals, `n` of them.
  ghost predicate Stubborn(inputs: seq<Input>, n: nat) {
    && AllInRange(inputs)
    && var log := Play(inputs).log;
       (log == [] || JustDenied(log)) && Tally(log, {AskAgain}) == n
  }

  lemma DeniedAgain(inputs: seq<Input>, n: nat) returns (refused: seq<Input>)
    requires Stubborn(inputs, n)
    ensures Stubborn(refused, n + 1)
  {
    var offered := inputs + [Said(Offer())];
    refused := offered + [Said(Refusal())];
    OneMoreTurn(inputs, Offer());
    OneMoreTurn(offered, Refusal());
    OfferThenRefusal(Play(inputs).log, Play(offered).log, Play(refused).log);
  }

  lemma {:induction false} DenialsAreNotCapped(n: nat)
    ensures exists inputs :: Stubborn(inputs, n)
  {
    if n == 0 {
      assert Stubborn([], 0);
    } else {
      DenialsAreNotCapped(n - 1);
      var inputs :| Stubborn(inputs, n - 1);
      var more := DeniedAgain(inputs, n - 1);
    }
  }
}
