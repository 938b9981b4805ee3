# Verification of the bot's protocols and algorithms

A Dafny model of the parts of the bot and its gateway whose correctness is hard to see from one
body: the command delivery protocol, the optimistic MongoDB updates, the token budget and the turn
limiter, the agent's conversation, span self time, the two greedy assignments, the two text
algorithms and the config cache. `dafny verify dfyconfig.toml` checks the whole project.

Where the source changes state in place, a class or an array method repeats its steps and is proved
against a function or a transition; where calls interleave, a transition system takes one step
between two awaits (or one atomic database operation), and the results are about every run of it.

| File | What it models |
|---|---|
| `Envelopes.dfy`, `Delivery.dfy` | The command envelope, and the delivery protocol as a transition system: queues, unacked deliveries with their stage, claim set, inbox, lane, replies, crashes, operator replay |
| `DeliverySafety.dfy`, `DeliveryLoss.dfy`, `DeliveryProgress.dfy`, `DeliveryReplays.dfy` | What every run keeps, when a key can be lost, why the ladder ends, and how often replays are answered |
| `CommandConsumer.dfy` | The consumer object and the replay loop, tied to the transition system |
| `AuthState.dfy`, `MentionLists.dfy` | Versioned credential saves and mention lists, under any interleaving of calls |
| `TokenBudget.dfy`, `RateLimiter.dfy` | The self-expiring token bucket and the fixed-window limiter |
| `Conversations.dfy` | Checkpointed conversation, graph nodes and edges, whole runs of turns |
| `ConversationRaces.dfy` | The same graph with overlapping turns of one user in a chat, on one clock |
| `SelfTime.dfy` | The interval sweep and the open-span table |
| `TeamNameMatcher.dfy`, `Formations.dfy`, `LineupAssigner.dfy` | Greedy club pairing, slot labels, lineup filling |
| `AudioSplit.dfy`, `OpggParser.dfy`, `PyText.dfy` | Speech chunking, the nested object parser, `str.strip` |
| `ConfigCache.dfy` | The read-through config cache |

## What the proofs found

- A keyed command can be lost. If the retry TTL returns a parked copy while the delivery that parked
  it still holds its claim, the claim check acks the only copy left. `EarlyRetryLosesTheKey` is such
  a run, `LossExactly` says no other step loses a key, and `NeverLost` holds whenever a retry copy
  stays parked until its parking delivery has released the claim.
- `refill_at` looks only at buckets at or below zero. A bucket holding a fraction of a token may
  still hold less than one at the returned time: `FractionIsSkipped` is a policy and a history of
  spending that get there. `WholeTokenExactly` is the exact condition on the balances, and
  `RefillAdmits` what always holds: every bucket is positive by then.
- The OP.GG pattern for an object stops at a newline, so an object with a newline anywhere inside is
  taken for a plain value: `RoundTripExactly` has the equivalence, `LineBreaksAnObject` an input.
- Any interval of the limiter's window length admits at most 2 * MAX_TURNS - 1 calls, one less than
  two windows could hold, and that bound is reached.
- Denials spend an attempt but are never refused, so attempts are not bounded by MAX_ATTEMPTS
  (`DenialsAreNotCapped`), though clarifications are; `docs/architecture.md` says only that a denial
  spends one.
- A player listed in two groups can cost a slot (`SharedNameCostsASlot`). A group still fills what
  the names it has to itself allow (`OwnNamesFill`), and no lineup fills more than twice as many
  slots in all (`AtLeastHalf`); the input that costs a slot attains that.
- Nothing keeps two messages of one user in a chat from being handled at once, so one proposal can
  run twice (`TwoYesesRunTwice`). The answer that runs a proposal spends it if and only if no other
  turn is about to run it and none in flight still carries it in its window (`AnswerSpendsExactly`);
  turns that do not overlap run it once.
- The TTL of the config cache bounds more than edits made straight in the database: a load that read
  before a write and finishes after it caches the old config again, and a later load that overlaps
  nothing returns it (`OverlapGoesStale`). `AgreementExactly` says exactly when an entry goes stale.
- The key of a command joins chat and message id with a colon, so it is the command's own only where
  chat names have no colon or one chat is concerned; `SharedKeyExactly` has the commands that share one.
- A dead letter keeps the `attempts` it arrived with, at most MAX_ATTEMPTS - 1, although the replay
  script's test uses 3.

## Model

| member | source | states |
|---|---|---|
| Envelopes.SharedKeyExactly | bot/adapters/broker/delivery_guard.py:46-51 | A command has a key exactly when it has a nonempty message id, and two commands share one if and only if they are the same, or one chat's name is the other's followed by a colon that the other's id has in it too |
| Envelopes.KeyIsOwn | bot/adapters/broker/delivery_guard.py:46-51 | In one chat, among messages of one id, and between chats without a colon in their names, equal keys mean the same chat and the same id |
| DeliverySafety.InvKept | bot/adapters/broker/command_consumer.py:81-166 | Every step of any delivery, of the broker, of Redis, of the operator or of a crash keeps the claim, ladder, lane, inbox, reply-count and prefetch invariants together |
| DeliverySafety.InvAlways | bot/adapters/broker/command_consumer.py:67-166 | The invariants hold at the end of every run from a state that has them |
| DeliverySafety.ClaimsKept | bot/adapters/broker/delivery_guard.py:14-31 | A key is in the running set exactly while one unacked original holds it, and never two; replays are outside |
| DeliverySafety.LaneKept | bot/adapters/broker/command_consumer.py:146-151 | A delivery inside the lane is its owner, and the owner is a delivery between entering and release |
| DeliverySafety.InboxKept | bot/adapters/broker/command_consumer.py:159-166 | A key marked done, or a delivery past the reply, always has a published final reply |
| DeliverySafety.BoundKept | bot/adapters/broker/delivery_guard.py:33-44 | Original replies to a key less its crash hits and expired marks stay at most one, and none is owed again while one is unexcused |
| DeliverySafety.PrefetchKept | bot/infrastructure/broker.py:45-48 | Never more than the prefetch count of deliveries is unacked |
| DeliveryProgress.CountersMatchRun | bot/adapters/broker/command_consumer.py:159-166 | The hit and expiry counters of a state are the crashes between reply and mark, and the expiries, that its run contains |
| DeliveryProgress.RepliesBounded | bot/adapters/broker/command_consumer.py:95-166 | In every run, final replies to originals of a key are at most 1 plus the crashes that hit it between reply and mark plus the expiries of its mark |
| DeliveryProgress.WorkFalls | bot/adapters/broker/retry_router.py:22-44 | Every step other than an arrival, a step of the operator's replay, a crash or an expiry lowers a measure in which a parked retry weighs less than the run it follows |
| DeliveryProgress.LadderEnds | bot/adapters/broker/retry_router.py:22-44 | Undisturbed, a run is no longer than the work it starts with: the ladder ends |
| DeliveryProgress.NeverStuck | bot/adapters/broker/command_consumer.py:95-166 | Some system step is enabled whenever a message is not yet replied to, dead-lettered or gone; the lane never deadlocks |
| DeliveryProgress.Drains | bot/adapters/broker/command_consumer.py:95-166 | From every reachable state the system can finish all its messages on its own |
| DeliveryProgress.AtLeastOnce | bot/adapters/broker/command_consumer.py:95-166 | A run that keeps retry copies parked long enough and ends with nothing pending has replied to the key of every command with a message id that arrived in it, and in its chat that key is no other command's |
| DeliveryProgress.ExactlyOnce | bot/adapters/broker/command_consumer.py:95-166 | If moreover nothing crashed, expired or was replayed, each command that arrived has exactly one reply, which it shares in its chat only with its own duplicates |
| DeliveryProgress.LadderAndLane | bot/adapters/broker/retry_router.py:13-44 | In every run attempts stay below MAX_ATTEMPTS in every queue, at most one delivery is in the lane, and the set of unacked messages has at most four |
| DeliveryProgress.RefusedByCopy | bot/adapters/broker/delivery_guard.py:14-26 | In every run a refused delivery finds another unacked original holding its key, which in the same chat is a copy of the same command |
| DeliveryProgress.AnsweredByCopy | bot/adapters/broker/delivery_guard.py:33-51 | In every run a delivery taken for answered has its key marked by an earlier step for a message of that key, which in the same chat is the same command |
| DeliveryProgress.EarlyRetryLosesTheKey | bot/adapters/broker/delivery_guard.py:21-31 | A run that ends quiet with an accepted key and no reply at all: the parked copy returned before the claim was released |
| DeliveryLoss.LossExactly | bot/adapters/broker/delivery_guard.py:14-31 | A step loses a safe key if and only if it is the claim that refuses the last productive copy while the holder has only a parked retry left |
| DeliveryLoss.WorkSurvives | bot/adapters/broker/command_consumer.py:101-166 | A message that can still produce a reply leaves one, a reply or another such message, after any step but its own refusal |
| DeliveryLoss.BackedKept | bot/infrastructure/broker.py:59-71 | If no copy leaves the retry queue under a held claim, every parking delivery still has its copy there |
| DeliveryLoss.LostExactly | bot/adapters/broker/command_consumer.py:81-166 | Through every run each accepted key keeps a reply or a message that can still produce one, if and only if no step of the run is that claim |
| DeliveryLoss.NeverLost | bot/adapters/broker/command_consumer.py:81-166 | In runs where retry copies stay parked, through crashes, duplicates, redeliveries and replays, each accepted key has a reply or a message that can still produce one |
| DeliveryReplays.AccountKept | bot/adapters/broker/command_consumer.py:95-166 | Replies to replays of a key plus those still owed change only by a replay, or by a crash that returns a replay which had done its part |
| DeliveryReplays.ReplayRepliesExactly | scripts/replay_dlq.py:32-47 | In every run the replies to replays of a key and those still owed are exactly the replays of it plus the deliveries of them that crashes made run again |
| DeliveryReplays.ReplayMovesOne | scripts/replay_dlq.py:32-47 | An uninterrupted replay of one dead letter takes it out of the queue and puts a copy with attempts 0 and the replay flag among the commands, and changes nothing else |
| DeliveryReplays.DeadLetterStays | scripts/replay_dlq.py:32-47 | Through every run, crashes and abandoned replays included, a dead letter stays in the queue or a replayed copy of it was sent back |
| CommandConsumer.Consumer.TryClaim | bot/adapters/broker/delivery_guard.py:14-26 | Check and add of the claim are one step, refused exactly when the key of a non-replay is running |
| CommandConsumer.Consumer.AlreadyAnswered | bot/adapters/broker/delivery_guard.py:33-38 | The inbox question: true exactly for a keyed original whose key is marked |
| CommandConsumer.Consumer.EnterFreeLane | bot/adapters/broker/command_consumer.py:146-151 | Queueing for and entering a free lane are the two lane steps of the protocol |
| CommandConsumer.Consumer.Route | bot/adapters/broker/retry_router.py:22-44 | One failure parks a copy with one more attempt or dead-letters it, as the attempts allow |
| CommandConsumer.Consumer.PublishReply | bot/adapters/broker/command_consumer.py:159-166 | The reply goes out, then the key is marked: two steps in that order |
| CommandConsumer.Consumer.ReleaseAll | bot/adapters/broker/delivery_guard.py:27-31 | Claim and lane are given back in one step |
| CommandConsumer.Consumer.Finish | bot/adapters/broker/command_consumer.py:112-157 | The outcome branches: run, retry or dead-letter, reply |
| CommandConsumer.Consumer.Handle | bot/adapters/broker/command_consumer.py:67-106 | One delivery handled without interruption, an exclusive command through a free lane |
| CommandConsumer.HandledIsARun | bot/adapters/broker/command_consumer.py:67-166 | Handling without interruption is a run of the transition system, so every result about runs covers it |
| CommandConsumer.HandledLeaves | bot/adapters/broker/command_consumer.py:95-166 | What it leaves: claim set and lane as found; nothing else if the key was running or answered; else one reply and a mark unless parked; on failure one retry copy with one more attempt if no download failed and fewer than two came before, else one dead letter |
| CommandConsumer.ExpiryAnswersAgain | bot/adapters/broker/delivery_guard.py:33-44 | A duplicate of an answered command is not answered while its mark lasts, and is answered once more when the mark has expired |
| CommandConsumer.DlqReplayer.Replay | scripts/replay_dlq.py:32-47 | Every dead letter moves to the end of the commands in order, with attempts 0 and the replay flag, and the count is theirs |
| AuthState.SavesAreCalls | gateway/src/auth/MongoDBAuthState.ts:78-83 | After any run the saves are its calls in order: the n-th has the snapshot the n-th call took and the n-th version after the one found |
| AuthState.VersionNeverDecreases | gateway/src/auth/MongoDBAuthState.ts:75-91 | Under any interleaving of saves the stored version never decreases |
| AuthState.NewestReturnedWins | gateway/src/auth/MongoDBAuthState.ts:75-91 | Once the latest save returns, the document is the snapshot its call took with its version, whatever older saves still do |
| AuthState.AllReturned | gateway/src/auth/MongoDBAuthState.ts:75-91 | Once all saves return, the document is the snapshot the run's last call took, with its version; with no call it is untouched |
| AuthState.ReturnedIsDurable | gateway/src/auth/MongoDBAuthState.ts:78-91 | After the n-th save returned the document is the snapshot some call from the n-th on took |
| AuthState.OlderCreateLoses | gateway/src/auth/MongoDBAuthState.ts:84-90 | A run in which two saves both miss the document; the newer one makes it, the older one hits the duplicate key, and its plain update leaves it |
| AuthState.SavesReturn | gateway/src/auth/MongoDBAuthState.ts:84-90 | Every pending save can return within its two updates: the second never needs a third |
| AuthState.Creds.UpdateOne | gateway/src/auth/MongoDBAuthState.ts:80-85 | One filtered update: written if the filter matches or an upsert finds nothing, a duplicate key if an upsert misses, else nothing |
| AuthState.Creds.SaveCreds | gateway/src/auth/MongoDBAuthState.ts:78-91 | An uninterrupted save raises the version and stores the snapshot unless a newer document is there |
| MentionLists.CallsLinearize | bot/domain/services/mentions/create_mention_list.py:37-49 | Each call takes effect in one step or not at all, and answers yes exactly when what it asks holds at that instant |
| MentionLists.TidyKept | bot/domain/services/mentions/rename_mention_list.py:12-30 | No step of create, rename, add, delete or exit repeats a name in a chat or a participant in a group |
| MentionLists.LedgerBalances | bot/domain/services/mentions/delete_mention_list.py:11-18 | Over any interleaving the presence of a name changes by successful creates and renames-in less deletes and renames-out |
| MentionLists.ChatStaysTidy | bot/domain/services/mentions/create_mention_list.py:14-49 | From a tidy or missing document a chat stays tidy, and the balance of a name is its presence at the end less its presence at the start |
| MentionLists.ExitRemovesSelected | bot/domain/services/mentions/exit_mention_list.py:27-69 | Only the write of an exit removes, only from its own group, and only people its read, however stale, had: with nobody named those who are the sender, else those at a listed place counted from 1 or mentioned |
| MentionLists.NewParticipants | bot/domain/services/mentions/create_mention_list.py:23-25 | A new group has its creator and every nonempty mention, normalized, each once, and nobody else |
| MentionLists.Normalized | bot/domain/services/mentions/add_to_mention_list.py:21-25 | The normalized list has exactly the nonempty mentions, normalized |
| MentionLists.CallsAreBegun | bot/domain/services/mentions/create_mention_list.py:14-49 | The calls of a run are the operations begun in it, in order, and none changes what it asked for |
| MentionLists.BothCreatesSucceed | bot/domain/services/mentions/create_mention_list.py:37-49 | A run in which two creates both miss the document; the second hits the duplicate key, and its plain update succeeds |
| MentionLists.RetryFindsItFree | bot/domain/services/mentions/create_mention_list.py:37-49 | A run in which a create finds its name taken, the name is deleted, and its second try succeeds |
| MentionLists.ChatDocument.PushUnlessTaken | bot/domain/services/mentions/create_mention_list.py:37-49 | One guarded push: pushed exactly if the name is free, a duplicate key for either reason otherwise |
| MentionLists.AloneIsARun | bot/domain/services/mentions/create_mention_list.py:37-49 | A call nothing interrupts is a run of its own operations, at most three, ending where it ends alone |
| MentionLists.ChatDocument.Create | bot/domain/services/mentions/create_mention_list.py:14-49 | An uninterrupted create: succeeds exactly when the name is free, then the table has it with its people and is otherwise as before; a tidy chat stays tidy; the same as the call run alone |
| MentionLists.ChatDocument.Rename | bot/domain/services/mentions/rename_mention_list.py:12-30 | Succeeds exactly when the old name is there and the new one is not; then the new name has the old one's people, the old name is gone, every other name is as before, and a tidy chat stays tidy |
| MentionLists.ChatDocument.Add | bot/domain/services/mentions/add_to_mention_list.py:13-39 | Succeeds exactly when the name is there; then its people are the union with those added, or with the sender when nobody is named, every other name is as before, and nobody is in a group twice |
| MentionLists.ChatDocument.Delete | bot/domain/services/mentions/delete_mention_list.py:11-26 | Succeeds exactly when the name is there; then it is gone, every other name is as before, and a tidy chat stays tidy |
| MentionLists.ChatDocument.Exit | bot/domain/services/mentions/exit_mention_list.py:20-69 | With nobody named exactly the members who normalize to the sender leave, else exactly those at a listed place counted from 1 and those who normalize to a mention; it succeeds exactly when there is one, every other group is as before, a tidy chat stays tidy, and it is the call run alone |
| TokenBudget.ExpiryRefines | bot/infrastructure/token_budget.py:46-58 | Over any settlements at nondecreasing times the self-expiring key returns the balances of a bucket that never expires |
| TokenBudget.PeeksAreFree | bot/infrastructure/token_budget.py:46-58 | Zero-cost settlements can be dropped from a history without changing any later balance |
| TokenBudget.DebitsExactly | bot/infrastructure/token_budget.py:46-58 | What is left of a history without its peeks is every other settlement, as often as before |
| TokenBudget.PeeksLeaveNoTrace | bot/infrastructure/token_budget.py:46-58 | The same of the stored key, expiry included |
| TokenBudget.WaitIsLongest | bot/infrastructure/token_budget.py:68-80 | The wait is the longest delay of the buckets at or below zero, and zero exactly when all are positive |
| TokenBudget.RefillAdmits | bot/infrastructure/token_budget.py:68-80 | At the returned time every bucket is positive, and each that was empty holds a token |
| TokenBudget.WholeTokenExactly | bot/infrastructure/token_budget.py:71-77 | Every bucket holds a whole token then if and only if each bucket found with a positive fraction has an empty one beside it that needs at least as long |
| TokenBudget.ReadingAfterWait | bot/infrastructure/token_budget.py:48-58 | What the check counts on is what the stored bucket reads after the wait, expiry included |
| TokenBudget.FractionIsSkipped | bot/infrastructure/token_budget.py:68-80 | A policy and two debits after which the returned time leaves the sender's bucket below a token |
| TokenBudget.OverdraftBounded | bot/infrastructure/token_budget.py:38-58 | With at most k admitted calls in flight, each costing at most C, every balance a check or a debit returns, refused checks included, stays above -k*C |
| TokenBudget.SpendingBounded | bot/infrastructure/token_budget.py:38-58 | Tokens debited within a period stay under capacity plus what refills in it plus k*C |
| TokenBudget.Buckets | bot/infrastructure/token_budget.py:103-112 | A call has a bucket of a given size under a key exactly if it is the sender's at the user size or, in a group only, the chat's at the group size; owners have none, and the keys are distinct |
| TokenBudget.KeysAreOwn | bot/infrastructure/token_budget.py:107-110 | Different senders have different keys, different chats too, and no sender shares one with a chat |
| TokenBudget.CallSettlesOwn | bot/infrastructure/token_budget.py:86-112 | Key by key: a private call settles the sender's bucket at the user size and no other key, a group call in addition the chat's at the group size, an owner's call none |
| TokenBudget.WaitOfCall | bot/infrastructure/token_budget.py:68-80 | The wait of the loop is that of the sender's bucket in private, the longer of the two in a group, and none for an owner |
| TokenBudget.ChecksAdmit | bot/infrastructure/token_budget.py:68-84 | A check lets a call through for a bucket if and only if the history of the bounds allows its admission; then it may cost anything up to C |
| TokenBudget.SettlingIsTheEvent | bot/infrastructure/token_budget.py:48-58 | Settling a check or a report leaves the stored bucket in step with that history |
| TokenBudget.Budget.SettleOne | bot/infrastructure/token_budget.py:48-58 | One run of the script: the returned balance and the stored entry are the settled ones |
| TokenBudget.SettledOnce | bot/infrastructure/token_budget.py:86-97 | Each bucket of a call is settled once, from the entry the call found |
| TokenBudget.OthersUntouched | bot/infrastructure/token_budget.py:86-97 | No other key changes |
| TokenBudget.Budget.SettleAll | bot/infrastructure/token_budget.py:86-97 | The balances are those the call found less the cost, and the store is the debited one |
| TokenBudget.Budget.RefillAt | bot/infrastructure/token_budget.py:68-80 | A refill time exactly when enforcing and the sender's bucket, or in a group the chat's, is at or below zero: then the later of the times these hold a token; it settles nothing but peeks at those keys |
| TokenBudget.Budget.Spend | bot/infrastructure/token_budget.py:82-84 | Debits the reported tokens from the sender's bucket and in a group from the chat's; every other key, and with an owner every key, is as before |
| RateLimiter.TurnIsPlace | bot/infrastructure/agent_rate_limiter.py:25-39 | A call's turn number is its place among the calls of its window |
| RateLimiter.FirstTurnsAdmitted | bot/infrastructure/agent_rate_limiter.py:25-39 | A call is admitted exactly when fewer than MAX_TURNS came before it in its window |
| RateLimiter.IntervalBounded | bot/infrastructure/agent_rate_limiter.py:25-39 | Any half-open interval of the window's length admits at most 2 * MAX_TURNS - 1 calls |
| RateLimiter.IntervalBoundIsSharp | bot/infrastructure/agent_rate_limiter.py:25-39 | A history that reaches that bound |
| RateLimiter.Limiter.Allow | bot/infrastructure/agent_rate_limiter.py:25-39 | Opens or counts in the conversation's own window and admits the first MAX_TURNS |
| Conversations.Best | bot/application/example_selector.py:38-47 | The first of the best-scored examples, none exactly when there is none |
| Conversations.DirectRunsExactly | bot/application/example_selector.py:38-47 | Whatever the checkpoint holds, a turn that answers no proposal runs a command of its own if and only if the model says so, or nothing is asked or quoted and a retrieved example scores at least DIRECT_MATCH_SIMILARITY; then what runs is the best such example's command, else the model's |
| Conversations.EveryTurnEnds | bot/infrastructure/llm/graph_orchestrator.py:90-122 | Whatever the checkpoint holds, a turn reaches a terminal node and no lookup fails |
| Conversations.TurnFromState | bot/infrastructure/llm/agent_graph_nodes.py:103-157 | A turn's path, and what its last node reads, follow from the log of earlier turns and this turn alone |
| Conversations.TurnFollowsLog | bot/infrastructure/llm/agent_graph_nodes.py:103-170 | A turn ends where the log calls for, runs the command due, and leaves a state the longer log explains |
| Conversations.RunsFollowLog | bot/infrastructure/llm/graph_orchestrator.py:71-76 | The same of every event of every run of turns that do not overlap, checkpoint expiries included |
| Conversations.ProposalsRunOnce | bot/infrastructure/llm/agent_graph_nodes.py:133-137 | In runs of turns that do not overlap, a proposal runs exactly when the turn right before made it at most 180 s earlier and the user says yes; it is that command, judged on its own examples, and none runs twice |
| Conversations.DecisionsRunInTheirTurn | bot/infrastructure/llm/agent_graph_nodes.py:110-131 | A decision that runs was made in that very turn, though the checkpoint keeps older ones: the model's, or the best retrieved example's when one scores at least DIRECT_MATCH_SIMILARITY with no question pending and nothing quoted |
| Conversations.DenialsNameTheirProposal | bot/infrastructure/llm/agent_graph_nodes.py:139-141 | A denial is logged with the request and the proposal of the turn before it |
| Conversations.StateOfRuns | bot/domain/models/conversation.py:30-60 | In every such run a proposal is held exactly while a confirmation is awaited, a question exactly while waiting, attempts are the clarifications and denials since the last start, and at most MAX_ATTEMPTS of them are clarifications |
| Conversations.DenialsAreNotCapped | bot/domain/models/conversation.py:39-60 | For every n a run with n denials in a row of proposals |
| ConversationRaces.AloneIsTheWalk | bot/infrastructure/llm/graph_orchestrator.py:71-76 | A turn nothing interrupts stores and runs what the walk through the graph does |
| ConversationRaces.RunsAreProposals | bot/infrastructure/llm/agent_graph_nodes.py:103-137 | However turns overlap, what runs on a yes is exactly a command some turn proposed before, at most 180 s earlier |
| ConversationRaces.SpentExactly | bot/domain/models/conversation.py:34-37 | A proposal can still run if and only if a turn is about to run it, or it is in its 180 s and the shared checkpoint holds it or a turn in flight carries it |
| ConversationRaces.AnswerSpendsExactly | bot/infrastructure/llm/agent_graph_nodes.py:133-137 | The answer that runs a proposal spends it if and only if no other turn is about to run it and, while its 180 s last, none in flight carries it |
| ConversationRaces.WaitingSpends | bot/domain/models/conversation.py:34-37 | Once its 180 s are over a proposal is spent if and only if no turn is about to run it |
| ConversationRaces.ExpirySpends | bot/infrastructure/llm/graph_orchestrator.py:85-88 | With no turn in flight, the expiry of the checkpoint spends every proposal |
| ConversationRaces.TwoYesesRunTwice | bot/infrastructure/llm/graph_orchestrator.py:71-76 | A run in which two messages of a user that say yes run one proposal twice |
| SelfTime.PointsExactly | bot/infrastructure/self_time.py:58-68 | The reference set: the instants from the parent's start on that some interval covers |
| SelfTime.Union | bot/infrastructure/self_time.py:58-68 | The sweep returns the size of that set for intervals in any order, degenerate ones included |
| SelfTime.SelfTimeProcessor.OnStart | bot/infrastructure/self_time.py:37-39 | Opens an empty list for the span |
| SelfTime.SelfTimeProcessor.OnEnd | bot/infrastructure/self_time.py:41-56 | Closes the span, adds it to its parent's list only while that is open, and records duration less the covered instants |
| SelfTime.SelfTimeInRange | bot/infrastructure/self_time.py:41-56 | In every trace each self time lies between zero and the duration, children that outlive their parent included |
| SelfTime.TreeAddsUp | bot/infrastructure/self_time.py:37-68 | When no span of a tree is open, its root's parent absent, remote or ended, whatever other trees are open, its self times add up to the root's duration, those of the spans that outlived their parent, and the sibling overlap |
| SelfTime.ContainedTreeAddsUp | bot/infrastructure/self_time.py:37-68 | With each child inside its parent the tree is closed when its root ends, and then its self times add up to the root's duration plus the sibling overlap |
| SelfTime.TableIsOpenSpans | bot/infrastructure/self_time.py:37-52 | In every trace the table has an entry for exactly the open spans, so it is empty when none is open |
| SelfTime.OverlapNotNegative | bot/infrastructure/self_time.py:58-68 | Sibling overlap is never negative |
| TeamNameMatcher.RankingIsExact | bot/domain/services/team_name_matcher.py:21-28 | The ranking holds exactly the scored pairs |
| TeamNameMatcher.Ranking | bot/domain/services/team_name_matcher.py:21-28 | It is best first in tuple order |
| TeamNameMatcher.Pair | bot/domain/services/team_name_matcher.py:19-36 | The loop computes the greedy matching of the ranking |
| TeamNameMatcher.PairIsStable | bot/domain/services/team_name_matcher.py:20-36 | The pairing is injective, eligible, and no eligible pair of clubs would both rather have each other, by overlap, then ratio, then the later name |
| TeamNameMatcher.StableIsUnique | bot/domain/services/team_name_matcher.py:20-36 | It is the only such pairing |
| TeamNameMatcher.PairKeepsHalf | bot/domain/services/team_name_matcher.py:20-36 | Any other matching of eligible pairs has at most twice its overlap |
| TeamNameMatcher.Best | bot/domain/services/team_name_matcher.py:15-17 | A candidate of the best overlap and among those the best ratio, equal ones by the later name; none exactly when none is eligible |
| TeamNameMatcher.TextLeqExactly | bot/domain/services/team_name_matcher.py:21-28 | Equal scores go by text order: a prefix first, else the smaller character at the first difference |
| Formations.LabelDef | bot/data/football_formations.py:298-307 | In place: LB for the leftmost and RB for the rightmost of at least three, CB otherwise; other entries untouched |
| Formations.LabelAtt | bot/data/football_formations.py:310-319 | In place: LW and RW at the ends of at least three, ST otherwise |
| Formations.LabelMid | bot/data/football_formations.py:322-330 | In place: DM, AM or CM by depth |
| Formations.SpecificRoles | bot/data/football_formations.py:336-351 | Every slot gets the label its place calls for, blank for an unknown role |
| Formations.LabelsStayInGroup | bot/data/football_formations.py:276-289 | A slot's label belongs to the slot's own group |
| Formations.OneSlotPerFlank | bot/data/football_formations.py:298-319 | A line of at least three has exactly one slot on each flank |
| Formations.FlankIsOutermost | bot/data/football_formations.py:298-319 | A full back or winger has its whole line on its other side, level slots by formation order |
| Formations.DeeperIsNoMoreAdvanced | bot/data/football_formations.py:322-330 | Of two midfielders the deeper one is never labelled further forward; DM is from 0.50 on, AM below 0.36 |
| LineupAssigner.FindPlayer | bot/domain/services/lineup_assigner.py:39-61 | The loop finds what the specification does: the specific pool first and then the group's pools in order |
| LineupAssigner.FindsInOrder | bot/domain/services/lineup_assigner.py:48-61 | The first unused player of the slot's own pool if it has one, else of the first pool of its role that has one, else none; the roles listed label by label |
| LineupAssigner.StockExactly | bot/data/football_formations.py:276-289 | A slot may hold exactly the names in the pools labelled for its role, for an unknown role those of the unlabelled pool |
| LineupAssigner.FindsTheStock | bot/domain/services/lineup_assigner.py:39-61 | A player is found exactly when an unused name of the slot's group is left, and is one |
| LineupAssigner.AssignSlots | bot/domain/services/lineup_assigner.py:15-37 | The in-place loop fills the list as the specification does |
| LineupAssigner.ScarcestFirst | bot/data/football_formations.py:354-364 | Slots are taken flanks first, then AM and DM, then the keeper, then the rest, ties in formation order |
| LineupAssigner.LineupIsSafe | bot/domain/services/lineup_assigner.py:29-37 | No name is used twice and every player is of the slot's group |
| LineupAssigner.OwnNamesFill | bot/domain/services/lineup_assigner.py:15-61 | Whatever names are shared, a group fills at least the minimum of its slots and the names in stock for it alone |
| LineupAssigner.GroupsAreFilled | bot/domain/services/lineup_assigner.py:15-61 | If no name is in two groups, each group gets the minimum of its slots and its distinct names |
| LineupAssigner.NoLineupFillsMore | bot/domain/services/lineup_assigner.py:15-61 | That is the most any lineup with distinct names of the right groups can do |
| LineupAssigner.AtLeastHalf | bot/domain/services/lineup_assigner.py:15-61 | Whatever names are shared, no lineup with distinct names of the right groups fills more than twice as many slots |
| LineupAssigner.SharedNameCostsASlot | bot/domain/services/lineup_assigner.py:24-37 | With a name in two groups, an input where another lineup fills two slots and this one fills one |
| AudioSplit.LastBreak | bot/domain/commands/audio.py:109-114 | The last separator of a range, -1 exactly when there is none |
| AudioSplit.BreaksExactly | bot/domain/commands/audio.py:26 | The separators are whitespace, the byte order mark and the 31 listed characters; no letter, digit or backslash is one |
| AudioSplit.CutFrom | bot/domain/commands/audio.py:85-102 | The cut one turn of the loop makes is the latest one allowed |
| AudioSplit.SplitLongText | bot/domain/commands/audio.py:74-104 | The loop ends and returns the pieces or raises at the same place |
| AudioSplit.PiecesAreTheText | bot/domain/commands/audio.py:74-104 | Pieces join to the text and are nonempty and at most 200 long; a raise names a word too long |
| AudioSplit.RaisesExactly | bot/domain/commands/audio.py:92-99 | It raises if and only if the text has 201 characters in a row that are no separator |
| AudioSplit.FewestPieces | bot/domain/commands/audio.py:74-104 | No other split beside separators into pieces of at most 200 has fewer pieces |
| AudioSplit.SplitsIfAnyDoes | bot/domain/commands/audio.py:74-104 | It splits if and only if some such split exists |
| OpggParser.SplitArgs | bot/infrastructure/opgg_client.py:184-208 | The loop returns the specified arguments |
| OpggParser.SplitUndoesJoin | bot/infrastructure/opgg_client.py:184-208 | Splitting undoes joining by commas and any padding, for balanced trimmed arguments |
| OpggParser.PrintIsOneArg | bot/infrastructure/opgg_client.py:184-224 | A printed tree is one balanced argument |
| OpggParser.ParseUndoesPrint | bot/infrastructure/opgg_client.py:170-224 | Parsing a printed tree gives back what the tree means |
| OpggParser.KindsExactly | bot/infrastructure/opgg_client.py:210-224 | An argument is a list exactly if brackets enclose it, an object exactly if it is a class name with parentheses on one line, else its own text; whitespace around it does not matter |
| OpggParser.FieldsByPlace | bot/infrastructure/opgg_client.py:170-182 | A parsed object has a field for each argument, named by its class's list in order and `field_n` past it, holding what that argument parses to, the last one where two share a name |
| OpggParser.RoundTripExactly | bot/infrastructure/opgg_client.py:218-224 | For an object that holds if and only if the printed text has no newline |
| OpggParser.LineBreaksAnObject | bot/infrastructure/opgg_client.py:218-224 | An object with a newline in a leaf comes back as one plain value |
| ConfigCache.InvKept | bot/infrastructure/cached_config_store.py:29-52 | Every step of loads, writes, invalidations, edits and time keeps each entry's value one the store held at or after its stamp |
| ConfigCache.AnswersAreFresh | bot/infrastructure/cached_config_store.py:29-37 | In every interleaving each returned config was the store's during the load or less than the TTL before it |
| ConfigCache.AnswersAreExact | bot/infrastructure/cached_config_store.py:10-12 | With no direct edit and no load across a write, every returned config is the store's at that instant |
| ConfigCache.BreaksExactly | bot/infrastructure/cached_config_store.py:29-52 | A step makes a chat's entry stale if and only if, with no write of the chat between store and cache, a load finishes whose config changed since it read, or an edit changes a cached config |
| ConfigCache.AgreementExactly | bot/infrastructure/cached_config_store.py:10-12 | Over every run the entry agrees throughout if and only if no step is one of those |
| ConfigCache.ChangedBetween | bot/infrastructure/cached_config_store.py:39-49 | A config that differs between two instants was changed at an instant between them |
| ConfigCache.OverlapGoesStale | bot/infrastructure/cached_config_store.py:29-52 | A run without edits in which a load across a write leaves the old value cached |
| ConfigCache.LoadIsARun | bot/infrastructure/cached_config_store.py:29-37 | An uninterrupted load is a run of the transition system |
| ConfigCache.WriteIsARun | bot/infrastructure/cached_config_store.py:39-52 | An uninterrupted write is a run that changes its chat alone, in store and cache |
| ConfigCache.TtlEndsIt | bot/infrastructure/cached_config_store.py:29-37 | However stale an entry is, once its TTL has passed the next load answers the store's own value |
| ConfigCache.ChangesAreApart | bot/infrastructure/config_store.py:22-52 | An override holds as last set until it is cleared, clearing undoes setting, and neither disturbs the other overrides or the policy, nor the policy them |
| ConfigCache.CachedConfigStore.Load | bot/infrastructure/cached_config_store.py:29-37 | Its answer and the entry it leaves; the store's own value while entries agree with the store |
| ConfigCache.CachedConfigStore.SetOverride | bot/infrastructure/cached_config_store.py:39-41 | Sets one override of the chat, the rest of its config and every other chat as before, drops only that chat's entry, and keeps agreement |
| ConfigCache.CachedConfigStore.ClearOverride | bot/infrastructure/cached_config_store.py:43-45 | Removes one override of the chat, the rest of its config and every other chat as before, drops only that chat's entry, and keeps agreement |
| ConfigCache.CachedConfigStore.SetPolicy | bot/infrastructure/cached_config_store.py:47-49 | Sets the policy of the chat, its overrides and every other chat as before, drops only that chat's entry, and keeps agreement |

## Left out

- DeliveryLoss.NeverLost: assumes a retry copy stays parked until its parking delivery released the claim, because the source only makes that likely, by a TTL far longer than a publish; without it the property is false.
- TokenBudget.RefillAdmits: promises a positive balance for every bucket, not a whole token, because the whole token is false of the code; the exact condition is its own row.
- LineupAssigner.GroupsAreFilled: needs names in one group only, because with shared names the greedy order can lose a slot; `OwnNamesFill` and `AtLeastHalf` are what holds then.
- Conversations.ProposalsRunOnce: is about turns of one user in a chat that do not overlap, because overlapping ones can run a proposal twice; `ConversationRaces` has the exact condition.
- Conversations.StateOfRuns: counts attempts over turns that do not overlap; overlapping turns save over each other's counts.
- ConfigCache.AnswersAreExact: a sufficient condition on calls; the exact one is `AgreementExactly`.
- Redis, MongoDB or broker errors: the fail-open branches, a publish that raises, and a MongoDB write that applies but reports an error are not modelled.
- Several consumer processes at once, and a broker connection that drops while handlers go on running: one process consumes, and its crash requeues everything unacked.
- Commands without a message id: they travel the same steps, but claim, inbox and the results per key do not speak of them.
- Fairness: the lane may be taken by any waiting delivery, where asyncio.Lock is first come first served; the drain wait on shutdown and the in-flight counter only time out or count, and are left out.
- The order of messages in a queue: a queue is the set of messages in it, so results hold for every order.
- Clocks: time is real and shared with Redis, and floating-point rounding is not modelled; nor are time zones and the texts of replies.
- The club score, the `\w` class, `str.lower`, confirmation wording and phone-number normalisation are arbitrary functions, so the results hold for every choice of them.
- The OP.GG literals: numbers, lists and class-header lines are opaque text; the root object is matched by another pattern and is not modelled.
- The refusal message a rename picks by a second read, and the reads of auth keys other than the credentials.
- Several auth-state instances writing one document: versions are issued by one instance.
- LangGraph's own storage: overlapping turns are modelled as saving their whole state after every node, last save wins; an exception in mid-turn ends the turn, and the stateless rerun on a Redis error is left out.
- The language model, retrieval and translation of a command into a message: any decision the mapper can return is allowed.
- The two queries of one SQL load are one read here; the store's rows are a map from chat to config.
- Chat commands, scrapers, adapters, renderers, media encoding, logging, metrics and tracing units: fetch-and-format code, or not part of any property above.
