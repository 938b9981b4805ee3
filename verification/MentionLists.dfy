/** Mention lists of one chat: named groups in the array of one document, changed by concurrent
    creates, renames, adds, deletes and exits. Every call is one or two atomic operations on the
    document; `Look` is the table of names the calls are meant to maintain. */
module MentionLists {
  import opened Wrappers

  datatype Group = Group(name: string, participants: seq<string>)

  type Groups = seq<Group>

  function People(xs: seq<string>): set<string> {
    set x | x in xs
  }

  function Names(gs: Groups): set<string> {
    set i | 0 <= i < |gs| :: gs[i].name
  }

  // The participants the first group of that name has.
  function Look(gs: Groups, name: string): Option<set<string>> {
    if gs == [] then None
    else if gs[0].name == name then Some(People(gs[0].participants))
    else Look(gs[1..], name)
  }

  predicate Has(gs: Groups, name: string) {
    Look(gs, name).Some?
  }

  predicate NoRepeats(xs: seq<string>) {
    forall i, j :: 0 <= i < j < |xs| ==> xs[i] != xs[j]
  }

  // Names pairwise distinct, participants distinct in each group.
  predicate Tidy(gs: Groups) {
    && (forall i, j :: 0 <= i < j < |gs| ==> gs[i].name != gs[j].name)
    && (forall i :: 0 <= i < |gs| ==> NoRepeats(gs[i].participants))
  }

  // The atomic updates

  function AddEach(xs: seq<string>, added: seq<string>): (r: seq<string>)
    ensures People(r) == People(xs) + People(added)
    ensures NoRepeats(xs) ==> NoRepeats(r)
    decreases |added|
  {
    if added == [] then xs
    else
      assert added == [added[0]] + added[1..];
      AddEach(if added[0] in xs then xs else xs + [added[0]], added[1..])
  }

  function Remove(xs: seq<string>, gone: set<string>): (r: seq<string>)
    ensures People(r) == People(xs) - gone
    ensures NoRepeats(xs) ==> NoRepeats(r)
    ensures |r| < |xs| <==> exists x :: x in xs && x in gone
    ensures |r| <= |xs|
  {
    if xs == [] then []
    else
      var rest := Remove(xs[1..], gone);
      assert xs == [xs[0]] + xs[1..];
      assert forall x :: x in rest <==> x in People(rest);
      assert forall x :: x in xs[1..] <==> x in People(xs[1..]);
      assert forall x :: x in xs <==> x == xs[0] || x in xs[1..];
      assert forall i :: 0 < i < |xs| ==> xs[i] == xs[1..][i - 1];
      assert NoRepeats(xs) ==> NoRepeats([xs[0]] + rest) by {
        if NoRepeats(xs) {
          assert xs[0] !in xs[1..] && NoRepeats(xs[1..]);
          assert xs[0] !in rest && NoRepeats(rest);
          assert forall j :: 0 < j <= |rest| ==> ([xs[0]] + rest)[j] == rest[j - 1];
        }
      }
      if xs[0] in gone then rest else [xs[0]] + rest
  }

  function RenameIn(gs: Groups, old_: string, new_: string): Groups {
    if gs == [] then []
    else [if gs[0].name == old_ then gs[0].(name := new_) else gs[0]] + RenameIn(gs[1..], old_, new_)
  }

  function DeleteIn(gs: Groups, name: string): Groups {
    if gs == [] then []
    else if gs[0].name == name then DeleteIn(gs[1..], name)
    else [gs[0]] + DeleteIn(gs[1..], name)
  }

  // `groups.$` is the first element the filter matched.
  function AddIn(gs: Groups, name: string, added: seq<string>): Groups {
    if gs == [] then []
    else if gs[0].name == name then
      [gs[0].(participants := AddEach(gs[0].participants, added))] + gs[1..]
    else [gs[0]] + AddIn(gs[1..], name, added)
  }

  function PullIn(gs: Groups, name: string, gone: set<string>): Groups {
    if gs == [] then []
    else if gs[0].name == name then
      [gs[0].(participants := Remove(gs[0].participants, gone))] + gs[1..]
    else [gs[0]] + PullIn(gs[1..], name, gone)
  }

  // What each update does to the table, name by name

  lemma {:induction false} LookIsName(gs: Groups, name: string)
    ensures Has(gs, name) <==> name in Names(gs)
  {
    if gs != [] {
      LookIsName(gs[1..], name);
      assert forall i :: 0 < i < |gs| ==> gs[i] == gs[1..][i - 1];
      assert name in Names(gs) <==> name == gs[0].name || name in Names(gs[1..]) by {
        if name in Names(gs[1..]) {
          var i :| 0 <= i < |gs[1..]| && gs[1..][i].name == name;
          assert gs[i + 1].name == name;
        }
      }
    }
  }

  lemma {:induction false} LookPush(gs: Groups, g: Group, n: string)
    requires !Has(gs, g.name)
    ensures Look(gs + [g], n) == if n == g.name then Some(People(g.participants)) else Look(gs, n)
  {
    if gs == [] {
      assert gs + [g] == [g];
    } else {
      assert (gs + [g])[1..] == gs[1..] + [g];
      LookPush(gs[1..], g, n);
    }
  }

  lemma {:induction false} LookRename(gs: Groups, old_: string, new_: string, n: string)
    requires !Has(gs, new_)
    ensures Look(RenameIn(gs, old_, new_), n) ==
      if n == new_ then Look(gs, old_) else if n == old_ then None else Look(gs, n)
  {
    if gs != [] {
      LookRename(gs[1..], old_, new_, n);
    }
  }

  lemma {:induction false} LookDelete(gs: Groups, name: string, n: string)
    ensures Look(DeleteIn(gs, name), n) == if n == name then None else Look(gs, n)
  {
    if gs != [] {
      LookDelete(gs[1..], name, n);
    }
  }

  lemma {:induction false} LookAdd(gs: Groups, name: string, added: seq<string>, n: string)
    ensures Look(AddIn(gs, name, added), n) ==
      if n == name && Has(gs, n) then Some(Look(gs, n).value + People(added)) else Look(gs, n)
  {
    if gs != [] {
      LookAdd(gs[1..], name, added, n);
    }
  }

  lemma {:induction false} LookPull(gs: Groups, name: string, gone: set<string>, n: string)
    ensures Look(PullIn(gs, name, gone), n) ==
      if n == name && Has(gs, n) then Some(Look(gs, n).value - gone) else Look(gs, n)
  {
    if gs != [] {
      LookPull(gs[1..], name, gone, n);
    }
  }

  // Tidiness, in the recursive form the updates have

  lemma TidyHead(gs: Groups)
    requires gs != []
    ensures Tidy(gs) <==> !Has(gs[1..], gs[0].name) && NoRepeats(gs[0].participants) && Tidy(gs[1..])
  {
    LookIsName(gs[1..], gs[0].name);
    assert forall i :: 0 < i < |gs| ==> gs[i] == gs[1..][i - 1];
    if Has(gs[1..], gs[0].name) {
      var i :| 0 <= i < |gs[1..]| && gs[1..][i].name == gs[0].name;
      assert gs[i + 1].name == gs[0].name;
    } else if Tidy(gs[1..]) && NoRepeats(gs[0].participants) {
      forall i, j | 0 <= i < j < |gs| ensures gs[i].name != gs[j].name {
        assert gs[j] == gs[1..][j - 1] && gs[1..][j - 1].name in Names(gs[1..]);
        assert i > 0 ==> gs[i] == gs[1..][i - 1];
      }
    }
  }

  lemma TidyPush(gs: Groups, g: Group)
    requires Tidy(gs) && !Has(gs, g.name) && NoRepeats(g.participants)
    ensures Tidy(gs + [g])
  {
    LookIsName(gs, g.name);
    forall i | 0 <= i < |gs| ensures gs[i].name != g.name {
      assert gs[i].name in Names(gs);
    }
  }

  lemma {:induction false} TidyRename(gs: Groups, old_: string, new_: string)
    requires Tidy(gs) && !Has(gs, new_)
    ensures Tidy(RenameIn(gs, old_, new_))
  {
    if gs != [] {
      TidyHead(gs);
      TidyRename(gs[1..], old_, new_);
      var r := RenameIn(gs, old_, new_);
      LookRename(gs[1..], old_, new_, r[0].name);
      TidyHead(r);
    }
  }

  lemma {:induction false} TidyDelete(gs: Groups, name: string)
    requires Tidy(gs)
    ensures Tidy(DeleteIn(gs, name))
  {
    if gs != [] {
      TidyHead(gs);
      TidyDelete(gs[1..], name);
      var r := DeleteIn(gs, name);
      LookDelete(gs[1..], name, gs[0].name);
      if gs[0].name != name {
        assert r[1..] == DeleteIn(gs[1..], name);
        TidyHead(r);
      }
    }
  }

  lemma {:induction false} TidyAdd(gs: Groups, name: string, added: seq<string>)
    requires Tidy(gs)
    ensures Tidy(AddIn(gs, name, added))
  {
    if gs != [] {
      TidyHead(gs);
      TidyAdd(gs[1..], name, added);
      var r := AddIn(gs, name, added);
      LookAdd(gs[1..], name, added, gs[0].name);
      TidyHead(r);
    }
  }

  lemma {:induction false} TidyPull(gs: Groups, name: string, gone: set<string>)
    requires Tidy(gs)
    ensures Tidy(PullIn(gs, name, gone))
  {
    if gs != [] {
      TidyHead(gs);
      TidyPull(gs[1..], name, gone);
      var r := PullIn(gs, name, gone);
      LookPull(gs[1..], name, gone, gs[0].name);
      TidyHead(r);
    }
  }

  // The calls

  // Device suffixes are cut by a regular expression; any cut will do here.
  type Normalize = string -> string

  // By 1-based index or by mention; neither means the sender leaves.
  datatype Targets = Targets(indices: seq<int>, mentioned: seq<string>)

  datatype Op =
    | Create(name: string, participants: seq<string>)
    | Rename(from: string, to: string)
    | Add(name: string, added: seq<string>)
    | Delete(name: string)
    | Exit(name: string, sender: string, targets: Targets)

  datatype Phase =
    | Started
    | Creating                                       // an upsert that found no document
    | Retrying                                       // an upsert that hit the duplicate key
    | Pulling(seen: seq<string>, gone: set<string>)  // an exit between its read and its write
    | Done(ok: bool)

  datatype Call = Call(op: Op, phase: Phase)

  // No document is a chat without one; the chat's groups are then none.
  datatype State = State(doc: Option<Groups>, calls: seq<Call>)

  datatype Step = Begin(op: Op) | Advance(n: nat)

  function GroupsOf(doc: Option<Groups>): Groups {
    doc.GetOr([])
  }

  predicate Mentions(norm: Normalize, jids: seq<Option<string>>, p: string) {
    exists m :: m in jids && m.Some? && m.value != "" && p == norm(m.value)
  }

  // dict.fromkeys over the normalized sender and the normalized, non-null mentions.
  function NewParticipants(norm: Normalize, sender: string, mentioned: seq<Option<string>>): (r: seq<string>)
    ensures NoRepeats(r)
    ensures forall p :: p in r <==> p == norm(sender) || Mentions(norm, mentioned, p)
  {
    var r := AddEach([norm(sender)], Normalized(norm, mentioned));
    assert forall x :: x in People(r) <==> x in r;
    assert forall x :: x in Normalized(norm, mentioned) <==> x in People(Normalized(norm, mentioned));
    assert forall x :: x in People([norm(sender)]) <==> x == norm(sender);
    r
  }

  function Normalized(norm: Normalize, jids: seq<Option<string>>): (r: seq<string>)
    ensures forall p :: p in r <==> Mentions(norm, jids, p)
  {
    if jids == [] then []
    else
      var first, rest := jids[0], Normalized(norm, jids[1..]);
      assert jids == [first] + jids[1..];
      var own := if first.Some? && first.value != "" then [norm(first.value)] else [];
      assert forall p :: p in own + rest <==> p in own || p in rest;
      assert forall p :: Mentions(norm, jids, p) <==> p in own || Mentions(norm, jids[1..], p);
      own + rest
  }

  // Who an exit selects from the participants it read.
  function Selected(norm: Normalize, op: Op, seen: seq<string>): set<string>
    requires op.Exit?
  {
    var t := op.targets;
    if t.indices == [] && t.mentioned == [] then
      set p | p in seen && norm(p) == norm(op.sender)
    else
      (set i | i in t.indices && 0 < i <= |seen| :: seen[i - 1])
      + (set p | p in seen && exists m :: m in t.mentioned && norm(p) == norm(m))
  }

  // A member an exit is about: the one leaving when nobody is named, else one at a listed place,
  // counted from 1, or one of those mentioned.
  predicate Leaves(norm: Normalize, sender: string, targets: Targets, seen: seq<string>, p: string) {
    if targets == Targets([], []) then norm(p) == norm(sender)
    else
      || (exists k :: 1 <= k <= |seen| && k in targets.indices && seen[k - 1] == p)
      || exists m :: m in targets.mentioned && norm(m) == norm(p)
  }

  lemma SelectedLeave(norm: Normalize, op: Op, seen: seq<string>, p: string)
    requires op.Exit?
    ensures p in Selected(norm, op, seen) <==> p in seen && Leaves(norm, op.sender, op.targets, seen, p)
  {
    var t := op.targets;
    if t != Targets([], []) {
      if k :| 1 <= k <= |seen| && k in t.indices && seen[k - 1] == p {
        assert k in t.indices && 0 < k <= |seen|;
      }
    }
  }

  function FirstParticipants(gs: Groups, name: string): seq<string> {
    if gs == [] then [] else if gs[0].name == name then gs[0].participants
    else FirstParticipants(gs[1..], name)
  }

  ghost predicate Ready(op: Op) {
    op.Create? ==> NoRepeats(op.participants)
  }

  ghost predicate Enabled(s: State, st: Step) {
    match st
    case Begin(op) => Ready(op)
    case Advance(n) => n < |s.calls| && !s.calls[n].phase.Done?
  }

  datatype Effect = Effect(doc: Option<Groups>, phase: Phase)

  // One atomic operation of a call. `update_one` without a match changes nothing.
  function Performed(norm: Normalize, doc: Option<Groups>, call: Call): Effect {
    var gs := GroupsOf(doc);
    match call.op
    case Create(name, participants) =>
      var pushed := Effect(Some(gs + [Group(name, participants)]), Done(true));
      (match call.phase
       case Started =>
         if doc.None? then Effect(doc, Creating)
         else if Has(gs, name) then Effect(doc, Retrying) else pushed
       case Creating => if doc.None? then pushed else Effect(doc, Retrying)
       case _ => if doc.None? || Has(gs, name) then Effect(doc, Done(false)) else pushed)
    case Rename(from, to) =>
      if Has(gs, from) && !Has(gs, to) then Effect(Some(RenameIn(gs, from, to)), Done(true))
      else Effect(doc, Done(false))
    case Add(name, added) =>
      if Has(gs, name) then Effect(Some(AddIn(gs, name, added)), Done(true))
      else Effect(doc, Done(false))
    case Delete(name) =>
      if Has(gs, name) then Effect(Some(DeleteIn(gs, name)), Done(true))
      else Effect(doc, Done(false))
    case Exit(name, _, _) =>
      if call.phase.Pulling? then
        var touched := Has(gs, name) && exists p :: p in FirstParticipants(gs, name) && p in call.phase.gone;
        Effect(if Has(gs, name) then Some(PullIn(gs, name, call.phase.gone)) else doc, Done(touched))
      else if !Has(gs, name) then Effect(doc, Done(false))
      else
        var seen := FirstParticipants(gs, name);
        var gone := Selected(norm, call.op, seen);
        Effect(doc, if gone == {} then Done(false) else Pulling(seen, gone))
  }

  function Next(norm: Normalize, s: State, st: Step): State
    requires Enabled(s, st)
  {
    match st
    case Begin(op) => s.(calls := s.calls + [Call(op, Started)])
    case Advance(n) =>
      var effect := Performed(norm, s.doc, s.calls[n]);
      State(effect.doc, s.calls[n := s.calls[n].(phase := effect.phase)])
  }

  ghost predicate Valid(norm: Normalize, s: State, steps: seq<Step>)
    decreases |steps|
  {
    steps == [] || (Enabled(s, steps[0]) && Valid(norm, Next(norm, s, steps[0]), steps[1..]))
  }

  ghost function After(norm: Normalize, s: State, steps: seq<Step>): State
    requires Valid(norm, s, steps)
    decreases |steps|
  {
    if steps == [] then s else After(norm, Next(norm, s, steps[0]), steps[1..])
  }

  // The sequential meaning: one operation on the table of names, all at once

  ghost predicate Succeeds(call: Call, look: string -> Option<set<string>>) {
    match call.op
    case Create(name, _) => look(name).None?
    case Rename(from, to) => look(from).Some? && look(to).None?
    case Add(name, _) => look(name).Some?
    case Delete(name) => look(name).Some?
    case Exit(name, _, _) =>
      call.phase.Pulling? && look(name).Some? && look(name).value * call.phase.gone != {}
  }

  ghost function Meaning(call: Call, look: string -> Option<set<string>>, n: string): Option<set<string>>
    requires Succeeds(call, look)
  {
    match call.op
    case Create(name, participants) => if n == name then Some(People(participants)) else look(n)
    case Rename(from, to) => if n == to then look(from) else if n == from then None else look(n)
    case Add(name, added) => if n == name then Some(look(n).value + People(added)) else look(n)
    case Delete(name) => if n == name then None else look(n)
    case Exit(name, _, _) => if n == name then Some(look(n).value - call.phase.gone) else look(n)
  }

  lemma {:induction false} FirstIsLook(gs: Groups, name: string)
    requires Has(gs, name)
    ensures Look(gs, name) == Some(People(FirstParticipants(gs, name)))
  {
    if gs[0].name != name {
      FirstIsLook(gs[1..], name);
    }
  }

  lemma {:induction false} NoneToLeave(gs: Groups, name: string)
    requires !Has(gs, name)
    ensures FirstParticipants(gs, name) == []
  {
    if gs != [] {
      NoneToLeave(gs[1..], name);
    }
  }

  lemma {:induction false} PullNobody(gs: Groups, name: string, gone: set<string>)
    requires Has(gs, name) && forall p :: p in FirstParticipants(gs, name) ==> p !in gone
    ensures forall n :: Look(PullIn(gs, name, gone), n) == Look(gs, n)
  {
    FirstIsLook(gs, name);
    forall n ensures Look(PullIn(gs, name, gone), n) == Look(gs, n) {
      LookPull(gs, name, gone, n);
      if n == name {
        assert Look(gs, n).value - gone == Look(gs, n).value;
      }
    }
  }

  // A call between its operations: a create retries only once there is a document, and an exit
  // pulls what it selected from what it read.
  ghost predicate Coherent(norm: Normalize, doc: Option<Groups>, call: Call) {
    && (call.phase.Retrying? ==> doc.Some?)
    && (call.phase.Pulling? ==> call.op.Exit? && call.phase.gone == Selected(norm, call.op, call.phase.seen))
  }

  ghost predicate Linearizes(norm: Normalize, doc: Option<Groups>, call: Call) {
    var gs := GroupsOf(doc);
    var effect := Performed(norm, doc, call);
    var look := n => Look(gs, n);
    && (effect.phase == Done(true) ==>
          && Succeeds(call, look)
          && forall n :: Look(GroupsOf(effect.doc), n) == Meaning(call, look, n))
    && (effect.phase == Done(false) ==> !Succeeds(call, look))
    && (effect.phase != Done(true) ==> forall n :: Look(GroupsOf(effect.doc), n) == Look(gs, n))
  }

  // Each call takes effect at one instant, its last operation, and there it succeeds exactly when
  // the sequential operation would and changes the table exactly as it would.
  lemma CallsLinearize(norm: Normalize, doc: Option<Groups>, call: Call)
    requires !call.phase.Done? && Coherent(norm, doc, call)
    ensures Linearizes(norm, doc, call)
  {
    var gs := GroupsOf(doc);
    match call.op
    case Create(name, participants) =>
      if !Has(gs, name) {
        forall n { LookPush(gs, Group(name, participants), n); }
      }
    case Rename(from, to) =>
      if !Has(gs, to) {
        forall n { LookRename(gs, from, to, n); }
      }
    case Add(name, added) =>
      forall n { LookAdd(gs, name, added, n); }
    case Delete(name) =>
      forall n { LookDelete(gs, name, n); }
    case Exit(name, _, _) =>
      if call.phase.Pulling? && Has(gs, name) {
        FirstIsLook(gs, name);
        var people := FirstParticipants(gs, name);
        assert forall p :: p in people <==> p in People(people);
        if p :| p in people && p in call.phase.gone {
          assert p in People(people) * call.phase.gone;
          forall n { LookPull(gs, name, call.phase.gone, n); }
        } else {
          PullNobody(gs, name, call.phase.gone);
        }
      }
  }

  lemma TidyKept(norm: Normalize, doc: Option<Groups>, call: Call)
    requires Tidy(GroupsOf(doc)) && Ready(call.op)
    ensures Tidy(GroupsOf(Performed(norm, doc, call).doc))
  {
    var gs := GroupsOf(doc);
    match call.op
    case Create(name, participants) =>
      if !Has(gs, name) {
        TidyPush(gs, Group(name, participants));
      }
    case Rename(from, to) =>
      if !Has(gs, to) {
        TidyRename(gs, from, to);
      }
    case Add(name, added) => TidyAdd(gs, name, added);
    case Delete(name) => TidyDelete(gs, name);
    case Exit(name, _, _) =>
      if call.phase.Pulling? {
        TidyPull(gs, name, call.phase.gone);
      }
  }

  // The ledger

  function Signed(b: bool): int {
    if b then 1 else 0
  }

  // What a successful call adds to the groups of a name: creates and renames in, less deletes and
  // renames out.
  function Adds(call: Call, name: string): int {
    if call.phase != Done(true) then 0
    else
      match call.op
      case Create(n, _) => Signed(n == name)
      case Rename(from, to) => Signed(to == name) - Signed(from == name)
      case Delete(n) => -Signed(n == name)
      case _ => 0
  }

  function Ledger(calls: seq<Call>, name: string): int {
    if calls == [] then 0 else Adds(calls[0], name) + Ledger(calls[1..], name)
  }

  lemma {:induction false} LedgerUpdate(calls: seq<Call>, n: nat, call: Call, name: string)
    requires n < |calls|
    ensures Ledger(calls[n := call], name) == Ledger(calls, name) - Adds(calls[n], name) + Adds(call, name)
  {
    if n > 0 {
      assert calls[n := call][1..] == calls[1..][n - 1 := call];
      LedgerUpdate(calls[1..], n - 1, call, name);
    } else {
      assert calls[n := call][1..] == calls[1..];
    }
  }

  lemma {:induction false} LedgerAppend(calls: seq<Call>, call: Call, name: string)
    ensures Ledger(calls + [call], name) == Ledger(calls, name) + Adds(call, name)
  {
    if calls == [] {
      assert calls + [call] == [call];
    } else {
      assert (calls + [call])[1..] == calls[1..] + [call];
      LedgerAppend(calls[1..], call, name);
    }
  }

  ghost predicate Inv(norm: Normalize, s: State) {
    && Tidy(GroupsOf(s.doc))
    && (forall n :: 0 <= n < |s.calls| ==> Ready(s.calls[n].op))
    && (forall n :: 0 <= n < |s.calls| ==> Coherent(norm, s.doc, s.calls[n]))
  }

  lemma InvKept(norm: Normalize, s: State, st: Step)
    requires Inv(norm, s) && Enabled(s, st)
    ensures Inv(norm, Next(norm, s, st))
  {
    if st.Advance? {
      TidyKept(norm, s.doc, s.calls[st.n]);
      CallsLinearize(norm, s.doc, s.calls[st.n]);
    }
  }

  lemma LedgerMoves(norm: Normalize, s: State, st: Step, name: string)
    requires Inv(norm, s) && Enabled(s, st)
    ensures var s' := Next(norm, s, st);
      Signed(Has(GroupsOf(s'.doc), name)) - Signed(Has(GroupsOf(s.doc), name))
      == Ledger(s'.calls, name) - Ledger(s.calls, name)
  {
    match st
    case Begin(op) => LedgerAppend(s.calls, Call(op, Started), name);
    case Advance(n) =>
      var call := s.calls[n];
      var effect := Performed(norm, s.doc, call);
      CallsLinearize(norm, s.doc, call);
      LedgerUpdate(s.calls, n, call.(phase := effect.phase), name);
      assert Look(GroupsOf(effect.doc), name) == if effect.phase == Done(true)
        then Meaning(call, n => Look(GroupsOf(s.doc), n), name) else Look(GroupsOf(s.doc), name);
  }

  // Under any interleaving names and participants stay distinct, and a name is present exactly as
  // often as the successful calls say.
  lemma {:induction false} LedgerBalances(norm: Normalize, s: State, steps: seq<Step>, name: string)
    requires Inv(norm, s) && Valid(norm, s, steps)
    ensures Inv(norm, After(norm, s, steps))
    ensures Signed(Has(GroupsOf(After(norm, s, steps).doc), name)) - Signed(Has(GroupsOf(s.doc), name))
         == Ledger(After(norm, s, steps).calls, name) - Ledger(s.calls, name)
    decreases |steps|
  {
    if steps != [] {
      InvKept(norm, s, steps[0]);
      LedgerMoves(norm, s, steps[0], name);
      LedgerBalances(norm, Next(norm, s, steps[0]), steps[1..], name);
    }
  }

  lemma ChatStaysTidy(norm: Normalize, doc: Option<Groups>, steps: seq<Step>, name: string)
    requires Tidy(GroupsOf(doc)) && Valid(norm, State(doc, []), steps)
    ensures var s := After(norm, State(doc, []), steps);
      Tidy(GroupsOf(s.doc))
      && Ledger(s.calls, name) == (if Has(GroupsOf(s.doc), name) then 1 else 0)
                                  - if Has(GroupsOf(doc), name) then 1 else 0
  {
    LedgerBalances(norm, State(doc, []), steps, name);
  }

  // The operations a run begins, in order.
  function Begun(steps: seq<Step>): seq<Op> {
    if steps == [] then [] else (if steps[0].Begin? then [steps[0].op] else []) + Begun(steps[1..])
  }

  // The calls of a run are the operations begun in it.
  lemma {:induction false} CallsAreBegun(norm: Normalize, s: State, steps: seq<Step>)
    requires Valid(norm, s, steps)
    ensures |After(norm, s, steps).calls| == |s.calls| + |Begun(steps)|
    ensures forall n :: 0 <= n < |s.calls| ==> After(norm, s, steps).calls[n].op == s.calls[n].op
    ensures forall n :: 0 <= n < |Begun(steps)| ==> After(norm, s, steps).calls[|s.calls| + n].op == Begun(steps)[n]
    decreases |steps|
  {
    if steps != [] {
      CallsAreBegun(norm, Next(norm, s, steps[0]), steps[1..]);
    }
  }

  // Two creates in a chat without a document may both miss it and both try to make it. The one that
  // comes second hits the duplicate key, and its plain update still succeeds.

  ghost predicate Leads(norm: Normalize, s: State, steps: seq<Step>, t: State) {
    Valid(norm, s, steps) && After(norm, s, steps) == t
  }

  lemma Leading(norm: Normalize, s: State, st: Step, s': State, steps: seq<Step>, t: State)
    requires Enabled(s, st) && Next(norm, s, st) == s' && Leads(norm, s', steps, t)
    ensures Leads(norm, s, [st] + steps, t)
  {
    assert ([st] + steps)[1..] == steps;
  }

  function Racing(doc: Option<Groups>, a: Group, first: Phase, b: Group, second: Phase): State {
    State(doc, [Call(Create(a.name, a.participants), first), Call(Create(b.name, b.participants), second)])
  }

  lemma Collides(norm: Normalize, a: Group, b: Group, steps: seq<Step>, t: State)
    requires Leads(norm, Racing(Some([a]), a, Done(true), b, Retrying), steps, t)
    ensures Leads(norm, Racing(None, a, Started, b, Started),
                  [Advance(0)] + ([Advance(1)] + ([Advance(0)] + ([Advance(1)] + steps))), t)
  {
    var missed := Racing(None, a, Creating, b, Creating);
    var made := Racing(Some([a]), a, Done(true), b, Creating);
    var none: Groups := [];
    assert none + [a] == [a];
    assert Next(norm, missed, Advance(0)).calls == made.calls;
    Leading(norm, made, Advance(1), Racing(Some([a]), a, Done(true), b, Retrying), steps, t);
    Leading(norm, missed, Advance(0), made, [Advance(1)] + steps, t);
    Leading(norm, Racing(None, a, Creating, b, Started), Advance(1), missed,
            [Advance(0)] + ([Advance(1)] + steps), t);
    Leading(norm, Racing(None, a, Started, b, Started), Advance(0), Racing(None, a, Creating, b, Started),
            [Advance(1)] + ([Advance(0)] + ([Advance(1)] + steps)), t);
  }

  lemma BothCreatesSucceed(norm: Normalize, a: Group, b: Group) returns (before: seq<Step>, more: seq<Step>)
    requires a.name != b.name
    ensures var collided := Racing(Some([a]), a, Done(true), b, Retrying);
      && Leads(norm, Racing(None, a, Started, b, Started), before, collided)
      && Leads(norm, collided, more, Racing(Some([a, b]), a, Done(true), b, Done(true)))
  {
    var collided := Racing(Some([a]), a, Done(true), b, Retrying);
    var end := Racing(Some([a, b]), a, Done(true), b, Done(true));
    Collides(norm, a, b, [], collided);
    before := [Advance(0)] + ([Advance(1)] + ([Advance(0)] + ([Advance(1)] + [])));
    var one: Groups := [a];
    LookIsName(one, b.name);
    assert one + [b] == [a, b];
    assert Next(norm, collided, Advance(1)).calls == end.calls;
    Leading(norm, collided, Advance(1), end, [], end);
    more := [Advance(1)] + [];
  }

  // A create that found its name taken succeeds after all if the name is deleted before its second try.
  lemma RetryFindsItFree(norm: Normalize, g: Group, taken: Group)
    requires taken.name == g.name
    ensures var create := Create(g.name, g.participants);
      Leads(norm, State(Some([taken]), [Call(create, Started), Call(Delete(g.name), Started)]),
            [Advance(0)] + ([Advance(1)] + ([Advance(0)] + [])),
            State(Some([g]), [Call(create, Done(true)), Call(Delete(g.name), Done(true))]))
  {
    var create, delete := Create(g.name, g.participants), Call(Delete(g.name), Started);
    var end := State(Some([g]), [Call(create, Done(true)), delete.(phase := Done(true))]);
    var tried := State(Some([taken]), [Call(create, Retrying), delete]);
    var freed := State(Some([]), [Call(create, Retrying), delete.(phase := Done(true))]);
    var one, none: Groups := [taken], [];
    assert one[1..] == none && none + [g] == [g];
    assert DeleteIn(one, g.name) == none && Has(one, g.name);
    LookDelete(one, g.name, g.name);
    assert Next(norm, tried, Advance(1)).calls == freed.calls;
    assert Next(norm, freed, Advance(0)).calls == end.calls;
    Leading(norm, freed, Advance(0), end, [], end);
    Leading(norm, tried, Advance(1), freed, [Advance(0)] + [], end);
    Leading(norm, State(Some([taken]), [Call(create, Started), delete]), Advance(0), tried,
            [Advance(1)] + ([Advance(0)] + []), end);
  }

  // An exit only ever removes people it selected from the list it read, and from that name only,
  // however stale the read has become.
  lemma ExitRemovesSelected(norm: Normalize, doc: Option<Groups>, steps: seq<Step>, n: nat, name: string, p: string)
    requires Tidy(GroupsOf(doc)) && Valid(norm, State(doc, []), steps)
    requires var s := After(norm, State(doc, []), steps);
      && Enabled(s, Advance(n)) && s.calls[n].op.Exit?
      && Has(GroupsOf(s.doc), name) && p in Look(GroupsOf(s.doc), name).value
    ensures var s := After(norm, State(doc, []), steps);
      var gs' := GroupsOf(Next(norm, s, Advance(n)).doc);
      Has(gs', name) && (p !in Look(gs', name).value ==>
        var Exit(own, sender, targets) := s.calls[n].op;
        && name == own
        && s.calls[n].phase.Pulling?
        && p in s.calls[n].phase.seen
        && Leaves(norm, sender, targets, s.calls[n].phase.seen, p))
  {
    LedgerBalances(norm, State(doc, []), steps, name);
    var s := After(norm, State(doc, []), steps);
    var call := s.calls[n];
    if call.phase.Pulling? {
      LookPull(GroupsOf(s.doc), call.op.name, call.phase.gone, name);
      SelectedLeave(norm, call.op, call.phase.seen, p);
    }
  }

  // A call that runs alone

  function OperationsLeft(phase: Phase): nat {
    match phase
    case Started => 3
    case Creating => 2
    case Retrying => 1
    case _ => 0
  }

  function Alone(norm: Normalize, doc: Option<Groups>, call: Call): (r: Effect)
    requires !call.phase.Done?
    ensures r.phase.Done?
    decreases OperationsLeft(call.phase)
  {
    var effect := Performed(norm, doc, call);
    if effect.phase.Done? then effect else Alone(norm, effect.doc, call.(phase := effect.phase))
  }

  // Running a call alone is a run of its own operations, so every result about runs covers it.
  lemma {:induction false} AloneIsARun(norm: Normalize, s: State, n: nat) returns (steps: seq<Step>)
    requires n < |s.calls| && !s.calls[n].phase.Done?
    ensures Valid(norm, s, steps) && |steps| <= OperationsLeft(s.calls[n].phase) + 1
    ensures forall i :: 0 <= i < |steps| ==> steps[i] == Advance(n)
    ensures var effect := Alone(norm, s.doc, s.calls[n]);
      After(norm, s, steps) == State(effect.doc, s.calls[n := s.calls[n].(phase := effect.phase)])
    decreases OperationsLeft(s.calls[n].phase)
  {
    var t := Next(norm, s, Advance(n));
    var rest: seq<Step> := [];
    if !t.calls[n].phase.Done? {
      rest := AloneIsARun(norm, t, n);
    }
    steps := [Advance(n)] + rest;
    assert steps[1..] == rest && Valid(norm, t, rest);
  }

  // What the sequential operation does to the table, or nothing if it is refused.
  ghost predicate TableAfter(gs: Groups, r: Groups, call: Call, ok: bool) {
    var look := n => Look(gs, n);
    && (ok <==> Succeeds(call, look))
    && forall n :: Look(r, n) == if ok then Meaning(call, look, n) else Look(gs, n)
  }

  lemma UpdateMeans(norm: Normalize, doc: Option<Groups>, call: Call)
    requires !call.phase.Done? && Coherent(norm, doc, call) && Performed(norm, doc, call).phase.Done?
    ensures var effect := Performed(norm, doc, call);
      TableAfter(GroupsOf(doc), GroupsOf(effect.doc), call, effect.phase.ok)
  {
    CallsLinearize(norm, doc, call);
  }

  /** The services as the source writes them, one call at a time on the chat's document. */
  class ChatDocument {
    const norm: Normalize
    var doc: Option<Groups>

    constructor (norm: Normalize)
      ensures this.norm == norm && doc == None
    {
      this.norm := norm;
      doc := None;
    }

    // The one write of a create, with and without upsert; `duplicate` is its DuplicateKeyError.
    method PushUnlessTaken(group: Group, upsert: bool) returns (modified: bool, duplicate: bool)
      modifies this
      ensures modified <==> (old(doc).Some? || upsert) && !Has(GroupsOf(old(doc)), group.name)
      ensures duplicate <==> upsert && !modified
      ensures doc == if modified then Some(GroupsOf(old(doc)) + [group]) else old(doc)
    {
      modified := (doc.Some? || upsert) && !Has(GroupsOf(doc), group.name);
      duplicate := upsert && !modified;
      if modified {
        doc := Some(GroupsOf(doc) + [group]);
      }
    }

    // CreateMentionList.execute: an upsert, then an update if it hit the duplicate key.
    method Create(name: string, sender: string, mentioned: seq<Option<string>>) returns (ok: bool)
      modifies this
      ensures var call := Call(Op.Create(name, NewParticipants(norm, sender, mentioned)), Started);
        && Effect(doc, Done(ok)) == Alone(norm, old(doc), call)
        && TableAfter(GroupsOf(old(doc)), GroupsOf(doc), call, ok)
      ensures Tidy(GroupsOf(old(doc))) ==> Tidy(GroupsOf(doc))
    {
      var group := Group(name, NewParticipants(norm, sender, mentioned));
      ghost var gs := GroupsOf(doc);
      if !Has(gs, name) {
        forall n { LookPush(gs, group, n); }
        if Tidy(gs) {
          TidyPush(gs, group);
        }
      }
      var modified, duplicate := PushUnlessTaken(group, true);
      if duplicate {
        modified, duplicate := PushUnlessTaken(group, false);
        return modified;
      }
      return true;
    }

    // RenameMentionList.execute: both names in one filter.
    method Rename(from: string, to: string) returns (ok: bool)
      modifies this
      ensures Effect(doc, Done(ok)) == Alone(norm, old(doc), Call(Op.Rename(from, to), Started))
      ensures TableAfter(GroupsOf(old(doc)), GroupsOf(doc), Call(Op.Rename(from, to), Started), ok)
      ensures Tidy(GroupsOf(old(doc))) ==> Tidy(GroupsOf(doc))
    {
      UpdateMeans(norm, doc, Call(Op.Rename(from, to), Started));
      ok := doc.Some? && Has(doc.value, from) && !Has(doc.value, to);
      if ok {
        if Tidy(doc.value) {
          TidyRename(doc.value, from, to);
        }
        doc := Some(RenameIn(doc.value, from, to));
      }
    }

    // AddToMentionList.execute: the sender alone when nobody is named.
    method Add(name: string, sender: string, participants: seq<Option<string>>) returns (ok: bool)
      modifies this
      ensures var added := if participants == [] then [norm(sender)] else Normalized(norm, participants);
        && Effect(doc, Done(ok)) == Alone(norm, old(doc), Call(Op.Add(name, added), Started))
        && TableAfter(GroupsOf(old(doc)), GroupsOf(doc), Call(Op.Add(name, added), Started), ok)
      ensures Tidy(GroupsOf(old(doc))) ==> Tidy(GroupsOf(doc))
    {
      var added := if participants == [] then [norm(sender)] else Normalized(norm, participants);
      UpdateMeans(norm, doc, Call(Op.Add(name, added), Started));
      ok := doc.Some? && Has(doc.value, name);
      if ok {
        if Tidy(doc.value) {
          TidyAdd(doc.value, name, added);
        }
        doc := Some(AddIn(doc.value, name, added));
      }
    }

    // DeleteMentionList.execute.
    method Delete(name: string) returns (ok: bool)
      modifies this
      ensures Effect(doc, Done(ok)) == Alone(norm, old(doc), Call(Op.Delete(name), Started))
      ensures TableAfter(GroupsOf(old(doc)), GroupsOf(doc), Call(Op.Delete(name), Started), ok)
      ensures Tidy(GroupsOf(old(doc))) ==> Tidy(GroupsOf(doc))
    {
      UpdateMeans(norm, doc, Call(Op.Delete(name), Started));
      ok := doc.Some? && Has(doc.value, name);
      if ok {
        if Tidy(doc.value) {
          TidyDelete(doc.value, name);
        }
        doc := Some(DeleteIn(doc.value, name));
      }
    }

    // ExitMentionList.execute: a read, then a pull of whom it selected.
    method Exit(name: string, sender: string, targets: Targets) returns (ok: bool)
      modifies this
      ensures Effect(doc, Done(ok)) == Alone(norm, old(doc), Call(Op.Exit(name, sender, targets), Started))
      ensures var gs := GroupsOf(old(doc));
        var seen := FirstParticipants(gs, name);
        && (ok <==> exists p :: p in seen && Leaves(norm, sender, targets, seen, p))
        && (forall n :: n != name || !ok ==> Look(GroupsOf(doc), n) == Look(gs, n))
        && (ok ==> Look(gs, name) == Some(People(seen)) && Has(GroupsOf(doc), name))
        && (ok ==> forall p ::
              p in Look(GroupsOf(doc), name).value <==> p in seen && !Leaves(norm, sender, targets, seen, p))
      ensures Tidy(GroupsOf(old(doc))) ==> Tidy(GroupsOf(doc))
    {
      if doc.None? || !Has(doc.value, name) {
        NoneToLeave(GroupsOf(doc), name);
        return false;
      }
      var seen := FirstParticipants(doc.value, name);
      var gone := Selected(norm, Op.Exit(name, sender, targets), seen);
      forall p ensures p in gone <==> p in seen && Leaves(norm, sender, targets, seen, p) {
        SelectedLeave(norm, Op.Exit(name, sender, targets), seen, p);
      }
      FirstIsLook(doc.value, name);
      if gone == {} {
        return false;
      }
      ghost var pulling := Call(Op.Exit(name, sender, targets), Pulling(seen, gone));
      assert Effect(doc, pulling.phase) == Performed(norm, doc, pulling.(phase := Started));
      CallsLinearize(norm, doc, pulling);
      if Tidy(doc.value) {
        TidyPull(doc.value, name, gone);
      }
      ok := exists p :: p in seen && p in gone;
      doc := Some(PullIn(doc.value, name, gone));
    }
  }
}
