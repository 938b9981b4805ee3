/** Saving WhatsApp credentials: concurrent upserts of one versioned document. A save takes the next
    version and a snapshot when it is called, then issues one upsert and, if that collides with the
    document's unique id, one plain update. The database may run the writes of different saves in
    any order, and an upsert that found no document may lose the creation to another one. */
module AuthState {
  import opened Wrappers

  // The `creds` document. The version is absent in documents older than the versioning.
  datatype Doc = Doc(data: string, version: Option<int>)

  datatype Phase =
    | Upserting   // the upsert is on its way
    | Creating    // its filter found no document at all; the insert is next
    | Retrying    // it hit the duplicate key; the plain update is next
    | Returned    // the save completed
    | Failed      // the save threw, at any point

  // `saves[n]` is the save that took version `base + 1 + n`.
  datatype Save = Save(data: string, phase: Phase)

  datatype State = State(base: int, doc: Option<Doc>, saves: seq<Save>)

  datatype Step =
    | Call(data: string)
    | Upsert(n: nat)
    | Insert(n: nat)
    | Update(n: nat)
    | Throw(n: nat)

  // { version: { $not: { $gte: v } } }, which a missing version also satisfies.
  predicate Filter(doc: Option<Doc>, v: int) {
    doc.Some? && (doc.value.version.None? || doc.value.version.value < v)
  }

  function Version(s: State, n: nat): int {
    s.base + 1 + n
  }

  function Opened(doc: Option<Doc>): State {
    State(if doc.Some? then doc.value.version.GetOr(0) else 0, doc, [])
  }

  ghost predicate Enabled(s: State, st: Step) {
    match st
    case Call(_) => true
    case Upsert(n) => n < |s.saves| && s.saves[n].phase == Upserting
    case Insert(n) => n < |s.saves| && s.saves[n].phase == Creating
    case Update(n) => n < |s.saves| && s.saves[n].phase == Retrying
    case Throw(n) => n < |s.saves| && s.saves[n].phase in {Upserting, Creating, Retrying}
  }

  function Written(s: State, n: nat): Doc
    requires n < |s.saves|
  {
    Doc(s.saves[n].data, Some(Version(s, n)))
  }

  function InPhase(s: State, n: nat, phase: Phase): State
    requires n < |s.saves|
  {
    s.(saves := s.saves[n := s.saves[n].(phase := phase)])
  }

  function Next(s: State, st: Step): State
    requires Enabled(s, st)
  {
    match st
    case Call(data) => s.(saves := s.saves + [Save(data, Upserting)])
    case Upsert(n) =>
      if s.doc.None? then InPhase(s, n, Creating)
      else if Filter(s.doc, Version(s, n)) then InPhase(s, n, Returned).(doc := Some(Written(s, n)))
      else InPhase(s, n, Retrying)
    case Insert(n) =>
      if s.doc.None? then InPhase(s, n, Returned).(doc := Some(Written(s, n)))
      else InPhase(s, n, Retrying)
    case Update(n) =>
      if Filter(s.doc, Version(s, n)) then InPhase(s, n, Returned).(doc := Some(Written(s, n)))
      else InPhase(s, n, Returned)
    case Throw(n) => InPhase(s, n, Failed)
  }

  ghost predicate Valid(s: State, steps: seq<Step>)
    decreases |steps|
  {
    steps == [] || (Enabled(s, steps[0]) && Valid(Next(s, steps[0]), steps[1..]))
  }

  ghost function After(s: State, steps: seq<Step>): State
    requires Valid(s, steps)
    decreases |steps|
  {
    if steps == [] then s else After(Next(s, steps[0]), steps[1..])
  }

  // The version a document counts as, below every version a save can take when it has none.
  function Stored(s: State): int {
    if s.doc.Some? then s.doc.value.version.GetOr(s.base) else s.base
  }

  ghost predicate Inv(s: State) {
    // Nothing newer than the calls made so far is stored, and what is stored is a call's snapshot.
    && s.base <= Stored(s) <= s.base + |s.saves|
    && (Stored(s) > s.base ==> s.doc == Some(Written(s, Stored(s) - s.base - 1)))
    // A save that returned left its version or a newer one; one that retries saw the document.
    && (forall n :: 0 <= n < |s.saves| && s.saves[n].phase == Returned ==> Version(s, n) <= Stored(s))
    && (forall n :: 0 <= n < |s.saves| && s.saves[n].phase == Retrying ==> s.doc.Some?)
  }

  lemma InvKept(s: State, st: Step)
    requires Inv(s) && Enabled(s, st)
    ensures Inv(Next(s, st))
    ensures Stored(Next(s, st)) >= Stored(s)
    ensures s.doc.Some? ==> Next(s, st).doc.Some?
  {}

  lemma {:induction false} InvAlways(s: State, steps: seq<Step>)
    requires Inv(s) && Valid(s, steps)
    ensures Inv(After(s, steps))
    ensures Stored(After(s, steps)) >= Stored(s)
    decreases |steps|
  {
    if steps != [] {
      InvKept(s, steps[0]);
      InvAlways(Next(s, steps[0]), steps[1..]);
    }
  }

  // The stored version never decreases, whatever the interleaving.
  lemma VersionNeverDecreases(doc: Option<Doc>, before: seq<Step>, more: seq<Step>)
    requires Valid(Opened(doc), before) && Valid(After(Opened(doc), before), more)
    ensures Stored(After(After(Opened(doc), before), more)) >= Stored(After(Opened(doc), before))
  {
    InvAlways(Opened(doc), before);
    InvAlways(After(Opened(doc), before), more);
  }

  lemma {:induction false} CallsKept(s: State, steps: seq<Step>, n: nat)
    requires Valid(s, steps) && n < |s.saves|
    ensures After(s, steps).base == s.base
    ensures n < |After(s, steps).saves| && After(s, steps).saves[n].data == s.saves[n].data
    decreases |steps|
  {
    if steps != [] {
      CallsKept(Next(s, steps[0]), steps[1..], n);
    }
  }

  // The snapshots the calls of a run took, in order.
  function Snapshots(steps: seq<Step>): seq<string> {
    if steps == [] then []
    else (if steps[0].Call? then [steps[0].data] else []) + Snapshots(steps[1..])
  }

  function FirstVersion(doc: Option<Doc>): int {
    if doc.Some? && doc.value.version.Some? then doc.value.version.value + 1 else 1
  }

  lemma {:induction false} SavesFollow(s: State, steps: seq<Step>)
    requires Valid(s, steps)
    ensures After(s, steps).base == s.base
    ensures |After(s, steps).saves| == |s.saves| + |Snapshots(steps)|
    ensures forall n :: 0 <= n < |Snapshots(steps)| ==>
      After(s, steps).saves[|s.saves| + n].data == Snapshots(steps)[n]
    decreases |steps|
  {
    if steps != [] {
      var t := Next(s, steps[0]);
      SavesFollow(t, steps[1..]);
      if steps[0].Call? {
        CallsKept(t, steps[1..], |s.saves|);
      }
    }
  }

  // The saves of a run are its calls: the n-th has the snapshot the n-th call took, and its version
  // is that many past the document found.
  lemma SavesAreCalls(doc: Option<Doc>, steps: seq<Step>)
    requires Valid(Opened(doc), steps)
    ensures var s := After(Opened(doc), steps);
      && |s.saves| == |Snapshots(steps)|
      && forall n: nat :: n < |s.saves| ==>
           s.saves[n].data == Snapshots(steps)[n] && Version(s, n) == FirstVersion(doc) + n
  {
    SavesFollow(Opened(doc), steps);
  }

  // Once the newest save has returned, the document holds the snapshot its call took, and keeps
  // holding it until a newer save is called: no older save still on its way can undo it.
  lemma NewestReturnedWins(doc: Option<Doc>, steps: seq<Step>)
    requires Valid(Opened(doc), steps)
    requires var s := After(Opened(doc), steps); s.saves != [] && s.saves[|s.saves| - 1].phase == Returned
    ensures var taken := Snapshots(steps);
      && taken != []
      && After(Opened(doc), steps).doc
         == Some(Doc(taken[|taken| - 1], Some(FirstVersion(doc) + |taken| - 1)))
  {
    InvAlways(Opened(doc), steps);
    SavesAreCalls(doc, steps);
  }

  // When every save has returned, the document holds the snapshot of the run's last call.
  lemma AllReturned(doc: Option<Doc>, steps: seq<Step>)
    requires Valid(Opened(doc), steps)
    requires var s := After(Opened(doc), steps);
      forall n :: 0 <= n < |s.saves| ==> s.saves[n].phase == Returned
    ensures var taken := Snapshots(steps);
      After(Opened(doc), steps).doc == if taken == [] then doc
        else Some(Doc(taken[|taken| - 1], Some(FirstVersion(doc) + |taken| - 1)))
  {
    SavesAreCalls(doc, steps);
    if Snapshots(steps) == [] {
      NothingCalled(Opened(doc), steps);
    } else {
      NewestReturnedWins(doc, steps);
    }
  }

  lemma {:induction false} NothingCalled(s: State, steps: seq<Step>)
    requires Valid(s, steps) && After(s, steps).saves == []
    ensures After(s, steps).doc == s.doc
    decreases |steps|
  {
    if steps != [] {
      var s' := Next(s, steps[0]);
      if s'.saves != [] {
        CallsKept(s', steps[1..], 0);
      }
      NothingCalled(s', steps[1..]);
    }
  }

  // Whatever throws, the document is never older than the snapshot of any save that returned.
  lemma ReturnedIsDurable(doc: Option<Doc>, steps: seq<Step>, n: nat)
    requires Valid(Opened(doc), steps)
    requires n < |After(Opened(doc), steps).saves| && After(Opened(doc), steps).saves[n].phase == Returned
    ensures exists m: nat ::
      && n <= m < |Snapshots(steps)|
      && After(Opened(doc), steps).doc == Some(Doc(Snapshots(steps)[m], Some(FirstVersion(doc) + m)))
  {
    InvAlways(Opened(doc), steps);
    SavesAreCalls(doc, steps);
    var s := After(Opened(doc), steps);
    var m: nat := Stored(s) - s.base - 1;
    assert n <= m < |s.saves| && s.doc == Some(Written(s, m));
  }

  // A save that throws, at any point of its way, leaves the document to the others.
  lemma ThrowsLeaveTheDocument(s: State, n: nat)
    requires n < |s.saves| && s.saves[n].phase != Returned && s.saves[n].phase != Failed
    ensures Enabled(s, Throw(n)) && Next(s, Throw(n)).doc == s.doc
    ensures Next(s, Throw(n)).saves[n] == Save(s.saves[n].data, Failed)
  {
  }

  // Without a document two saves may both miss it and both try to make it. If the newer one comes
  // first, the older one hits the duplicate key, and its plain update misses the newer document.

  ghost predicate Leads(s: State, steps: seq<Step>, t: State) {
    Valid(s, steps) && After(s, steps) == t
  }

  lemma Leading(s: State, st: Step, s': State, steps: seq<Step>, t: State)
    requires Enabled(s, st) && Next(s, st) == s' && Leads(s', steps, t)
    ensures Leads(s, [st] + steps, t)
  {
    assert ([st] + steps)[1..] == steps;
  }

  function Racing(doc: Option<Doc>, a: string, first: Phase, b: string, second: Phase): State {
    State(0, doc, [Save(a, first), Save(b, second)])
  }

  lemma OlderCreateLoses(a: string, b: string) returns (steps: seq<Step>)
    ensures |steps| == 5 && steps[3] == Insert(0) && steps[4] == Update(0)
    ensures Leads(Racing(None, a, Upserting, b, Upserting), steps,
                  Racing(Some(Doc(b, Some(2))), a, Returned, b, Returned))
  {
    var made := Some(Doc(b, Some(2)));
    var end := Racing(made, a, Returned, b, Returned);
    var missed := Racing(None, a, Creating, b, Creating);
    Leading(Racing(made, a, Retrying, b, Returned), Update(0), end, [], end);
    Leading(Racing(made, a, Creating, b, Returned), Insert(0), Racing(made, a, Retrying, b, Returned),
            [Update(0)] + [], end);
    steps := [Insert(0)] + ([Update(0)] + []);
    Leading(missed, Insert(1), Racing(made, a, Creating, b, Returned), steps, end);
    steps := [Insert(1)] + steps;
    Leading(Racing(None, a, Creating, b, Upserting), Upsert(1), missed, steps, end);
    steps := [Upsert(1)] + steps;
    Leading(Racing(None, a, Upserting, b, Upserting), Upsert(0), Racing(None, a, Creating, b, Upserting), steps, end);
    steps := [Upsert(0)] + steps;
  }

  // A save takes at most three database steps and never waits for another one.
  function StepsLeft(phase: Phase): nat {
    match phase
    case Upserting => 3
    case Creating => 2
    case Retrying => 1
    case _ => 0
  }

  lemma SavesReturn(s: State, n: nat) returns (steps: seq<Step>)
    requires n < |s.saves| && s.saves[n].phase != Failed
    ensures |steps| <= StepsLeft(s.saves[n].phase) && Valid(s, steps)
    ensures |After(s, steps).saves| == |s.saves| && After(s, steps).saves[n].phase == Returned
    decreases StepsLeft(s.saves[n].phase)
  {
    var phase := s.saves[n].phase;
    if phase == Returned {
      steps := [];
    } else {
      var st := if phase == Upserting then Upsert(n) else if phase == Creating then Insert(n) else Update(n);
      var rest := SavesReturn(Next(s, st), n);
      steps := [st] + rest;
      assert steps[1..] == rest;
    }
  }

  // A document that a write of version `v` must not replace.
  predicate NotOlder(doc: Option<Doc>, v: int) {
    doc.Some? && doc.value.version.Some? && doc.value.version.value >= v
  }

  /** The closure of the source: its version counter, and the collection it writes to. */
  class Creds {
    var doc: Option<Doc>
    var credsVersion: int
    var creds: string

    constructor (stored: Option<Doc>, creds: string)
      ensures doc == stored && this.creds == creds && credsVersion + 1 == FirstVersion(stored)
    {
      doc, this.creds := stored, creds;
      credsVersion := if stored.Some? then stored.value.version.GetOr(0) else 0;
    }

    // updateOne; true when it hits the duplicate key.
    method UpdateOne(version: int, data: string, upsert: bool) returns (duplicate: bool)
      modifies this`doc
      ensures NotOlder(old(doc), version) ==> duplicate == upsert && doc == old(doc)
      ensures old(doc).None? && !upsert ==> !duplicate && doc == old(doc)
      ensures !NotOlder(old(doc), version) && (old(doc).Some? || upsert) ==>
        !duplicate && doc == Some(Doc(data, Some(version)))
    {
      duplicate := false;
      if Filter(doc, version) || (doc.None? && upsert) {
        doc := Some(Doc(data, Some(version)));
      } else {
        duplicate := upsert;
      }
    }

    method SaveCreds()
      modifies this
      ensures credsVersion == old(credsVersion) + 1 && creds == old(creds)
      ensures doc == if NotOlder(old(doc), credsVersion) then old(doc) else Some(Doc(creds, Some(credsVersion)))
    {
      credsVersion := credsVersion + 1;
      var duplicate := UpdateOne(credsVersion, creds, true);
      if duplicate {
        duplicate := UpdateOne(credsVersion, creds, false);
      }
    }
  }
}
