/** Self time per span: its duration less the time at least one awaited child was running. The sweep
    over sorted child intervals is proved to count the instants of their union, and the table of open
    spans to account for every instant of a tree of spans. */
module SelfTime {
  import opened Wrappers

  datatype Interval = Interval(start: int, end: int)

  predicate Covers(iv: Interval, t: int) {
    iv.start <= t < iv.end
  }

  function Range(a: int, b: int): (r: set<int>)
    ensures forall t :: t in r <==> a <= t < b
    ensures |r| == if a < b then b - a else 0
    decreases b - a
  {
    if a < b then Range(a, b - 1) + {b - 1} else {}
  }

  function Max(a: int, b: int): int {
    if a > b then a else b
  }

  // The instants at or after `from` that some interval covers.
  function Points(ivs: seq<Interval>, from: int): set<int> {
    if ivs == [] then {}
    else
      var last := ivs[|ivs| - 1];
      Points(ivs[..|ivs| - 1], from) + Range(Max(last.start, from), last.end)
  }

  lemma {:induction false} PointsExactly(ivs: seq<Interval>, from: int, t: int)
    ensures t in Points(ivs, from) <==> from <= t && exists iv :: iv in ivs && Covers(iv, t)
  {
    if ivs != [] {
      var last := ivs[|ivs| - 1];
      PointsExactly(ivs[..|ivs| - 1], from, t);
      assert forall iv :: iv in ivs <==> iv in ivs[..|ivs| - 1] || iv == last;
      assert Covers(last, t) && from <= t ==> t in Range(Max(last.start, from), last.end);
    }
  }

  lemma SubsetSize(a: set<int>, b: set<int>)
    requires a <= b
    ensures |a| <= |b|
  {
    assert b == a + (b - a);
  }

  // Sorting, as Python sorts pairs

  predicate Before(a: Interval, b: Interval) {
    a.start < b.start || (a.start == b.start && a.end <= b.end)
  }

  predicate Ascending(ivs: seq<Interval>) {
    forall i, j :: 0 <= i < j < |ivs| ==> Before(ivs[i], ivs[j])
  }

  lemma BehindFirst(iv: Interval, ivs: seq<Interval>, rest: seq<Interval>)
    requires Ascending(ivs) && ivs != [] && !Before(iv, ivs[0])
    requires Ascending(rest) && multiset(rest) == multiset(ivs[1..]) + multiset{iv}
    ensures Ascending([ivs[0]] + rest) && multiset([ivs[0]] + rest) == multiset(ivs) + multiset{iv}
  {
    forall j | 0 <= j < |rest| ensures Before(ivs[0], rest[j]) {
      assert rest[j] in multiset(rest);
      assert rest[j] == iv || rest[j] in ivs[1..];
    }
    assert ivs == [ivs[0]] + ivs[1..];
  }

  function Insert(iv: Interval, ivs: seq<Interval>): (r: seq<Interval>)
    requires Ascending(ivs)
    ensures Ascending(r) && multiset(r) == multiset(ivs) + multiset{iv}
  {
    if ivs == [] || Before(iv, ivs[0]) then [iv] + ivs
    else
      var rest := Insert(iv, ivs[1..]);
      BehindFirst(iv, ivs, rest);
      [ivs[0]] + rest
  }

  function Sorted(ivs: seq<Interval>): (r: seq<Interval>)
    ensures Ascending(r) && multiset(r) == multiset(ivs)
  {
    if ivs == [] then []
    else
      assert ivs == [ivs[0]] + ivs[1..];
      Insert(ivs[0], Sorted(ivs[1..]))
  }

  lemma SamePoints(a: seq<Interval>, b: seq<Interval>, from: int)
    requires multiset(a) == multiset(b)
    ensures Points(a, from) == Points(b, from)
  {
    assert forall iv :: iv in a <==> iv in multiset(a);
    assert forall iv :: iv in b <==> iv in multiset(b);
    forall t ensures t in Points(a, from) <==> t in Points(b, from) {
      PointsExactly(a, from, t);
      PointsExactly(b, from, t);
    }
  }

  // Everything from the start of the newest interval up to `reached` is covered already.
  ghost predicate Swept(ivs: seq<Interval>, from: int, reached: int) {
    && from <= reached
    && (forall t :: t in Points(ivs, from) ==> t < reached)
    && (forall t :: from <= t < reached && (forall iv :: iv in ivs ==> iv.start <= t) ==> t in Points(ivs, from))
  }

  // The instants a new interval adds start where the sweep has got to.
  lemma NewPoints(ivs: seq<Interval>, from: int, reached: int, iv: Interval)
    requires Swept(ivs, from, reached) && forall o :: o in ivs ==> o.start <= iv.start
    ensures Points(ivs + [iv], from) == Points(ivs, from) + Range(Max(iv.start, reached), iv.end)
    ensures Points(ivs, from) !! Range(Max(iv.start, reached), iv.end)
  {
    assert (ivs + [iv])[..|ivs|] == ivs;
    forall t | Max(iv.start, from) <= t < iv.end && t < reached ensures t in Points(ivs, from) {}
  }

  lemma SweepOne(ivs: seq<Interval>, from: int, reached: int, iv: Interval)
    requires Swept(ivs, from, reached) && forall o :: o in ivs ==> o.start <= iv.start
    ensures var start := Max(iv.start, reached);
      if iv.end > start then
        && |Points(ivs + [iv], from)| == |Points(ivs, from)| + (iv.end - start)
        && Swept(ivs + [iv], from, iv.end)
      else Points(ivs + [iv], from) == Points(ivs, from) && Swept(ivs + [iv], from, reached)
  {
    NewPoints(ivs, from, reached, iv);
    var start, all := Max(iv.start, reached), ivs + [iv];
    assert forall o :: o in all <==> o in ivs || o == iv;
    if iv.end <= start {
      assert Range(start, iv.end) == {};
    } else {
      forall t | from <= t < iv.end && (forall o :: o in all ==> o.start <= t) ensures t in Points(all, from) {
        assert iv in all && iv.start <= t;
        assert forall o :: o in ivs ==> o in all;
        assert t < reached ==> t in Points(ivs, from);
      }
    }
  }

  // One turn of the loop over the sorted intervals.
  lemma SweepNext(sorted: seq<Interval>, n: nat, from: int, reached: int)
    requires Ascending(sorted) && n < |sorted| && Swept(sorted[..n], from, reached)
    ensures var iv := sorted[n];
            var start := Max(iv.start, reached);
      && Swept(sorted[..n + 1], from, if iv.end > start then iv.end else reached)
      && |Points(sorted[..n + 1], from)|
         == |Points(sorted[..n], from)| + if iv.end > start then iv.end - start else 0
  {
    assert sorted[..n + 1] == sorted[..n] + [sorted[n]];
    forall o | o in sorted[..n] ensures o.start <= sorted[n].start {
      var i :| 0 <= i < n && sorted[i] == o;
      assert Before(sorted[i], sorted[n]);
    }
    SweepOne(sorted[..n], from, reached, sorted[n]);
  }

  /** SelfTimeProcessor._union. */
  method Union(intervals: seq<Interval>, parentStart: int) returns (total: int)
    ensures total == |Points(intervals, parentStart)|
  {
    var sorted := Sorted(intervals);
    var reached := parentStart;
    total := 0;
    for n := 0 to |sorted|
      invariant Swept(sorted[..n], parentStart, reached)
      invariant total == |Points(sorted[..n], parentStart)|
    {
      SweepNext(sorted, n, parentStart, reached);
      var start := Max(sorted[n].start, reached);
      if sorted[n].end > start {
        total := total + (sorted[n].end - start);
        reached := sorted[n].end;
      }
    }
    assert sorted[..|sorted|] == sorted;
    SamePoints(sorted, intervals, parentStart);
  }

  // The table of open spans

  type Table = map<nat, seq<Interval>>

  function Children(table: Table, id: nat): seq<Interval> {
    if id in table then table[id] else []
  }

  function Started(table: Table, id: nat): Table {
    table[id := []]
  }

  // Only an open parent collects.
  function Ended(table: Table, id: nat, parent: Option<nat>, iv: Interval): Table {
    var rest := table - {id};
    if parent.Some? && parent.value in rest
    then rest[parent.value := rest[parent.value] + [iv]]
    else rest
  }

  function SelfTimeOf(table: Table, id: nat, iv: Interval): int {
    iv.end - iv.start - |Points(Children(table, id), iv.start)|
  }

  class SelfTimeProcessor {
    var children: Table

    constructor ()
      ensures children == map[]
    {
      children := map[];
    }

    method OnStart(id: nat)
      modifies this
      ensures children == Started(old(children), id)
    {
      children := children[id := []];
    }

    // Returns what the histogram records, in the unit of the timestamps.
    method OnEnd(id: nat, parent: Option<nat>, iv: Interval) returns (selfTime: int)
      modifies this
      ensures children == Ended(old(children), id, parent, iv)
      ensures selfTime == SelfTimeOf(old(children), id, iv)
    {
      var own := Children(children, id);
      children := children - {id};
      if parent.Some? && parent.value in children {
        children := children[parent.value := children[parent.value] + [iv]];
      }
      var busy := Union(own, iv.start);
      selfTime := iv.end - iv.start - busy;
    }
  }

  // Traces that build trees; any number of trees is open at once, and a child may outlive its parent

  // `root` names the tree, `rank` is the order in which spans started.
  datatype Span = Span(parent: Option<nat>, root: nat, start: int, rank: nat)

  datatype Event = Start(id: nat, parent: Option<nat>, at: int) | End(id: nat, at: int)

  // Of one tree: `recorded` sums the self times, `overlap` the children's durations less their union
  // over the ended spans; `rootTime` is the root's duration once it has ended, and `orphanTime` those
  // of the spans that ended after their parent.
  datatype Sums = Sums(recorded: int, overlap: int, rootTime: int, orphanTime: int)

  // `remote` has the parents that roots name and that never open here.
  datatype State = State(
    live: map<nat, Span>, table: Table, seen: set<nat>, remote: set<nat>, trees: map<nat, Sums>)

  const Init := State(map[], map[], {}, {}, map[])

  // A span whose parent is not open starts a tree: it has none, a remote one, or one already ended.
  predicate IsRoot(s: State, parent: Option<nat>) {
    parent.None? || parent.value !in s.live
  }

  predicate Allowed(s: State, e: Event) {
    match e
    case Start(id, parent, at) =>
      && id !in s.seen && id !in s.remote && parent != Some(id)
      && (IsRoot(s, parent) || s.live[parent.value].start <= at)
    case End(id, at) =>
      && id in s.live
      && s.live[id].start <= at
      && (forall iv :: iv in Children(s.table, id) ==> iv.end <= at)
  }

  function Durations(ivs: seq<Interval>): int {
    if ivs == [] then 0
    else Durations(ivs[..|ivs| - 1]) + (ivs[|ivs| - 1].end - ivs[|ivs| - 1].start)
  }

  function OverlapOf(ivs: seq<Interval>, from: int): int {
    Durations(ivs) - |Points(ivs, from)|
  }

  function TreeSums(s: State, root: nat): Sums {
    if root in s.trees then s.trees[root] else Sums(0, 0, 0, 0)
  }

  function Charged(s: State, id: nat, at: int): Sums
    requires id in s.live
  {
    var span, sums := s.live[id], TreeSums(s, s.live[id].root);
    Sums(sums.recorded + SelfTimeOf(s.table, id, Interval(span.start, at)),
         sums.overlap + OverlapOf(Children(s.table, id), span.start),
         sums.rootTime + (if id == span.root then at - span.start else 0),
         sums.orphanTime + if id != span.root && IsRoot(s, span.parent) then at - span.start else 0)
  }

  function Next(s: State, e: Event): State
    requires Allowed(s, e)
  {
    match e
    case Start(id, parent, at) =>
      var root := if IsRoot(s, parent) then id else s.live[parent.value].root;
      s.(live := s.live[id := Span(parent, root, at, |s.seen|)],
         table := Started(s.table, id),
         seen := s.seen + {id},
         remote := if IsRoot(s, parent) && parent.Some? then s.remote + {parent.value} else s.remote,
         trees := if root == id then s.trees[id := Sums(0, 0, 0, 0)] else s.trees)
    case End(id, at) =>
      var span := s.live[id];
      s.(live := s.live - {id},
         table := Ended(s.table, id, span.parent, Interval(span.start, at)),
         trees := s.trees[span.root := Charged(s, id, at)])
  }

  ghost predicate Valid(s: State, events: seq<Event>)
    decreases |events|
  {
    events == [] || (Allowed(s, events[0]) && Valid(Next(s, events[0]), events[1..]))
  }

  ghost function After(s: State, events: seq<Event>): State
    requires Valid(s, events)
    decreases |events|
  {
    if events == [] then s else After(Next(s, events[0]), events[1..])
  }

  // Durations the open spans have collected and not yet been charged for.
  ghost function Pending(table: Table): int {
    if table == map[] then 0
    else
      var id :| id in table;
      Durations(table[id]) + Pending(table - {id})
  }

  lemma {:induction false} PendingRemove(table: Table, id: nat)
    requires id in table
    ensures Pending(table) == Durations(table[id]) + Pending(table - {id})
    decreases |table|
  {
    var o :| o in table && Pending(table) == Durations(table[o]) + Pending(table - {o});
    if o != id {
      PendingRemove(table - {o}, id);
      PendingRemove(table - {id}, o);
      assert table - {o} - {id} == table - {id} - {o};
    }
  }

  lemma PendingSet(table: Table, id: nat, ivs: seq<Interval>)
    ensures Pending(table[id := ivs]) == Durations(ivs) + Pending(table - {id})
  {
    PendingRemove(table[id := ivs], id);
    assert table[id := ivs] - {id} == table - {id};
  }

  // An open span sits in an open parent of the same tree that started first, unless it is the root of
  // its tree or an orphan; then no parent of it ever opens again.
  ghost predicate Nested(s: State, id: nat)
    requires id in s.live
  {
    var span := s.live[id];
    && id in s.seen && span.rank < |s.seen| && span.root in s.trees
    && (IsRoot(s, span.parent) && span.parent.Some? ==> span.parent.value in s.seen + s.remote)
    && (id == span.root ==> IsRoot(s, span.parent))
    && (!IsRoot(s, span.parent) ==>
          && s.live[span.parent.value].root == span.root
          && s.live[span.parent.value].start <= span.start
          && s.live[span.parent.value].rank < span.rank)
  }

  ghost predicate TreesOk(s: State) {
    && (forall id {:trigger Nested(s, id)} :: id in s.live ==> Nested(s, id))
    && s.trees.Keys <= s.seen
  }

  // The table has an entry per open span, and what it collected started inside that span.
  ghost predicate TableOk(s: State) {
    && s.live.Keys == s.table.Keys
    && (forall id, n :: id in s.table && 0 <= n < |s.table[id]| ==>
          s.live[id].start <= s.table[id][n].start <= s.table[id][n].end)
  }

  // The entries of one tree's spans.
  ghost function TableOf(s: State, root: nat): Table {
    map id | id in s.table && id in s.live && s.live[id].root == root :: s.table[id]
  }

  ghost predicate Balanced(s: State, root: nat) {
    var sums := TreeSums(s, root);
    sums.recorded == sums.rootTime + sums.orphanTime + sums.overlap + Pending(TableOf(s, root))
  }

  ghost predicate Inv(s: State) {
    TreesOk(s) && TableOk(s) && forall root :: Balanced(s, root)
  }

  lemma NestedKept(s: State, e: Event, id: nat)
    requires TreesOk(s) && Allowed(s, e) && id in s.live && id in Next(s, e).live
    ensures Nested(Next(s, e), id)
  {
    assert Nested(s, id);
    var parent := s.live[id].parent;
    assert Next(s, e).live[id] == s.live[id];
    if !IsRoot(s, parent) {
      assert Nested(s, parent.value);
    }
  }

  lemma NewIsNested(s: State, id: nat, parent: Option<nat>, at: int)
    requires TreesOk(s) && Allowed(s, Start(id, parent, at))
    ensures Nested(Next(s, Start(id, parent, at)), id)
  {
    if !IsRoot(s, parent) {
      assert Nested(s, parent.value);
    }
  }

  lemma TreesKept(s: State, e: Event)
    requires TreesOk(s) && Allowed(s, e)
    ensures TreesOk(Next(s, e))
  {
    forall id | id in Next(s, e).live ensures Nested(Next(s, e), id) {
      if id in s.live {
        NestedKept(s, e, id);
      } else {
        NewIsNested(s, e.id, e.parent, e.at);
      }
    }
    assert e.End? ==> Nested(s, e.id);
  }

  lemma TableKept(s: State, e: Event)
    requires TreesOk(s) && TableOk(s) && Allowed(s, e)
    ensures TableOk(Next(s, e))
  {
    if e.End? {
      assert Nested(s, e.id);
    }
  }

  lemma StartKeepsBalance(s: State, e: Event, root: nat)
    requires TreesOk(s) && TableOk(s) && Balanced(s, root) && Allowed(s, e) && e.Start?
    ensures Balanced(Next(s, e), root)
  {
    var t := Next(s, e);
    assert e.id !in s.live by {
      assert e.id in s.live ==> Nested(s, e.id);
    }
    if t.live[e.id].root == root {
      assert TableOf(t, root) == TableOf(s, root)[e.id := []];
      PendingSet(TableOf(s, root), e.id, []);
      assert TableOf(s, root) - {e.id} == TableOf(s, root);
    } else {
      assert TableOf(t, root) == TableOf(s, root);
    }
  }

  lemma ParentCollects(table: Table, parent: nat, iv: Interval)
    requires parent in table
    ensures Pending(table[parent := table[parent] + [iv]]) == Pending(table) + (iv.end - iv.start)
  {
    PendingSet(table, parent, table[parent] + [iv]);
    PendingRemove(table, parent);
    assert (table[parent] + [iv])[..|table[parent]|] == table[parent];
  }

  lemma TableAfterEnd(s: State, id: nat, at: int)
    requires TreesOk(s) && TableOk(s) && Allowed(s, End(id, at))
    ensures var span, own := s.live[id], TableOf(s, s.live[id].root);
      && id in own
      && (!IsRoot(s, span.parent) ==> span.parent.value in own - {id})
      && TableOf(Next(s, End(id, at)), span.root) == if IsRoot(s, span.parent) then own - {id}
         else (own - {id})[span.parent.value := own[span.parent.value] + [Interval(span.start, at)]]
  {
    assert Nested(s, id);
  }

  lemma OwnEndKeepsBalance(s: State, id: nat, at: int)
    requires TreesOk(s) && TableOk(s) && Allowed(s, End(id, at)) && Balanced(s, s.live[id].root)
    ensures Balanced(Next(s, End(id, at)), s.live[id].root)
  {
    var span, own := s.live[id], TableOf(s, s.live[id].root);
    assert Nested(s, id);
    TableAfterEnd(s, id, at);
    PendingRemove(own, id);
    if !IsRoot(s, span.parent) {
      ParentCollects(own - {id}, span.parent.value, Interval(span.start, at));
    }
  }

  lemma OtherEndKeepsBalance(s: State, id: nat, at: int, root: nat)
    requires TreesOk(s) && TableOk(s) && Allowed(s, End(id, at)) && Balanced(s, root) && root != s.live[id].root
    ensures Balanced(Next(s, End(id, at)), root)
  {
    assert Nested(s, id);
    assert TableOf(Next(s, End(id, at)), root) == TableOf(s, root);
  }

  lemma BalanceKept(s: State, e: Event, root: nat)
    requires TreesOk(s) && TableOk(s) && Balanced(s, root) && Allowed(s, e)
    ensures Balanced(Next(s, e), root)
  {
    if e.Start? {
      StartKeepsBalance(s, e, root);
    } else if s.live[e.id].root == root {
      OwnEndKeepsBalance(s, e.id, e.at);
    } else {
      OtherEndKeepsBalance(s, e.id, e.at, root);
    }
  }

  lemma InvKept(s: State, e: Event)
    requires Inv(s) && Allowed(s, e)
    ensures Inv(Next(s, e))
  {
    TreesKept(s, e);
    TableKept(s, e);
    forall root ensures Balanced(Next(s, e), root) {
      BalanceKept(s, e, root);
    }
  }

  lemma {:induction false} InvThroughout(s: State, events: seq<Event>)
    requires Inv(s) && Valid(s, events)
    ensures Inv(After(s, events))
    decreases |events|
  {
    if events != [] {
      InvKept(s, events[0]);
      InvThroughout(Next(s, events[0]), events[1..]);
    }
  }

  lemma InitOk()
    ensures Inv(Init)
  {
    forall root ensures Balanced(Init, root) {
      assert TableOf(Init, root) == map[];
    }
  }

  lemma UnionWithin(ivs: seq<Interval>, start: int, end: int)
    requires start <= end && forall iv :: iv in ivs ==> iv.end <= end
    ensures 0 <= |Points(ivs, start)| <= end - start
  {
    forall t | t in Points(ivs, start) ensures t in Range(start, end) {
      PointsExactly(ivs, start, t);
    }
    SubsetSize(Points(ivs, start), Range(start, end));
  }

  // A self time is never negative and never longer than its span.
  lemma SelfTimeInRange(s: State, id: nat, at: int)
    requires Allowed(s, End(id, at))
    ensures 0 <= SelfTimeOf(s.table, id, Interval(s.live[id].start, at)) <= at - s.live[id].start
  {
    UnionWithin(Children(s.table, id), s.live[id].start, at);
  }

  // The table has exactly the open spans.
  lemma TableIsOpenSpans(events: seq<Event>)
    requires Valid(Init, events)
    ensures After(Init, events).table.Keys == After(Init, events).live.Keys
  {
    InitOk();
    InvThroughout(Init, events);
  }

  ghost predicate Closed(s: State, root: nat) {
    root in s.trees && forall id :: id in s.live ==> s.live[id].root != root
  }

  // When no span of a tree is open any more, whatever other trees are, the self times of the tree add
  // up to the root's duration, those of the spans that outlived their parent, and every overlap
  // between siblings.
  lemma TreeAddsUp(events: seq<Event>, root: nat)
    requires Valid(Init, events) && Closed(After(Init, events), root)
    ensures var s := After(Init, events); var sums := s.trees[root];
      && TableOf(s, root) == map[]
      && sums.recorded == sums.rootTime + sums.orphanTime + sums.overlap
  {
    InitOk();
    InvThroughout(Init, events);
    assert Balanced(After(Init, events), root);
    assert TableOf(After(Init, events), root) == map[];
  }

  // Traces with each child inside its parent

  ghost predicate Contained(s: State, e: Event) {
    e.End? ==> forall o :: o in s.live ==> s.live[o].parent != Some(e.id)
  }

  ghost predicate AllContained(s: State, events: seq<Event>)
    requires Valid(s, events)
    decreases |events|
  {
    events == [] || (Contained(s, events[0]) && AllContained(Next(s, events[0]), events[1..]))
  }

  // Every open span but a root is in an open parent, and every open span's root is open.
  ghost predicate Tidy(s: State) {
    && (forall id :: id in s.live && id != s.live[id].root ==> !IsRoot(s, s.live[id].parent))
    && (forall id :: id in s.live ==> s.live[id].root in s.live)
    && (forall root :: root in s.trees ==> s.trees[root].orphanTime == 0)
  }

  // An open span leads up to an open child of its root, unless it is the root.
  lemma {:induction false} LeadsToRoot(s: State, id: nat) returns (child: nat)
    requires TreesOk(s) && Tidy(s) && id in s.live && s.live[id].root != id
    ensures child in s.live && s.live[child].parent == Some(s.live[id].root)
    decreases s.live[id].rank
  {
    assert Nested(s, id);
    var p := s.live[id].parent.value;
    if s.live[id].root == p {
      child := id;
    } else {
      child := LeadsToRoot(s, p);
    }
  }

  lemma ParentStaysOpen(s: State, e: Event, id: nat)
    requires TreesOk(s) && Tidy(s) && Allowed(s, e) && Contained(s, e)
    requires id in Next(s, e).live && id != Next(s, e).live[id].root
    ensures !IsRoot(Next(s, e), Next(s, e).live[id].parent)
  {
  }

  lemma RootStaysOpen(s: State, e: Event, id: nat)
    requires TreesOk(s) && Tidy(s) && Allowed(s, e) && Contained(s, e) && id in Next(s, e).live
    ensures Next(s, e).live[id].root in Next(s, e).live
  {
    if id in s.live && s.live[id].root != id {
      var child := LeadsToRoot(s, id);
    }
  }

  lemma NoOrphanTime(s: State, e: Event, root: nat)
    requires TreesOk(s) && Tidy(s) && Allowed(s, e) && root in Next(s, e).trees
    ensures Next(s, e).trees[root].orphanTime == 0
  {
    if e.End? {
      assert Nested(s, e.id);
    }
  }

  lemma TidyKept(s: State, e: Event)
    requires TreesOk(s) && Tidy(s) && Allowed(s, e) && Contained(s, e)
    ensures Tidy(Next(s, e))
  {
    var t := Next(s, e);
    forall id | id in t.live
      ensures t.live[id].root in t.live
      ensures id != t.live[id].root ==> !IsRoot(t, t.live[id].parent)
    {
      RootStaysOpen(s, e, id);
      if id != t.live[id].root {
        ParentStaysOpen(s, e, id);
      }
    }
    forall root | root in t.trees ensures t.trees[root].orphanTime == 0 {
      NoOrphanTime(s, e, root);
    }
  }

  lemma {:induction false} TidyThroughout(s: State, events: seq<Event>)
    requires TreesOk(s) && Tidy(s) && Valid(s, events) && AllContained(s, events)
    ensures Tidy(After(s, events))
    decreases |events|
  {
    if events != [] {
      TreesKept(s, events[0]);
      TidyKept(s, events[0]);
      TidyThroughout(Next(s, events[0]), events[1..]);
    }
  }

  // With each child inside its parent a tree is closed as soon as its root ends, and then its self
  // times add up to the root's duration and the overlap.
  lemma ContainedTreeAddsUp(events: seq<Event>, root: nat)
    requires Valid(Init, events) && AllContained(Init, events)
    requires root in After(Init, events).trees && root !in After(Init, events).live
    ensures var s := After(Init, events);
      Closed(s, root) && s.trees[root].recorded == s.trees[root].rootTime + s.trees[root].overlap
  {
    TidyThroughout(Init, events);
    TreeAddsUp(events, root);
  }

  // Overlap is a true excess: siblings never cover more instants than their durations add up to.
  lemma {:induction false} OverlapNotNegative(ivs: seq<Interval>, from: int)
    requires forall iv :: iv in ivs ==> from <= iv.start <= iv.end
    ensures OverlapOf(ivs, from) >= 0
  {
    if ivs != [] {
      var last, rest := ivs[|ivs| - 1], ivs[..|ivs| - 1];
      assert last in ivs && forall iv :: iv in rest ==> iv in ivs;
      OverlapNotNegative(rest, from);
      var new_ := Range(Max(last.start, from), last.end);
      assert Points(ivs, from) == Points(rest, from) + new_;
      assert |Points(rest, from) + new_| <= |Points(rest, from)| + |new_|;
    }
  }
}
