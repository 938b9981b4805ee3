/** The label each slot of a formation gets from its role and its place on the field. Every label is
    proved to be the one its place calls for, and to belong to the slot's own group. */
module Formations {
  datatype Group = GK | DEF | MID | ATT | Other(role: string)

  datatype Label = Keeper | CB | LB | RB | DM | CM | AM | LW | ST | RW | Blank | Foreign(name: string)

  datatype Slot = Slot(role: Group, x: real, y: real)

  const DM_Y_THRESHOLD := 0.50
  const AM_Y_THRESHOLD := 0.36
  const MIN_DEF_FOR_FULLBACK := 3

  // ROLE_GROUPS: whether a label is in it, and the group it names.

  predicate Grouped(tag: Label) {
    !tag.Blank? && !tag.Foreign?
  }

  function GroupOf(tag: Label): Group
    requires Grouped(tag)
  {
    match tag
    case Keeper => GK
    case CB => DEF
    case LB => DEF
    case RB => DEF
    case DM => MID
    case CM => MID
    case AM => MID
    case _ => ATT
  }

  // Sorting indexes by a key, ties in their own order: Python's stable sort of an ascending list.

  predicate Ahead(keys: seq<real>, i: nat, j: nat) {
    i < |keys| && j < |keys| && (keys[i] < keys[j] || (keys[i] == keys[j] && i < j))
  }

  predicate Within(n: nat, indexes: seq<nat>) {
    forall a :: 0 <= a < |indexes| ==> indexes[a] < n
  }

  predicate Ascending(indexes: seq<nat>) {
    forall a, b :: 0 <= a < b < |indexes| ==> indexes[a] < indexes[b]
  }

  function Insert(keys: seq<real>, i: nat, sorted: seq<nat>): (r: seq<nat>)
    ensures |r| == |sorted| + 1
    decreases |sorted|
  {
    if sorted == [] || Ahead(keys, i, sorted[0]) then [i] + sorted
    else [sorted[0]] + Insert(keys, i, sorted[1..])
  }

  function SortedBy(keys: seq<real>, indexes: seq<nat>): (r: seq<nat>)
    ensures |r| == |indexes|
    decreases |indexes|
  {
    if indexes == [] then [] else Insert(keys, indexes[0], SortedBy(keys, indexes[1..]))
  }

  lemma {:induction false} InsertMember(keys: seq<real>, i: nat, sorted: seq<nat>, j: nat)
    ensures j in Insert(keys, i, sorted) <==> j == i || j in sorted
    decreases |sorted|
  {
    if sorted != [] && !Ahead(keys, i, sorted[0]) {
      InsertMember(keys, i, sorted[1..], j);
      assert sorted == [sorted[0]] + sorted[1..];
    }
  }

  lemma {:induction false} SortedMember(keys: seq<real>, indexes: seq<nat>, j: nat)
    ensures j in SortedBy(keys, indexes) <==> j in indexes
    decreases |indexes|
  {
    if indexes != [] {
      SortedMember(keys, indexes[1..], j);
      InsertMember(keys, indexes[0], SortedBy(keys, indexes[1..]), j);
      assert indexes == [indexes[0]] + indexes[1..];
    }
  }

  ghost predicate InOrder(keys: seq<real>, sorted: seq<nat>) {
    forall a, b :: 0 <= a < b < |sorted| ==> Ahead(keys, sorted[a], sorted[b])
  }

  lemma {:induction false} InsertInOrder(keys: seq<real>, i: nat, sorted: seq<nat>)
    requires i < |keys| && Within(|keys|, sorted) && InOrder(keys, sorted) && i !in sorted
    ensures InOrder(keys, Insert(keys, i, sorted))
    decreases |sorted|
  {
    if sorted != [] && !Ahead(keys, i, sorted[0]) {
      assert sorted[0] in sorted && sorted == [sorted[0]] + sorted[1..];
      InsertInOrder(keys, i, sorted[1..]);
      var rest := Insert(keys, i, sorted[1..]);
      forall b | 0 <= b < |rest| ensures Ahead(keys, sorted[0], rest[b]) {
        assert rest[b] in rest;
        InsertMember(keys, i, sorted[1..], rest[b]);
      }
    }
  }

  lemma {:induction false} SortedInOrder(keys: seq<real>, indexes: seq<nat>)
    requires Within(|keys|, indexes) && Ascending(indexes)
    ensures InOrder(keys, SortedBy(keys, indexes)) && Within(|keys|, SortedBy(keys, indexes))
    decreases |indexes|
  {
    if indexes != [] {
      SortedInOrder(keys, indexes[1..]);
      SortedMember(keys, indexes[1..], indexes[0]);
      InsertInOrder(keys, indexes[0], SortedBy(keys, indexes[1..]));
      forall a | 0 <= a < |indexes| ensures SortedBy(keys, indexes)[a] < |keys| {
        assert SortedBy(keys, indexes)[a] in SortedBy(keys, indexes);
        SortedMember(keys, indexes, SortedBy(keys, indexes)[a]);
      }
    }
  }

  lemma SortedPair(keys: seq<real>, indexes: seq<nat>, a: nat, b: nat)
    requires Within(|keys|, indexes) && Ascending(indexes) && a < b < |indexes|
    ensures var sorted := SortedBy(keys, indexes); Ahead(keys, sorted[a], sorted[b]) && sorted[a] != sorted[b]
  {
    SortedInOrder(keys, indexes);
  }

  // Where the sort puts an index, and what it put at a place.

  lemma PlaceOf(keys: seq<real>, indexes: seq<nat>, a: nat) returns (rank: nat)
    requires a < |indexes|
    ensures rank < |indexes| && SortedBy(keys, indexes)[rank] == indexes[a]
  {
    assert indexes[a] in indexes;
    SortedMember(keys, indexes, indexes[a]);
    rank :| 0 <= rank < |indexes| && SortedBy(keys, indexes)[rank] == indexes[a];
  }

  lemma PlacedFrom(keys: seq<real>, indexes: seq<nat>, rank: nat) returns (a: nat)
    requires rank < |indexes|
    ensures a < |indexes| && indexes[a] == SortedBy(keys, indexes)[rank]
  {
    assert SortedBy(keys, indexes)[rank] in SortedBy(keys, indexes);
    SortedMember(keys, indexes, SortedBy(keys, indexes)[rank]);
    a :| 0 <= a < |indexes| && indexes[a] == SortedBy(keys, indexes)[rank];
  }

  // The slots of one role, in order.
  function IndexesOf(slots: seq<Slot>, role: Group): seq<nat>
    decreases |slots|
  {
    if slots == [] then []
    else
      var last := |slots| - 1;
      IndexesOf(slots[..last], role) + if slots[last].role == role then [last] else []
  }

  lemma {:induction false} LineAscends(slots: seq<Slot>, role: Group)
    ensures Ascending(IndexesOf(slots, role)) && Within(|slots|, IndexesOf(slots, role))
    decreases |slots|
  {
    if slots != [] {
      LineAscends(slots[..|slots| - 1], role);
    }
  }

  lemma {:induction false} InLine(slots: seq<Slot>, role: Group, i: nat)
    requires i < |slots|
    ensures i in IndexesOf(slots, role) <==> slots[i].role == role
    decreases |slots|
  {
    var last := |slots| - 1;
    if i < last {
      InLine(slots[..last], role, i);
    } else {
      LineAscends(slots[..last], role);
    }
  }

  // Labels from the place on the field

  function Xs(slots: seq<Slot>): (r: seq<real>)
    ensures |r| == |slots| && forall i: nat :: i < |r| ==> r[i] == slots[i].x
  {
    seq(|slots|, i requires 0 <= i < |slots| => slots[i].x)
  }

  // The slot left of all the others of its line, and the one right of them.

  predicate Leftmost(keys: seq<real>, line: seq<nat>, i: nat) {
    forall a :: 0 <= a < |line| && line[a] != i ==> Ahead(keys, i, line[a])
  }

  predicate Rightmost(keys: seq<real>, line: seq<nat>, i: nat) {
    forall a :: 0 <= a < |line| && line[a] != i ==> Ahead(keys, line[a], i)
  }

  function DefLabel(keys: seq<real>, line: seq<nat>, i: nat): Label {
    if |line| >= MIN_DEF_FOR_FULLBACK && Leftmost(keys, line, i) then LB
    else if |line| >= MIN_DEF_FOR_FULLBACK && Rightmost(keys, line, i) then RB
    else CB
  }

  function AttLabel(keys: seq<real>, line: seq<nat>, i: nat): Label {
    if |line| > 2 && Leftmost(keys, line, i) then LW
    else if |line| > 2 && Rightmost(keys, line, i) then RW
    else ST
  }

  function MidLabel(slot: Slot): Label {
    if slot.y >= DM_Y_THRESHOLD then DM else if slot.y < AM_Y_THRESHOLD then AM else CM
  }

  function LabelOf(slots: seq<Slot>, i: nat): Label
    requires i < |slots|
  {
    var line := IndexesOf(slots, slots[i].role);
    match slots[i].role
    case GK => Keeper
    case DEF => DefLabel(Xs(slots), line, i)
    case MID => MidLabel(slots[i])
    case ATT => AttLabel(Xs(slots), line, i)
    case Other(_) => Blank
  }

  // A sorted line starts at its leftmost slot and ends at its rightmost.

  lemma StartOfLine(keys: seq<real>, line: seq<nat>, rank: nat)
    requires Within(|keys|, line) && Ascending(line) && rank < |line|
    ensures Leftmost(keys, line, SortedBy(keys, line)[rank]) <==> rank == 0
  {
    if rank == 0 {
      forall a | 0 <= a < |line| && line[a] != SortedBy(keys, line)[0]
        ensures Ahead(keys, SortedBy(keys, line)[0], line[a])
      {
        var at := PlaceOf(keys, line, a);
        SortedPair(keys, line, 0, at);
      }
    } else {
      var a := PlacedFrom(keys, line, 0);
      SortedPair(keys, line, 0, rank);
    }
  }

  lemma EndOfLine(keys: seq<real>, line: seq<nat>, rank: nat)
    requires Within(|keys|, line) && Ascending(line) && rank < |line|
    ensures Rightmost(keys, line, SortedBy(keys, line)[rank]) <==> rank == |line| - 1
  {
    var last := |line| - 1;
    if rank == last {
      forall a | 0 <= a < |line| && line[a] != SortedBy(keys, line)[last]
        ensures Ahead(keys, line[a], SortedBy(keys, line)[last])
      {
        var at := PlaceOf(keys, line, a);
        SortedPair(keys, line, at, last);
      }
    } else {
      var a := PlacedFrom(keys, line, last);
      SortedPair(keys, line, rank, last);
    }
  }

  function DefAtRank(rank: nat, n: nat): Label {
    if n >= MIN_DEF_FOR_FULLBACK && rank == 0 then LB
    else if n >= MIN_DEF_FOR_FULLBACK && rank == n - 1 then RB
    else CB
  }

  function AttAtRank(rank: nat, n: nat): Label {
    if n > 2 && rank == 0 then LW else if n > 2 && rank == n - 1 then RW else ST
  }

  lemma LabelAtRank(keys: seq<real>, line: seq<nat>, rank: nat)
    requires Within(|keys|, line) && Ascending(line) && rank < |line|
    ensures var i := SortedBy(keys, line)[rank];
      && DefLabel(keys, line, i) == DefAtRank(rank, |line|)
      && AttLabel(keys, line, i) == AttAtRank(rank, |line|)
  {
    StartOfLine(keys, line, rank);
    EndOfLine(keys, line, rank);
  }

  // What a labeler's loop needs of the list it walks.
  lemma SortedIsLine(keys: seq<real>, line: seq<nat>)
    requires Within(|keys|, line) && Ascending(line)
    ensures Within(|keys|, SortedBy(keys, line))
    ensures forall a, b :: 0 <= a < b < |line| ==> SortedBy(keys, line)[a] != SortedBy(keys, line)[b]
    ensures forall i :: i in SortedBy(keys, line) <==> i in line
  {
    SortedInOrder(keys, line);
    forall i: nat ensures i in SortedBy(keys, line) <==> i in line {
      SortedMember(keys, line, i);
    }
  }

  /** _label_def. */
  method LabelDef(slots: seq<Slot>, line: seq<nat>, result: array<Label>)
    requires result.Length == |slots| && Within(|slots|, line) && Ascending(line)
    modifies result
    ensures forall i: nat :: i < |slots| ==>
      result[i] == if i in line then DefLabel(Xs(slots), line, i) else old(result[i])
  {
    var sorted := SortedBy(Xs(slots), line);
    SortedIsLine(Xs(slots), line);
    var last := |sorted| - 1;
    for rank := 0 to |sorted|
      invariant forall k: nat :: k < rank ==> result[sorted[k]] == DefAtRank(k, |sorted|)
      invariant forall i: nat :: i < |slots| && i !in sorted ==> result[i] == old(result[i])
    {
      var i := sorted[rank];
      if |sorted| >= MIN_DEF_FOR_FULLBACK && rank == 0 {
        result[i] := LB;
      } else if |sorted| >= MIN_DEF_FOR_FULLBACK && rank == last {
        result[i] := RB;
      } else {
        result[i] := CB;
      }
    }
    forall i: nat | i in line ensures result[i] == DefLabel(Xs(slots), line, i) {
      var rank :| 0 <= rank < |sorted| && sorted[rank] == i;
      LabelAtRank(Xs(slots), line, rank);
    }
  }

  // The loops that give every slot of a list the same label.
  method Paint(line: seq<nat>, tag: Label, result: array<Label>)
    requires Within(result.Length, line)
    modifies result
    ensures forall i: nat :: i < result.Length ==> result[i] == if i in line then tag else old(result[i])
  {
    for k := 0 to |line|
      invariant forall i: nat :: i < result.Length ==> result[i] == if i in line[..k] then tag else old(result[i])
    {
      result[line[k]] := tag;
      assert line[..k + 1] == line[..k] + [line[k]];
    }
    assert line[..|line|] == line;
  }

  method PaintWings(sorted: seq<nat>, result: array<Label>)
    requires |sorted| > 2 && Within(result.Length, sorted)
    requires forall a, b :: 0 <= a < b < |sorted| ==> sorted[a] != sorted[b]
    modifies result
    ensures forall k: nat :: k < |sorted| ==> result[sorted[k]] == AttAtRank(k, |sorted|)
    ensures forall i: nat :: i < result.Length && i !in sorted ==> result[i] == old(result[i])
  {
    var last := |sorted| - 1;
    result[sorted[0]] := LW;
    result[sorted[last]] := RW;
    for rank := 1 to last
      invariant result[sorted[0]] == LW && result[sorted[last]] == RW
      invariant forall k: nat :: 1 <= k < rank ==> result[sorted[k]] == ST
      invariant forall i: nat :: i < result.Length && i !in sorted ==> result[i] == old(result[i])
    {
      result[sorted[rank]] := ST;
    }
  }

  /** _label_att. */
  method LabelAtt(slots: seq<Slot>, line: seq<nat>, result: array<Label>)
    requires result.Length == |slots| && Within(|slots|, line) && Ascending(line)
    modifies result
    ensures forall i: nat :: i < |slots| ==>
      result[i] == if i in line then AttLabel(Xs(slots), line, i) else old(result[i])
  {
    var sorted := SortedBy(Xs(slots), line);
    SortedIsLine(Xs(slots), line);
    if |sorted| <= 2 {
      Paint(sorted, ST, result);
    } else {
      PaintWings(sorted, result);
    }
    forall i: nat | i in line ensures result[i] == AttLabel(Xs(slots), line, i) {
      var rank :| 0 <= rank < |sorted| && sorted[rank] == i;
      LabelAtRank(Xs(slots), line, rank);
    }
  }

  /** _label_mid. */
  method LabelMid(slots: seq<Slot>, line: seq<nat>, result: array<Label>)
    requires result.Length == |slots| && Within(|slots|, line)
    modifies result
    ensures forall i: nat :: i < |slots| ==>
      result[i] == if i in line then MidLabel(slots[i]) else old(result[i])
  {
    for k := 0 to |line|
      invariant forall i: nat :: i < |slots| ==>
        result[i] == if i in line[..k] then MidLabel(slots[i]) else old(result[i])
    {
      var i := line[k];
      var y := slots[i].y;
      if y >= DM_Y_THRESHOLD {
        result[i] := DM;
      } else if y < AM_Y_THRESHOLD {
        result[i] := AM;
      } else {
        result[i] := CM;
      }
      assert line[..k + 1] == line[..k] + [i];
    }
    assert line[..|line|] == line;
  }

  // The dictionary of the lines of the slots seen so far.
  ghost predicate LinesOf(seen: seq<Slot>, lines: map<Group, seq<nat>>) {
    && (forall r :: r in lines ==> lines[r] == IndexesOf(seen, r))
    && (forall i :: 0 <= i < |seen| ==> seen[i].role in lines)
  }

  lemma NewLine(seen: seq<Slot>, role: Group, lines: map<Group, seq<nat>>)
    requires LinesOf(seen, lines) && role !in lines
    ensures LinesOf(seen, lines[role := []])
  {
    var line := IndexesOf(seen, role);
    if line != [] {
      LineAscends(seen, role);
      InLine(seen, role, line[0]);
    }
  }

  lemma LongerLine(seen: seq<Slot>, slot: Slot, lines: map<Group, seq<nat>>)
    requires LinesOf(seen, lines) && slot.role in lines
    ensures LinesOf(seen + [slot], lines[slot.role := lines[slot.role] + [|seen|]])
  {
    assert (seen + [slot])[..|seen|] == seen;
  }

  // The lines, and their roles in the order they came.
  method ByRole(slots: seq<Slot>) returns (roles: seq<Group>, lines: map<Group, seq<nat>>)
    ensures LinesOf(slots, lines)
    ensures (forall k :: 0 <= k < |roles| ==> roles[k] in lines) && forall r :: r in lines ==> r in roles
  {
    roles, lines := [], map[];
    ghost var seen := [];
    for i := 0 to |slots|
      invariant seen == slots[..i] && LinesOf(seen, lines)
      invariant (forall k :: 0 <= k < |roles| ==> roles[k] in lines) && forall r :: r in lines ==> r in roles
    {
      var role := slots[i].role;
      if role !in lines {
        NewLine(seen, role, lines);
        roles := roles + [role];
        lines := lines[role := []];
      }
      LongerLine(seen, slots[i], lines);
      seen := seen + [slots[i]];
      lines := lines[role := lines[role] + [i]];
    }
    assert seen == slots;
  }

  method LabelLine(slots: seq<Slot>, role: Group, line: seq<nat>, result: array<Label>)
    requires result.Length == |slots| && line == IndexesOf(slots, role)
    requires role.Other? ==> forall i :: 0 <= i < |slots| && slots[i].role == role ==> result[i] == Blank
    modifies result
    ensures forall i: nat :: i < |slots| ==>
      result[i] == if slots[i].role == role then LabelOf(slots, i) else old(result[i])
  {
    LineAscends(slots, role);
    forall i: nat | i < |slots| ensures i in line <==> slots[i].role == role {
      InLine(slots, role, i);
    }
    match role {
      case GK => Paint(line, Keeper, result);
      case DEF => LabelDef(slots, line, result);
      case MID => LabelMid(slots, line, result);
      case ATT => LabelAtt(slots, line, result);
      case Other(_) =>
    }
  }

  /** specific_roles. */
  method SpecificRoles(slots: seq<Slot>) returns (result: array<Label>)
    ensures fresh(result) && result.Length == |slots|
    ensures forall i: nat :: i < |slots| ==> result[i] == LabelOf(slots, i)
  {
    var roles, lines := ByRole(slots);
    result := new Label[|slots|](_ => Blank);
    ghost var done := {};
    for r := 0 to |roles|
      invariant forall k :: 0 <= k < r ==> roles[k] in done
      invariant forall i: nat :: i < |slots| ==>
        result[i] == if slots[i].role in done then LabelOf(slots, i) else Blank
    {
      var role := roles[r];
      LabelLine(slots, role, lines[role], result);
      done := done + {role};
    }
    forall i: nat | i < |slots| ensures slots[i].role in done {
      assert slots[i].role in roles;
    }
  }

  lemma LabelsStayInGroup(slots: seq<Slot>, i: nat)
    requires i < |slots|
    ensures var tag := LabelOf(slots, i);
      if slots[i].role.Other? then tag == Blank else Grouped(tag) && GroupOf(tag) == slots[i].role
  {
  }

  // A full back or a winger has the whole of its line on its other side; a slot level with it comes after
  // it in the formation on the left, before it on the right.
  lemma FlankIsOutermost(slots: seq<Slot>, i: nat, j: nat)
    requires i < |slots| && j < |slots| && i != j && slots[i].role == slots[j].role
    ensures LabelOf(slots, i) == LB || LabelOf(slots, i) == LW ==>
      slots[i].x < slots[j].x || (slots[i].x == slots[j].x && i < j)
    ensures LabelOf(slots, i) == RB || LabelOf(slots, i) == RW ==>
      slots[i].x > slots[j].x || (slots[i].x == slots[j].x && i > j)
  {
    var line := IndexesOf(slots, slots[i].role);
    InLine(slots, slots[j].role, j);
    var a :| 0 <= a < |line| && line[a] == j;
  }

  function Advance(tag: Label): int {
    if tag == AM then 2 else if tag == CM then 1 else 0
  }

  // Of two midfielders the one nearer its own goal is never labelled further forward, and the labels
  // change at 0.50 and 0.36 of the field.
  lemma DeeperIsNoMoreAdvanced(slots: seq<Slot>, i: nat, j: nat)
    requires i < |slots| && j < |slots| && slots[i].role == slots[j].role == MID
    ensures slots[i].y >= slots[j].y ==> Advance(LabelOf(slots, i)) <= Advance(LabelOf(slots, j))
    ensures LabelOf(slots, i) == DM <==> slots[i].y >= 0.50
    ensures LabelOf(slots, i) == AM <==> slots[i].y < 0.36
  {
  }

  lemma FlankOfLine(slots: seq<Slot>, role: Group, i: nat)
    requires (role == DEF || role == ATT) && |IndexesOf(slots, role)| >= 3 && i < |slots|
    ensures var sorted := SortedBy(Xs(slots), IndexesOf(slots, role));
      && (LabelOf(slots, i) == (if role == DEF then LB else LW) <==> i == sorted[0])
      && (LabelOf(slots, i) == (if role == DEF then RB else RW) <==> i == sorted[|sorted| - 1])
  {
    var keys, line := Xs(slots), IndexesOf(slots, role);
    LineAscends(slots, role);
    SortedIsLine(keys, line);
    InLine(slots, role, i);
    assert SortedBy(keys, line)[0] in line && SortedBy(keys, line)[|line| - 1] in line;
    if slots[i].role == role {
      var rank :| 0 <= rank < |line| && SortedBy(keys, line)[rank] == i;
      LabelAtRank(keys, line, rank);
    }
  }

  // A line of at least three has exactly one slot on each flank.
  lemma OneSlotPerFlank(slots: seq<Slot>, role: Group) returns (l: nat, r: nat)
    requires (role == DEF || role == ATT) && |IndexesOf(slots, role)| >= 3
    ensures l < |slots| && r < |slots| && l != r && slots[l].role == slots[r].role == role
    ensures forall i: nat :: i < |slots| ==> (LabelOf(slots, i) == (if role == DEF then LB else LW) <==> i == l)
    ensures forall i: nat :: i < |slots| ==> (LabelOf(slots, i) == (if role == DEF then RB else RW) <==> i == r)
  {
    var keys, line := Xs(slots), IndexesOf(slots, role);
    LineAscends(slots, role);
    var a := PlacedFrom(keys, line, 0);
    var b := PlacedFrom(keys, line, |line| - 1);
    l, r := line[a], line[b];
    SortedPair(keys, line, 0, |line| - 1);
    assert l in line && r in line;
    InLine(slots, role, l);
    InLine(slots, role, r);
    forall i: nat | i < |slots|
      ensures LabelOf(slots, i) == (if role == DEF then LB else LW) <==> i == l
      ensures LabelOf(slots, i) == (if role == DEF then RB else RW) <==> i == r
    {
      FlankOfLine(slots, role, i);
    }
  }
}
