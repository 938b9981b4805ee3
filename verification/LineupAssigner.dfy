/** Filling a formation from pools of players by role, scarcest slots first. No name is used twice,
    every slot gets a player of its own group, and when no name is in two groups every group gets as
    many players as any assignment could give it. */
module LineupAssigner {
  import opened Wrappers
  import opened Formations

  datatype Player = Player(name: string, card: string)

  // A dictionary of pools, as its items in order.
  type Pools = seq<(Label, seq<Player>)>

  function Scarcity(tag: Label): real {
    match tag
    case LB => 0.0
    case RB => 0.0
    case LW => 0.0
    case RW => 0.0
    case AM => 1.0
    case DM => 1.0
    case Keeper => 2.0
    case _ => 3.0
  }

  // Finding a player

  predicate HasFree(pool: seq<Player>, used: set<string>) {
    exists p :: p in pool && p.name !in used
  }

  // The first of the pool whose name is not used yet.
  ghost predicate IsFirstFree(pool: seq<Player>, used: set<string>, p: Player) {
    p.name !in used && exists k :: 0 <= k < |pool| && pool[k] == p && forall j :: 0 <= j < k ==> pool[j].name in used
  }

  function FirstFree(pool: seq<Player>, used: set<string>): (r: Option<Player>)
    ensures r.Some? ==> r.value in pool && r.value.name !in used
    ensures r.None? ==> forall p :: p in pool ==> p.name in used
  {
    if pool == [] then None
    else if pool[0].name !in used then Some(pool[0])
    else FirstFree(pool[1..], used)
  }

  lemma {:induction false} FirstFreeIsFirst(pool: seq<Player>, used: set<string>)
    requires FirstFree(pool, used).Some?
    ensures IsFirstFree(pool, used, FirstFree(pool, used).value)
    decreases |pool|
  {
    if pool[0].name !in used {
      assert pool[0] == FirstFree(pool, used).value;
    } else {
      FirstFreeIsFirst(pool[1..], used);
      var p := FirstFree(pool, used).value;
      var k :| && 0 <= k < |pool| - 1 && pool[1..][k] == p && forall j :: 0 <= j < k ==> pool[1..][j].name in used;
      assert pool[k + 1] == p;
      assert forall j :: 1 <= j < k + 1 ==> pool[j] == pool[1..][j - 1];
    }
  }

  function PoolOf(pools: Pools, tag: Label): seq<Player> {
    if pools == [] then [] else if pools[0].0 == tag then pools[0].1 else PoolOf(pools[1..], tag)
  }

  // The pool under a label, none under a label that is not there.
  lemma {:induction false} PoolIsThere(pools: Pools, tag: Label, k: nat)
    requires k <= |pools| && forall j :: 0 <= j < k ==> pools[j].0 != tag
    requires k < |pools| ==> pools[k].0 == tag
    ensures PoolOf(pools, tag) == if k < |pools| then pools[k].1 else []
    decreases k
  {
    if k > 0 {
      assert forall j :: 0 <= j < |pools| - 1 ==> pools[1..][j] == pools[j + 1];
      PoolIsThere(pools[1..], tag, k - 1);
    }
  }

  predicate InGroup(tag: Label, group: Group) {
    Grouped(tag) && GroupOf(tag) == group
  }

  function FromGroup(pools: Pools, group: Group, used: set<string>): Option<Player> {
    if pools == [] then None
    else if InGroup(pools[0].0, group) && FirstFree(pools[0].1, used).Some? then FirstFree(pools[0].1, used)
    else FromGroup(pools[1..], group, used)
  }

  function GroupFor(tag: Label, role: Group): Group {
    if Grouped(tag) then GroupOf(tag) else role
  }

  function Find(pools: Pools, tag: Label, role: Group, used: set<string>): Option<Player> {
    var own := FirstFree(PoolOf(pools, tag), used);
    if own.Some? then own else FromGroup(pools, GroupFor(tag, role), used)
  }

  // The labels of a role, one by one.
  predicate LabelOfRole(tag: Label, role: Group) {
    match role
    case GK => tag == Keeper
    case DEF => tag == CB || tag == LB || tag == RB
    case MID => tag == DM || tag == CM || tag == AM
    case ATT => tag == LW || tag == ST || tag == RW
    case Other(_) => false
  }

  // The first free player of the k-th pool, and no pool of the role before it has one.
  ghost predicate FromPool(pools: Pools, role: Group, used: set<string>, k: nat, p: Player) {
    && k < |pools| && LabelOfRole(pools[k].0, role) && IsFirstFree(pools[k].1, used, p)
    && forall j :: 0 <= j < k && LabelOfRole(pools[j].0, role) ==> !HasFree(pools[j].1, used)
  }

  lemma {:induction false} FromFirstPool(pools: Pools, role: Group, used: set<string>)
    requires FromGroup(pools, role, used).Some?
    ensures exists k: nat :: FromPool(pools, role, used, k, FromGroup(pools, role, used).value)
    decreases |pools|
  {
    var p := FromGroup(pools, role, used).value;
    if LabelOfRole(pools[0].0, role) && FirstFree(pools[0].1, used).Some? {
      FirstFreeIsFirst(pools[0].1, used);
      assert FromPool(pools, role, used, 0, p);
    } else {
      FromFirstPool(pools[1..], role, used);
      var k: nat :| FromPool(pools[1..], role, used, k, p);
      forall j | 0 <= j < k + 1 && LabelOfRole(pools[j].0, role) ensures !HasFree(pools[j].1, used) {
        assert j > 0 ==> pools[j] == pools[1..][j - 1];
      }
      assert FromPool(pools, role, used, k + 1, p);
    }
  }

  lemma {:induction false} NoPoolHasFree(pools: Pools, role: Group, used: set<string>, k: nat)
    requires FromGroup(pools, role, used).None? && k < |pools| && LabelOfRole(pools[k].0, role)
    ensures !HasFree(pools[k].1, used)
  {
    if k > 0 {
      NoPoolHasFree(pools[1..], role, used, k - 1);
    }
  }

  // A slot is offered the pool of its own label first, then every pool of its role, in order.
  lemma FindsInOrder(pools: Pools, tag: Label, role: Group, used: set<string>)
    requires LabelOfRole(tag, role) || (tag == Blank && role.Other?)
    ensures var r, own := Find(pools, tag, role, used), PoolOf(pools, tag);
      && (HasFree(own, used) ==> r.Some? && IsFirstFree(own, used, r.value))
      && (!HasFree(own, used) && r.Some? ==> exists k: nat :: FromPool(pools, role, used, k, r.value))
      && (r.None? ==>
            && !HasFree(own, used)
            && forall k: nat :: k < |pools| && LabelOfRole(pools[k].0, role) ==> !HasFree(pools[k].1, used))
  {
    var r := Find(pools, tag, role, used);
    if HasFree(PoolOf(pools, tag), used) {
      FirstFreeIsFirst(PoolOf(pools, tag), used);
    } else if r.Some? {
      FromFirstPool(pools, role, used);
    } else {
      forall k: nat | k < |pools| && LabelOfRole(pools[k].0, role) ensures !HasFree(pools[k].1, used) {
        NoPoolHasFree(pools, role, used, k);
      }
    }
  }

  /** LineupAssigner._find_player. */
  method FindPlayer(pools: Pools, tag: Label, role: Group, used: set<string>) returns (player: Option<Player>)
    ensures player == Find(pools, tag, role, used)
  {
    player := FirstFree(PoolOf(pools, tag), used);
    if player.Some? {
      return;
    }
    var group := GroupFor(tag, role);
    for i := 0 to |pools|
      invariant FromGroup(pools, group, used) == FromGroup(pools[i..], group, used)
    {
      assert pools[i..][0] == pools[i] && pools[i..][1..] == pools[i + 1..];
      if InGroup(pools[i].0, group) {
        player := FirstFree(pools[i].1, used);
        if player.Some? {
          return;
        }
      }
    }
    player := None;
  }

  // The names of a group

  function Names(players: seq<Player>): (r: set<string>)
    ensures forall p :: p in players ==> p.name in r
    ensures forall name :: name in r ==> exists p :: p in players && p.name == name
  {
    set p | p in players :: p.name
  }

  function Available(pools: Pools, group: Group): set<string> {
    if pools == [] then {}
    else (if InGroup(pools[0].0, group) then Names(pools[0].1) else {}) + Available(pools[1..], group)
  }

  lemma {:induction false} PoolIsAvailable(pools: Pools, tag: Label, p: Player)
    requires p in PoolOf(pools, tag) && Grouped(tag)
    ensures p.name in Available(pools, GroupOf(tag))
  {
    if pools[0].0 != tag {
      PoolIsAvailable(pools[1..], tag, p);
    }
  }

  lemma {:induction false} GroupIsAvailable(pools: Pools, group: Group, used: set<string>)
    ensures var r := FromGroup(pools, group, used);
      && (r.Some? ==> r.value.name in Available(pools, group) && r.value.name !in used)
      && (r.None? ==> Available(pools, group) <= used)
  {
    if pools != [] {
      GroupIsAvailable(pools[1..], group, used);
    }
  }

  // The names a slot may hold: its group's, or for an unknown role the unlabelled pool's.
  function Stock(pools: Pools, role: Group): set<string> {
    if role.Other? then Names(PoolOf(pools, Blank)) else Available(pools, role)
  }

  predicate Fits(tag: Label, role: Group) {
    if role.Other? then tag == Blank else InGroup(tag, role)
  }

  lemma {:induction false} NoGroupIsOther(pools: Pools, role: Group)
    requires role.Other?
    ensures Available(pools, role) == {}
  {
    if pools != [] {
      NoGroupIsOther(pools[1..], role);
    }
  }

  lemma {:induction false} AvailableExactly(pools: Pools, role: Group, name: string)
    ensures name in Available(pools, role) <==>
      exists k, p :: 0 <= k < |pools| && LabelOfRole(pools[k].0, role) && p in pools[k].1 && p.name == name
    decreases |pools|
  {
    if pools != [] {
      AvailableExactly(pools[1..], role, name);
      assert forall k :: 0 < k < |pools| ==> pools[k] == pools[1..][k - 1];
      if k, p :| && 0 <= k < |pools[1..]| && LabelOfRole(pools[1..][k].0, role)
                 && p in pools[1..][k].1 && p.name == name {
        assert pools[k + 1] == pools[1..][k];
      }
    }
  }

  // A slot may hold the names of the pools labelled for its role, or for an unknown role of the
  // unlabelled pool.
  lemma StockExactly(pools: Pools, role: Group, name: string)
    ensures name in Stock(pools, role) <==>
      if role.Other? then exists p :: p in PoolOf(pools, Blank) && p.name == name
      else exists k, p :: 0 <= k < |pools| && LabelOfRole(pools[k].0, role) && p in pools[k].1 && p.name == name
  {
    AvailableExactly(pools, role, name);
  }

  // A free name in stock is found exactly when there is one.
  lemma FindsTheStock(pools: Pools, tag: Label, role: Group, used: set<string>)
    requires Fits(tag, role)
    ensures var r := Find(pools, tag, role, used);
      && (r.Some? <==> !(Stock(pools, role) <= used))
      && (r.Some? ==> r.value.name in Stock(pools, role) - used)
  {
    GroupIsAvailable(pools, role, used);
    var own := FirstFree(PoolOf(pools, tag), used);
    if role.Other? {
      NoGroupIsOther(pools, role);
    } else if own.Some? {
      PoolIsAvailable(pools, tag, own.value);
    }
  }

  // Assigning

  type Lineup = seq<Option<Player>>

  function Assign(
    pools: Pools, slots: seq<Slot>, tags: seq<Label>, order: seq<nat>, used: set<string>, lineup: Lineup): (r: Lineup)
    requires |tags| == |slots| == |lineup| && Within(|slots|, order)
    ensures |r| == |slots|
    decreases |order|
  {
    if order == [] then lineup
    else
      var i := order[0];
      var player := Find(pools, tags[i], slots[i].role, used);
      Assign(pools, slots, tags, order[1..], if player.Some? then used + {player.value.name} else used,
             lineup[i := player])
  }

  function Tags(slots: seq<Slot>): (r: seq<Label>)
    ensures |r| == |slots| && forall i: nat :: i < |r| ==> r[i] == LabelOf(slots, i)
  {
    seq(|slots|, i requires 0 <= i < |slots| => LabelOf(slots, i))
  }

  function Keys(tags: seq<Label>): (r: seq<real>)
    ensures |r| == |tags|
  {
    seq(|tags|, i requires 0 <= i < |tags| => Scarcity(tags[i]))
  }

  function Upto(n: nat): (r: seq<nat>)
    ensures |r| == n && Within(n, r) && Ascending(r) && forall i: nat :: i < n ==> r[i] == i
  {
    seq(n, i => i)
  }

  function Order(tags: seq<Label>): (r: seq<nat>)
    ensures |r| == |tags| && Within(|tags|, r)
  {
    SortedIsLine(Keys(tags), Upto(|tags|));
    SortedBy(Keys(tags), Upto(|tags|))
  }

  function Nobody(n: nat): (r: Lineup)
    ensures |r| == n && forall i :: 0 <= i < n ==> r[i] == None
  {
    seq(n, i => None)
  }

  function LineupFor(pools: Pools, slots: seq<Slot>): (r: Lineup)
    ensures |r| == |slots|
  {
    Assign(pools, slots, Tags(slots), Order(Tags(slots)), {}, Nobody(|slots|))
  }

  /** LineupAssigner.assign_slots. */
  method AssignSlots(pools: Pools, slots: seq<Slot>) returns (ordered: array<Option<Player>>)
    ensures fresh(ordered) && ordered[..] == LineupFor(pools, slots)
  {
    var specific := SpecificRoles(slots);
    var tags := specific[..];
    assert tags == Tags(slots);
    ordered := new Option<Player>[|slots|](_ => None);
    assert ordered[..] == Nobody(|slots|);
    var used := {};
    var order := Order(tags);
    for k := 0 to |order|
      invariant Assign(pools, slots, tags, order[k..], used, ordered[..]) == LineupFor(pools, slots)
    {
      assert order[k..][0] == order[k] && order[k..][1..] == order[k + 1..];
      var i := order[k];
      var player := FindPlayer(pools, tags[i], slots[i].role, used);
      if player.Some? {
        used := used + {player.value.name};
      }
      ordered[i] := player;
    }
  }

  // What a lineup must be

  ghost predicate NamesOnce(lineup: Lineup) {
    forall i, j :: 0 <= i < j < |lineup| && lineup[i].Some? && lineup[j].Some? ==>
      lineup[i].value.name != lineup[j].value.name
  }

  ghost predicate InStock(pools: Pools, slot: Slot, pick: Option<Player>) {
    pick.Some? ==> pick.value.name in Stock(pools, slot.role)
  }

  ghost predicate StockKept(pools: Pools, slots: seq<Slot>, lineup: Lineup) {
    |lineup| == |slots| && forall i :: 0 <= i < |slots| ==> InStock(pools, slots[i], lineup[i])
  }

  // The slots of a group, and those of them that hold a player.

  function SlotsOf(slots: seq<Slot>, group: Group): (r: set<nat>)
    ensures forall i: nat :: i in r <==> i < |slots| && slots[i].role == group
  {
    set i: nat | i < |slots| && slots[i].role == group
  }

  function Filled(slots: seq<Slot>, lineup: Lineup, group: Group): (r: set<nat>)
    requires |lineup| == |slots|
    ensures forall i: nat :: i in r <==> i < |slots| && slots[i].role == group && lineup[i].Some?
  {
    set i: nat | i < |slots| && slots[i].role == group && lineup[i].Some?
  }

  function Min(a: nat, b: nat): nat {
    if a < b then a else b
  }

  // No name is in stock for two groups.
  ghost predicate Apart(pools: Pools) {
    forall g: Group, h: Group :: g != h && !(g.Other? && h.Other?) ==> Stock(pools, g) !! Stock(pools, h)
  }

  // The names in stock for one group alone.
  ghost predicate OnlyFor(pools: Pools, group: Group, name: string) {
    forall h: Group :: h != group ==> name !in Stock(pools, h)
  }

  ghost function Own(pools: Pools, group: Group): set<string> {
    set name | name in Stock(pools, group) && OnlyFor(pools, group, name)
  }

  ghost predicate AllFit(slots: seq<Slot>, tags: seq<Label>) {
    |tags| == |slots| && forall i :: 0 <= i < |slots| ==> Fits(tags[i], slots[i].role)
  }

  lemma TagsFit(slots: seq<Slot>)
    ensures AllFit(slots, Tags(slots))
  {
    forall i | 0 <= i < |slots| ensures Fits(Tags(slots)[i], slots[i].role) {
      LabelsStayInGroup(slots, i);
    }
  }

  // Safety of the loop

  ghost predicate Used(lineup: Lineup, used: set<string>) {
    forall i :: 0 <= i < |lineup| && lineup[i].Some? ==> lineup[i].value.name in used
  }

  lemma {:induction false} AssignIsSafe(
    pools: Pools, slots: seq<Slot>, tags: seq<Label>, order: seq<nat>, used: set<string>, lineup: Lineup)
    requires AllFit(slots, tags) && Within(|slots|, order) && |lineup| == |slots|
    requires NamesOnce(lineup) && Used(lineup, used) && StockKept(pools, slots, lineup)
    ensures var r := Assign(pools, slots, tags, order, used, lineup);
      NamesOnce(r) && StockKept(pools, slots, r)
    decreases |order|
  {
    if order != [] {
      var i := order[0];
      FindsTheStock(pools, tags[i], slots[i].role, used);
      var player := Find(pools, tags[i], slots[i].role, used);
      AssignIsSafe(pools, slots, tags, order[1..], if player.Some? then used + {player.value.name} else used,
                   lineup[i := player]);
    }
  }

  // No name is used twice, and every slot's player is in stock for it.
  lemma LineupIsSafe(pools: Pools, slots: seq<Slot>)
    ensures NamesOnce(LineupFor(pools, slots)) && StockKept(pools, slots, LineupFor(pools, slots))
  {
    TagsFit(slots);
    AssignIsSafe(pools, slots, Tags(slots), Order(Tags(slots)), {}, Nobody(|slots|));
  }

  // Filling

  function Todo(slots: seq<Slot>, order: seq<nat>, group: Group): set<nat>
    requires Within(|slots|, order)
    decreases |order|
  {
    if order == [] then {}
    else Todo(slots, order[1..], group) + if slots[order[0]].role == group then {order[0]} else {}
  }

  ghost predicate Distinct(order: seq<nat>) {
    forall a, b :: 0 <= a < b < |order| ==> order[a] != order[b]
  }

  lemma {:induction false} InTodo(slots: seq<Slot>, order: seq<nat>, group: Group, i: nat)
    requires Within(|slots|, order)
    ensures i in Todo(slots, order, group) <==> i in order && i < |slots| && slots[i].role == group
    decreases |order|
  {
    if order != [] {
      InTodo(slots, order[1..], group, i);
      assert order == [order[0]] + order[1..];
    }
  }

  lemma TodoStep(slots: seq<Slot>, order: seq<nat>, group: Group)
    requires Within(|slots|, order) && Distinct(order) && order != []
    ensures |Todo(slots, order, group)| ==
      |Todo(slots, order[1..], group)| + if slots[order[0]].role == group then 1 else 0
  {
    InTodo(slots, order[1..], group, order[0]);
  }

  // What one turn of the loop does to a group: its filled slots and its free names.

  lemma FilledStep(slots: seq<Slot>, i: nat, lineup: Lineup, player: Option<Player>, group: Group)
    requires i < |slots| == |lineup| && lineup[i].None?
    ensures |Filled(slots, lineup[i := player], group)|
         == |Filled(slots, lineup, group)| + if slots[i].role == group && player.Some? then 1 else 0
  {
    var before, after := Filled(slots, lineup, group), Filled(slots, lineup[i := player], group);
    if slots[i].role == group && player.Some? {
      assert after == before + {i};
    } else {
      assert after == before;
    }
  }

  lemma OwnStep(pools: Pools, tag: Label, role: Group, used: set<string>, group: Group)
    requires Fits(tag, role)
    ensures var player, left := Find(pools, tag, role, used), Own(pools, group) - used;
            var now := if player.Some? then used + {player.value.name} else used;
      && |Own(pools, group) - now| >= |left| - (if role == group && player.Some? then 1 else 0)
      && (role == group && player.None? ==> |left| == 0)
  {
    FindsTheStock(pools, tag, role, used);
    var player, own := Find(pools, tag, role, used), Own(pools, group);
    if player.None? {
      assert role == group ==> own - used == {};
    } else if role == group {
      assert own - (used + {player.value.name}) == (own - used) - {player.value.name};
    } else {
      assert player.value.name !in own;
      assert own - (used + {player.value.name}) == own - used;
    }
  }

  lemma {:induction false} AssignFills(
    pools: Pools, slots: seq<Slot>, tags: seq<Label>, order: seq<nat>, used: set<string>, lineup: Lineup, group: Group)
    requires AllFit(slots, tags) && Within(|slots|, order) && Distinct(order) && |lineup| == |slots|
    requires forall k :: 0 <= k < |order| ==> lineup[order[k]].None?
    ensures |Filled(slots, Assign(pools, slots, tags, order, used, lineup), group)|
         >= |Filled(slots, lineup, group)| + Min(|Todo(slots, order, group)|, |Own(pools, group) - used|)
    decreases |order|
  {
    if order != [] {
      var i := order[0];
      var player := Find(pools, tags[i], slots[i].role, used);
      FilledStep(slots, i, lineup, player, group);
      OwnStep(pools, tags[i], slots[i].role, used, group);
      TodoStep(slots, order, group);
      AssignFills(pools, slots, tags, order[1..], if player.Some? then used + {player.value.name} else used,
                  lineup[i := player], group);
    }
  }

  lemma OrderIsAll(tags: seq<Label>)
    ensures Distinct(Order(tags)) && forall i: nat :: i < |tags| ==> i in Order(tags)
  {
    SortedIsLine(Keys(tags), Upto(|tags|));
    forall i: nat | i < |tags| ensures i in Order(tags) {
      assert Upto(|tags|)[i] in Upto(|tags|);
    }
  }

  lemma AllToDo(slots: seq<Slot>, order: seq<nat>, group: Group)
    requires Within(|slots|, order) && forall i: nat :: i < |slots| ==> i in order
    ensures Todo(slots, order, group) == SlotsOf(slots, group)
  {
    forall i: nat ensures i in Todo(slots, order, group) <==> i in SlotsOf(slots, group) {
      InTodo(slots, order, group, i);
    }
  }

  lemma OrderFills(pools: Pools, slots: seq<Slot>, tags: seq<Label>, order: seq<nat>, group: Group)
    requires AllFit(slots, tags) && Within(|slots|, order) && Distinct(order)
    requires forall i: nat :: i < |slots| ==> i in order
    ensures |Filled(slots, Assign(pools, slots, tags, order, {}, Nobody(|slots|)), group)|
         >= Min(|SlotsOf(slots, group)|, |Own(pools, group)|)
  {
    AllToDo(slots, order, group);
    AssignFills(pools, slots, tags, order, {}, Nobody(|slots|), group);
    assert Filled(slots, Nobody(|slots|), group) == {} && Own(pools, group) - {} == Own(pools, group);
  }

  // Whatever names are shared, a group fills what the names it has to itself allow.
  lemma OwnNamesFill(pools: Pools, slots: seq<Slot>, group: Group)
    ensures |Filled(slots, LineupFor(pools, slots), group)| >= Min(|SlotsOf(slots, group)|, |Own(pools, group)|)
  {
    TagsFit(slots);
    OrderIsAll(Tags(slots));
    OrderFills(pools, slots, Tags(slots), Order(Tags(slots)), group);
  }

  // The most any lineup can do

  lemma {:induction false} NamesBound(lineup: Lineup, filled: set<nat>, names: set<string>)
    requires NamesOnce(lineup)
    requires forall i :: i in filled ==> i < |lineup| && lineup[i].Some? && lineup[i].value.name in names
    ensures |filled| <= |names|
    decreases filled
  {
    if filled != {} {
      var i :| i in filled;
      var name := lineup[i].value.name;
      NamesBound(lineup, filled - {i}, names - {name});
    }
  }

  lemma AtMostNames(pools: Pools, slots: seq<Slot>, lineup: Lineup, group: Group)
    requires NamesOnce(lineup) && StockKept(pools, slots, lineup) && !group.Other?
    ensures |Filled(slots, lineup, group)| <= Min(|SlotsOf(slots, group)|, |Available(pools, group)|)
  {
    var filled, all := Filled(slots, lineup, group), SlotsOf(slots, group);
    assert filled <= all && all == filled + (all - filled);
    NamesBound(lineup, filled, Available(pools, group));
  }

  // When no name is in two groups, every group gets all the players its slots can take.
  lemma GroupsAreFilled(pools: Pools, slots: seq<Slot>, group: Group)
    requires Apart(pools) && !group.Other?
    ensures |Filled(slots, LineupFor(pools, slots), group)|
         == Min(|SlotsOf(slots, group)|, |Available(pools, group)|)
  {
    assert Own(pools, group) == Stock(pools, group);
    OwnNamesFill(pools, slots, group);
    LineupIsSafe(pools, slots);
    AtMostNames(pools, slots, LineupFor(pools, slots), group);
  }

  lemma NoLineupFillsMore(pools: Pools, slots: seq<Slot>, lineup: Lineup, group: Group)
    requires NamesOnce(lineup) && StockKept(pools, slots, lineup) && !group.Other?
    ensures |Filled(slots, lineup, group)| <= Min(|SlotsOf(slots, group)|, |Available(pools, group)|)
    ensures Apart(pools) ==> |Filled(slots, lineup, group)| <= |Filled(slots, LineupFor(pools, slots), group)|
  {
    AtMostNames(pools, slots, lineup, group);
    if Apart(pools) {
      GroupsAreFilled(pools, slots, group);
    }
  }

  // Over all groups, with any names shared

  function Taken(lineup: Lineup): (r: set<nat>)
    ensures forall i: nat :: i in r <==> i < |lineup| && lineup[i].Some?
  {
    set i: nat | i < |lineup| && lineup[i].Some?
  }

  function UsedNames(lineup: Lineup): set<string> {
    set i: nat | i < |lineup| && lineup[i].Some? :: lineup[i].value.name
  }

  lemma UsedGrows(lineup: Lineup, i: nat, player: Option<Player>)
    requires i < |lineup| && lineup[i].None?
    ensures UsedNames(lineup[i := player])
         == UsedNames(lineup) + if player.Some? then {player.value.name} else {}
  {
    var grown := lineup[i := player];
    forall name | name in UsedNames(lineup) ensures name in UsedNames(grown) {
      var j: nat :| j < |lineup| && lineup[j].Some? && lineup[j].value.name == name;
      assert grown[j] == lineup[j];
    }
    forall name | name in UsedNames(grown) && !(player.Some? && name == player.value.name)
      ensures name in UsedNames(lineup)
    {
      var j: nat :| j < |grown| && grown[j].Some? && grown[j].value.name == name;
      assert lineup[j] == grown[j];
    }
    if player.Some? {
      assert grown[i].value.name in UsedNames(grown);
    }
  }

  // An empty slot has been offered every name in stock for it.
  ghost predicate Exhausted(pools: Pools, slots: seq<Slot>, lineup: Lineup, i: nat) {
    i < |slots| == |lineup| && lineup[i].None? ==> Stock(pools, slots[i].role) <= UsedNames(lineup)
  }

  lemma {:induction false} AssignExhausts(
    pools: Pools, slots: seq<Slot>, tags: seq<Label>, order: seq<nat>, lineup: Lineup)
    requires AllFit(slots, tags) && Within(|slots|, order) && Distinct(order) && |lineup| == |slots|
    requires forall k :: 0 <= k < |order| ==> lineup[order[k]].None?
    requires forall i: nat :: i !in order ==> Exhausted(pools, slots, lineup, i)
    ensures forall i: nat ::
      Exhausted(pools, slots, Assign(pools, slots, tags, order, UsedNames(lineup), lineup), i)
    decreases |order|
  {
    if order == [] {
      forall i: nat ensures Exhausted(pools, slots, lineup, i) {
        assert i !in order;
      }
    } else {
      var i, used := order[0], UsedNames(lineup);
      var player := Find(pools, tags[i], slots[i].role, used);
      FindsTheStock(pools, tags[i], slots[i].role, used);
      UsedGrows(lineup, i, player);
      forall j: nat | j !in order[1..] ensures Exhausted(pools, slots, lineup[i := player], j) {
        assert order == [i] + order[1..];
        assert j != i ==> Exhausted(pools, slots, lineup, j);
      }
      AssignExhausts(pools, slots, tags, order[1..], lineup[i := player]);
      assert UsedNames(lineup[i := player]) == if player.Some? then used + {player.value.name} else used;
    }
  }

  lemma LineupExhausts(pools: Pools, slots: seq<Slot>, i: nat)
    ensures Exhausted(pools, slots, LineupFor(pools, slots), i)
  {
    TagsFit(slots);
    OrderIsAll(Tags(slots));
    var none := Nobody(|slots|);
    assert UsedNames(none) == {};
    AssignExhausts(pools, slots, Tags(slots), Order(Tags(slots)), none);
  }

  lemma {:induction false} UsedIsFew(lineup: Lineup, taken: set<nat>, names: set<string>)
    requires forall i :: i in taken ==> i < |lineup| && lineup[i].Some?
    requires forall name :: name in names ==> exists i :: i in taken && lineup[i].value.name == name
    ensures |names| <= |taken|
    decreases taken
  {
    if taken == {} {
      assert names == {};
    } else {
      var i :| i in taken;
      UsedIsFew(lineup, taken - {i}, names - {lineup[i].value.name});
    }
  }

  lemma SplitSize(a: set<nat>, b: set<nat>)
    ensures |a| <= |b| + |a - b|
  {
    assert a == a * b + (a - b) && b == a * b + (b - a);
  }

  // Where this lineup left a slot empty, every name another could put there is in it.
  lemma ExtraIsUsed(pools: Pools, slots: seq<Slot>, lineup: Lineup, i: nat)
    requires StockKept(pools, slots, lineup) && i in Taken(lineup) - Taken(LineupFor(pools, slots))
    ensures lineup[i].value.name in UsedNames(LineupFor(pools, slots))
  {
    LineupExhausts(pools, slots, i);
    assert InStock(pools, slots[i], lineup[i]);
  }

  // Any lineup fills at most twice the slots this one fills.
  lemma AtLeastHalf(pools: Pools, slots: seq<Slot>, lineup: Lineup)
    requires NamesOnce(lineup) && StockKept(pools, slots, lineup)
    ensures |Taken(lineup)| <= 2 * |Taken(LineupFor(pools, slots))|
  {
    var mine := LineupFor(pools, slots);
    var extra := Taken(lineup) - Taken(mine);
    forall i | i in extra ensures lineup[i].value.name in UsedNames(mine) {
      ExtraIsUsed(pools, slots, lineup, i);
    }
    NamesBound(lineup, extra, UsedNames(mine));
    UsedIsFew(mine, Taken(mine), UsedNames(mine));
    SplitSize(Taken(lineup), Taken(mine));
  }

  // A name in two groups can cost a slot: the scarcer one takes it though another player would do.

  const SHARED: Pools := [(AM, [Player("a", ""), Player("b", "")]), (CB, [Player("a", "")])]
  const PAIR := [Slot(DEF, 0.5, 0.7), Slot(MID, 0.5, 0.3)]

  lemma PairOrder()
    ensures Tags(PAIR) == [CB, AM] && Order([CB, AM]) == [1, 0]
  {
    assert PAIR[..1] == [PAIR[0]] && PAIR[..1][..0] == [];
    assert IndexesOf(PAIR, DEF) == [0];
    var keys := Keys([CB, AM]);
    assert keys == [3.0, 1.0] && Upto(2) == [0, 1] && [0, 1][1..] == [1];
    assert SortedBy(keys, [1]) == [1] && [1][1..] == [];
    assert SortedBy(keys, [0, 1]) == Insert(keys, 0, [1]) == [1] + Insert(keys, 0, []);
    assert Keys([CB, AM]) == keys && |[CB, AM]| == 2;
  }

  lemma SharedPicks()
    ensures Find(SHARED, AM, MID, {}) == Some(Player("a", ""))
    ensures Find(SHARED, CB, DEF, {"a"}) == None
    ensures "a" in Stock(SHARED, DEF) && "a" in Stock(SHARED, MID) && "b" in Stock(SHARED, MID)
  {
    var a, b := Player("a", ""), Player("b", "");
    assert SHARED[1..] == [(CB, [a])] && [(CB, [a])][1..] == [] && [a][1..] == [];
    assert FirstFree([a], {"a"}) == None && PoolOf(SHARED, CB) == [a];
    assert FromGroup([(CB, [a])], DEF, {"a"}) == None;
    assert a in SHARED[1].1 && a in SHARED[0].1 && b in SHARED[0].1;
    assert Available([(CB, [a])], DEF) == Names([a]);
  }

  lemma SharedNameCostsASlot()
    ensures var a, b := Player("a", ""), Player("b", "");
      && LineupFor(SHARED, PAIR) == [None, Some(a)]
      && NamesOnce([Some(a), Some(b)]) && StockKept(SHARED, PAIR, [Some(a), Some(b)])
  {
    PairOrder();
    SharedPicks();
    var lineup := [None, Some(Player("a", ""))];
    assert [1, 0][1..] == [0] && [0][1..] == [] && {} + {"a"} == {"a"};
    assert Nobody(2)[1 := Some(Player("a", ""))] == lineup;
    assert Assign(SHARED, PAIR, [CB, AM], [0], {"a"}, lineup) == lineup;
  }

  // The slots of the flanks are taken first, then those of the deepest and the most advanced midfielders,
  // then the keeper's, then the rest, and in formation order among equals.
  lemma ScarcestFirst(tags: seq<Label>, a: nat, b: nat)
    requires a < b < |tags|
    ensures var first, second := Order(tags)[a], Order(tags)[b];
      && (Flank(tags[second]) ==> Flank(tags[first]))
      && (tags[second] == AM || tags[second] == DM ==>
            Flank(tags[first]) || tags[first] == AM || tags[first] == DM)
      && (tags[second] == Keeper ==> !Common(tags[first]))
      && (AsScarce(tags[first], tags[second]) ==> first < second)
  {
    SortedPair(Keys(tags), Upto(|tags|), a, b);
  }

  predicate Flank(tag: Label) {
    tag == LB || tag == RB || tag == LW || tag == RW
  }

  predicate Common(tag: Label) {
    !Flank(tag) && tag != AM && tag != DM && tag != Keeper
  }

  predicate AsScarce(tag: Label, other: Label) {
    || tag == other || (Flank(tag) && Flank(other)) || (Common(tag) && Common(other))
    || (tag == AM && other == DM) || (tag == DM && other == AM)
  }
}
