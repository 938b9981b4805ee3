/** The read-through cache of chat configs: a call is a lookup, and on a miss a read of the store and
    a later write of the entry, with other calls and database edits in between. */
module ConfigCache {
  import opened Wrappers

  const TTL_SECONDS: real := 3600.0

  datatype Key = Key(platform: string, nativeId: string)

  datatype Policy = Open | Curated

  datatype Config = Config(policy: Policy, overrides: map<string, bool>)

  const DEFAULT := Config(Open, map[])

  type Store = map<Key, Config>

  // What the store answers for a chat, known or not.
  function Stored(store: Store, key: Key): Config {
    if key in store then store[key] else DEFAULT
  }

  datatype Change = Override(name: string, enabled: bool) | Clear(name: string) | Default(policy: Policy)

  function Changed(c: Config, change: Change): Config {
    match change
    case Override(name, enabled) => c.(overrides := c.overrides[name := enabled])
    case Clear(name) => c.(overrides := c.overrides - {name})
    case Default(policy) => c.(policy := policy)
  }

  // An override is the last one set until it is cleared, and neither it nor the policy disturbs the rest.
  lemma ChangesAreApart(c: Config, name: string, other: string, enabled: bool, policy: Policy)
    ensures var set_ := Changed(c, Override(name, enabled));
      && name in set_.overrides && set_.overrides[name] == enabled && set_.policy == c.policy
      && Changed(set_, Clear(name)) == Changed(c, Clear(name))
      && (name !in c.overrides ==> Changed(set_, Clear(name)) == c)
      && (other != name ==>
            && (other in set_.overrides <==> other in c.overrides)
            && (other in c.overrides ==> set_.overrides[other] == c.overrides[other]))
    ensures name !in Changed(c, Clear(name)).overrides && Changed(c, Clear(name)).policy == c.policy
    ensures Changed(c, Default(policy)).policy == policy && Changed(c, Default(policy)).overrides == c.overrides
  {
    assert c.overrides[name := enabled] - {name} == c.overrides - {name};
    assert name !in c.overrides ==> c.overrides - {name} == c.overrides;
  }

  // The stamp is the time the load that filled the entry began.
  datatype Entry = Entry(stamp: real, config: Config)

  type Cache = map<Key, Entry>

  predicate Hit(cache: Cache, key: Key, now: real) {
    key in cache && now - cache[key].stamp < TTL_SECONDS
  }

  // Interleaved calls

  // A load in flight; `at` is the instant it read the store, `began` the one it looked the entry up.
  datatype Got = Got(config: Config, at: nat)

  datatype Load = Load(key: Key, stamp: real, began: nat, got: Option<Got>)

  datatype Instant = Instant(clock: real, store: Store)

  // A load that returned: between which instants it ran, and what it gave.
  datatype Answer = Answer(key: Key, config: Config, began: nat, at: nat)

  datatype State = State(
    clock: real, store: Store, cache: Cache, loads: map<nat, Load>, writes: map<nat, Key>,
    history: seq<Instant>, answers: seq<Answer>)
  {
    // The instant the state is in.
    function Here(): nat
      requires history != []
    {
      |history| - 1
    }
  }

  datatype Step =
    | Begin(id: nat, key: Key)
    | Read(id: nat)
    | Finish(id: nat)
    | Apply(id: nat, key: Key, change: Change)
    | Invalidate(id: nat)
    | Edit(key: Key, config: Config)
    | Pass(seconds: real)

  predicate Enabled(s: State, step: Step) {
    match step
    case Begin(id, _) => id !in s.loads
    case Read(id) => id in s.loads && s.loads[id].got.None?
    case Finish(id) => id in s.loads && s.loads[id].got.Some?
    case Apply(id, _, _) => id !in s.writes
    case Invalidate(id) => id in s.writes
    case Edit(_, _) => true
    case Pass(seconds) => seconds >= 0.0
  }

  // A step, before it is entered in the history.
  function Effect(s: State, step: Step): State
    requires Enabled(s, step) && s.history != []
  {
    match step
    case Begin(id, key) =>
      if Hit(s.cache, key, s.clock) then
        s.(answers := s.answers + [Answer(key, s.cache[key].config, s.Here(), s.Here())])
      else
        s.(loads := s.loads[id := Load(key, s.clock, s.Here(), None)])
    case Read(id) =>
      var load := s.loads[id];
      s.(loads := s.loads[id := load.(got := Some(Got(Stored(s.store, load.key), s.Here())))])
    case Finish(id) =>
      var load := s.loads[id];
      s.(cache := s.cache[load.key := Entry(load.stamp, load.got.value.config)],
         answers := s.answers + [Answer(load.key, load.got.value.config, load.began, s.Here())],
         loads := s.loads - {id})
    case Apply(id, key, change) =>
      s.(store := s.store[key := Changed(Stored(s.store, key), change)], writes := s.writes[id := key])
    case Invalidate(id) => s.(cache := s.cache - {s.writes[id]}, writes := s.writes - {id})
    case Edit(key, config) => s.(store := s.store[key := config])
    case Pass(seconds) => s.(clock := s.clock + seconds)
  }

  function Next(s: State, step: Step): (r: State)
    requires Enabled(s, step) && s.history != []
    ensures r.history != []
  {
    var e := Effect(s, step);
    e.(history := s.history + [Instant(e.clock, e.store)])
  }

  predicate Runs(s: State, steps: seq<Step>)
    requires s.history != []
    decreases |steps|
  {
    steps == [] || (Enabled(s, steps[0]) && Runs(Next(s, steps[0]), steps[1..]))
  }

  function After(s: State, steps: seq<Step>): State
    requires s.history != [] && Runs(s, steps)
    decreases |steps|
  {
    if steps == [] then s else After(Next(s, steps[0]), steps[1..])
  }

  function Start(clock: real, store: Store): State {
    State(clock, store, map[], map[], map[], [Instant(clock, store)], [])
  }

  // Freshness

  ghost predicate HeldAt(history: seq<Instant>, m: int, key: Key, config: Config) {
    0 <= m < |history| && Stored(history[m].store, key) == config
  }

  // The answer was the store's value during the load, or less than the TTL before it.
  ghost predicate Fresh(history: seq<Instant>, a: Answer) {
    && a.at < |history|
    && exists m :: && HeldAt(history, m, a.key, a.config) && m <= a.at
                   && (a.began <= m || history[a.at].clock - history[m].clock < TTL_SECONDS)
  }

  // A value read at or after `stamp`.
  ghost predicate ReadSince(history: seq<Instant>, key: Key, config: Config, stamp: real) {
    exists m :: HeldAt(history, m, key, config) && history[m].clock >= stamp
  }

  ghost predicate LoadOk(s: State, load: Load) {
    && load.stamp <= s.clock
    && load.began < |s.history|
    && (load.got.Some? ==>
        var m := load.got.value.at;
        && HeldAt(s.history, m, load.key, load.got.value.config)
        && load.began <= m && s.history[m].clock >= load.stamp)
  }

  ghost predicate Inv(s: State) {
    && s.history != [] && s.history[s.Here()] == Instant(s.clock, s.store)
    && (forall id :: id in s.loads ==> LoadOk(s, s.loads[id]))
    && (forall key :: key in s.cache ==> ReadSince(s.history, key, s.cache[key].config, s.cache[key].stamp))
    && (forall i :: 0 <= i < |s.answers| ==> Fresh(s.history, s.answers[i]))
  }

  lemma FreshGrows(history: seq<Instant>, now: Instant, a: Answer)
    requires Fresh(history, a)
    ensures Fresh(history + [now], a)
  {
    var m :| && HeldAt(history, m, a.key, a.config) && m <= a.at
             && (a.began <= m || history[a.at].clock - history[m].clock < TTL_SECONDS);
    assert HeldAt(history + [now], m, a.key, a.config);
  }

  lemma ReadSinceGrows(history: seq<Instant>, now: Instant, key: Key, config: Config, stamp: real)
    requires ReadSince(history, key, config, stamp)
    ensures ReadSince(history + [now], key, config, stamp)
  {
    var m :| HeldAt(history, m, key, config) && history[m].clock >= stamp;
    assert HeldAt(history + [now], m, key, config);
  }

  lemma LoadGrows(s: State, t: State, load: Load)
    requires LoadOk(s, load) && |t.history| == |s.history| + 1 && t.history[..|s.history|] == s.history
    requires t.clock >= s.clock
    ensures LoadOk(t, load)
  {
    if load.got.Some? {
      assert t.history[..|s.history|][load.got.value.at] == t.history[load.got.value.at];
    }
  }

  // The answer a step gives, if any, is fresh.
  lemma NewAnswerFresh(s: State, step: Step)
    requires Inv(s) && Enabled(s, step)
    ensures var e := Effect(s, step);
      forall i :: 0 <= i < |e.answers| ==> Fresh(s.history, e.answers[i])
  {
    if step.Begin? && Hit(s.cache, step.key, s.clock) {
      var entry := s.cache[step.key];
      var m :| HeldAt(s.history, m, step.key, entry.config) && s.history[m].clock >= entry.stamp;
      assert s.history[s.Here()].clock - s.history[m].clock < TTL_SECONDS;
    } else if step.Finish? {
      assert LoadOk(s, s.loads[step.id]);
    }
  }

  lemma LoadsKept(s: State, step: Step)
    requires Inv(s) && Enabled(s, step)
    ensures var t := Next(s, step); forall id :: id in t.loads ==> LoadOk(t, t.loads[id])
  {
    var t := Next(s, step);
    assert t.history[..|s.history|] == s.history;
    forall id | id in t.loads ensures LoadOk(t, t.loads[id]) {
      if id in s.loads && t.loads[id] == s.loads[id] {
        LoadGrows(s, t, s.loads[id]);
      } else if step.Read? {
        LoadGrows(s, t, s.loads[id].(got := None));
      }
    }
  }

  lemma CacheKept(s: State, step: Step)
    requires Inv(s) && Enabled(s, step)
    ensures var t := Next(s, step);
      forall key :: key in t.cache ==> ReadSince(t.history, key, t.cache[key].config, t.cache[key].stamp)
  {
    var t := Next(s, step);
    var now := t.history[|s.history|];
    forall key | key in t.cache ensures ReadSince(t.history, key, t.cache[key].config, t.cache[key].stamp) {
      if step.Finish? && key == s.loads[step.id].key {
        assert LoadOk(s, s.loads[step.id]);
        assert ReadSince(s.history, key, t.cache[key].config, t.cache[key].stamp);
      }
      ReadSinceGrows(s.history, now, key, t.cache[key].config, t.cache[key].stamp);
    }
  }

  lemma InvKept(s: State, step: Step)
    requires Inv(s) && Enabled(s, step)
    ensures Inv(Next(s, step))
  {
    var t := Next(s, step);
    NewAnswerFresh(s, step);
    forall i | 0 <= i < |t.answers| ensures Fresh(t.history, t.answers[i]) {
      FreshGrows(s.history, t.history[|s.history|], t.answers[i]);
    }
    LoadsKept(s, step);
    CacheKept(s, step);
  }

  lemma {:induction false} InvAlways(s: State, steps: seq<Step>)
    requires Inv(s) && Runs(s, steps)
    ensures Inv(After(s, steps))
    decreases |steps|
  {
    if steps != [] {
      InvKept(s, steps[0]);
      InvAlways(Next(s, steps[0]), steps[1..]);
    }
  }

  // In every interleaving of loads, writes and edits, every answer is fresh.
  lemma AnswersAreFresh(clock: real, store: Store, steps: seq<Step>)
    requires Runs(Start(clock, store), steps)
    ensures var t := After(Start(clock, store), steps);
      forall i :: 0 <= i < |t.answers| ==> Fresh(t.history, t.answers[i])
  {
    InvAlways(Start(clock, store), steps);
  }

  // Coherence

  ghost predicate Loading(s: State, key: Key) {
    exists id :: id in s.loads && s.loads[id].key == key
  }

  ghost predicate Writing(s: State, key: Key) {
    exists id :: id in s.writes && s.writes[id] == key
  }

  // No direct edit, and no load in flight while a write of its chat is between the store and the cache.
  ghost predicate Apart(s: State, step: Step) {
    match step
    case Begin(_, key) => !Writing(s, key)
    case Apply(_, key, _) => !Loading(s, key)
    case Edit(_, _) => false
    case _ => true
  }

  ghost predicate RunsApart(s: State, steps: seq<Step>)
    requires s.history != []
    decreases |steps|
  {
    steps == [] || (Enabled(s, steps[0]) && Apart(s, steps[0]) && RunsApart(Next(s, steps[0]), steps[1..]))
  }

  ghost predicate Exact(history: seq<Instant>, a: Answer) {
    HeldAt(history, a.at, a.key, a.config)
  }

  ghost predicate Coherent(s: State) {
    && s.history != [] && s.history[s.Here()] == Instant(s.clock, s.store)
    && (forall key :: key in s.cache && !Writing(s, key) ==> s.cache[key].config == Stored(s.store, key))
    && (forall id :: id in s.loads ==>
        && !Writing(s, s.loads[id].key)
        && (s.loads[id].got.Some? ==> s.loads[id].got.value.config == Stored(s.store, s.loads[id].key)))
    && (forall i :: 0 <= i < |s.answers| ==> Exact(s.history, s.answers[i]))
  }

  lemma CoherentAnswers(s: State, step: Step)
    requires Coherent(s) && Enabled(s, step) && Apart(s, step)
    ensures var t := Next(s, step); forall i :: 0 <= i < |t.answers| ==> Exact(t.history, t.answers[i])
  {
    var t := Next(s, step);
    forall i | 0 <= i < |t.answers| ensures Exact(t.history, t.answers[i]) {
      if i < |s.answers| {
        assert Exact(s.history, s.answers[i]);
      }
    }
  }

  lemma StillWriting(s: State, step: Step, key: Key)
    requires s.history != [] && Enabled(s, step) && Writing(s, key)
    ensures Writing(Next(s, step), key) || (step.Invalidate? && s.writes[step.id] == key)
  {
    var id :| id in s.writes && s.writes[id] == key;
    assert id in Next(s, step).writes ==> Next(s, step).writes[id] == key;
  }

  lemma NewlyWriting(s: State, step: Step, key: Key)
    requires s.history != [] && Enabled(s, step) && Writing(Next(s, step), key)
    ensures Writing(s, key) || (step.Apply? && step.key == key)
  {
    var id :| id in Next(s, step).writes && Next(s, step).writes[id] == key;
    assert id in s.writes ==> (s.writes[id] == key || step.Apply?);
  }

  lemma CoherentCache(s: State, step: Step, key: Key)
    requires Coherent(s) && Enabled(s, step) && Apart(s, step)
    requires key in Next(s, step).cache && !Writing(Next(s, step), key)
    ensures Next(s, step).cache[key].config == Stored(Next(s, step).store, key)
  {
    if Writing(s, key) {
      StillWriting(s, step, key);
    } else if step.Apply? {
      assert Next(s, step).writes[step.id] == step.key;
    }
  }

  lemma CoherentLoad(s: State, step: Step, id: nat)
    requires Coherent(s) && Enabled(s, step) && Apart(s, step) && id in Next(s, step).loads
    ensures var t := Next(s, step);
      && !Writing(t, t.loads[id].key)
      && (t.loads[id].got.Some? ==> t.loads[id].got.value.config == Stored(t.store, t.loads[id].key))
  {
    var t := Next(s, step);
    if id in s.loads {
      assert Loading(s, s.loads[id].key);
    }
    if Writing(t, t.loads[id].key) {
      NewlyWriting(s, step, t.loads[id].key);
    }
  }

  lemma CoherentKept(s: State, step: Step)
    requires Coherent(s) && Enabled(s, step) && Apart(s, step)
    ensures Coherent(Next(s, step))
  {
    var t := Next(s, step);
    CoherentAnswers(s, step);
    forall key | key in t.cache && !Writing(t, key) ensures t.cache[key].config == Stored(t.store, key) {
      CoherentCache(s, step, key);
    }
    forall id | id in t.loads
      ensures !Writing(t, t.loads[id].key)
      ensures t.loads[id].got.Some? ==> t.loads[id].got.value.config == Stored(t.store, t.loads[id].key)
    {
      CoherentLoad(s, step, id);
    }
  }

  lemma {:induction false} CoherentAlways(s: State, steps: seq<Step>)
    requires Coherent(s) && RunsApart(s, steps)
    ensures Runs(s, steps) && Coherent(After(s, steps))
    decreases |steps|
  {
    if steps != [] {
      CoherentKept(s, steps[0]);
      CoherentAlways(Next(s, steps[0]), steps[1..]);
    }
  }

  // Through the cache alone, and with no load across a write, every answer is the store's own value.
  lemma AnswersAreExact(clock: real, store: Store, steps: seq<Step>)
    requires RunsApart(Start(clock, store), steps)
    ensures Runs(Start(clock, store), steps)
    ensures var t := After(Start(clock, store), steps);
      forall i :: 0 <= i < |t.answers| ==> Exact(t.history, t.answers[i])
  {
    CoherentAlways(Start(clock, store), steps);
  }

  // Exactly when an entry goes stale

  // Outside a write of the chat, a load that hits gets the store's own value.
  ghost predicate Agrees(s: State, key: Key) {
    key in s.cache && !Writing(s, key) ==> s.cache[key].config == Stored(s.store, key)
  }

  // The load of the chat finishes though its config is no longer the one the load read, or somebody
  // edits a cached config in the database; either way with no write left to drop the entry.
  ghost predicate Breaks(s: State, step: Step, key: Key)
    requires Inv(s) && Enabled(s, step)
  {
    && !Writing(s, key)
    && match step
       case Finish(id) =>
         && s.loads[id].key == key
         && LoadOk(s, s.loads[id])
         && Stored(s.history[s.loads[id].got.value.at].store, key) != Stored(s.store, key)
       case Edit(edited, config) => edited == key && key in s.cache && s.cache[key].config != config
       case _ => false
  }

  lemma BreaksExactly(s: State, step: Step, key: Key)
    requires Inv(s) && Enabled(s, step) && Agrees(s, key)
    ensures !Agrees(Next(s, step), key) <==> Breaks(s, step, key)
  {
    if Writing(s, key) {
      StillWriting(s, step, key);
    } else {
      if Writing(Next(s, step), key) {
        NewlyWriting(s, step, key);
      }
      if step.Apply? {
        assert Next(s, step).writes[step.id] == step.key;
      }
      if step.Finish? {
        assert LoadOk(s, s.loads[step.id]);
      }
    }
  }

  ghost predicate AgreesThroughout(s: State, steps: seq<Step>, key: Key)
    requires s.history != [] && Runs(s, steps)
    decreases |steps|
  {
    Agrees(s, key) && (steps == [] || AgreesThroughout(Next(s, steps[0]), steps[1..], key))
  }

  ghost predicate NeverBreaks(s: State, steps: seq<Step>, key: Key)
    requires Inv(s) && Runs(s, steps)
    decreases |steps|
  {
    steps == [] || (
      && !Breaks(s, steps[0], key)
      && (InvKept(s, steps[0]); NeverBreaks(Next(s, steps[0]), steps[1..], key)))
  }

  lemma {:induction false} AgreementKept(s: State, steps: seq<Step>, key: Key)
    requires Inv(s) && Runs(s, steps) && Agrees(s, key)
    ensures AgreesThroughout(s, steps, key) <==> NeverBreaks(s, steps, key)
    decreases |steps|
  {
    if steps != [] {
      InvKept(s, steps[0]);
      BreaksExactly(s, steps[0], key);
      if Agrees(Next(s, steps[0]), key) {
        AgreementKept(Next(s, steps[0]), steps[1..], key);
      }
    }
  }

  // Through a whole run the entry of a chat never goes stale if and only if no load of the chat
  // finishes after a change it has not seen, and no edit passes it by, outside the chat's writes.
  lemma AgreementExactly(clock: real, store: Store, steps: seq<Step>, key: Key)
    requires Runs(Start(clock, store), steps)
    ensures AgreesThroughout(Start(clock, store), steps, key) <==> NeverBreaks(Start(clock, store), steps, key)
  {
    AgreementKept(Start(clock, store), steps, key);
  }

  // A stale entry shows: while it is live, the next load outside a write is exact only if it agrees.
  lemma HitExactly(s: State, id: nat, key: Key)
    requires Inv(s) && Enabled(s, Begin(id, key)) && Hit(s.cache, key, s.clock) && !Writing(s, key)
    ensures var t := Next(s, Begin(id, key));
      |t.answers| == |s.answers| + 1 && (Exact(t.history, t.answers[|s.answers|]) <==> Agrees(s, key))
  {
  }

  lemma OnlyWritesChange(s: State, step: Step, key: Key)
    requires s.history != [] && Enabled(s, step) && Stored(Next(s, step).store, key) != Stored(s.store, key)
    ensures (step.Apply? || step.Edit?) && step.key == key
  {
  }

  // A config that differs between two instants was changed by a step between them.
  lemma {:induction false} ChangedBetween(history: seq<Instant>, key: Key, lo: nat, hi: nat) returns (m: nat)
    requires lo <= hi < |history|
    requires Stored(history[lo].store, key) != Stored(history[hi].store, key)
    ensures lo <= m < hi && Stored(history[m].store, key) != Stored(history[m + 1].store, key)
    decreases hi
  {
    if Stored(history[hi - 1].store, key) != Stored(history[hi].store, key) {
      m := hi - 1;
    } else {
      m := ChangedBetween(history, key, lo, hi - 1);
    }
  }

  // Runs built from their last step back.

  ghost predicate RunsTo(s: State, steps: seq<Step>, t: State) {
    s.history != [] && Runs(s, steps) && After(s, steps) == t
  }

  lemma First(s: State, step: Step, steps: seq<Step>, t: State)
    requires s.history != [] && Enabled(s, step) && RunsTo(Next(s, step), steps, t)
    ensures RunsTo(s, [step] + steps, t)
  {
    assert ([step] + steps)[1..] == steps;
  }

  // A load across a write caches the old value again after the write dropped it, and the next load,
  // which overlaps nothing, returns it.
  lemma OverlapGoesStale(key: Key)
    ensures var steps := [
        Begin(0, key), Read(0), Apply(1, key, Default(Curated)), Invalidate(1), Finish(0), Begin(2, key)];
      && Runs(Start(0.0, map[]), steps)
      && var t := After(Start(0.0, map[]), steps);
         |t.answers| == 2 && t.answers[1].config == DEFAULT != Stored(t.store, key)
  {
    var change := Apply(1, key, Default(Curated));
    var s0 := Start(0.0, map[]);
    var s1 := Next(s0, Begin(0, key));
    var s2 := Next(s1, Read(0));
    var s3 := Next(s2, change);
    var s4 := Next(s3, Invalidate(1));
    var s5 := Next(s4, Finish(0));
    var s6 := Next(s5, Begin(2, key));
    assert RunsTo(s6, [], s6);
    First(s5, Begin(2, key), [], s6);
    First(s4, Finish(0), [Begin(2, key)], s6);
    First(s3, Invalidate(1), [Finish(0), Begin(2, key)], s6);
    First(s2, change, [Invalidate(1), Finish(0), Begin(2, key)], s6);
    First(s1, Read(0), [change, Invalidate(1), Finish(0), Begin(2, key)], s6);
    First(s0, Begin(0, key), [Read(0), change, Invalidate(1), Finish(0), Begin(2, key)], s6);
  }

  // The object

  // An uninterrupted load: its answer and the cache it leaves.
  function Loaded(store: Store, cache: Cache, key: Key, now: real): (Config, Cache) {
    if Hit(cache, key, now) then (cache[key].config, cache)
    else (Stored(store, key), cache[key := Entry(now, Stored(store, key))])
  }

  lemma LoadIsARun(s: State, id: nat, key: Key)
    requires s.history != [] && id !in s.loads
    ensures var steps := [Begin(id, key)] + if Hit(s.cache, key, s.clock) then [] else [Read(id), Finish(id)];
            var (config, cache) := Loaded(s.store, s.cache, key, s.clock);
      && Runs(s, steps)
      && var t := After(s, steps);
         && t.cache == cache && t.store == s.store && t.loads == s.loads && t.writes == s.writes
         && t.answers == s.answers + [Answer(key, config, s.Here(), s.Here() + |steps| - 1)]
  {
    var t1 := Next(s, Begin(id, key));
    if Hit(s.cache, key, s.clock) {
      First(s, Begin(id, key), [], t1);
    } else {
      var t2 := Next(t1, Read(id));
      var t3 := Next(t2, Finish(id));
      First(t2, Finish(id), [], t3);
      First(t1, Read(id), [Finish(id)], t3);
      First(s, Begin(id, key), [Read(id), Finish(id)], t3);
      assert t3.loads == s.loads;
    }
  }

  // However stale, an entry is not answered with once the TTL has passed: the next load reads the store.
  lemma TtlEndsIt(s: State, id: nat, key: Key, seconds: real)
    requires s.history != [] && id !in s.loads && seconds >= 0.0
    requires key in s.cache ==> s.clock + seconds - s.cache[key].stamp >= TTL_SECONDS
    ensures var steps := [Pass(seconds)] + ([Begin(id, key)] + [Read(id), Finish(id)]);
      && Runs(s, steps)
      && var t := After(s, steps);
         |t.answers| == |s.answers| + 1 && t.answers[|s.answers|].config == Stored(s.store, key)
  {
    var t := Next(s, Pass(seconds));
    LoadIsARun(t, id, key);
    var rest := [Begin(id, key)] + [Read(id), Finish(id)];
    First(s, Pass(seconds), rest, After(t, rest));
  }

  // A write nothing interrupts changes its chat alone, in the store and in the cache.
  lemma WriteIsARun(s: State, id: nat, key: Key, change: Change)
    requires s.history != [] && id !in s.writes
    ensures var steps := [Apply(id, key, change), Invalidate(id)];
      && Runs(s, steps)
      && var t := After(s, steps);
         && t.store == s.store[key := Changed(Stored(s.store, key), change)] && t.cache == s.cache - {key}
         && t.loads == s.loads && t.writes == s.writes && t.answers == s.answers
  {
    var t1 := Next(s, Apply(id, key, change));
    var t2 := Next(t1, Invalidate(id));
    First(t1, Invalidate(id), [], t2);
    First(s, Apply(id, key, change), [Invalidate(id)], t2);
    assert t2.writes == s.writes;
  }

  class CachedConfigStore {
    // The wrapped store, and the entries kept of it.
    var store: Store
    var cache: Cache

    constructor (wrapped: Store)
      ensures store == wrapped && cache == map[] && Agrees()
    {
      store, cache := wrapped, map[];
    }

    // Every entry, expired or not, is the store's value.
    ghost predicate Agrees()
      reads this
    {
      forall key :: key in cache ==> cache[key].config == Stored(store, key)
    }

    method Load(key: Key, now: real) returns (config: Config)
      modifies this`cache
      ensures (config, cache) == Loaded(store, old(cache), key, now)
      ensures if key in old(cache) && now - old(cache)[key].stamp < TTL_SECONDS
              then config == old(cache)[key].config && cache == old(cache)
              else config == Stored(store, key) && cache == old(cache)[key := Entry(now, config)]
      ensures old(Agrees()) ==> Agrees() && config == Stored(store, key)
    {
      if key in cache && now - cache[key].stamp < TTL_SECONDS {
        return cache[key].config;
      }
      config := Stored(store, key);
      cache := cache[key := Entry(now, config)];
    }

    method SetOverride(key: Key, name: string, enabled: bool)
      modifies this
      ensures var was := Stored(old(store), key);
        store == old(store)[key := Config(was.policy, was.overrides[name := enabled])]
      ensures cache == old(cache) - {key}
      ensures old(Agrees()) ==> Agrees()
    {
      store := store[key := Changed(Stored(store, key), Override(name, enabled))];
      Drop(key);
    }

    method ClearOverride(key: Key, name: string)
      modifies this
      ensures var was := Stored(old(store), key);
        store == old(store)[key := Config(was.policy, was.overrides - {name})]
      ensures cache == old(cache) - {key}
      ensures old(Agrees()) ==> Agrees()
    {
      store := store[key := Changed(Stored(store, key), Clear(name))];
      Drop(key);
    }

    method SetPolicy(key: Key, policy: Policy)
      modifies this
      ensures store == old(store)[key := Config(policy, Stored(old(store), key).overrides)]
      ensures cache == old(cache) - {key}
      ensures old(Agrees()) ==> Agrees()
    {
      store := store[key := Changed(Stored(store, key), Default(policy))];
      Drop(key);
    }

    /** CachedConfigStore._invalidate. */
    method Drop(key: Key)
      modifies this`cache
      ensures cache == old(cache) - {key}
    {
      cache := cache - {key};
    }
  }
}
