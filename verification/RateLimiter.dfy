/** The turn limiter: a counter under a key that expires WINDOW_SECONDS after it was opened. */
module RateLimiter {
  import opened Wrappers

  const MAX_TURNS: nat := 8
  const WINDOW_SECONDS: real := 600.0

  datatype Window = Window(start: real, turns: nat)

  predicate Open(w: Option<Window>, now: real) {
    w.Some? && now < w.value.start + WINDOW_SECONDS
  }

  // SET NX EX opens the window, INCR counts the call in it.
  function Turn(w: Option<Window>, now: real): Window {
    if Open(w, now) then w.value.(turns := w.value.turns + 1) else Window(now, 1)
  }

  // The window each call of a history is counted in.
  function Windows(w: Option<Window>, times: seq<real>): (r: seq<Window>)
    ensures |r| == |times|
    decreases |times|
  {
    if times == [] then []
    else [Turn(w, times[0])] + Windows(Some(Turn(w, times[0])), times[1..])
  }

  ghost predicate InOrder(since: real, times: seq<real>)
    decreases |times|
  {
    times == [] || (since <= times[0] && InOrder(times[0], times[1..]))
  }

  predicate Admits(w: Window) {
    w.turns <= MAX_TURNS
  }

  // Calls counted in the window that opened at `start`, among the first `n`.
  function InWindow(windows: seq<Window>, n: nat, start: real): nat
    requires n <= |windows|
  {
    if n == 0 then 0
    else InWindow(windows, n - 1, start) + if windows[n - 1].start == start then 1 else 0
  }

  lemma {:induction false} InWindowTail(windows: seq<Window>, n: nat, start: real)
    requires windows != [] && 1 <= n <= |windows|
    ensures InWindow(windows, n, start)
         == InWindow(windows[1..], n - 1, start) + if windows[0].start == start then 1 else 0
    decreases n
  {
    if n > 1 {
      InWindowTail(windows, n - 1, start);
    }
  }

  // Each call's turn is its place in its window.
  lemma {:induction false} TurnIsPlace(w: Option<Window>, since: real, times: seq<real>, i: nat)
    requires InOrder(since, times) && i < |times|
    requires w.Some? ==> w.value.start <= since
    ensures var windows := Windows(w, times);
      windows[i].turns == InWindow(windows, i + 1, windows[i].start)
        + if w.Some? && windows[i].start == w.value.start && Open(w, times[0]) then w.value.turns else 0
    ensures Windows(w, times)[i].start >= Turn(w, times[0]).start
    decreases |times|
  {
    var windows, next := Windows(w, times), Turn(w, times[0]);
    InWindowTail(windows, i + 1, windows[i].start);
    if i > 0 {
      assert windows[1..] == Windows(Some(next), times[1..]);
      TurnIsPlace(Some(next), times[0], times[1..], i - 1);
    }
  }

  // A window admits its first MAX_TURNS calls and no other.
  lemma FirstTurnsAdmitted(since: real, times: seq<real>, i: nat)
    requires InOrder(since, times) && i < |times|
    ensures var windows := Windows(None, times);
      Admits(windows[i]) <==> InWindow(windows, i, windows[i].start) < MAX_TURNS
  {
    TurnIsPlace(None, since, times, i);
  }

  // Calls admitted in [from, from + WINDOW_SECONDS).
  function AdmittedFrom(w: Option<Window>, times: seq<real>, from: real): nat
    decreases |times|
  {
    if times == [] then 0
    else
      var next := Turn(w, times[0]);
      (if Admits(next) && from <= times[0] < from + WINDOW_SECONDS then 1 else 0)
      + AdmittedFrom(Some(next), times[1..], from)
  }

  function Left(w: Window): nat {
    if w.turns <= MAX_TURNS then MAX_TURNS - w.turns else 0
  }

  // What the interval can still admit: the open window's rest, and one more window if it opened
  // before the interval.
  function Room(w: Option<Window>, from: real): nat {
    if w.None? || w.value.start + WINDOW_SECONDS <= from then 2 * MAX_TURNS - 1
    else if w.value.start >= from then Left(w.value)
    else Left(w.value) + MAX_TURNS
  }

  lemma {:induction false} AdmittedWithinRoom(w: Option<Window>, since: real, times: seq<real>, from: real)
    requires InOrder(since, times)
    requires w.Some? ==> w.value.start <= since && w.value.turns >= 1
    ensures AdmittedFrom(w, times, from) <= Room(w, from)
    decreases |times|
  {
    if times != [] {
      var next := Some(Turn(w, times[0]));
      if times[0] >= from + WINDOW_SECONDS {
        NothingLater(next, times[0], times[1..], from);
      } else {
        AdmittedWithinRoom(next, times[0], times[1..], from);
      }
    }
  }

  lemma {:induction false} NothingLater(w: Option<Window>, since: real, times: seq<real>, from: real)
    requires InOrder(since, times) && since >= from + WINDOW_SECONDS
    ensures AdmittedFrom(w, times, from) == 0
    decreases |times|
  {
    if times != [] {
      NothingLater(Some(Turn(w, times[0])), times[0], times[1..], from);
    }
  }

  // No interval of one window's length admits 2 * MAX_TURNS calls: the call that opens a window is
  // counted in it, so a window that straddles the start of the interval has spent one turn before.
  lemma IntervalBounded(since: real, times: seq<real>, from: real)
    requires InOrder(since, times)
    ensures AdmittedFrom(None, times, from) <= 2 * MAX_TURNS - 1
  {
    AdmittedWithinRoom(None, since, times, from);
  }

  // `n` calls at one instant.
  function Burst(n: nat, now: real): seq<real> {
    if n == 0 then [] else [now] + Burst(n - 1, now)
  }

  lemma {:induction false} BurstFills(w: Window, n: nat, now: real, rest: seq<real>, from: real)
    requires Open(Some(w), now) && w.turns + n <= MAX_TURNS && from <= now < from + WINDOW_SECONDS
    ensures AdmittedFrom(Some(w), Burst(n, now) + rest, from)
         == n + AdmittedFrom(Some(w.(turns := w.turns + n)), rest, from)
    decreases n
  {
    if n == 0 {
      assert Burst(0, now) + rest == rest;
    } else {
      assert (Burst(n, now) + rest)[1..] == Burst(n - 1, now) + rest;
      BurstFills(w.(turns := w.turns + 1), n - 1, now, rest, from);
    }
  }

  lemma {:induction false} BurstInOrder(n: nat, now: real, rest: seq<real>)
    requires InOrder(now, rest)
    ensures InOrder(now, Burst(n, now) + rest)
  {
    if n == 0 {
      assert Burst(0, now) + rest == rest;
    } else {
      assert (Burst(n, now) + rest)[1..] == Burst(n - 1, now) + rest;
      BurstInOrder(n - 1, now, rest);
    }
  }

  // The bound is attained: one call opens the window, the rest of it comes a second before its end,
  // and a full window follows.
  lemma IntervalBoundIsSharp() returns (times: seq<real>)
    ensures InOrder(0.0, times) && AdmittedFrom(None, times, 599.0) == 2 * MAX_TURNS - 1
  {
    var second := [600.0] + (Burst(MAX_TURNS - 1, 600.0) + []);
    times := [0.0] + (Burst(MAX_TURNS - 1, 599.0) + second);
    BurstInOrder(MAX_TURNS - 1, 600.0, []);
    assert second[1..] == Burst(MAX_TURNS - 1, 600.0) + [];
    assert InOrder(600.0, second) && InOrder(599.0, second);
    BurstInOrder(MAX_TURNS - 1, 599.0, second);
    var tail := Burst(MAX_TURNS - 1, 599.0) + second;
    assert InOrder(0.0, tail) by {
      assert tail[0] == 599.0;
    }
    assert times[1..] == tail;
    BurstFills(Window(0.0, 1), MAX_TURNS - 1, 599.0, second, 599.0);
    BurstFills(Window(600.0, 1), MAX_TURNS - 1, 600.0, [], 599.0);
  }

  class Limiter {
    var windows: map<string, Window>

    constructor ()
      ensures windows == map[]
    {
      windows := map[];
    }

    method Allow(conversation: string, now: real) returns (allowed: bool)
      modifies this
      ensures var w := if conversation in old(windows) then Some(old(windows)[conversation]) else None;
        windows == old(windows)[conversation := Turn(w, now)]
      ensures allowed <==> Admits(windows[conversation])
    {
      var w := if conversation in windows then Some(windows[conversation]) else None;
      if !Open(w, now) {
        w := Some(Window(now, 0));
      }
      var turns := w.value.turns + 1;
      windows := windows[conversation := Window(w.value.start, turns)];
      allowed := turns <= MAX_TURNS;
    }
  }
}
