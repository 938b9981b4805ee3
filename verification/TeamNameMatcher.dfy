/** Club-name pairing: a greedy pass over every (name, candidate) pair, best score first. The result
    is the one matching no pair of clubs would both rather leave, and it keeps at least half of the
    overlap of any other matching. */
module TeamNameMatcher {
  import opened Wrappers

  const MIN_SCORE: real := 0.25

  // The score of two names: token overlap, then the character ratio that breaks its ties.
  type Score = (string, string) -> (real, real)

  datatype Scored = Scored(overlap: real, ratio: real, name: string, candidate: string)

  function Entry(score: Score, name: string, candidate: string): Scored {
    var (overlap, ratio) := score(name, candidate);
    Scored(overlap, ratio, name, candidate)
  }

  // Ordering

  predicate TextLeq(a: string, b: string) {
    a == [] || (b != [] && (a[0] < b[0] || (a[0] == b[0] && TextLeq(a[1..], b[1..]))))
  }

  // The order of texts by their first difference, a prefix first.
  lemma {:induction false} TextLeqExactly(a: string, b: string)
    ensures TextLeq(a, b) <==>
      a <= b || exists i :: 0 <= i < |a| && i < |b| && a[..i] == b[..i] && a[i] < b[i]
  {
    if a != [] && b != [] && a[0] == b[0] {
      TextLeqExactly(a[1..], b[1..]);
      assert a == [a[0]] + a[1..] && b == [b[0]] + b[1..];
      if i :| 0 <= i < |a| - 1 && i < |b| - 1 && a[1..][..i] == b[1..][..i] && a[1..][i] < b[1..][i] {
        assert a[..i + 1] == [a[0]] + a[1..][..i] && b[..i + 1] == [b[0]] + b[1..][..i];
        assert a[..i + 1] == b[..i + 1] && a[i + 1] < b[i + 1];
      }
      if i :| 0 <= i < |a| && i < |b| && a[..i] == b[..i] && a[i] < b[i] {
        assert i > 0 && a[1..][..i - 1] == a[..i][1..] && b[1..][..i - 1] == b[..i][1..];
        assert a[1..][i - 1] < b[1..][i - 1];
      }
    } else if a != [] && b != [] {
      assert a[..0] == b[..0];
      forall i | 0 < i < |a| && i < |b| ensures a[..i] != b[..i] {
        assert a[..i][0] != b[..i][0];
      }
    }
  }

  // The tuple order of the source, larger first.
  predicate Above(a: Scored, b: Scored) {
    if a.overlap != b.overlap then a.overlap > b.overlap
    else if a.ratio != b.ratio then a.ratio > b.ratio
    else if a.name != b.name then TextLeq(b.name, a.name)
    else TextLeq(b.candidate, a.candidate)
  }

  lemma {:induction false} TextTotal(a: string, b: string)
    ensures TextLeq(a, b) || TextLeq(b, a)
    ensures TextLeq(a, b) && TextLeq(b, a) ==> a == b
  {
    if a != [] && b != [] {
      TextTotal(a[1..], b[1..]);
      assert a == [a[0]] + a[1..] && b == [b[0]] + b[1..];
    }
  }

  lemma {:induction false} TextTransitive(a: string, b: string, c: string)
    requires TextLeq(a, b) && TextLeq(b, c)
    ensures TextLeq(a, c)
  {
    if a != [] && a[0] == b[0] == c[0] {
      TextTransitive(a[1..], b[1..], c[1..]);
    }
  }

  lemma AboveTotal(a: Scored, b: Scored)
    ensures Above(a, b) || Above(b, a)
    ensures Above(a, b) && Above(b, a) ==> a == b
  {
    TextTotal(a.name, b.name);
    TextTotal(a.candidate, b.candidate);
  }

  lemma AboveTransitive(a: Scored, b: Scored, c: Scored)
    requires Above(a, b) && Above(b, c)
    ensures Above(a, c)
  {
    if a.overlap == b.overlap == c.overlap && a.ratio == b.ratio == c.ratio {
      if a.name == b.name == c.name {
        TextTransitive(c.candidate, b.candidate, a.candidate);
      } else if a.name != b.name && b.name != c.name {
        TextTransitive(c.name, b.name, a.name);
        TextTotal(a.name, b.name);
      }
    }
  }

  predicate Descending(xs: seq<Scored>) {
    forall i, j :: 0 <= i < j < |xs| ==> Above(xs[i], xs[j])
  }

  lemma AheadOfAll(x: Scored, xs: seq<Scored>)
    requires Descending(xs) && xs != [] && Above(x, xs[0])
    ensures Descending([x] + xs)
  {
    forall j | 0 < j < |xs| ensures Above(x, xs[j]) {
      AboveTransitive(x, xs[0], xs[j]);
    }
  }

  lemma BehindFirst(x: Scored, xs: seq<Scored>, rest: seq<Scored>)
    requires Descending(xs) && xs != [] && !Above(x, xs[0])
    requires Descending(rest) && multiset(rest) == multiset(xs[1..]) + multiset{x}
    ensures Descending([xs[0]] + rest) && multiset([xs[0]] + rest) == multiset(xs) + multiset{x}
  {
    AboveTotal(x, xs[0]);
    forall j | 0 <= j < |rest| ensures Above(xs[0], rest[j]) {
      assert rest[j] in multiset(rest);
      assert rest[j] == x || rest[j] in xs[1..];
    }
    assert xs == [xs[0]] + xs[1..];
  }

  function Insert(x: Scored, xs: seq<Scored>): (r: seq<Scored>)
    requires Descending(xs)
    ensures Descending(r) && multiset(r) == multiset(xs) + multiset{x}
  {
    if xs == [] then [x]
    else if Above(x, xs[0]) then
      AheadOfAll(x, xs);
      [x] + xs
    else
      var rest := Insert(x, xs[1..]);
      BehindFirst(x, xs, rest);
      [xs[0]] + rest
  }

  function Sorted(xs: seq<Scored>): (r: seq<Scored>)
    ensures Descending(r) && multiset(r) == multiset(xs)
  {
    if xs == [] then []
    else
      assert xs == [xs[0]] + xs[1..];
      Insert(xs[0], Sorted(xs[1..]))
  }

  function ScoredAgainst(score: Score, name: string, candidates: seq<string>): (r: seq<Scored>)
    ensures forall e :: e in r <==> exists c :: c in candidates && e == Entry(score, name, c)
  {
    if candidates == [] then []
    else
      var rest := ScoredAgainst(score, name, candidates[1..]);
      assert candidates == [candidates[0]] + candidates[1..];
      [Entry(score, name, candidates[0])] + rest
  }

  function AllScored(score: Score, names: seq<string>, candidates: seq<string>): (r: seq<Scored>)
    ensures forall e :: e in r <==>
      exists n, c :: n in names && c in candidates && e == Entry(score, n, c)
  {
    if names == [] then []
    else
      var head := ScoredAgainst(score, names[0], candidates);
      var rest := AllScored(score, names[1..], candidates);
      assert names == [names[0]] + names[1..];
      assert forall e :: e in head + rest <==> e in head || e in rest;
      head + rest
  }

  function Ranking(score: Score, names: seq<string>, candidates: seq<string>): (r: seq<Scored>)
    ensures Descending(r)
  {
    Sorted(AllScored(score, names, candidates))
  }

  ghost predicate FromScore(score: Score, ranking: seq<Scored>) {
    forall e :: e in ranking ==> e == Entry(score, e.name, e.candidate)
  }

  ghost predicate OfClubs(names: seq<string>, candidates: seq<string>, ranking: seq<Scored>) {
    forall e :: e in ranking ==> e.name in names && e.candidate in candidates
  }

  ghost predicate Complete(score: Score, names: seq<string>, candidates: seq<string>, ranking: seq<Scored>) {
    forall n, c :: n in names && c in candidates ==> Entry(score, n, c) in ranking
  }

  // The ranking has exactly the scored pairs.
  lemma RankingIsExact(score: Score, names: seq<string>, candidates: seq<string>)
    ensures var ranking := Ranking(score, names, candidates);
      && FromScore(score, ranking) && OfClubs(names, candidates, ranking)
      && Complete(score, names, candidates, ranking)
  {
    var all, ranking := AllScored(score, names, candidates), Ranking(score, names, candidates);
    assert multiset(ranking) == multiset(all);
    assert forall e :: e in ranking <==> e in multiset(ranking);
    assert forall e :: e in all <==> e in multiset(all);
  }

  // The pass

  type Pairs = map<string, string>

  predicate Skips(e: Scored, pairs: Pairs) {
    e.overlap < MIN_SCORE || e.name in pairs || e.candidate in pairs.Values
  }

  function Greedy(ranking: seq<Scored>, pairs: Pairs): Pairs {
    if ranking == [] then pairs
    else if Skips(ranking[0], pairs) then Greedy(ranking[1..], pairs)
    else Greedy(ranking[1..], pairs[ranking[0].name := ranking[0].candidate])
  }

  function PairsOf(score: Score, names: seq<string>, candidates: seq<string>): Pairs {
    Greedy(Ranking(score, names, candidates), map[])
  }

  lemma PairTakes(pairs: Pairs, name: string, candidate: string)
    requires name !in pairs
    ensures pairs[name := candidate].Values == pairs.Values + {candidate}
  {
    var grown := pairs[name := candidate];
    assert name in grown;
    forall c | c in pairs.Values ensures c in grown.Values {
      var n :| n in pairs && pairs[n] == c;
      assert grown[n] == c;
    }
  }

  // One turn of the loop over the ranking.
  lemma GreedyNext(ranking: seq<Scored>, i: nat, pairs: Pairs)
    requires i < |ranking|
    ensures Greedy(ranking[i..], pairs) == Greedy(ranking[i + 1..],
      if Skips(ranking[i], pairs) then pairs else pairs[ranking[i].name := ranking[i].candidate])
  {
    assert ranking[i..][0] == ranking[i] && ranking[i..][1..] == ranking[i + 1..];
  }

  method Pair(score: Score, names: seq<string>, candidates: seq<string>) returns (pairs: Pairs)
    ensures pairs == PairsOf(score, names, candidates)
  {
    var scored := Ranking(score, names, candidates);
    pairs := map[];
    var taken: set<string> := {};
    for i := 0 to |scored|
      invariant taken == pairs.Values
      invariant Greedy(scored[i..], pairs) == PairsOf(score, names, candidates)
    {
      var e := scored[i];
      GreedyNext(scored, i, pairs);
      if e.overlap < MIN_SCORE || e.name in pairs || e.candidate in taken {
        continue;
      }
      PairTakes(pairs, e.name, e.candidate);
      pairs := pairs[e.name := e.candidate];
      taken := taken + {e.candidate};
    }
  }

  // What it promises

  ghost predicate Injective(m: Pairs) {
    forall a, b :: a in m && b in m && m[a] == m[b] ==> a == b
  }

  // An injective choice of eligible pairs.
  ghost predicate Matching(score: Score, names: seq<string>, candidates: seq<string>, m: Pairs) {
    && Injective(m)
    && forall n :: n in m ==>
         n in names && m[n] in candidates && score(n, m[n]).0 >= MIN_SCORE
  }

  // The pair (n, c) is preferred to (o, d), or is that pair: by overlap, then by ratio, and between equals
  // the later name, then the later candidate.
  predicate Preferred(score: Score, n: string, c: string, o: string, d: string) {
    var ((mine, ratio), (other, otherRatio)) := (score(n, c), score(o, d));
    || mine > other
    || (mine == other && ratio > otherRatio)
    || (mine == other && ratio == otherRatio && n != o && TextLeq(o, n))
    || (mine == other && ratio == otherRatio && n == o && TextLeq(d, c))
  }

  // `m` gives the pair itself, or one of its two sides something preferred to it.
  ghost predicate Settles(score: Score, m: Pairs, n: string, c: string) {
    || (n in m && Preferred(score, n, m[n], n, c))
    || (exists o :: o in m && m[o] == c && Preferred(score, o, c, n, c))
  }

  // No eligible pair of clubs would both rather have each other.
  ghost predicate Stable(score: Score, names: seq<string>, candidates: seq<string>, m: Pairs) {
    forall n, c :: n in names && c in candidates && score(n, c).0 >= MIN_SCORE ==>
      Settles(score, m, n, c)
  }

  lemma {:induction false} GreedyMatches(
    score: Score, names: seq<string>, candidates: seq<string>, ranking: seq<Scored>, m: Pairs)
    requires Matching(score, names, candidates, m) && FromScore(score, ranking)
    requires OfClubs(names, candidates, ranking)
    ensures Matching(score, names, candidates, Greedy(ranking, m))
    decreases |ranking|
  {
    if ranking != [] {
      var e := ranking[0];
      assert forall x :: x in ranking[1..] ==> x in ranking;
      if Skips(e, m) {
        GreedyMatches(score, names, candidates, ranking[1..], m);
      } else {
        GreedyMatches(score, names, candidates, ranking[1..], m[e.name := e.candidate]);
      }
    }
  }

  lemma {:induction false} GreedyExtends(ranking: seq<Scored>, m: Pairs, n: string)
    requires n in m
    ensures n in Greedy(ranking, m) && Greedy(ranking, m)[n] == m[n]
    decreases |ranking|
  {
    if ranking != [] {
      var e := ranking[0];
      GreedyExtends(ranking[1..], if Skips(e, m) then m else m[e.name := e.candidate], n);
    }
  }

  lemma {:induction false} GreedySettles(score: Score, ranking: seq<Scored>, m: Pairs, e: Scored)
    requires Descending(ranking) && FromScore(score, ranking)
    requires forall n, x :: n in m && x in ranking ==> Above(Entry(score, n, m[n]), x)
    requires e in ranking && e.overlap >= MIN_SCORE
    ensures Settles(score, Greedy(ranking, m), e.name, e.candidate)
    decreases |ranking|
  {
    var head, rest, final := ranking[0], ranking[1..], Greedy(ranking, m);
    var m' := if Skips(head, m) then m else m[head.name := head.candidate];
    assert head in ranking && forall x :: x in rest ==> x in ranking;
    if e == head {
      AboveTotal(e, e);
      if e.name in m' {
        GreedyExtends(rest, m', e.name);
      } else {
        var o :| o in m && m[o] == e.candidate;
        GreedyExtends(rest, m', o);
      }
    } else {
      assert ranking == [head] + rest;
      GreedySettles(score, rest, m', e);
    }
  }

  lemma PairIsStable(score: Score, names: seq<string>, candidates: seq<string>)
    ensures Matching(score, names, candidates, PairsOf(score, names, candidates))
    ensures Stable(score, names, candidates, PairsOf(score, names, candidates))
  {
    var ranking := Ranking(score, names, candidates);
    RankingIsExact(score, names, candidates);
    GreedyMatches(score, names, candidates, ranking, map[]);
    forall n, c | n in names && c in candidates && score(n, c).0 >= MIN_SCORE
      ensures Settles(score, Greedy(ranking, map[]), n, c)
    {
      GreedySettles(score, ranking, map[], Entry(score, n, c));
    }
  }

  lemma {:induction false} StableFollowsGreedy(
    score: Score, names: seq<string>, candidates: seq<string>, ranking: seq<Scored>, m: Pairs, other: Pairs)
    requires Descending(ranking) && FromScore(score, ranking)
    requires OfClubs(names, candidates, ranking)
    requires Matching(score, names, candidates, other) && Stable(score, names, candidates, other)
    requires forall n :: n in m ==> n in other && other[n] == m[n]
    requires forall n :: n in other ==> n in m || Entry(score, n, other[n]) in ranking
    ensures Greedy(ranking, m) == other
    decreases |ranking|
  {
    if ranking == [] {
      assert forall n :: n in other ==> n in m;
      return;
    }
    var e, rest := ranking[0], ranking[1..];
    assert ranking == [e] + rest && e in ranking;
    if Skips(e, m) {
      StableFollowsGreedy(score, names, candidates, rest, m, other);
    } else {
      assert Settles(score, other, e.name, e.candidate);
      forall x | x in ranking && Above(x, e) ensures x == e {
        AboveTotal(x, e);
        var i :| 0 <= i < |ranking| && ranking[i] == x;
      }
      assert e.name in other && other[e.name] == e.candidate;
      StableFollowsGreedy(score, names, candidates, rest, m[e.name := e.candidate], other);
    }
  }

  // There is one stable matching, so the result is determined by the scores alone.
  lemma StableIsUnique(score: Score, names: seq<string>, candidates: seq<string>, m: Pairs)
    requires Matching(score, names, candidates, m) && Stable(score, names, candidates, m)
    ensures m == PairsOf(score, names, candidates)
  {
    RankingIsExact(score, names, candidates);
    StableFollowsGreedy(score, names, candidates, Ranking(score, names, candidates), map[], m);
  }

  ghost function Overlap(score: Score, m: Pairs): real {
    if m == map[] then 0.0
    else
      var n :| n in m;
      score(n, m[n]).0 + Overlap(score, m - {n})
  }

  lemma {:induction false} OverlapRemove(score: Score, m: Pairs, n: string)
    requires n in m
    ensures Overlap(score, m) == score(n, m[n]).0 + Overlap(score, m - {n})
    decreases |m|
  {
    var p :| p in m && Overlap(score, m) == score(p, m[p]).0 + Overlap(score, m - {p});
    if p != n {
      OverlapRemove(score, m - {p}, n);
      OverlapRemove(score, m - {n}, p);
      assert m - {p} - {n} == m - {n} - {p};
    }
  }

  // Removing the partner of a candidate costs at most what the pair taken brings.
  ghost function WithoutCandidate(m: Pairs, c: string): (r: Pairs)
    ensures r.Keys <= m.Keys && forall n :: n in r ==> r[n] == m[n] && r[n] != c
    ensures forall n :: n in m && m[n] != c ==> n in r
  {
    map n | n in m && m[n] != c :: m[n]
  }

  lemma CandidateCosts(score: Score, m: Pairs, c: string, most: real)
    requires Injective(m) && most >= 0.0
    requires forall n :: n in m && m[n] == c ==> score(n, c).0 <= most
    ensures Overlap(score, m) <= Overlap(score, WithoutCandidate(m, c)) + most
  {
    if n :| n in m && m[n] == c {
      OverlapRemove(score, m, n);
      assert m - {n} == WithoutCandidate(m, c);
    } else {
      assert m == WithoutCandidate(m, c);
    }
  }

  lemma NameCosts(score: Score, m: Pairs, n: string, most: real)
    requires most >= 0.0 && (n in m ==> score(n, m[n]).0 <= most)
    ensures Overlap(score, m) <= Overlap(score, m - {n}) + most
  {
    if n in m {
      OverlapRemove(score, m, n);
    } else {
      assert m == m - {n};
    }
  }

  // Both sides of a taken pair, freed in another matching that it outranks.
  ghost function Freed(other: Pairs, e: Scored): Pairs {
    WithoutCandidate(other - {e.name}, e.candidate)
  }

  lemma TakenCosts(score: Score, other: Pairs, e: Scored)
    requires Injective(other) && e.overlap >= 0.0
    requires forall n :: n in other ==> score(n, other[n]).0 <= e.overlap
    ensures Overlap(score, other) <= Overlap(score, Freed(other, e)) + 2.0 * e.overlap
  {
    NameCosts(score, other, e.name, e.overlap);
    CandidateCosts(score, other - {e.name}, e.candidate, e.overlap);
  }

  lemma FreedStaysApart(score: Score, m: Pairs, other: Pairs, e: Scored, rest: seq<Scored>)
    requires Injective(other) && Apart(m, other)
    requires forall n :: n in other ==> Entry(score, n, other[n]) in [e] + rest
    ensures Injective(Freed(other, e)) && Apart(m[e.name := e.candidate], Freed(other, e))
    ensures forall n :: n in Freed(other, e) ==> n in other && Freed(other, e)[n] == other[n]
    ensures forall n :: n in Freed(other, e) ==> Entry(score, n, other[n]) in rest
  {
    var less, m' := Freed(other, e), m[e.name := e.candidate];
    forall n | n in less ensures less[n] !in m'.Values {
      assert less[n] in other.Values;
    }
  }

  ghost predicate Apart(m: Pairs, other: Pairs) {
    m.Keys !! other.Keys && m.Values !! other.Values
  }

  lemma {:induction false} GreedyKeepsHalf(score: Score, ranking: seq<Scored>, m: Pairs, other: Pairs)
    requires Descending(ranking) && FromScore(score, ranking)
    requires Injective(other) && Apart(m, other)
    requires forall n :: n in other ==>
      score(n, other[n]).0 >= MIN_SCORE && Entry(score, n, other[n]) in ranking
    ensures Overlap(score, other) <= 2.0 * (Overlap(score, Greedy(ranking, m)) - Overlap(score, m))
    decreases |ranking|
  {
    if ranking == [] {
      assert other == map[];
      return;
    }
    var e, rest := ranking[0], ranking[1..];
    assert ranking == [e] + rest && e in ranking;
    if Skips(e, m) {
      forall n | n in other ensures Entry(score, n, other[n]) in rest {
        assert other[n] in other.Values;
      }
      GreedyKeepsHalf(score, rest, m, other);
    } else {
      var m' := m[e.name := e.candidate];
      assert m' - {e.name} == m;
      OverlapRemove(score, m', e.name);
      assert e == Entry(score, e.name, m'[e.name]);
      forall n | n in other ensures score(n, other[n]).0 <= e.overlap {
        var i :| 0 <= i < |ranking| && ranking[i] == Entry(score, n, other[n]);
        assert i == 0 || Above(ranking[0], ranking[i]);
      }
      TakenCosts(score, other, e);
      FreedStaysApart(score, m, other, e, rest);
      GreedyKeepsHalf(score, rest, m', Freed(other, e));
    }
  }

  lemma PairKeepsHalf(score: Score, names: seq<string>, candidates: seq<string>, other: Pairs)
    requires Matching(score, names, candidates, other)
    ensures Overlap(score, other) <= 2.0 * Overlap(score, PairsOf(score, names, candidates))
  {
    RankingIsExact(score, names, candidates);
    GreedyKeepsHalf(score, Ranking(score, names, candidates), map[], other);
  }

  method Best(score: Score, name: string, candidates: seq<string>) returns (best: Option<string>)
    ensures best.None? <==> forall c :: c in candidates ==> score(name, c).0 < MIN_SCORE
    ensures best.Some? ==> best.value in candidates && score(name, best.value).0 >= MIN_SCORE
    ensures best.Some? ==> forall c :: c in candidates ==> Preferred(score, name, best.value, name, c)
  {
    var pairs := Pair(score, [name], candidates);
    PairIsStable(score, [name], candidates);
    best := if name in pairs then Some(pairs[name]) else None;
    assert forall n :: n in pairs ==> n == name;
    forall c | c in candidates && score(name, c).0 >= MIN_SCORE
      ensures best.Some? && Preferred(score, name, best.value, name, c)
    {
      assert Settles(score, pairs, name, c);
      assert name in [name];
    }
  }
}
