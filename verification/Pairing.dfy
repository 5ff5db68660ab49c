/** Pairing the players of a session: first by overlapping skill ranges, then
    the rest by random draws between neighbours in the rating order. */
module Pairing {
  import opened Rows
  import opened Sequences
  import opened Sorting

  datatype Player = Player(id: PlayerId, rating: real, deviation: real)
  datatype Pair = Pair(p1: Player, p2: Player)

  /** Both players of every pair, in order. */
  function Flat(pairs: seq<Pair>): seq<Player> {
    if pairs == [] then [] else Flat(pairs[..|pairs| - 1]) + [pairs[|pairs| - 1].p1, pairs[|pairs| - 1].p2]
  }

  lemma {:induction false} FlatOfTwo(a: seq<Pair>, b: seq<Pair>)
    ensures Flat(a + b) == Flat(a) + Flat(b)
  {
    if b == [] {
      assert a + b == a;
    } else {
      FlatOfTwo(a, b[..|b| - 1]);
      assert (a + b)[..|a + b| - 1] == a + b[..|b| - 1];
    }
  }

  lemma {:induction false} FlatLength(pairs: seq<Pair>)
    ensures |Flat(pairs)| == 2 * |pairs|
  {
    if pairs != [] {
      FlatLength(pairs[..|pairs| - 1]);
    }
  }

  // -------------------------------------------------------------- randomness

  /** Panics on an empty range. */
  method RandomInt(iMin: int, iMax: int) returns (r: int)
    requires iMin <= iMax
    ensures iMin <= r <= iMax
  {
    r :| iMin <= r <= iMax;
  }

  /** Panics on length zero. */
  method RandomIndex(length: nat) returns (r: nat)
    requires length > 0
    ensures r < length
  {
    r := RandomInt(0, length - 1);
  }

  method RandomLowIndex(length: nat) returns (r: nat)
    requires length > 0
    ensures r < length
  {
    var a := RandomIndex(length);
    var b := RandomIndex(length);
    r := if a < b then a else b;
  }

  function Clamp(v: int, min: int, max: int): int {
    if v > max then max else if v < min then min else v
  }

  // ------------------------------------------------- fallback: random draws

  function MaxDelta(sessionSize: nat): nat {
    if sessionSize <= 8 then 1 else if sessionSize <= 16 then 2 else 3
  }

  function RatingOf(p: Player): real {
    p.rating
  }

  /** The line of players without those at `i` and `j`. */
  function Remaining<T>(line: seq<T>, i: nat, j: nat): seq<T>
    requires i < |line| && j < |line| && i != j
  {
    Drop(Drop(line, i), if j < i then j else j - 1)
  }

  /** `pair` are the players at `i` and `j` of the line, close enough: at most
      `delta` places down, or with at most `delta` others in between up. */
  predicate DrawnAt(line: seq<Player>, pair: Pair, i: nat, j: nat, delta: nat) {
    && i < |line| && j < |line| && i != j
    && pair == Pair(line[i], line[j])
    && (if j < i then i - j <= delta else j - i - 1 <= delta)
  }

  /** Drawing `pairs` one after the other takes the line to `rest`. */
  ghost predicate DrawsTo(line: seq<Player>, pairs: seq<Pair>, rest: seq<Player>, delta: nat) {
    if pairs == [] then rest == line
    else exists mid: seq<Player>, i: nat, j: nat ::
      DrawsTo(line, pairs[..|pairs| - 1], mid, delta) && DrawnAt(mid, pairs[|pairs| - 1], i, j, delta)
      && rest == Remaining(mid, i, j)
  }

  lemma DropSorted(line: seq<Player>, i: nat)
    requires i < |line| && SortedBy(line, RatingOf)
    ensures SortedBy(Drop(line, i), RatingOf)
  {
    var rest := Drop(line, i);
    forall p, q | 0 <= p < q < |rest| ensures RatingOf(rest[p]) <= RatingOf(rest[q]) {
      assert rest[p] == line[if p < i then p else p + 1];
      assert rest[q] == line[if q < i then q else q + 1];
    }
  }

  lemma TwoDropped(line: seq<Player>, i: nat, k: nat)
    requires i < |line| && k < |line| - 1
    ensures multiset(line) == multiset(Drop(Drop(line, i), k)) + multiset{line[i], Drop(line, i)[k]}
  {
    DropCounts(line, i);
    DropCounts(Drop(line, i), k);
  }

  lemma RemainingCounts(line: seq<Player>, i: nat, j: nat)
    requires i < |line| && j < |line| && i != j
    ensures multiset(line) == multiset(Remaining(line, i, j)) + multiset{line[i], line[j]}
    ensures SortedBy(line, RatingOf) ==> SortedBy(Remaining(line, i, j), RatingOf)
  {
    var k := if j < i then j else j - 1;
    TwoDropped(line, i, k);
    if SortedBy(line, RatingOf) {
      DropSorted(line, i);
      DropSorted(Drop(line, i), k);
    }
  }

  lemma Regrouped<T>(all: multiset<T>, done: multiset<T>, left: multiset<T>, rest: multiset<T>, x: T, y: T)
    requires all == done + left && left == rest + multiset{x, y}
    ensures all == (done + multiset{x, y}) + rest
  {
  }

  lemma {:induction false} OnePairMore(pairs: seq<Pair>)
    requires pairs != []
    ensures var last := pairs[|pairs| - 1];
      multiset(Flat(pairs)) == multiset(Flat(pairs[..|pairs| - 1])) + multiset{last.p1, last.p2}
  {
  }

  /** The draws lose and invent nobody, and leave the line in rating order. */
  lemma {:induction false} DrawsConserve(line: seq<Player>, pairs: seq<Pair>, rest: seq<Player>, delta: nat)
    requires DrawsTo(line, pairs, rest, delta)
    ensures multiset(line) == multiset(Flat(pairs)) + multiset(rest)
    ensures SortedBy(line, RatingOf) ==> SortedBy(rest, RatingOf)
  {
    if pairs != [] {
      var front, last := pairs[..|pairs| - 1], pairs[|pairs| - 1];
      assert pairs == front + [last];
      var mid, i, j := LastDraw(line, front, last, rest, delta);
      DrawsConserve(line, front, mid, delta);
      RemainingCounts(mid, i, j);
      OnePairMore(pairs);
      Regrouped(multiset(line), multiset(Flat(front)), multiset(mid), multiset(rest), last.p1, last.p2);
    }
  }

  lemma {:induction false} DrawsNext(line: seq<Player>, pairs: seq<Pair>, mid: seq<Player>, delta: nat, pair: Pair,
                                     i: nat, j: nat)
    requires DrawsTo(line, pairs, mid, delta) && DrawnAt(mid, pair, i, j, delta)
    ensures DrawsTo(line, pairs + [pair], Remaining(mid, i, j), delta)
  {
    assert (pairs + [pair])[..|pairs + [pair]| - 1] == pairs;
  }

  // ------------------------------------------------ how close the draws are

  /** How many players have a rating strictly between two ratings. */
  function Between(players: seq<Player>, a: real, b: real): nat {
    if players == [] then 0
    else
      var r := players[|players| - 1].rating;
      Between(players[..|players| - 1], a, b) + if a < r < b || b < r < a then 1 else 0
  }

  /** Of those still to be drawn, at most one has a rating between those of a
      pair; two with more than eight players, three with more than sixteen. */
  ghost predicate NearPairs(pairs: seq<Pair>) {
    forall t | 0 <= t < |pairs| ::
      Between(Flat(pairs[t + 1..]), pairs[t].p1.rating, pairs[t].p2.rating) <=
        if 2 * |pairs| <= 8 then 1 else if 2 * |pairs| <= 16 then 2 else 3
  }

  lemma {:induction false} BetweenOfTwo(x: seq<Player>, y: seq<Player>, a: real, b: real)
    ensures Between(x + y, a, b) == Between(x, a, b) + Between(y, a, b)
  {
    if y == [] {
      assert x + y == x;
    } else {
      BetweenOfTwo(x, y[..|y| - 1], a, b);
      assert (x + y)[..|x + y| - 1] == x + y[..|y| - 1];
    }
  }

  lemma {:induction false} BetweenIsShort(x: seq<Player>, a: real, b: real)
    ensures Between(x, a, b) <= |x|
  {
    if x != [] {
      BetweenIsShort(x[..|x| - 1], a, b);
    }
  }

  lemma {:induction false} NobodyBetween(x: seq<Player>, a: real, b: real)
    requires
      || (forall p | p in x :: p.rating <= a && p.rating <= b)
      || (forall p | p in x :: a <= p.rating && b <= p.rating)
    ensures Between(x, a, b) == 0
  {
    if x != [] {
      NobodyBetween(x[..|x| - 1], a, b);
      assert x[|x| - 1] in x;
    }
  }

  lemma {:induction false} BetweenWithout(x: seq<Player>, i: nat, a: real, b: real)
    requires i < |x|
    ensures Between(x, a, b) == Between(Drop(x, i), a, b) + Between([x[i]], a, b)
  {
    assert x == x[..i] + [x[i]] + x[i + 1..];
    BetweenOfTwo(x[..i] + [x[i]], x[i + 1..], a, b);
    BetweenOfTwo(x[..i], [x[i]], a, b);
    BetweenOfTwo(x[..i], x[i + 1..], a, b);
  }

  lemma {:induction false} BetweenRearranged(x: seq<Player>, y: seq<Player>, a: real, b: real)
    requires multiset(x) == multiset(y)
    ensures Between(x, a, b) == Between(y, a, b)
  {
    if x == [] {
      assert |multiset(y)| == 0;
    } else {
      var j := FindLast(x, y);
      BetweenRearranged(x[..|x| - 1], Drop(y, j), a, b);
      BetweenWithout(y, j, a, b);
      BetweenWithout(x, |x| - 1, a, b);
      assert Drop(x, |x| - 1) == x[..|x| - 1];
    }
  }

  /** In the order of ratings, only the places between two hold ratings between
      theirs. */
  lemma {:induction false} BetweenTwoPlaces(line: seq<Player>, lo: nat, hi: nat)
    requires SortedBy(line, RatingOf) && lo < hi < |line|
    ensures Between(line, line[lo].rating, line[hi].rating) <= hi - lo - 1
    ensures Between(line, line[hi].rating, line[lo].rating) <= hi - lo - 1
  {
    var low, mid, high := line[..lo + 1], line[lo + 1..hi], line[hi..];
    assert line == low + mid + high;
    assert forall p | p in low :: RatingOf(p) <= RatingOf(line[lo]) && RatingOf(p) <= RatingOf(line[hi]);
    assert forall p | p in high :: RatingOf(line[lo]) <= RatingOf(p) && RatingOf(line[hi]) <= RatingOf(p);
    BetweenParts(low, mid, high, line[lo].rating, line[hi].rating);
    BetweenParts(low, mid, high, line[hi].rating, line[lo].rating);
  }

  lemma {:induction false} BetweenParts(low: seq<Player>, mid: seq<Player>, high: seq<Player>, a: real, b: real)
    requires forall p | p in low :: p.rating <= a && p.rating <= b
    requires forall p | p in high :: a <= p.rating && b <= p.rating
    ensures Between(low + mid + high, a, b) <= |mid|
  {
    BetweenOfTwo(low + mid, high, a, b);
    BetweenOfTwo(low, mid, a, b);
    NobodyBetween(low, a, b);
    NobodyBetween(high, a, b);
    BetweenIsShort(mid, a, b);
  }

  /** One draw: at most the window's size of those left lie between the two. */
  lemma DrawIsNear(mid: seq<Player>, pair: Pair, i: nat, j: nat, delta: nat)
    requires SortedBy(mid, RatingOf) && DrawnAt(mid, pair, i, j, delta)
    ensures Between(Remaining(mid, i, j), pair.p1.rating, pair.p2.rating) <= delta
  {
    var a, b := pair.p1.rating, pair.p2.rating;
    var k := if j < i then j else j - 1;
    BetweenTwoPlaces(mid, if i < j then i else j, if i < j then j else i);
    BetweenWithout(mid, i, a, b);
    BetweenWithout(Drop(mid, i), k, a, b);
  }

  lemma LastDraw(line: seq<Player>, front: seq<Pair>, last: Pair, rest: seq<Player>, delta: nat)
    returns (mid: seq<Player>, i: nat, j: nat)
    requires DrawsTo(line, front + [last], rest, delta)
    ensures DrawsTo(line, front, mid, delta) && DrawnAt(mid, last, i, j, delta) && rest == Remaining(mid, i, j)
  {
    var pairs := front + [last];
    assert pairs[..|pairs| - 1] == front;
    mid, i, j :|
      DrawsTo(line, front, mid, delta) && DrawnAt(mid, last, i, j, delta) && rest == Remaining(mid, i, j);
  }

  lemma {:induction false} DrawsSplit(line: seq<Player>, first: seq<Pair>, more: seq<Pair>, rest: seq<Player>,
                                      delta: nat)
    returns (mid: seq<Player>)
    requires DrawsTo(line, first + more, rest, delta)
    ensures DrawsTo(line, first, mid, delta) && DrawsTo(mid, more, rest, delta)
  {
    if more == [] {
      assert first + more == first;
      mid := rest;
    } else {
      var front, last := more[..|more| - 1], more[|more| - 1];
      assert first + more == (first + front) + [last] && more == front + [last];
      var before, i, j := LastDraw(line, first + front, last, rest, delta);
      mid := DrawsSplit(line, first, front, before, delta);
      DrawsNext(mid, front, before, delta, last, i, j);
    }
  }

  /** Few of those drawn later lie between the two of a pair. */
  lemma {:induction false} FewBetween(line: seq<Player>, first: seq<Pair>, pair: Pair, more: seq<Pair>, delta: nat)
    requires SortedBy(line, RatingOf) && DrawsTo(line, first + [pair] + more, [], delta)
    ensures Between(Flat(more), pair.p1.rating, pair.p2.rating) <= delta
  {
    var rest := DrawsSplit(line, first + [pair], more, [], delta);
    var mid, i, j := LastDraw(line, first, pair, rest, delta);
    DrawsConserve(line, first, mid, delta);
    DrawIsNear(mid, pair, i, j, delta);
    DrawsConserve(rest, more, [], delta);
    assert multiset(rest) == multiset(Flat(more));
    BetweenRearranged(rest, Flat(more), pair.p1.rating, pair.p2.rating);
  }

  lemma {:induction false} DrawsAreNear(line: seq<Player>, pairs: seq<Pair>, delta: nat, t: nat)
    requires SortedBy(line, RatingOf) && DrawsTo(line, pairs, [], delta) && t < |pairs|
    ensures Between(Flat(pairs[t + 1..]), pairs[t].p1.rating, pairs[t].p2.rating) <= delta
  {
    assert pairs == pairs[..t] + [pairs[t]] + pairs[t + 1..];
    FewBetween(line, pairs[..t], pairs[t], pairs[t + 1..], delta);
  }

  /** Emptying a line in the order of ratings makes near pairs. */
  lemma {:induction false} LinesMakeNearPairs(line: seq<Player>, pairs: seq<Pair>)
    requires SortedBy(line, RatingOf) && DrawsTo(line, pairs, [], MaxDelta(|line|))
    ensures NearPairs(pairs)
  {
    DrawsConserve(line, pairs, [], MaxDelta(|line|));
    assert |multiset(line)| == |multiset(Flat(pairs))|;
    FlatLength(pairs);
    forall t | 0 <= t < |pairs|
      ensures Between(Flat(pairs[t + 1..]), pairs[t].p1.rating, pairs[t].p2.rating) <= MaxDelta(|line|)
    {
      DrawsAreNear(line, pairs, MaxDelta(|line|), t);
    }
  }

  // ------------------------------------------------------------ the algorithm

  /** A second draw taken from the window around the first one, once the first
      player has left the line. */
  lemma DrawIsWindowed(mid: seq<Player>, i1: int, i2: int, delta: nat)
    requires 0 <= i1 < |mid| && |mid| >= 2 && delta >= 1
    requires Clamp(i1 - delta, 0, |mid| - 2) <= i2 <= Clamp(i1 + delta, 0, |mid| - 2)
    ensures 0 <= i2 < |mid| - 1
    ensures var j := if i2 < i1 then i2 else i2 + 1;
      && DrawnAt(mid, Pair(mid[i1], Drop(mid, i1)[i2]), i1, j, delta)
      && Drop(Drop(mid, i1), i2) == Remaining(mid, i1, j)
  {
  }

  method RemovePlayer(players: array<Player>, n: nat, i: nat) returns (m: nat)
    requires i < n <= players.Length
    modifies players
    ensures m == n - 1
    ensures players[..m] == Drop(old(players[..n]), i)
  {
    for k := i to n - 1
      invariant players[..k] == old(players[..i]) + old(players[i + 1..k + 1])
      invariant players[k + 1..] == old(players[k + 1..])
    {
      players[k] := players[k + 1];
    }
    m := n - 1;
  }

  /** One turn of the fallback loop: both random draws are legal, and take two
      neighbours out of the line. */
  method DrawPair(players: array<Player>, n: nat, maxDelta: nat) returns (p: Pair, m: nat, ghost i: nat, ghost j: nat)
    requires 2 <= n <= players.Length && maxDelta >= 1
    modifies players
    ensures m == n - 2
    ensures DrawnAt(old(players[..n]), p, i, j, maxDelta)
    ensures players[..m] == Remaining(old(players[..n]), i, j)
  {
    var i1: int := RandomIndex(n);
    var p1 := players[i1];
    m := RemovePlayer(players, n, i1);

    var minIndex := Clamp(i1 - maxDelta, 0, m - 1);
    var maxIndex := Clamp(i1 + maxDelta, 0, m - 1);
    var i2 := RandomInt(minIndex, maxIndex);
    DrawIsWindowed(old(players[..n]), i1, i2, maxDelta);
    assert players[i2] == players[..m][i2];
    p := Pair(p1, players[i2]);
    m := RemovePlayer(players, m, i2);
    i, j := i1, if i2 < i1 then i2 else i2 + 1;
  }

  /** Empties a line of even length. */
  method DrawAll(players: array<Player>, maxDelta: nat) returns (pairs: seq<Pair>)
    requires players.Length % 2 == 0 && maxDelta >= 1
    modifies players
    ensures DrawsTo(old(players[..]), pairs, [], maxDelta)
  {
    pairs := [];
    var n: nat := players.Length;
    ghost var line, left := players[..], n / 2;
    assert players[..n] == line;
    while n > 0
      invariant 0 <= n == 2 * left <= players.Length
      invariant DrawsTo(line, pairs, players[..n], maxDelta)
    {
      ghost var mid := players[..n];
      var p;
      ghost var i, j;
      p, n, i, j := DrawPair(players, n, maxDelta);
      DrawsNext(line, pairs, mid, maxDelta, p, i, j);
      pairs, left := pairs + [p], left - 1;
    }
    assert players[..0] == [];
  }

  /** Panics on an odd list of more than one player. */
  method OrderedRandomPairPlayers(players: array<Player>) returns (pairs: seq<Pair>, ghost line: seq<Player>)
    requires players.Length < 2 || players.Length % 2 == 0
    modifies players
    ensures players.Length < 2 ==> pairs == []
    ensures players.Length >= 2 ==>
              SortedBy(line, RatingOf) && multiset(line) == multiset(old(players[..]))
              && DrawsTo(line, pairs, [], MaxDelta(players.Length))
    ensures players.Length != 1 ==> multiset(Flat(pairs)) == multiset(old(players[..]))
    ensures NearPairs(pairs)
  {
    pairs, line := [], [];
    if players.Length < 2 {
      return;
    }
    Sort(players, RatingOf);
    line := players[..];
    var maxDelta := MaxDelta(players.Length);
    pairs := DrawAll(players, maxDelta);
    DrawsConserve(line, pairs, [], maxDelta);
    LinesMakeNearPairs(line, pairs);
  }
}
