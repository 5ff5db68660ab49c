/** The first phase of pairing: a greedy matching over the overlaps of the
    players' skill ranges, fewest options first. */
module RangedPairing {
  import opened Sequences
  import opened Sorting
  import opened Pairing

  datatype RangeEntry = RangeEntry(playerIndex: nat, dist: int)
  datatype PlayerRange = PlayerRange(playerIndex: nat, entries: seq<RangeEntry>)

  /** The conversion of a rating to an integer drops the fraction. */
  function Truncate(r: real): int {
    if r >= 0.0 then r.Floor else -((-r).Floor)
  }

  function RangeLow(p: Player): int {
    Truncate(p.rating - 2.0 * p.deviation)
  }

  function RangeHigh(p: Player): int {
    Truncate(p.rating + 2.0 * p.deviation)
  }

  predicate Overlap(p: Player, q: Player) {
    !(RangeHigh(p) < RangeLow(q) || RangeLow(p) > RangeHigh(q))
  }

  function Distance(p: Player, q: Player): int {
    var dist := p.rating - q.rating;
    Truncate(if dist < 0.0 then -dist else dist)
  }

  function RatingGap(a: real, b: real): real {
    if a < b then b - a else a - b
  }

  lemma TruncateGrows(a: real, b: real)
    requires a <= b
    ensures Truncate(a) <= Truncate(b)
    ensures b - a >= 2.0 ==> Truncate(a) < Truncate(b)
  {
    assert (a <= b ==> a.Floor <= b.Floor) && ((-b) <= (-a) ==> (-b).Floor <= (-a).Floor);
  }

  /** Two players overlap when the skill ranges of twice their deviation around
      their ratings meet, and do not when the ranges are two points apart. */
  lemma OverlapMeans(p: Player, q: Player)
    requires p.deviation >= 0.0 && q.deviation >= 0.0
    ensures var gap := RatingGap(p.rating, q.rating) - 2.0 * (p.deviation + q.deviation);
      (gap <= 0.0 ==> Overlap(p, q)) && (gap >= 2.0 ==> !Overlap(p, q))
  {
    var lowP, highP := p.rating - 2.0 * p.deviation, p.rating + 2.0 * p.deviation;
    var lowQ, highQ := q.rating - 2.0 * q.deviation, q.rating + 2.0 * q.deviation;
    if highP < lowQ {
      TruncateGrows(highP, lowQ);
    } else {
      TruncateGrows(lowQ, highP);
    }
    if highQ < lowP {
      TruncateGrows(highQ, lowP);
    } else {
      TruncateGrows(lowP, highQ);
    }
  }

  // ------------------------------------------------------------------ ranges

  /** `e` is an acceptable opponent of player `i`. */
  predicate Acceptable(players: seq<Player>, i: nat, e: RangeEntry) {
    && i < |players| && e.playerIndex < |players| && e.playerIndex != i
    && Overlap(players[i], players[e.playerIndex])
    && e.dist == Distance(players[i], players[e.playerIndex])
  }

  ghost predicate Offers(r: PlayerRange, j: nat) {
    exists e | e in r.entries :: e.playerIndex == j
  }

  /** The entries are all the acceptable opponents below `n`, closest first. A
      player without any keeps the default index. */
  ghost predicate IsRangeOf(players: seq<Player>, i: nat, r: PlayerRange, n: nat)
    requires i < |players| && n <= |players|
  {
    && r.playerIndex == (if r.entries == [] then 0 else i)
    && (forall e | e in r.entries :: Acceptable(players, i, e))
    && (forall j | 0 <= j < n && j != i && Overlap(players[i], players[j]) :: Offers(r, j))
    && (forall a, b | 0 <= a < b < |r.entries| :: r.entries[a].playerIndex != r.entries[b].playerIndex)
  }

  function DistOf(e: RangeEntry): real {
    e.dist as real
  }

  function OptionsOf(r: PlayerRange): real {
    |r.entries| as real
  }

  method RangeOf(players: seq<Player>, i: nat) returns (r: PlayerRange)
    requires i < |players|
    ensures IsRangeOf(players, i, r, |players|)
    ensures SortedBy(r.entries, DistOf)
  {
    r := PlayerRange(0, []);
    for j := 0 to |players|
      invariant IsRangeOf(players, i, r, j)
      invariant forall e | e in r.entries :: e.playerIndex < j
    {
      if i != j && Overlap(players[i], players[j]) {
        ghost var before := r;
        var e := RangeEntry(j, Distance(players[i], players[j]));
        r := PlayerRange(i, r.entries + [e]);
        assert e in r.entries;
        assert forall x | x in before.entries :: x in r.entries;
      }
    }
    var entries := SortSeq(r.entries, DistOf);
    SortKeepsIndices(r.entries, entries);
    r := r.(entries := entries);
  }

  lemma SortKeepsIndices(a: seq<RangeEntry>, b: seq<RangeEntry>)
    requires multiset(a) == multiset(b)
    requires forall i, j | 0 <= i < j < |a| :: a[i].playerIndex != a[j].playerIndex
    ensures forall i, j | 0 <= i < j < |b| :: b[i].playerIndex != b[j].playerIndex
  {
    forall i, j | 0 <= i < j < |b| ensures b[i].playerIndex != b[j].playerIndex {
      assert b[i] in multiset(a) && b[j] in multiset(a);
      var p, q :| 0 <= p < |a| && a[p] == b[i] && 0 <= q < |a| && a[q] == b[j];
      if p == q {
        assert b == b[..i] + [b[i]] + b[i + 1..j] + [b[j]] + b[j + 1..];
        assert multiset(b)[b[i]] >= 2;
        OneOccurrence(a, p);
      }
    }
  }

  lemma OneOccurrence(a: seq<RangeEntry>, p: nat)
    requires p < |a|
    requires forall i, j | 0 <= i < j < |a| :: a[i].playerIndex != a[j].playerIndex
    ensures multiset(a)[a[p]] == 1
  {
    assert a == a[..p] + [a[p]] + a[p + 1..];
    assert a[p] !in a[..p] && a[p] !in a[p + 1..];
  }

  /** The ranges of all players, one each, in their order. */
  ghost predicate OneRangeEach(players: seq<Player>, ranges: seq<PlayerRange>) {
    && |ranges| == |players|
    && forall i | 0 <= i < |players| ::
         IsRangeOf(players, i, ranges[i], |players|) && SortedBy(ranges[i].entries, DistOf)
  }

  /** Whatever the library sort does with ties: those ranges, by their number of
      options. */
  ghost predicate AreRanges(players: seq<Player>, ranges: seq<PlayerRange>) {
    && SortedBy(ranges, OptionsOf)
    && exists unsorted :: OneRangeEach(players, unsorted) && multiset(ranges) == multiset(unsorted)
  }

  ghost predicate Listed(players: seq<Player>, i: nat, ranges: seq<PlayerRange>)
    requires i < |players|
  {
    exists r | r in ranges :: IsRangeOf(players, i, r, |players|)
  }

  /** Everybody's own range is among them, and each that offers somebody is the
      range of its player. */
  lemma RangesAre(players: seq<Player>, ranges: seq<PlayerRange>)
    requires AreRanges(players, ranges)
    ensures |ranges| == |players|
    ensures forall i | 0 <= i < |players| :: Listed(players, i, ranges)
    ensures forall r | r in ranges && r.entries != [] ::
              r.playerIndex < |players| && IsRangeOf(players, r.playerIndex, r, |players|)
  {
    var unsorted :| OneRangeEach(players, unsorted) && multiset(ranges) == multiset(unsorted);
    assert |multiset(ranges)| == |multiset(unsorted)|;
    forall i | 0 <= i < |players| ensures Listed(players, i, ranges) {
      assert unsorted[i] in multiset(ranges);
    }
    forall r | r in ranges && r.entries != []
      ensures r.playerIndex < |players| && IsRangeOf(players, r.playerIndex, r, |players|)
    {
      assert r in multiset(unsorted);
      var i :| 0 <= i < |unsorted| && unsorted[i] == r;
    }
  }

  /** Those with fewest options come first, and to each the opponents closest in
      rating do, to the point. */
  lemma FewestAndClosest(players: seq<Player>, ranges: seq<PlayerRange>, m: nat, n: nat, a: nat, b: nat)
    requires AreRanges(players, ranges) && m < n < |ranges|
    ensures |ranges[m].entries| <= |ranges[n].entries|
    ensures var r := ranges[m]; a < b < |r.entries| ==>
      && r.playerIndex < |players|
      && r.entries[a].playerIndex < |players| && r.entries[b].playerIndex < |players|
      && var mine, x, y := players[r.playerIndex], players[r.entries[a].playerIndex], players[r.entries[b].playerIndex];
         RatingGap(mine.rating, x.rating) < RatingGap(mine.rating, y.rating) + 1.0
  {
    assert OptionsOf(ranges[m]) <= OptionsOf(ranges[n]);
    if a < b < |ranges[m].entries| {
      var unsorted :| OneRangeEach(players, unsorted) && multiset(ranges) == multiset(unsorted);
      assert ranges[m] in multiset(ranges) && ranges[m] in multiset(unsorted);
      var i :| 0 <= i < |unsorted| && unsorted[i] == ranges[m];
      CloserFirst(players, i, ranges[m], a, b);
    }
  }

  lemma CloserFirst(players: seq<Player>, i: nat, r: PlayerRange, a: nat, b: nat)
    requires i < |players| && IsRangeOf(players, i, r, |players|) && SortedBy(r.entries, DistOf)
    requires a < b < |r.entries|
    ensures r.playerIndex == i
    ensures r.entries[a].playerIndex < |players| && r.entries[b].playerIndex < |players|
    ensures RatingGap(players[i].rating, players[r.entries[a].playerIndex].rating)
            < RatingGap(players[i].rating, players[r.entries[b].playerIndex].rating) + 1.0
  {
    assert Acceptable(players, i, r.entries[a]) && Acceptable(players, i, r.entries[b]);
    assert DistOf(r.entries[a]) <= DistOf(r.entries[b]);
  }

  method GetOverlappingRanges(players: seq<Player>) returns (ret: seq<PlayerRange>)
    ensures AreRanges(players, ret)
  {
    ret := [];
    for i := 0 to |players|
      invariant |ret| == i
      invariant forall k | 0 <= k < i ::
                  IsRangeOf(players, k, ret[k], |players|) && SortedBy(ret[k].entries, DistOf)
    {
      var r := RangeOf(players, i);
      ret := ret + [r];
    }
    assert OneRangeEach(players, ret);
    ret := SortSeq(ret, OptionsOf);
  }

  // --------------------------------------------------------------- matchings

  type Edge = (nat, nat)

  function Ends(es: seq<Edge>): seq<nat> {
    if es == [] then [] else Ends(es[..|es| - 1]) + [es[|es| - 1].0, es[|es| - 1].1]
  }

  function Elements(s: seq<nat>): set<nat> {
    set k | k in s
  }

  function EndSet(es: seq<Edge>): set<nat> {
    Elements(Ends(es))
  }

  /** Disjoint pairs of overlapping players. */
  ghost predicate Matching(players: seq<Player>, es: seq<Edge>) {
    && Distinct(Ends(es))
    && forall e | e in es :: e.0 < |players| && e.1 < |players| && Overlap(players[e.0], players[e.1])
  }

  /** No two players left over overlap. */
  ghost predicate Maximal(players: seq<Player>, es: seq<Edge>) {
    forall i, j | 0 <= i < |players| && 0 <= j < |players| && i != j && i !in Ends(es) && j !in Ends(es) ::
      !Overlap(players[i], players[j])
  }

  function PairsOf(players: seq<Player>, es: seq<Edge>): seq<Pair>
    requires forall e | e in es :: e.0 < |players| && e.1 < |players|
  {
    seq(|es|, i requires 0 <= i < |es| => Pair(players[es[i].0], players[es[i].1]))
  }

  lemma {:induction false} EndsLength(es: seq<Edge>)
    ensures |Ends(es)| == 2 * |es|
  {
    if es != [] {
      EndsLength(es[..|es| - 1]);
    }
  }

  lemma {:induction false} EndsNext(es: seq<Edge>, e: Edge)
    ensures Ends(es + [e]) == Ends(es) + [e.0, e.1]
    ensures EndSet(es + [e]) == EndSet(es) + {e.0, e.1}
  {
    assert (es + [e])[..|es + [e]| - 1] == es;
  }

  lemma {:induction false} CountDistinct(s: seq<nat>)
    requires Distinct(s)
    ensures |Elements(s)| == |s|
  {
    if s != [] {
      var front, last := s[..|s| - 1], s[|s| - 1];
      DistinctParts(s, front, [last]);
      CountDistinct(front);
      assert Elements(s) == Elements(front) + {last};
    }
  }

  /** Edges that each touch a set, without sharing an end, are no more than its
      elements. */
  lemma {:induction false} AtMostOneEach(es: seq<Edge>, touched: set<nat>)
    requires Distinct(Ends(es))
    requires forall e | e in es :: e.0 in touched || e.1 in touched
    ensures |es| <= |touched|
  {
    if es != [] {
      var front, last := es[..|es| - 1], es[|es| - 1];
      DistinctParts(Ends(es), Ends(front), [last.0, last.1]);
      var k := if last.0 in touched then last.0 else last.1;
      assert k in [last.0, last.1];
      forall e | e in front ensures e.0 in touched - {k} || e.1 in touched - {k} {
        EdgeInEnds(front, e);
      }
      AtMostOneEach(front, touched - {k});
    }
  }

  lemma {:induction false} EdgeInEnds(es: seq<Edge>, e: Edge)
    requires e in es
    ensures e.0 in Ends(es) && e.1 in Ends(es)
  {
    if e != es[|es| - 1] {
      EdgeInEnds(es[..|es| - 1], e);
    }
  }

  /** A maximal matching has at least half as many pairs as any other one. */
  lemma HalfOfAnyMatching(players: seq<Player>, es: seq<Edge>, best: seq<Edge>)
    requires Matching(players, es) && Maximal(players, es) && Matching(players, best)
    ensures |best| <= 2 * |es|
  {
    forall e | e in best ensures e.0 in EndSet(es) || e.1 in EndSet(es) {
      EdgeIsProper(best, e);
    }
    AtMostOneEach(best, EndSet(es));
    CountDistinct(Ends(es));
    EndsLength(es);
  }

  lemma {:induction false} EdgeIsProper(es: seq<Edge>, e: Edge)
    requires Distinct(Ends(es)) && e in es
    ensures e.0 != e.1
  {
    var front, last := es[..|es| - 1], es[|es| - 1];
    DistinctParts(Ends(es), Ends(front), [last.0, last.1]);
    if e == last {
      assert [last.0, last.1][0] != [last.0, last.1][1];
    } else {
      EdgeIsProper(front, e);
    }
  }

  // --------------------------------------------------------------- leftovers

  /** The players at the indices below `n` that are not matched. */
  function Left(players: seq<Player>, matched: set<nat>, n: nat): seq<Player>
    requires n <= |players|
  {
    if n == 0 then []
    else if n - 1 in matched then Left(players, matched, n - 1)
    else Left(players, matched, n - 1) + [players[n - 1]]
  }

  lemma {:induction false} NobodyMatched(players: seq<Player>, n: nat)
    requires n <= |players|
    ensures Left(players, {}, n) == players[..n]
  {
    if n > 0 {
      NobodyMatched(players, n - 1);
    }
  }

  lemma LeftCounts(players: seq<Player>, matched: set<nat>, n: nat)
    requires 0 < n <= |players|
    ensures multiset(Left(players, matched, n)) ==
            multiset(Left(players, matched, n - 1))
            + (if n - 1 in matched then multiset{} else multiset{players[n - 1]})
  {
  }

  lemma {:induction false} LeftBelow(players: seq<Player>, matched: set<nat>, k: nat, n: nat)
    requires n <= |players| && n <= k
    ensures Left(players, matched + {k}, n) == Left(players, matched, n)
  {
    if n > 0 {
      LeftBelow(players, matched, k, n - 1);
    }
  }

  lemma AddToBoth<T>(a: multiset<T>, b: multiset<T>, x: multiset<T>, p: multiset<T>)
    requires a == b + x
    ensures a + p == (b + p) + x
  {
  }

  lemma {:induction false} MatchOneMore(players: seq<Player>, matched: set<nat>, k: nat, n: nat)
    requires k < n <= |players| && k !in matched
    ensures multiset(Left(players, matched, n)) == multiset(Left(players, matched + {k}, n)) + multiset{players[k]}
  {
    if n - 1 == k {
      MatchLast(players, matched, k);
    } else {
      MatchOneMore(players, matched, k, n - 1);
      MatchBelow(players, matched, k, n);
    }
  }

  lemma {:induction false} MatchLast(players: seq<Player>, matched: set<nat>, k: nat)
    requires k < |players| && k !in matched
    ensures multiset(Left(players, matched, k + 1)) ==
            multiset(Left(players, matched + {k}, k + 1)) + multiset{players[k]}
  {
    LeftBelow(players, matched, k, k);
    assert Left(players, matched, k + 1) == Left(players, matched, k) + [players[k]];
  }

  lemma MatchBelow(players: seq<Player>, matched: set<nat>, k: nat, n: nat)
    requires k < n - 1 < |players| && k !in matched
    requires multiset(Left(players, matched, n - 1)) ==
             multiset(Left(players, matched + {k}, n - 1)) + multiset{players[k]}
    ensures multiset(Left(players, matched, n)) == multiset(Left(players, matched + {k}, n)) + multiset{players[k]}
  {
    LeftCounts(players, matched, n);
    LeftCounts(players, matched + {k}, n);
    assert n - 1 in matched + {k} <==> n - 1 in matched;
    AddToBoth(multiset(Left(players, matched, n - 1)), multiset(Left(players, matched + {k}, n - 1)),
              multiset{players[k]}, if n - 1 in matched then multiset{} else multiset{players[n - 1]});
  }

  // ----------------------------------------------------------------- pairing

  /** What the greedy loop has settled after some ranges: the player of each
      one is matched, or everybody it offers is. */
  ghost predicate Settled(ranges: seq<PlayerRange>, n: nat, matched: set<nat>)
    requires n <= |ranges|
  {
    forall k, j | 0 <= k < n && Offers(ranges[k], j) :: ranges[k].playerIndex in matched || j in matched
  }

  lemma SettledIsMaximal(players: seq<Player>, ranges: seq<PlayerRange>, es: seq<Edge>)
    requires AreRanges(players, ranges) && Settled(ranges, |ranges|, EndSet(es))
    ensures Maximal(players, es)
  {
    RangesAre(players, ranges);
    forall i, j | 0 <= i < |players| && 0 <= j < |players| && i != j && Overlap(players[i], players[j])
      ensures i in Ends(es) || j in Ends(es)
    {
      assert Listed(players, i, ranges);
      var r :| r in ranges && IsRangeOf(players, i, r, |players|);
      var k :| 0 <= k < |ranges| && ranges[k] == r;
      assert Offers(ranges[k], j);
    }
  }

  method AvailableOf(r: PlayerRange, matched: set<nat>) returns (available: seq<RangeEntry>)
    ensures forall e | e in available :: e in r.entries && e.playerIndex !in matched
    ensures available == [] ==> forall e | e in r.entries :: e.playerIndex in matched
  {
    available := [];
    for i := 0 to |r.entries|
      invariant forall e | e in available :: e in r.entries && e.playerIndex !in matched
      invariant available == [] ==> forall k | 0 <= k < i :: r.entries[k].playerIndex in matched
    {
      if r.entries[i].playerIndex !in matched {
        available := available + [r.entries[i]];
        assert r.entries[i] in available;
      }
    }
  }

  /** The state of the greedy loop. */
  ghost predicate Greedy(players: seq<Player>, es: seq<Edge>, pairs: seq<Pair>, matched: set<nat>) {
    && Matching(players, es)
    && matched == EndSet(es)
    && pairs == PairsOf(players, es)
    && multiset(players) == multiset(Flat(pairs)) + multiset(Left(players, matched, |players|))
  }

  lemma GreedyStart(players: seq<Player>)
    ensures Greedy(players, [], [], {})
  {
    NobodyMatched(players, |players|);
    assert players[..|players|] == players;
  }

  lemma {:induction false} MatchingNext(players: seq<Player>, es: seq<Edge>, i: nat, j: nat)
    requires Matching(players, es)
    requires i < |players| && j < |players| && i != j && Overlap(players[i], players[j])
    requires i !in Ends(es) && j !in Ends(es)
    ensures Matching(players, es + [(i, j)])
    ensures PairsOf(players, es + [(i, j)]) == PairsOf(players, es) + [Pair(players[i], players[j])]
  {
    EndsNext(es, (i, j));
    assert Distinct(Ends(es) + [i, j]);
  }

  lemma {:induction false} FlatNext(pairs: seq<Pair>, p: Pair)
    ensures multiset(Flat(pairs + [p])) == multiset(Flat(pairs)) + multiset{p.p1, p.p2}
  {
    assert (pairs + [p])[..|pairs + [p]| - 1] == pairs;
    assert multiset(Flat(pairs) + [p.p1, p.p2]) == multiset(Flat(pairs)) + multiset([p.p1, p.p2]);
  }

  lemma GreedyNext(players: seq<Player>, es: seq<Edge>, pairs: seq<Pair>, matched: set<nat>, i: nat, j: nat)
    requires Greedy(players, es, pairs, matched)
    requires i < |players| && j < |players| && i != j && Overlap(players[i], players[j])
    requires i !in matched && j !in matched
    ensures Greedy(players, es + [(i, j)], pairs + [Pair(players[i], players[j])], matched + {i} + {j})
  {
    MatchingNext(players, es, i, j);
    EndsNext(es, (i, j));
    BagNext(players, pairs, matched, i, j);
  }

  lemma {:induction false} BagNext(players: seq<Player>, pairs: seq<Pair>, matched: set<nat>, i: nat, j: nat)
    requires multiset(players) == multiset(Flat(pairs)) + multiset(Left(players, matched, |players|))
    requires i < |players| && j < |players| && i != j && i !in matched && j !in matched
    ensures multiset(players) == multiset(Flat(pairs + [Pair(players[i], players[j])]))
                                 + multiset(Left(players, matched + {i} + {j}, |players|))
  {
    var p, n := Pair(players[i], players[j]), |players|;
    FlatNext(pairs, p);
    MatchOneMore(players, matched, i, n);
    MatchOneMore(players, matched + {i}, j, n);
    Moved(multiset(players), multiset(Flat(pairs)), multiset(Left(players, matched, n)),
          multiset(Left(players, matched + {i}, n)), multiset(Left(players, matched + {i} + {j}, n)), p.p1, p.p2);
  }

  lemma Moved<T>(all: multiset<T>, done: multiset<T>, left0: multiset<T>, left1: multiset<T>, left2: multiset<T>,
                 x: T, y: T)
    requires all == done + left0 && left0 == left1 + multiset{x} && left1 == left2 + multiset{y}
    ensures all == (done + multiset{x, y}) + left2
  {
  }

  lemma SettledNext(ranges: seq<PlayerRange>, n: nat, matched: set<nat>, more: set<nat>)
    requires n < |ranges| && Settled(ranges, n, matched) && matched <= more
    requires ranges[n].playerIndex in more || forall e | e in ranges[n].entries :: e.playerIndex in more
    ensures Settled(ranges, n + 1, more)
  {
  }

  lemma OfferFits(players: seq<Player>, ranges: seq<PlayerRange>, n: nat, e: RangeEntry)
    requires AreRanges(players, ranges) && n < |ranges| && e in ranges[n].entries
    ensures Acceptable(players, ranges[n].playerIndex, e)
  {
    RangesAre(players, ranges);
    assert ranges[n] in ranges;
  }

  // ------------------------------------------------------ what the loop forms

  /** `edge` pairs the player of a range with an opponent it offers, both free. */
  ghost predicate Takes(r: PlayerRange, matched: set<nat>, edge: Edge) {
    edge.0 == r.playerIndex && edge.0 !in matched && edge.1 !in matched && Offers(r, edge.1)
  }

  ghost predicate Passes(r: PlayerRange, matched: set<nat>) {
    r.playerIndex in matched || forall e | e in r.entries :: e.playerIndex in matched
  }

  /** The first `n` turns of the greedy loop can form the edges `es`. */
  ghost predicate Forms(ranges: seq<PlayerRange>, n: nat, es: seq<Edge>)
    requires n <= |ranges|
    decreases n
  {
    if n == 0 then es == []
    else
      || (Forms(ranges, n - 1, es) && Passes(ranges[n - 1], EndSet(es)))
      || (es != [] && Forms(ranges, n - 1, es[..|es| - 1])
          && Takes(ranges[n - 1], EndSet(es[..|es| - 1]), es[|es| - 1]))
  }

  /** Some order of the ranges and some picks form the edges `es`. */
  ghost predicate FormsGreedily(players: seq<Player>, es: seq<Edge>) {
    exists ranges :: AreRanges(players, ranges) && Forms(ranges, |ranges|, es)
  }

  lemma FormsNext(ranges: seq<PlayerRange>, n: nat, es: seq<Edge>, e: Edge)
    requires n < |ranges| && Forms(ranges, n, es) && Takes(ranges[n], EndSet(es), e)
    ensures Forms(ranges, n + 1, es + [e])
  {
    assert (es + [e])[..|es + [e]| - 1] == es;
  }

  lemma TakenSettles(players: seq<Player>, ranges: seq<PlayerRange>, n: nat, front: seq<Edge>, e: Edge)
    requires AreRanges(players, ranges) && n < |ranges| && Takes(ranges[n], EndSet(front), e)
    requires Matching(players, front) && Settled(ranges, n, EndSet(front))
    ensures Matching(players, front + [e]) && Settled(ranges, n + 1, EndSet(front + [e]))
  {
    EndsNext(front, e);
    var x :| x in ranges[n].entries && x.playerIndex == e.1;
    OfferFits(players, ranges, n, x);
    MatchingNext(players, front, e.0, e.1);
    SettledNext(ranges, n, EndSet(front), EndSet(front + [e]));
  }

  lemma {:induction false} FormedSettles(players: seq<Player>, ranges: seq<PlayerRange>, n: nat, es: seq<Edge>)
    requires AreRanges(players, ranges) && n <= |ranges| && Forms(ranges, n, es)
    ensures Matching(players, es) && Settled(ranges, n, EndSet(es))
    decreases n
  {
    if n > 0 {
      if Forms(ranges, n - 1, es) && Passes(ranges[n - 1], EndSet(es)) {
        FormedSettles(players, ranges, n - 1, es);
        SettledNext(ranges, n - 1, EndSet(es), EndSet(es));
      } else {
        var front, e := es[..|es| - 1], es[|es| - 1];
        FormedSettles(players, ranges, n - 1, front);
        assert es == front + [e];
        TakenSettles(players, ranges, n - 1, front, e);
      }
    }
  }

  /** Whatever the order and the picks, what the loop can form is a maximal
      matching. */
  lemma FormedIsMaximal(players: seq<Player>, es: seq<Edge>)
    requires FormsGreedily(players, es)
    ensures Matching(players, es) && Maximal(players, es)
  {
    var ranges: seq<PlayerRange> :| AreRanges(players, ranges) && Forms(ranges, |ranges|, es);
    FormedSettles(players, ranges, |ranges|, es);
    SettledIsMaximal(players, ranges, es);
  }

  /** The first phase: range after range, a player who is not matched yet gets
      one of the opponents that are not matched either. */
  method PairByRange(players: seq<Player>) returns (pairs: seq<Pair>, matched: set<nat>, ghost es: seq<Edge>)
    ensures Greedy(players, es, pairs, matched)
    ensures Maximal(players, es)
    ensures FormsGreedily(players, es)
  {
    var ranges := GetOverlappingRanges(players);
    pairs, matched, es := [], {}, [];
    GreedyStart(players);

    for rangeID := 0 to |ranges|
      invariant Greedy(players, es, pairs, matched)
      invariant Forms(ranges, rangeID, es)
    {
      var playerIndex := ranges[rangeID].playerIndex;
      if playerIndex !in matched {
        var available := AvailableOf(ranges[rangeID], matched);
        if available != [] {
          var pick := RandomLowIndex(|available|);
          var opponent := available[pick].playerIndex;
          OfferFits(players, ranges, rangeID, available[pick]);
          GreedyNext(players, es, pairs, matched, playerIndex, opponent);
          FormsNext(ranges, rangeID, es, (playerIndex, opponent));
          pairs := pairs + [Pair(players[playerIndex], players[opponent])];
          es := es + [(playerIndex, opponent)];
          matched := matched + {playerIndex} + {opponent};
        }
      }
    }
    FormedIsMaximal(players, es);
  }

  /** The pairs of the second phase: a line of those left over, in rating
      order, emptied by draws within the window of their number. */
  ghost predicate DrawnFrom(left: seq<Player>, drawn: seq<Pair>) {
    if left == [] then drawn == []
    else exists line ::
      SortedBy(line, RatingOf) && multiset(line) == multiset(left) && DrawsTo(line, drawn, [], MaxDelta(|left|))
  }

  method PairLeftovers(unmatched: seq<Player>) returns (drawn: seq<Pair>)
    requires |unmatched| % 2 == 0
    ensures DrawnFrom(unmatched, drawn)
    ensures multiset(Flat(drawn)) == multiset(unmatched)
    ensures NearPairs(drawn)
  {
    drawn := [];
    if |unmatched| > 0 {
      var rest := new Player[|unmatched|](i requires 0 <= i < |unmatched| => unmatched[i]);
      assert rest[..] == unmatched;
      ghost var line;
      drawn, line := OrderedRandomPairPlayers(rest);
    }
  }

  lemma {:induction false} GreedyCounts(players: seq<Player>, es: seq<Edge>, pairs: seq<Pair>, matched: set<nat>)
    requires Greedy(players, es, pairs, matched)
    ensures |es| == |pairs|
    ensures |players| % 2 == 0 ==> |Left(players, matched, |players|)| % 2 == 0
  {
    var left := |Left(players, matched, |players|)|;
    assert |players| == 2 * |pairs| + left by {
      CountParts(players, Flat(pairs), Left(players, matched, |players|));
      FlatLength(pairs);
    }
  }

  lemma CountParts<T>(all: seq<T>, a: seq<T>, b: seq<T>)
    requires multiset(all) == multiset(a) + multiset(b)
    ensures |all| == |a| + |b|
  {
    assert |multiset(all)| == |multiset(a)| + |multiset(b)|;
  }

  lemma {:induction false} AllPaired(players: seq<Player>, first: seq<Pair>, drawn: seq<Pair>, left: seq<Player>)
    requires multiset(players) == multiset(Flat(first)) + multiset(left)
    requires multiset(Flat(drawn)) == multiset(left)
    ensures multiset(Flat(first + drawn)) == multiset(players)
    ensures |players| == 2 * |first + drawn|
  {
    FlatOfTwo(first, drawn);
    FlatLength(first + drawn);
    assert |multiset(Flat(first + drawn))| == |multiset(players)|;
  }

  method UnmatchedPlayers(players: seq<Player>, matched: set<nat>) returns (unmatched: seq<Player>)
    ensures unmatched == Left(players, matched, |players|)
  {
    unmatched := [];
    for playerIndex := 0 to |players|
      invariant unmatched == Left(players, matched, playerIndex)
    {
      if playerIndex !in matched {
        unmatched := unmatched + [players[playerIndex]];
      }
    }
  }

  /** Players paired by skill. */
  ghost predicate PairedBySkill(players: seq<Player>, pairs: seq<Pair>, es: seq<Edge>) {
    // Everybody plays exactly once.
    && multiset(Flat(pairs)) == multiset(players)
    && |pairs| == |players| / 2
    // The first phase is a maximal matching of the overlaps.
    && Matching(players, es) && Maximal(players, es) && FormsGreedily(players, es)
    && PairsOf(players, es) <= pairs
    // The rest are drawn from a line of those left over, in rating order.
    && DrawnFrom(Left(players, EndSet(es), |players|), pairs[|es|..])
    && NearPairs(pairs[|es|..])
  }

  /** Panics on an odd list of more than one player. The pairs of the range
      phase come first; `es` are their indices. */
  method RangedPairPlayers(players: seq<Player>) returns (pairs: seq<Pair>, ghost es: seq<Edge>)
    requires |players| < 2 || |players| % 2 == 0
    ensures |players| < 2 ==> pairs == []
    ensures |players| >= 2 ==> PairedBySkill(players, pairs, es)
  {
    pairs, es := [], [];
    if |players| < 2 {
      return;
    }
    var first, matched;
    first, matched, es := PairByRange(players);
    var unmatched := UnmatchedPlayers(players, matched);
    GreedyCounts(players, es, first, matched);
    var drawn := PairLeftovers(unmatched);
    pairs := first + drawn;
    AllPaired(players, first, drawn, unmatched);
    assert pairs[|es|..] == drawn;
  }

  /** With distinct players, nobody meets themselves and nobody plays twice. */
  lemma {:induction false} NobodyTwice(players: seq<Player>, pairs: seq<Pair>, i: nat, j: nat)
    requires Distinct(players) && multiset(Flat(pairs)) == multiset(players)
    requires i < |pairs| && j < |pairs|
    ensures pairs[i].p1 != pairs[i].p2
    ensures i != j ==> pairs[i].p1 != pairs[j].p1 && pairs[i].p1 != pairs[j].p2 && pairs[i].p2 != pairs[j].p2
  {
    DistinctRearranged(players, Flat(pairs));
    FlatAt(pairs, i);
    FlatAt(pairs, j);
  }

  lemma {:induction false} FlatAt(pairs: seq<Pair>, i: nat)
    requires i < |pairs|
    ensures |Flat(pairs)| == 2 * |pairs|
    ensures Flat(pairs)[2 * i] == pairs[i].p1 && Flat(pairs)[2 * i + 1] == pairs[i].p2
  {
    FlatLength(pairs[..|pairs| - 1]);
    if i < |pairs| - 1 {
      FlatAt(pairs[..|pairs| - 1], i);
    }
  }
}
