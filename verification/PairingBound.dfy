/** How good the range phase is: half of the best matching can be what its loop
    really forms. */
module PairingBound {
  import opened Sorting
  import opened Pairing
  import opened RangedPairing

  /** A player whose skill range is from `low` to `high`. */
  function Spanning(id: nat, low: int, high: int): Player {
    Player(id, (low + high) as real / 2.0, (high - low) as real / 4.0)
  }

  function Truncated(k: int): (r: int)
    ensures r == Truncate(k as real) == k
  {
    k
  }

  lemma SpanningRange(id: nat, low: int, high: int)
    ensures RangeLow(Spanning(id, low, high)) == low && RangeHigh(Spanning(id, low, high)) == high
  {
    var p := Spanning(id, low, high);
    assert p.rating - 2.0 * p.deviation == Truncated(low) as real;
    assert p.rating + 2.0 * p.deviation == Truncated(high) as real;
  }

  /** The ends of the ranges. Two short ones at either side overlap, each, one
      outer and one wide range; the wide ranges overlap all but the far ends. */
  function Span(i: nat): (int, int)
    requires i < 8
  {
    match i
    case 0 => (4, 8)
    case 1 => (82, 84)
    case 2 => (0, 20)
    case 3 => (5, 75)
    case 4 => (15, 85)
    case 5 => (30, 40)
    case 6 => (50, 60)
    case 7 => (70, 90)
  }

  function Eight(): (players: seq<Player>)
    ensures |players| == 8 && forall i | 0 <= i < 8 :: players[i] == Spanning(i, Span(i).0, Span(i).1)
  {
    seq(8, i requires 0 <= i < 8 => Spanning(i, Span(i).0, Span(i).1))
  }

  predicate Meet(i: nat, j: nat)
    requires i < 8 && j < 8
  {
    Span(i).0 <= Span(j).1 && Span(j).0 <= Span(i).1
  }

  lemma MeetIsOverlap(i: nat, j: nat)
    requires i < 8 && j < 8
    ensures Overlap(Eight()[i], Eight()[j]) <==> Meet(i, j)
  {
    SpanningRange(i, Span(i).0, Span(i).1);
    SpanningRange(j, Span(j).0, Span(j).1);
  }

  /** The opponents of each player, closest first. */
  function Near(i: nat): (js: seq<nat>)
    requires i < 8
    ensures forall j | j in js :: j < 8
  {
    match i
    case 0 => [2, 3]
    case 1 => [7, 4]
    case 2 => [0, 3, 4]
    case 3 => [5, 4, 6, 2, 0, 7]
    case 4 => [6, 3, 5, 7, 1, 2]
    case 5 => [3, 4]
    case 6 => [4, 3]
    case 7 => [1, 4, 3]
  }

  /** The ratings, in the middle of the ranges. */
  function Middle(i: nat): (m: int)
    requires i < 8
    ensures 2 * m == Span(i).0 + Span(i).1
  {
    match i
    case 0 => 6
    case 1 => 83
    case 2 => 10
    case 3 => 40
    case 4 => 50
    case 5 => 35
    case 6 => 55
    case 7 => 80
  }

  function Gap(i: nat, j: nat): int
    requires i < 8 && j < 8
  {
    if Middle(i) < Middle(j) then Middle(j) - Middle(i) else Middle(i) - Middle(j)
  }

  lemma GapIsDistance(i: nat, j: nat)
    requires i < 8 && j < 8
    ensures Distance(Eight()[i], Eight()[j]) == Gap(i, j)
  {
    assert Eight()[i].rating == Middle(i) as real && Eight()[j].rating == Middle(j) as real;
    assert Truncated(Gap(i, j)) == Gap(i, j);
  }

  function RangeAt(i: nat): PlayerRange
    requires i < 8
  {
    PlayerRange(i, seq(|Near(i)|, k requires 0 <= k < |Near(i)| => RangeEntry(Near(i)[k], Gap(i, Near(i)[k]))))
  }

  lemma NearMeets(i: nat, j: nat)
    requires i < 8 && j < 8
    ensures j in Near(i) <==> j != i && Meet(i, j)
  {
  }

  /** The distances of those opponents. */
  function Gaps(i: nat): (ds: seq<int>)
    requires i < 8
    ensures |ds| == |Near(i)|
  {
    match i
    case 0 => [4, 34]
    case 1 => [3, 33]
    case 2 => [4, 30, 40]
    case 3 => [5, 10, 15, 30, 34, 40]
    case 4 => [5, 10, 15, 30, 33, 40]
    case 5 => [5, 15]
    case 6 => [5, 15]
    case 7 => [3, 30, 40]
  }

  lemma GapsAre(i: nat, a: nat)
    requires i < 8 && a < |Near(i)|
    ensures Gap(i, Near(i)[a]) == Gaps(i)[a]
  {
  }

  lemma GapsGrow(i: nat, a: nat)
    requires i < 8 && a + 1 < |Near(i)|
    ensures Gaps(i)[a] < Gaps(i)[a + 1]
  {
  }

  lemma {:induction false} NearInOrder(i: nat, a: nat, b: nat)
    requires i < 8 && a < b < |Near(i)|
    ensures Gaps(i)[a] < Gaps(i)[b]
    decreases b
  {
    GapsGrow(i, b - 1);
    if a < b - 1 {
      NearInOrder(i, a, b - 1);
    }
  }

  lemma RangeAtIsRange(i: nat)
    requires i < 8
    ensures IsRangeOf(Eight(), i, RangeAt(i), 8) && SortedBy(RangeAt(i).entries, DistOf)
  {
    var r := RangeAt(i);
    forall e | e in r.entries ensures Acceptable(Eight(), i, e) {
      NearMeets(i, e.playerIndex);
      MeetIsOverlap(i, e.playerIndex);
      GapIsDistance(i, e.playerIndex);
    }
    forall j | 0 <= j < 8 && j != i && Overlap(Eight()[i], Eight()[j]) ensures Offers(r, j) {
      NearMeets(i, j);
      MeetIsOverlap(i, j);
      var k :| 0 <= k < |Near(i)| && Near(i)[k] == j;
      assert r.entries[k] in r.entries;
    }
    forall a, b | 0 <= a < b < |r.entries|
      ensures r.entries[a].playerIndex != r.entries[b].playerIndex && DistOf(r.entries[a]) <= DistOf(r.entries[b])
    {
      GapsAre(i, a);
      GapsAre(i, b);
      NearInOrder(i, a, b);
    }
  }

  /** An order by number of options. */
  const ORDER: seq<nat> := [0, 1, 5, 6, 2, 7, 3, 4]

  function InOrder(): (ranges: seq<PlayerRange>)
    ensures |ranges| == 8
    ensures forall k | 0 <= k < 8 :: ORDER[k] < 8 && ranges[k] == RangeAt(ORDER[k])
  {
    seq(8, k requires 0 <= k < 8 => RangeAt(ORDER[k]))
  }

  lemma FewestFirst(a: nat, b: nat)
    requires a < b < 8
    ensures |Near(ORDER[a])| <= |Near(ORDER[b])|
  {
  }

  function EachRange(): (ranges: seq<PlayerRange>)
    ensures |ranges| == 8 && forall i | 0 <= i < 8 :: ranges[i] == RangeAt(i)
  {
    seq(8, i requires 0 <= i < 8 => RangeAt(i))
  }

  lemma BlocksRearranged<T>(a: seq<T>, b: seq<T>, c: seq<T>, d: seq<T>, e: seq<T>)
    ensures multiset(a + d + b + e + c) == multiset(a + b + c + d + e)
  {
  }

  lemma OrderRearranges()
    ensures multiset(InOrder()) == multiset(EachRange())
  {
    var s, t := EachRange(), InOrder();
    var a, b, c, d, e := s[..2], s[2..3], s[3..5], s[5..7], s[7..];
    assert s == a + b + c + d + e && t == a + d + b + e + c;
    BlocksRearranged(a, b, c, d, e);
  }

  lemma InOrderAreRanges()
    ensures AreRanges(Eight(), InOrder())
  {
    var ranges := InOrder();
    forall a, b | 0 <= a < b < 8 ensures OptionsOf(ranges[a]) <= OptionsOf(ranges[b]) {
      FewestFirst(a, b);
    }
    forall i | 0 <= i < 8 ensures IsRangeOf(Eight(), i, EachRange()[i], 8) && SortedBy(EachRange()[i].entries, DistOf) {
      RangeAtIsRange(i);
    }
    assert OneRangeEach(Eight(), EachRange());
    OrderRearranges();
  }

  // ---------------------------------------------------------------- the turns

  lemma EndsOfTwo(e: Edge, f: Edge)
    ensures Ends([e]) == [e.0, e.1]
    ensures Ends([e, f]) == [e.0, e.1, f.0, f.1]
  {
    EndsNext([], e);
    EndsNext([e], f);
    assert [] + [e] == [e] && [e] + [f] == [e, f];
  }

  lemma EndsOfFour(e: Edge, f: Edge, g: Edge, h: Edge)
    ensures Ends([e, f, g, h]) == [e.0, e.1, f.0, f.1, g.0, g.1, h.0, h.1]
  {
    EndsOfTwo(e, f);
    EndsNext([e, f], g);
    EndsNext([e, f, g], h);
    assert [e, f] + [g] == [e, f, g] && [e, f, g] + [h] == [e, f, g, h];
  }

  /** The first turn takes player 3 for player 0, the second player 4 for
      player 1; then everybody is passed. */
  lemma TwoAreFormed()
    ensures FormsGreedily(Eight(), [(0, 3), (1, 4)])
  {
    var ranges, first, both := InOrder(), [(0, 3)], [(0, 3), (1, 4)];
    InOrderAreRanges();
    EndsOfTwo((0, 3), (1, 4));
    assert Forms(ranges, 1, first) by {
      assert ranges[0].entries[1] in ranges[0].entries;
      FormsNext(ranges, 0, [], (0, 3));
      assert [] + [(0, 3)] == first;
    }
    assert Forms(ranges, 2, both) by {
      assert ranges[1].entries[1] in ranges[1].entries;
      FormsNext(ranges, 1, first, (1, 4));
      assert first + [(1, 4)] == both;
    }
    PassAll(ranges, 8);
  }

  lemma EveryoneElsePasses(k: nat)
    requires 2 <= k < 8
    ensures Passes(RangeAt(ORDER[k]), {0, 3, 1, 4})
  {
  }

  lemma {:induction false} PassAll(ranges: seq<PlayerRange>, n: nat)
    requires ranges == InOrder() && 2 <= n <= 8 && Forms(ranges, 2, [(0, 3), (1, 4)])
    ensures Forms(ranges, n, [(0, 3), (1, 4)])
  {
    if n > 2 {
      PassAll(ranges, n - 1);
      EndsOfTwo((0, 3), (1, 4));
      assert EndSet([(0, 3), (1, 4)]) == {0, 3, 1, 4};
      EveryoneElsePasses(n - 1);
    }
  }

  lemma FourArePossible()
    ensures Matching(Eight(), [(0, 2), (1, 7), (3, 5), (4, 6)])
  {
    var es: seq<Edge> := [(0, 2), (1, 7), (3, 5), (4, 6)];
    EndsOfFour((0, 2), (1, 7), (3, 5), (4, 6));
    MeetIsOverlap(0, 2);
    MeetIsOverlap(1, 7);
    MeetIsOverlap(3, 5);
    MeetIsOverlap(4, 6);
  }

  /** The bound of a maximal matching is tight for this loop: some players, some
      order of their ranges and some picks make it form half of what was
      possible. */
  lemma HalfIsReached() returns (players: seq<Player>, es: seq<Edge>, best: seq<Edge>)
    ensures |players| == 8
    ensures FormsGreedily(players, es) && Matching(players, es) && Maximal(players, es)
    ensures Matching(players, best) && |best| == 2 * |es|
  {
    players, es, best := Eight(), [(0, 3), (1, 4)], [(0, 2), (1, 7), (3, 5), (4, 6)];
    TwoAreFormed();
    FourArePossible();
    FormedIsMaximal(players, es);
  }
}
