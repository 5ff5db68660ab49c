/** The scheduler that holds a race every so many seconds, in the periods whose
    number leaves one of some remainders. */
module Rolling {
  import opened Rows
  import opened Calendar

  datatype Scheduler = Scheduler(period: int, offset: int, modulus: int, remainders: seq<int>)

  /** Division and remainder of the source's integers, which drop the fraction. */
  function TruncDiv(a: int, b: int): int
    requires b != 0
  {
    if a >= 0 then a / b else -((-a) / b)
  }

  function TruncMod(a: int, b: int): int
    requires b != 0
  {
    a - b * TruncDiv(a, b)
  }

  /** The period in whole seconds. */
  function Period(s: Scheduler): int {
    s.period / SECOND
  }

  function DateOf(s: Scheduler, id: int): Instant {
    Period(s) * id * SECOND + s.offset
  }

  predicate Chosen(s: Scheduler, id: int) {
    s.modulus != 0 && exists i | 0 <= i < |s.remainders| :: TruncMod(id, s.modulus) == s.remainders[i]
  }

  function FirstId(s: Scheduler, t: Instant): int
    requires Period(s) > 0
  {
    TruncDiv(t / SECOND, Period(s)) + 1
  }

  lemma DatesGrow(s: Scheduler, i: int, j: int)
    requires Period(s) > 0
    ensures i < j ==> DateOf(s, i) + SECOND <= DateOf(s, j)
    ensures i <= j <==> DateOf(s, i) <= DateOf(s, j)
  {
    if i < j {
      assert Period(s) * j >= Period(s) * (i + 1) == Period(s) * i + Period(s);
    } else if j < i {
      assert Period(s) * i >= Period(s) * (j + 1) == Period(s) * j + Period(s);
    }
  }

  /** The search from period `id` on. */
  function Search(s: Scheduler, t: Instant, max: Instant, id: int): (r: Option<Instant>)
    requires Period(s) > 0
    ensures r.Some? ==> t <= r.value <= max
    decreases (if t < max then max else t) - DateOf(s, id) + 1
  {
    DatesGrow(s, id, id + 1);
    var next := DateOf(s, id);
    if next < t then Search(s, t, max, id + 1)
    else if next > max then None
    else if Chosen(s, id) then Some(next)
    else Search(s, t, max, id + 1)
  }

  function Next(s: Scheduler, t: Instant, max: Instant): Option<Instant> {
    if Period(s) <= 0 then None else Search(s, t, max, FirstId(s, t))
  }

  /** A modulus of zero is divided by at the first date the search looks at, if
      there are remainders to look for. */
  ghost predicate NeverDividesByZero(s: Scheduler, t: Instant, max: Instant) {
    Period(s) > 0 && s.remainders != [] && s.modulus == 0 ==>
      forall id | FirstId(s, t) <= id && t <= DateOf(s, id) :: max < DateOf(s, id)
  }

  method NextBetween(s: Scheduler, t: Instant, max: Instant) returns (r: Option<Instant>)
    requires NeverDividesByZero(s, t, max)
    ensures r == Next(s, t, max)
  {
    var period := Period(s);
    if period <= 0 {
      return None;
    }
    var periodID := TruncDiv(t / SECOND, period);
    while true
      invariant Next(s, t, max) == Search(s, t, max, periodID + 1)
      invariant FirstId(s, t) <= periodID + 1
      decreases (if t < max then max else t) - DateOf(s, periodID + 1) + 1
    {
      periodID := periodID + 1;
      DatesGrow(s, periodID, periodID + 1);
      var next := period * periodID * SECOND + s.offset;
      if next < t {
        continue;
      }
      if next > max {
        return None;
      }
      assert next == DateOf(s, periodID);
      for i := 0 to |s.remainders|
        invariant forall k | 0 <= k < i :: TruncMod(periodID, s.modulus) != s.remainders[k]
      {
        if TruncMod(periodID, s.modulus) == s.remainders[i] {
          return Some(next);
        }
      }
    }
  }

  // ------------------------------------------------------- what it should do

  /** What a division that drops the fraction leaves: less than the divisor, and
      of the sign of what is divided. */
  predicate LeavesRemainder(id: int, m: int, q: int, r: int) {
    && id == m * q + r
    && -(if m < 0 then -m else m) < r < (if m < 0 then -m else m)
    && (id >= 0 ==> r >= 0) && (id <= 0 ==> r <= 0)
  }

  lemma OnlyRemainder(id: int, m: int, q: int, r: int)
    requires m != 0 && id >= 0 && id == m * q + r && 0 <= r < (if m < 0 then -m else m)
    ensures id % m == r
  {
    var w, p := if m < 0 then -m else m, if m < 0 then -q else q;
    assert w * p == m * q;
    OneRemainder(id, w, p, r);
    var d := if m < 0 then -(id / m) else id / m;
    assert id == m * (id / m) + id % m && w * d == m * (id / m);
    OneRemainder(id, w, d, id % m);
  }

  lemma DivisionLeaves(a: int, m: int)
    requires m != 0
    ensures a - m * (a / m) == a % m && 0 <= a % m < if m < 0 then -m else m
  {
  }

  lemma Negated(a: int, m: int, d: int, r: int)
    requires a == m * d + r
    ensures -a == m * -d + -r
  {
  }

  lemma TruncModLeft(id: int, m: int)
    requires m != 0
    ensures LeavesRemainder(id, m, TruncDiv(id, m), TruncMod(id, m))
  {
    var a := if id >= 0 then id else -id;
    var d, r := a / m, a % m;
    DivisionLeaves(a, m);
    if id < 0 {
      Negated(a, m, d, r);
      assert TruncDiv(id, m) == -d && TruncMod(id, m) == -r;
    }
  }

  lemma TruncModOnly(id: int, m: int, q: int, r: int)
    requires m != 0 && LeavesRemainder(id, m, q, r)
    ensures TruncMod(id, m) == r
  {
    TruncModLeft(id, m);
    var d, left := TruncDiv(id, m), TruncMod(id, m);
    if id >= 0 {
      OnlyRemainder(id, m, q, r);
      OnlyRemainder(id, m, d, left);
    } else {
      assert m * -q == -(m * q) && m * -d == -(m * d);
      OnlyRemainder(-id, m, -q, -r);
      OnlyRemainder(-id, m, -d, -left);
    }
  }

  /** The period number `id` leaves the `i`-th of the remainders. */
  predicate IsChosen(s: Scheduler, id: int, q: int, i: int) {
    0 <= i < |s.remainders| && LeavesRemainder(id, s.modulus, q, s.remainders[i])
  }

  lemma ChosenIs(s: Scheduler, id: int)
    ensures Chosen(s, id) <==> s.modulus != 0 && exists q, i :: IsChosen(s, id, q, i)
  {
    if s.modulus != 0 {
      forall q, i | IsChosen(s, id, q, i) ensures Chosen(s, id) {
        TruncModOnly(id, s.modulus, q, s.remainders[i]);
      }
      if Chosen(s, id) {
        var i :| 0 <= i < |s.remainders| && TruncMod(id, s.modulus) == s.remainders[i];
        TruncModLeft(id, s.modulus);
        assert IsChosen(s, id, TruncDiv(id, s.modulus), i);
      }
    }
  }

  /** `e` is the start of such a period, moved by the offset. */
  predicate HappensIn(s: Scheduler, e: Instant, id: int, q: int, i: int) {
    var seconds := s.period / 1_000_000_000;
    && seconds > 0 && s.modulus != 0 && IsChosen(s, id, q, i)
    && e == seconds * id * 1_000_000_000 + s.offset
  }

  /** The dates of the schedule: the starts of the periods whose number leaves one
      of the remainders, moved by the offset. */
  lemma DatesAre(s: Scheduler, e: Instant)
    ensures IsDate(s, e) <==> exists id, q, i :: HappensIn(s, e, id, q, i)
  {
    if IsDate(s, e) {
      var id :| Chosen(s, id) && DateOf(s, id) == e;
      ChosenIs(s, id);
      var q, i :| IsChosen(s, id, q, i);
      assert HappensIn(s, e, id, q, i);
    }
    forall id, q, i | HappensIn(s, e, id, q, i) ensures IsDate(s, e) {
      ChosenIs(s, id);
      assert DateOf(s, id) == e;
    }
  }

  /** `e` is a date of the schedule. */
  ghost predicate IsDate(s: Scheduler, e: Instant) {
    Period(s) > 0 && exists id :: Chosen(s, id) && DateOf(s, id) == e
  }

  /** The first date from `t` on, itself included or not, and up to `max`. */
  ghost predicate IsFirst(s: Scheduler, t: Instant, included: bool, max: Instant, r: Option<Instant>) {
    match r
    case None => forall e | IsDate(s, e) && Past(e, t, included) :: e > max
    case Some(e) =>
      && IsDate(s, e) && Past(e, t, included) && e <= max
      && forall f | IsDate(s, f) && Past(f, t, included) :: e <= f
  }

  predicate Past(e: Instant, t: Instant, included: bool) {
    if included then t <= e else t < e
  }

  /** The search finds the first chosen period from where it starts. */
  lemma {:induction false} SearchFinds(s: Scheduler, t: Instant, max: Instant, id: int, k: int)
    requires Period(s) > 0
    requires id <= k && Chosen(s, k) && t <= DateOf(s, k)
    ensures var r := Search(s, t, max, id);
      (r.Some? && r.value <= DateOf(s, k)) || (r.None? && max < DateOf(s, k))
    decreases k - id
  {
    DatesGrow(s, id, k);
    if id < k && (DateOf(s, id) < t || (DateOf(s, id) <= max && !Chosen(s, id))) {
      SearchFinds(s, t, max, id + 1, k);
    }
  }

  lemma {:induction false} SearchIsDate(s: Scheduler, t: Instant, max: Instant, id: int)
    requires Period(s) > 0
    ensures Search(s, t, max, id).Some? ==>
              exists k :: id <= k && Chosen(s, k) && DateOf(s, k) == Search(s, t, max, id).value
    decreases (if t < max then max else t) - DateOf(s, id) + 1
  {
    DatesGrow(s, id, id + 1);
    if DateOf(s, id) < t || (DateOf(s, id) <= max && !Chosen(s, id)) {
      SearchIsDate(s, t, max, id + 1);
    } else if DateOf(s, id) <= max {
      assert id <= id && Chosen(s, id) && DateOf(s, id) == Search(s, t, max, id).value;
    }
  }

  /** Where the search starts, from the epoch on: the first period that begins
      after `t`. */
  lemma FirstIdIsNext(s: Scheduler, t: Instant, k: int)
    requires Period(s) > 0 && t >= 0
    ensures FirstId(s, t) <= k <==> t < Period(s) * k * SECOND
  {
    var p, u := Period(s), t / SECOND;
    assert u == p * (u / p) + u % p;
    if k <= u / p {
      assert p * k <= p * (u / p);
    } else {
      assert p * k >= p * (u / p + 1) == p * (u / p) + p;
    }
  }

  lemma TruncDivBelow(u: int, p: int)
    requires p > 0
    ensures u < p * (TruncDiv(u, p) + 1)
  {
    if u >= 0 {
      assert u == p * (u / p) + u % p;
      assert p * (u / p + 1) == p * (u / p) + p;
    } else {
      var q := (-u) / p;
      assert -u == p * q + (-u) % p;
      assert p * (-q + 1) == -(p * q) + p;
    }
  }

  /** Also before the epoch, it starts after `t`. */
  lemma FirstIdIsAfter(s: Scheduler, t: Instant, k: int)
    requires Period(s) > 0 && FirstId(s, t) <= k
    ensures t < Period(s) * k * SECOND
  {
    var p, u := Period(s), t / SECOND;
    TruncDivBelow(u, p);
    assert p * FirstId(s, t) <= p * k;
    assert u + 1 <= p * k;
  }

  lemma DivGrows(a: int, b: int, p: int)
    requires p > 0 && a <= b
    ensures a / p <= b / p
  {
    var d := a / p - b / p;
    assert a == p * (a / p) + a % p && b == p * (b / p) + b % p;
    assert p * d == p * (a / p) - p * (b / p);
    Multiples(p, d);
  }

  lemma TruncDivGrows(u: int, v: int, p: int)
    requires p > 0 && u <= v
    ensures TruncDiv(u, p) <= TruncDiv(v, p)
  {
    if u >= 0 {
      DivGrows(u, v, p);
    } else if v < 0 {
      DivGrows(-v, -u, p);
    } else {
      DivGrows(0, -u, p);
      DivGrows(0, v, p);
    }
  }

  /** Without offset: the first date strictly after `t`. With a negative one:
      the first date not before `t`. */
  lemma NextIsFirst(s: Scheduler, t: Instant, max: Instant)
    requires t >= 0 && s.offset <= 0
    ensures IsFirst(s, t, s.offset < 0, max, Next(s, t, max))
  {
    if Period(s) > 0 {
      var id, r := FirstId(s, t), Next(s, t, max);
      forall k | Chosen(s, k) && Past(DateOf(s, k), t, s.offset < 0)
        ensures (r.Some? && r.value <= DateOf(s, k)) || (r.None? && max < DateOf(s, k))
      {
        FirstIdIsNext(s, t, k);
        SearchFinds(s, t, max, id, k);
      }
      SearchIsDate(s, t, max, id);
      if r.Some? {
        var k :| id <= k && Chosen(s, k) && DateOf(s, k) == r.value;
        FirstIdIsNext(s, t, k);
      }
    }
  }

  /** What is found is a date, not before `t`, and strictly after it without a
      negative offset. */
  lemma NextIsAfter(s: Scheduler, t: Instant, max: Instant)
    ensures var r := Next(s, t, max);
      r.Some? ==> IsDate(s, r.value) && Past(r.value, t, s.offset < 0) && r.value <= max
  {
    if Period(s) > 0 {
      SearchIsDate(s, t, max, FirstId(s, t));
      if Next(s, t, max).Some? {
        var k :| FirstId(s, t) <= k && Chosen(s, k) && DateOf(s, k) == Next(s, t, max).value;
        FirstIdIsAfter(s, t, k);
      }
    }
  }

  /** A positive offset makes the search start too late: from the start of any
      chosen period, the date of that very period is missed. */
  lemma PositiveOffsetMisses(s: Scheduler, k: int) returns (t: Instant)
    requires Period(s) > 0 && s.offset > 0
    requires Chosen(s, k) && DateOf(s, k) > 0
    ensures t == if Period(s) * k >= 0 then Period(s) * k * SECOND else 0
    ensures forall included :: !IsFirst(s, t, included, DateOf(s, k), Next(s, t, DateOf(s, k)))
  {
    var start := Period(s) * k * SECOND;
    t := if start >= 0 then start else 0;
    var max, r := DateOf(s, k), Next(s, t, DateOf(s, k));
    FirstIdIsNext(s, t, k);
    SearchIsDate(s, t, max, FirstId(s, t));
    if r.Some? {
      var j :| FirstId(s, t) <= j && Chosen(s, j) && DateOf(s, j) == r.value;
      DatesGrow(s, j, k);
    }
    assert IsDate(s, max) && t < max;
  }

  /** The answer is the first date, counting `t` itself or not. */
  ghost predicate Right(s: Scheduler, t: Instant, max: Instant) {
    IsFirst(s, t, false, max, Next(s, t, max)) || IsFirst(s, t, true, max, Next(s, t, max))
  }

  ghost predicate AlwaysRight(s: Scheduler) {
    forall t, max | t >= 0 :: Right(s, t, max)
  }

  lemma NothingToMiss(s: Scheduler, t: Instant, max: Instant)
    requires t >= 0 && forall e | IsDate(s, e) :: e <= 0
    ensures Right(s, t, max)
  {
    if Period(s) > 0 {
      SearchIsDate(s, t, max, FirstId(s, t));
    }
    assert Next(s, t, max).Some? ==> IsDate(s, Next(s, t, max).value);
  }

  /** The scheduler is right for every time from the epoch on exactly when its
      offset is not positive or all its dates lie before the epoch. */
  lemma RightIff(s: Scheduler)
    ensures AlwaysRight(s) <==> s.offset <= 0 || forall e | IsDate(s, e) :: e <= 0
  {
    if s.offset <= 0 {
      forall t, max | t >= 0 ensures Right(s, t, max) {
        NextIsFirst(s, t, max);
      }
    } else if e :| IsDate(s, e) && e > 0 {
      var k :| Chosen(s, k) && DateOf(s, k) == e;
      var t := PositiveOffsetMisses(s, k);
      assert !Right(s, t, e);
    } else {
      forall t, max | t >= 0 ensures Right(s, t, max) {
        NothingToMiss(s, t, max);
      }
    }
  }

  /** A date that is its own successor: a caller that goes from date to date
      never gets past it. */
  ghost predicate Sticks(s: Scheduler, e: Instant, max: Instant) {
    Next(s, e, max) == Some(e)
  }

  /** From the epoch on, those are all dates with a negative offset, and no
      others. */
  lemma SticksIff(s: Scheduler, e: Instant, max: Instant)
    requires 0 <= e <= max
    ensures Sticks(s, e, max) <==> s.offset < 0 && IsDate(s, e)
  {
    NextIsAfter(s, e, max);
    if s.offset < 0 {
      NextIsFirst(s, e, max);
    }
  }

  /** Going from date to date does not jump over a date that sticks. */
  lemma StuckBelow(s: Scheduler, t: Instant, e: Instant, max: Instant)
    requires Sticks(s, e, max) && t <= e
    ensures Next(s, t, max).Some? && Next(s, t, max).value <= e
  {
    SearchIsDate(s, e, max, FirstId(s, e));
    var k :| FirstId(s, e) <= k && Chosen(s, k) && DateOf(s, k) == e;
    TruncDivGrows(t / SECOND, e / SECOND, Period(s));
    SearchFinds(s, t, max, FirstId(s, t), k);
    NextIsAfter(s, e, max);
  }
}
