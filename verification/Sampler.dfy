/** What a shuffle is, seen from its choices: their replay, their cost, and the
    bridge. */
module Sampler {
  import opened Settings

  // ------------------------------------------------------ replay of the picks

  ghost predicate ValidPicks(s: Settings, picks: seq<Pick>) {
    forall p | p in picks :: p.key in s && p.index < |s[p.key]| && s[p.key][p.index].weight > 0.0
  }

  /** The picks one after the other: value, what it implies, bridge rule. */
  function Replayed(s: Settings, picks: seq<Pick>): Result
    requires ValidPicks(s, picks)
  {
    if picks == [] then map[]
    else
      var p := picks[|picks| - 1];
      ApplyPick(Replayed(s, picks[..|picks| - 1]), p.key, s[p.key][p.index])
  }

  function CostOf(s: Settings, picks: seq<Pick>): int
    requires ValidPicks(s, picks)
  {
    if picks == [] then 0
    else
      var p := picks[|picks| - 1];
      CostOf(s, picks[..|picks| - 1]) + s[p.key][p.index].cost
  }

  /** Every setting had no value yet when it was picked. */
  ghost predicate Fresh(s: Settings, picks: seq<Pick>)
    requires ValidPicks(s, picks)
  {
    picks == [] ||
    (var before := picks[..|picks| - 1];
     Fresh(s, before) && picks[|picks| - 1].key !in Replayed(s, before))
  }

  /** The state is explained by its picks. */
  ghost predicate Accounted(s: Settings, st: State) {
    && ValidPicks(s, st.picks)
    && Fresh(s, st.picks)
    && st.ret == Replayed(s, st.picks)
    && st.costSum == CostOf(s, st.picks)
  }

  lemma {:induction false} ZeroOthersGrows(ret: Result, typ: string, n: nat)
    requires n <= 4
    ensures ret.Keys <= ZeroOthers(ret, typ, n).Keys
  {
    if n > 0 {
      ZeroOthersGrows(ret, typ, n - 1);
    }
  }

  lemma ApplyPickGrows(ret: Result, key: string, v: PossibleValue)
    ensures ret.Keys <= ApplyPick(ret, key, v).Keys && key in ApplyPick(ret, key, v)
  {
    if IsBridge(key) && key != "bridge" && Splits(key) {
      var typ := SecondPart(key);
      var shown := Text(if typ == "rewards" then "dungeons" else typ);
      ZeroOthersGrows((ret[key := v.value] + v.implies)["bridge" := shown], typ, 4);
    }
  }

  lemma {:induction false} PickedHasValue(s: Settings, picks: seq<Pick>, i: nat)
    requires ValidPicks(s, picks) && i < |picks|
    ensures picks[i].key in Replayed(s, picks)
    decreases |picks|
  {
    var n := |picks| - 1;
    var before, p := picks[..n], picks[n];
    ApplyPickGrows(Replayed(s, before), p.key, s[p.key][p.index]);
    if i < n {
      PickedHasValue(s, before, i);
    }
  }

  /** Each setting is picked at most once. */
  lemma {:induction false} PickedOnce(s: Settings, picks: seq<Pick>, i: nat, j: nat)
    requires ValidPicks(s, picks) && Fresh(s, picks) && i < j < |picks|
    ensures picks[i].key != picks[j].key
    decreases |picks|
  {
    var n := |picks| - 1;
    if j < n {
      PickedOnce(s, picks[..n], i, j);
    } else {
      PickedHasValue(s, picks[..n], i);
    }
  }

  lemma {:induction false} FreshPrefix(s: Settings, picks: seq<Pick>, n: nat)
    requires ValidPicks(s, picks) && Fresh(s, picks) && n <= |picks|
    ensures ValidPicks(s, picks[..n]) && Fresh(s, picks[..n])
  {
    if n == |picks| {
      assert picks[..n] == picks;
    } else {
      FreshPrefix(s, picks[..|picks| - 1], n);
      assert picks[..|picks| - 1][..n] == picks[..n];
    }
  }

  /** One more pick, of a setting without a value yet. */
  lemma PickKeeps(s: Settings, st: State, k: string, i: nat, drawn: nat)
    requires Accounted(s, st) && k in s && i < |s[k]| && s[k][i].weight > 0.0 && k !in st.ret
    ensures var v := s[k][i];
      Accounted(s, State(ApplyPick(st.ret, k, v), st.costSum + v.cost, drawn, st.picks + [Pick(k, i)]))
  {
    var picks := st.picks + [Pick(k, i)];
    assert picks[..|picks| - 1] == st.picks;
  }

  lemma DrawKeeps(s: Settings, st: State, drawn: nat)
    requires Accounted(s, st)
    ensures Accounted(s, st.(drawn := drawn))
  {
  }

  lemma {:induction false} ValuesAccount(s: Settings, o: Oracle, weightSum: real, budget: int, st: State, k: string,
                                         i: nat)
    requires Accounted(s, st) && k in s && i <= |s[k]| && k !in st.ret
    ensures Accounted(s, TryValues(s, o, weightSum, budget, st, k, i))
    decreases |s[k]| - i
  {
    if i < |s[k]| {
      var v, next := s[k][i], st.(drawn := st.drawn + 1);
      DrawKeeps(s, st, st.drawn + 1);
      if v.weight <= 0.0 {
        ValuesAccount(s, o, weightSum, budget, st, k, i + 1);
      } else if NotSelected(o.draw(st.drawn), v.weight, weightSum) || st.costSum + v.cost > budget {
        ValuesAccount(s, o, weightSum, budget, next, k, i + 1);
      } else {
        PickKeeps(s, st, k, i, st.drawn + 1);
      }
    }
  }

  lemma {:induction false} PassAccounts(s: Settings, o: Oracle, weightSum: real, budget: int, st: State,
                                        keys: seq<string>)
    requires Accounted(s, st) && forall k | k in keys :: k in s
    ensures Accounted(s, Pass(s, o, weightSum, budget, st, keys))
    decreases |keys|
  {
    if keys != [] {
      if keys[0] !in st.ret {
        ValuesAccount(s, o, weightSum, budget, st, keys[0], 0);
      }
      PassAccounts(s, o, weightSum, budget, TryKey(s, o, weightSum, budget, st, keys[0]), keys[1..]);
    }
  }

  lemma {:induction false} PassesAccount(s: Settings, o: Oracle, weightSum: real, costMax: int, p: Progress,
                                         keys: seq<string>)
    requires o.Shuffles() && KeysOf(s, keys) && Accounted(s, p.st)
    ensures Accounted(s, Passes(s, o, weightSum, costMax, p, keys).st)
    ensures !Unsatisfied(costMax, Passes(s, o, weightSum, costMax, p, keys))
    decreases MAX_ITERATIONS - p.iterations
  {
    if Unsatisfied(costMax, p) {
      var shuffled := o.order(p.iterations, keys);
      ShuffledKeys(s, o, p.iterations, keys);
      PassAccounts(s, o, weightSum, costMax - p.tolerance, p.st, shuffled);
      PassesAccount(s, o, weightSum, costMax, AfterPass(s, o, weightSum, costMax, p, shuffled), shuffled);
    }
  }

  // ------------------------------------------------------- which value is taken

  /** How many of the values cost a draw. */
  function Draws(values: seq<PossibleValue>): nat {
    if values == [] then 0
    else Draws(values[..|values| - 1]) + if values[|values| - 1].weight > 0.0 then 1 else 0
  }

  /** Value `i` has a weight, its own draw is at most its share of all weights, and
      it fits the budget. */
  predicate Accepts(s: Settings, o: Oracle, weightSum: real, budget: int, st: State, k: string, i: nat)
    requires k in s && i < |s[k]|
  {
    && s[k][i].weight > 0.0
    && (weightSum == 0.0 || o.draw(st.drawn + Draws(s[k][..i])) <= s[k][i].weight / weightSum)
    && st.costSum + s[k][i].cost <= budget
  }

  lemma TakesIt(s: Settings, o: Oracle, weightSum: real, budget: int, st: State, k: string, i: nat, next: State)
    requires k in s && i < |s[k]| && Accepts(s, o, weightSum, budget, st, k, i)
    requires forall j | 0 <= j < i :: !Accepts(s, o, weightSum, budget, st, k, j)
    requires next.picks == st.picks + [Pick(k, i)] && next.drawn == st.drawn + Draws(s[k][..i + 1])
    ensures TakesFirst(s, o, weightSum, budget, st, k, next)
  {
  }

  lemma {:induction false} TakesFirstFrom(s: Settings, o: Oracle, weightSum: real, budget: int, st: State, k: string,
                                          i: nat, now: State)
    requires k in s && i <= |s[k]|
    requires now == st.(drawn := st.drawn + Draws(s[k][..i]))
    requires forall j | 0 <= j < i :: !Accepts(s, o, weightSum, budget, st, k, j)
    ensures TakesFirst(s, o, weightSum, budget, st, k, TryValues(s, o, weightSum, budget, now, k, i))
    decreases |s[k]| - i
  {
    if i == |s[k]| {
      assert s[k][..i] == s[k];
    } else {
      assert s[k][..i + 1][..i] == s[k][..i];
      if Accepts(s, o, weightSum, budget, st, k, i) {
        TakesIt(s, o, weightSum, budget, st, k, i, TryValues(s, o, weightSum, budget, now, k, i));
      } else {
        TakesFirstFrom(s, o, weightSum, budget, st, k, i + 1, st.(drawn := st.drawn + Draws(s[k][..i + 1])));
      }
    }
  }

  ghost predicate TakesFirst(s: Settings, o: Oracle, weightSum: real, budget: int, st: State, k: string, next: State)
    requires k in s
  {
    if next.picks == st.picks then
      && (forall i | 0 <= i < |s[k]| :: !Accepts(s, o, weightSum, budget, st, k, i))
      && next.drawn == st.drawn + Draws(s[k])
    else
      exists i | 0 <= i < |s[k]| ::
        && Accepts(s, o, weightSum, budget, st, k, i)
        && (forall j | 0 <= j < i :: !Accepts(s, o, weightSum, budget, st, k, j))
        && next.picks == st.picks + [Pick(k, i)]
        && next.drawn == st.drawn + Draws(s[k][..i + 1])
  }

  /** A setting without a value takes its first value that is acceptable, and
      none only if none is. */
  lemma SettingTakesFirst(s: Settings, o: Oracle, weightSum: real, budget: int, st: State, k: string)
    requires k in s && k !in st.ret
    ensures TakesFirst(s, o, weightSum, budget, st, k, TryKey(s, o, weightSum, budget, st, k))
  {
    TakesFirstFrom(s, o, weightSum, budget, st, k, 0, st);
  }

  lemma {:induction false} PassIsTwo(s: Settings, o: Oracle, weightSum: real, budget: int, st: State, a: seq<string>,
                                     b: seq<string>)
    requires forall k | k in a + b :: k in s
    ensures Pass(s, o, weightSum, budget, st, a + b) ==
            Pass(s, o, weightSum, budget, Pass(s, o, weightSum, budget, st, a), b)
    decreases |a|
  {
    if a == [] {
      assert a + b == b;
    } else {
      var next := TryKey(s, o, weightSum, budget, st, a[0]);
      assert (a + b)[0] == a[0] && (a + b)[1..] == a[1..] + b;
      assert forall k | k in a[1..] + b :: k in a + b;
      PassIsTwo(s, o, weightSum, budget, next, a[1..], b);
    }
  }

  /** A pass tries every setting: it has a value before its turn, or takes its
      first acceptable one then, given what the pass has drawn and spent so far. */
  lemma {:induction false} PassTriesEach(s: Settings, o: Oracle, weightSum: real, budget: int, st: State,
                                         keys: seq<string>, j: nat)
    requires j < |keys| && forall k | k in keys :: k in s
    ensures var before := Pass(s, o, weightSum, budget, st, keys[..j]);
      var after := Pass(s, o, weightSum, budget, st, keys[..j + 1]);
      && (keys[j] in before.ret ==> after == before)
      && (keys[j] !in before.ret ==> TakesFirst(s, o, weightSum, budget, before, keys[j], after))
  {
    assert keys[..j + 1] == keys[..j] + [keys[j]];
    PassIsTwo(s, o, weightSum, budget, st, keys[..j], [keys[j]]);
    var before := Pass(s, o, weightSum, budget, st, keys[..j]);
    if keys[j] !in before.ret {
      SettingTakesFirst(s, o, weightSum, budget, before, keys[j]);
    }
  }

  // ------------------------------------------------------------- the budget

  lemma {:induction false} ValuesSpend(s: Settings, o: Oracle, weightSum: real, budget: int, st: State, k: string,
                                       i: nat)
    requires k in s && i <= |s[k]|
    ensures var next := TryValues(s, o, weightSum, budget, st, k, i);
      next.costSum == st.costSum || next.costSum <= budget
    decreases |s[k]| - i
  {
    if i < |s[k]| {
      ValuesSpend(s, o, weightSum, budget, st, k, i + 1);
      ValuesSpend(s, o, weightSum, budget, st.(drawn := st.drawn + 1), k, i + 1);
    }
  }

  /** A pass spends nothing, or stays within its budget. */
  lemma {:induction false} PassSpends(s: Settings, o: Oracle, weightSum: real, budget: int, st: State,
                                      keys: seq<string>)
    requires forall k | k in keys :: k in s
    ensures var next := Pass(s, o, weightSum, budget, st, keys);
      next.costSum == st.costSum || next.costSum <= budget
    decreases |keys|
  {
    if keys != [] {
      ValuesSpend(s, o, weightSum, budget, st, keys[0], 0);
      PassSpends(s, o, weightSum, budget, TryKey(s, o, weightSum, budget, st, keys[0]), keys[1..]);
    }
  }

  /** The tolerance in force during pass number `n`, counted from 1. */
  function ToleranceOfPass(n: nat): nat {
    if n <= 1 then 0 else (n - 2) / 100
  }

  /** Between two passes: what is left of the budget is no less than the
      tolerance of the pass just made. */
  ghost predicate OnBudget(costMax: int, p: Progress) {
    && p.iterations <= MAX_ITERATIONS
    && p.tolerance == ToleranceOfPass(p.iterations + 1)
    && ToleranceOfPass(p.iterations) <= costMax - p.st.costSum
  }

  lemma PassOnBudget(s: Settings, o: Oracle, weightSum: real, costMax: int, p: Progress, keys: seq<string>)
    requires KeysOf(s, keys) && OnBudget(costMax, p) && Unsatisfied(costMax, p)
    ensures OnBudget(costMax, AfterPass(s, o, weightSum, costMax, p, keys))
  {
    PassSpends(s, o, weightSum, costMax - p.tolerance, p.st, keys);
  }

  lemma {:induction false} PassesOnBudget(s: Settings, o: Oracle, weightSum: real, costMax: int, p: Progress,
                                          keys: seq<string>)
    requires o.Shuffles() && KeysOf(s, keys) && OnBudget(costMax, p)
    ensures OnBudget(costMax, Passes(s, o, weightSum, costMax, p, keys))
    decreases MAX_ITERATIONS - p.iterations
  {
    if Unsatisfied(costMax, p) {
      var shuffled := o.order(p.iterations, keys);
      ShuffledKeys(s, o, p.iterations, keys);
      PassOnBudget(s, o, weightSum, costMax, p, shuffled);
      PassesOnBudget(s, o, weightSum, costMax, AfterPass(s, o, weightSum, costMax, p, shuffled), shuffled);
    }
  }

  /** The result is the replay of its picks, each setting picked at most once,
      and what was spent is the total cost of the picks, whatever was
      overwritten later. */
  lemma ShuffleIsReplay(s: Settings, keys: seq<string>, costMax: int, o: Oracle)
    requires o.Shuffles() && KeysOf(s, keys)
    ensures var e := Shuffled(s, keys, costMax, o);
      && Accounted(s, e.st) && !Unsatisfied(costMax, e)
      && forall i, j | 0 <= i < j < |e.st.picks| :: e.st.picks[i].key != e.st.picks[j].key
  {
    PassesAccount(s, o, WeightSum(s, keys), costMax, BEGINNING, keys);
    var picks := Shuffled(s, keys, costMax, o).st.picks;
    forall i, j | 0 <= i < j < |picks| ensures picks[i].key != picks[j].key {
      PickedOnce(s, picks, i, j);
    }
  }

  /** The budget is never exceeded. When the sampler stops within the tolerance
      after at least one pass, the rest of the budget lies between the last two
      tolerances, which differ by one at most and never pass nine. */
  lemma BudgetIsKept(s: Settings, keys: seq<string>, costMax: int, o: Oracle)
    requires o.Shuffles() && KeysOf(s, keys) && costMax >= 0
    ensures var e := Shuffled(s, keys, costMax, o);
      var rest := costMax - e.st.costSum;
      && 0 <= rest
      && (rest <= e.tolerance || e.iterations == MAX_ITERATIONS)
      && ToleranceOfPass(e.iterations) <= rest
      && ToleranceOfPass(e.iterations) <= e.tolerance <= ToleranceOfPass(e.iterations) + 1
      && e.tolerance <= 9
  {
    ShuffleIsReplay(s, keys, costMax, o);
    PassesOnBudget(s, o, WeightSum(s, keys), costMax, BEGINNING, keys);
  }

  // ----------------------------------------------------------- pass after pass

  /** The order of the keys in pass number `n`: each pass shuffles the last one's. */
  function OrderOf(o: Oracle, keys: seq<string>, n: nat): seq<string> {
    if n == 0 then keys else o.order(n - 1, OrderOf(o, keys, n - 1))
  }

  lemma {:induction false} OrderIsOfKeys(s: Settings, o: Oracle, keys: seq<string>, n: nat)
    requires o.Shuffles() && KeysOf(s, keys)
    ensures multiset(OrderOf(o, keys, n)) == multiset(keys) && KeysOf(s, OrderOf(o, keys, n))
  {
    if n > 0 {
      OrderIsOfKeys(s, o, keys, n - 1);
      ShuffledKeys(s, o, n - 1, OrderOf(o, keys, n - 1));
    }
  }

  /** The sampler after `n` passes. */
  function StateOf(s: Settings, o: Oracle, weightSum: real, costMax: int, keys: seq<string>, n: nat): State
    requires o.Shuffles() && KeysOf(s, keys)
  {
    if n == 0 then START
    else
      OrderIsOfKeys(s, o, keys, n);
      Pass(s, o, weightSum, costMax - ToleranceOfPass(n), StateOf(s, o, weightSum, costMax, keys, n - 1),
           OrderOf(o, keys, n))
  }

  /** How far the total cost is from the budget after `n` passes. */
  function Off(s: Settings, o: Oracle, weightSum: real, costMax: int, keys: seq<string>, n: nat): int
    requires o.Shuffles() && KeysOf(s, keys)
  {
    var off := costMax - StateOf(s, o, weightSum, costMax, keys, n).costSum;
    if off < 0 then -off else off
  }

  /** After `n` passes the total cost is not within the tolerance of the next. */
  ghost predicate IsOff(s: Settings, o: Oracle, weightSum: real, costMax: int, keys: seq<string>, n: nat)
    requires o.Shuffles() && KeysOf(s, keys)
  {
    Off(s, o, weightSum, costMax, keys, n) > ToleranceOfPass(n + 1)
  }

  /** From `first` passes on, `e` is where the sampler stops: as soon as it is not
      off, and after a thousand passes at the latest. */
  ghost predicate StopsAt(s: Settings, o: Oracle, weightSum: real, costMax: int, keys: seq<string>, first: nat,
                          e: Progress)
    requires o.Shuffles() && KeysOf(s, keys)
  {
    && first <= e.iterations <= 1000
    && e.st == StateOf(s, o, weightSum, costMax, keys, e.iterations)
    && (forall n | first <= n < e.iterations :: IsOff(s, o, weightSum, costMax, keys, n))
    && (e.iterations == 1000 || !IsOff(s, o, weightSum, costMax, keys, e.iterations))
  }

  ghost predicate IsAfter(s: Settings, o: Oracle, weightSum: real, costMax: int, keys: seq<string>, p: Progress)
    requires o.Shuffles() && KeysOf(s, keys)
  {
    && p.st == StateOf(s, o, weightSum, costMax, keys, p.iterations)
    && p.tolerance == ToleranceOfPass(p.iterations + 1)
  }

  lemma StateNext(s: Settings, o: Oracle, weightSum: real, costMax: int, keys: seq<string>, n: nat, tolerance: nat)
    requires o.Shuffles() && KeysOf(s, keys) && n > 0 && tolerance == ToleranceOfPass(n)
    ensures KeysOf(s, OrderOf(o, keys, n))
    ensures StateOf(s, o, weightSum, costMax, keys, n) ==
            Pass(s, o, weightSum, costMax - tolerance, StateOf(s, o, weightSum, costMax, keys, n - 1),
                 OrderOf(o, keys, n))
  {
    OrderIsOfKeys(s, o, keys, n);
  }

  lemma NextPass(s: Settings, o: Oracle, weightSum: real, costMax: int, keys: seq<string>, p: Progress)
    requires o.Shuffles() && KeysOf(s, keys) && IsAfter(s, o, weightSum, costMax, keys, p)
    ensures KeysOf(s, OrderOf(o, keys, p.iterations + 1))
    ensures IsAfter(s, o, weightSum, costMax, keys,
                    AfterPass(s, o, weightSum, costMax, p, OrderOf(o, keys, p.iterations + 1)))
  {
    StateNext(s, o, weightSum, costMax, keys, p.iterations + 1, p.tolerance);
  }

  lemma {:induction false} PassesGoOn(s: Settings, o: Oracle, weightSum: real, costMax: int, p: Progress,
                                      keys: seq<string>)
    requires o.Shuffles() && KeysOf(s, keys) && KeysOf(s, o.order(p.iterations, keys))
    ensures var next := o.order(p.iterations, keys);
      Passes(s, o, weightSum, costMax, p, keys) ==
        if Unsatisfied(costMax, p)
        then Passes(s, o, weightSum, costMax, AfterPass(s, o, weightSum, costMax, p, next), next) else p
  {
  }

  lemma OffIsUnsatisfied(s: Settings, o: Oracle, weightSum: real, costMax: int, keys: seq<string>, p: Progress)
    requires o.Shuffles() && KeysOf(s, keys) && IsAfter(s, o, weightSum, costMax, keys, p)
    ensures Unsatisfied(costMax, p) <==> IsOff(s, o, weightSum, costMax, keys, p.iterations) && p.iterations < 1000
  {
  }

  lemma StopsLater(s: Settings, o: Oracle, weightSum: real, costMax: int, keys: seq<string>, n: nat, e: Progress)
    requires o.Shuffles() && KeysOf(s, keys) && IsOff(s, o, weightSum, costMax, keys, n)
    requires StopsAt(s, o, weightSum, costMax, keys, n + 1, e)
    ensures StopsAt(s, o, weightSum, costMax, keys, n, e)
  {
  }

  lemma StopsNow(s: Settings, o: Oracle, weightSum: real, costMax: int, keys: seq<string>, p: Progress)
    requires o.Shuffles() && KeysOf(s, keys) && p.iterations <= 1000
    requires IsAfter(s, o, weightSum, costMax, keys, p) && !Unsatisfied(costMax, p)
    ensures StopsAt(s, o, weightSum, costMax, keys, p.iterations, p)
  {
  }

  lemma {:induction false} PassesAreStates(s: Settings, o: Oracle, weightSum: real, costMax: int, keys: seq<string>,
                                           p: Progress, now: seq<string>)
    requires o.Shuffles() && KeysOf(s, keys) && KeysOf(s, now) && now == OrderOf(o, keys, p.iterations)
    requires IsAfter(s, o, weightSum, costMax, keys, p) && p.iterations <= 1000
    ensures StopsAt(s, o, weightSum, costMax, keys, p.iterations, Passes(s, o, weightSum, costMax, p, now))
    decreases 1000 - p.iterations
  {
    var n := p.iterations + 1;
    var next := OrderOf(o, keys, n);
    NextPass(s, o, weightSum, costMax, keys, p);
    PassesGoOn(s, o, weightSum, costMax, p, now);
    OffIsUnsatisfied(s, o, weightSum, costMax, keys, p);
    if Unsatisfied(costMax, p) {
      PassesAreStates(s, o, weightSum, costMax, keys, AfterPass(s, o, weightSum, costMax, p, next), next);
      StopsLater(s, o, weightSum, costMax, keys, p.iterations, Passes(s, o, weightSum, costMax, p, now));
    } else {
      StopsNow(s, o, weightSum, costMax, keys, p);
    }
  }

  /** A shuffle makes as many passes as it takes to come within the tolerance, and
      a thousand at most, each over the keys shuffled once more. */
  lemma {:induction false} ShuffleIsPasses(s: Settings, keys: seq<string>, costMax: int, o: Oracle)
    requires o.Shuffles() && KeysOf(s, keys)
    ensures StopsAt(s, o, WeightSum(s, keys), costMax, keys, 0, Shuffled(s, keys, costMax, o))
  {
    var weights := WeightSum(s, keys);
    StartsThere(s, o, weights, costMax, keys, BEGINNING);
    PassesAreStates(s, o, weights, costMax, keys, BEGINNING, keys);
  }

  lemma {:induction false} StartsThere(s: Settings, o: Oracle, weightSum: real, costMax: int, keys: seq<string>,
                                       p: Progress)
    requires o.Shuffles() && KeysOf(s, keys) && p == BEGINNING
    ensures IsAfter(s, o, weightSum, costMax, keys, p) && OrderOf(o, keys, p.iterations) == keys
  {
  }

  // --------------------------------------------------- what each setting gets

  /** The pick decides the setting: it is picked, or implied. */
  predicate Sets(s: Settings, p: Pick, k: string)
    requires p.key in s && p.index < |s[p.key]|
  {
    p.key == k || k in s[p.key][p.index].implies
  }

  /** What it is set to: what is implied comes after what is picked. */
  function SetTo(s: Settings, p: Pick, k: string): Value
    requires p.key in s && p.index < |s[p.key]|
  {
    var v := s[p.key][p.index];
    if k in v.implies then v.implies[k] else v.value
  }

  /** The `j`-th pick is the last to decide the setting. */
  ghost predicate SetsLast(s: Settings, picks: seq<Pick>, j: nat, k: string)
    requires ValidPicks(s, picks)
  {
    && j < |picks| && Sets(s, picks[j], k)
    && forall i | j < i < |picks| :: !Sets(s, picks[i], k)
  }

  /** A setting has a value exactly when some pick decides it, and it is that of
      the last one. */
  ghost predicate IsSetLast(s: Settings, picks: seq<Pick>, ret: Result, k: string)
    requires ValidPicks(s, picks)
  {
    && (k in ret <==> exists p | p in picks :: Sets(s, p, k))
    && forall j: nat | SetsLast(s, picks, j, k) :: k in ret && ret[k] == SetTo(s, picks[j], k)
  }

  lemma {:induction false} ZerosKeepOthers(ret: Result, typ: string, n: nat, k: string)
    requires n <= 4 && !("bridge" <= k)
    ensures k in ZeroOthers(ret, typ, n) <==> k in ret
    ensures k in ret ==> ZeroOthers(ret, typ, n)[k] == ret[k]
  {
    if n > 0 {
      ZerosKeepOthers(ret, typ, n - 1, k);
      assert "bridge" <= "bridge_" + KINDS[n - 1];
    }
  }

  /** The bridge rule leaves other settings alone. */
  lemma RuleKeepsOthers(name: string, value: Value, ret: Result, k: string)
    requires !("bridge" <= k)
    ensures k in BridgeRule(name, value, ret) <==> k in ret
    ensures k in ret ==> BridgeRule(name, value, ret)[k] == ret[k]
  {
    if IsBridge(name) && Splits(name) && name != "bridge" {
      var typ := SecondPart(name);
      ZerosKeepOthers(ret["bridge" := Text(if typ == "rewards" then "dungeons" else typ)], typ, 4, k);
    }
  }

  lemma PickSets(s: Settings, ret: Result, p: Pick, k: string)
    requires p.key in s && p.index < |s[p.key]| && !("bridge" <= k)
    ensures var after := ApplyPick(ret, p.key, s[p.key][p.index]);
      && (k in after <==> k in ret || Sets(s, p, k))
      && (k in after ==> after[k] == if Sets(s, p, k) then SetTo(s, p, k) else ret[k])
  {
    var v := s[p.key][p.index];
    RuleKeepsOthers(p.key, v.value, ret[p.key := v.value] + v.implies, k);
  }

  lemma {:induction false} ReplaySetsLast(s: Settings, picks: seq<Pick>, k: string)
    requires ValidPicks(s, picks) && !("bridge" <= k)
    ensures IsSetLast(s, picks, Replayed(s, picks), k)
  {
    if picks != [] {
      var n := |picks| - 1;
      var before, p := picks[..n], picks[n];
      assert picks == before + [p];
      ReplaySetsLast(s, before, k);
      PickSets(s, Replayed(s, before), p, k);
      forall j: nat | SetsLast(s, picks, j, k)
        ensures k in Replayed(s, picks) && Replayed(s, picks)[k] == SetTo(s, picks[j], k)
      {
        if j < n {
          assert !Sets(s, picks[n], k);
          assert SetsLast(s, before, j, k);
        }
      }
    }
  }

  /** Every shuffle panics exactly when it picks a bridge setting without an
      underscore in its name; otherwise every setting that is none of the bridge's is
      what the last pick that decides it says. */
  lemma ShuffleSetsLast(s: Settings, keys: seq<string>, costMax: int, o: Oracle, k: string)
    requires o.Shuffles() && KeysOf(s, keys) && !("bridge" <= k)
    ensures var e := Shuffled(s, keys, costMax, o);
      && ValidPicks(s, e.st.picks)
      && (Outcome(e).None? <==> exists p | p in e.st.picks :: "bridge" < p.key && '_' !in p.key)
      && (Outcome(e).Some? ==> IsSetLast(s, e.st.picks, Outcome(e).value, k))
  {
    ShuffleIsReplay(s, keys, costMax, o);
    var e := Shuffled(s, keys, costMax, o);
    ReplaySetsLast(s, e.st.picks, k);
    forall p | p in e.st.picks ensures !Splits(p.key) <==> "bridge" < p.key && '_' !in p.key {
    }
  }
}
