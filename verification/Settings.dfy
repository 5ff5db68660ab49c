/** Shuffled settings: a random choice of setting values under a budget. The
    random source is an oracle; weights are exact. */
module Settings {
  import opened Rows
  import opened Sequences

  datatype Value = Text(text: string) | Number(number: int) | Flag(flag: bool)

  datatype PossibleValue = PossibleValue(value: Value, cost: int, weight: real, implies: map<string, Value>)

  type Settings = map<string, seq<PossibleValue>>
  type Result = map<string, Value>

  /** For each pass the order in which it goes through the keys, and for each
      draw so far the next number. */
  datatype Oracle = Oracle(order: (nat, seq<string>) -> seq<string>, draw: nat -> real)
  {
    ghost predicate Shuffles() {
      forall pass: nat, keys: seq<string> {:trigger order(pass, keys)} :: multiset(order(pass, keys)) == multiset(keys)
    }
  }

  /** Value number `index` of setting `key` was chosen. */
  datatype Pick = Pick(key: string, index: nat)

  /** The sampler between two draws. */
  datatype State = State(ret: Result, costSum: int, drawn: nat, picks: seq<Pick>)

  const START := State(map[], 0, 0, [])

  const MAX_ITERATIONS: nat := 1000

  function Abs(v: int): int {
    if v < 0 then -v else v
  }

  // ---------------------------------------------------------- bridge settings

  predicate IsBridge(name: string) {
    "bridge" <= name
  }

  function Before(s: string, c: char): string {
    if s == [] || s[0] == c then [] else [s[0]] + Before(s[1..], c)
  }

  function After(s: string, c: char): string
    requires c in s
  {
    if s[0] == c then s[1..] else After(s[1..], c)
  }

  /** The part of a name between its first and second underscores. */
  function SecondPart(name: string): string
    requires '_' in name
  {
    Before(After(name, '_'), '_')
  }

  const KINDS := ["stones", "medallions", "rewards", "tokens"]

  /** All the bridge settings of other kinds are set to 0. */
  function ZeroOthers(ret: Result, typ: string, n: nat): Result
    requires n <= 4
  {
    if n == 0 then ret
    else
      var r := ZeroOthers(ret, typ, n - 1);
      if KINDS[n - 1] != typ then r["bridge_" + KINDS[n - 1] := Number(0)] else r
  }

  /** A name with the parts the bridge rule asks for. */
  predicate Splits(name: string) {
    IsBridge(name) && name != "bridge" ==> '_' in name
  }

  /** A bridge setting whose name does not split is a panic; here it changes
      nothing. */
  function BridgeRule(name: string, value: Value, ret: Result): Result {
    if !IsBridge(name) || !Splits(name) then ret
    else if name == "bridge" then
      if value == Text("open") || value == Text("vanilla") then
        ret["bridge_tokens" := Number(0)]["bridge_stones" := Number(0)]
           ["bridge_rewards" := Number(0)]["bridge_medallions" := Number(0)]
      else ret
    else
      var typ := SecondPart(name);
      ZeroOthers(ret["bridge" := Text(if typ == "rewards" then "dungeons" else typ)], typ, 4)
  }

  /** A run with such a pick ends in the panic. */
  predicate Panics(picks: seq<Pick>) {
    exists p | p in picks :: !Splits(p.key)
  }

  method HandleBridgeSettings(name: string, value: Value, before: Result) returns (ret: Result)
    requires Splits(name)
    ensures ret == BridgeRule(name, value, before)
  {
    ret := before;
    if !IsBridge(name) {
      return;
    }
    if name == "bridge" {
      if !value.Text? {
        return;
      }
      if value.text != "open" && value.text != "vanilla" {
        return;
      }
      ret := ret["bridge_tokens" := Number(0)];
      ret := ret["bridge_stones" := Number(0)];
      ret := ret["bridge_rewards" := Number(0)];
      ret := ret["bridge_medallions" := Number(0)];
      return;
    }
    var typ := SecondPart(name);
    if typ == "rewards" {
      ret := ret["bridge" := Text("dungeons")];
    } else {
      ret := ret["bridge" := Text(typ)];
    }
    ghost var base := ret;
    for v := 0 to 4
      invariant ret == ZeroOthers(base, typ, v)
    {
      if KINDS[v] != typ {
        ret := ret["bridge_" + KINDS[v] := Number(0)];
      }
    }
  }

  // ----------------------------------------------------------- one choice

  /** A value is set, then what it implies, then the bridge rule. */
  function ApplyPick(ret: Result, key: string, v: PossibleValue): Result {
    BridgeRule(key, v.value, ret[key := v.value] + v.implies)
  }

  /** A draw that leaves the value out; dividing by a sum of zero leaves none. */
  predicate NotSelected(draw: real, weight: real, weightSum: real) {
    weightSum != 0.0 && draw > weight / weightSum
  }

  /** The loop over the values of one setting, from value `i` on. */
  function TryValues(s: Settings, o: Oracle, weightSum: real, budget: int, st: State, k: string, i: nat): State
    requires k in s && i <= |s[k]|
    decreases |s[k]| - i
  {
    if i == |s[k]| then st
    else
      var v := s[k][i];
      if v.weight <= 0.0 then TryValues(s, o, weightSum, budget, st, k, i + 1)
      else
        var next := st.(drawn := st.drawn + 1);
        if NotSelected(o.draw(st.drawn), v.weight, weightSum) || st.costSum + v.cost > budget then
          TryValues(s, o, weightSum, budget, next, k, i + 1)
        else
          next.(ret := ApplyPick(st.ret, k, v), costSum := st.costSum + v.cost, picks := st.picks + [Pick(k, i)])
  }

  function TryKey(s: Settings, o: Oracle, weightSum: real, budget: int, st: State, k: string): State
    requires k in s
  {
    if k in st.ret then st else TryValues(s, o, weightSum, budget, st, k, 0)
  }

  /** One pass over all settings. */
  function Pass(s: Settings, o: Oracle, weightSum: real, budget: int, st: State, keys: seq<string>): State
    requires forall k | k in keys :: k in s
    decreases |keys|
  {
    if keys == [] then st
    else Pass(s, o, weightSum, budget, TryKey(s, o, weightSum, budget, st, keys[0]), keys[1..])
  }

  ghost predicate KeysOf(s: Settings, keys: seq<string>) {
    forall k :: k in keys <==> k in s
  }

  /** The sampler between two passes. */
  datatype Progress = Progress(st: State, tolerance: nat, iterations: nat)

  const BEGINNING := Progress(START, 0, 0)

  /** The budget is not matched and another pass may be made. */
  predicate Unsatisfied(costMax: int, p: Progress) {
    Abs(costMax - p.st.costSum) > p.tolerance && p.iterations < MAX_ITERATIONS
  }

  /** Passes until the budget is matched or too many were made. The tolerance
      grows with the passes. */
  function Passes(s: Settings, o: Oracle, weightSum: real, costMax: int, p: Progress, keys: seq<string>): Progress
    requires o.Shuffles() && KeysOf(s, keys)
    decreases MAX_ITERATIONS - p.iterations
  {
    if Unsatisfied(costMax, p) then
      var shuffled := o.order(p.iterations, keys);
      ShuffledKeys(s, o, p.iterations, keys);
      Passes(s, o, weightSum, costMax, AfterPass(s, o, weightSum, costMax, p, shuffled), shuffled)
    else p
  }

  /** One pass, and the tolerance of the next one. */
  function AfterPass(s: Settings, o: Oracle, weightSum: real, costMax: int, p: Progress, keys: seq<string>): Progress
    requires forall k | k in keys :: k in s
  {
    Progress(Pass(s, o, weightSum, costMax - p.tolerance, p.st, keys), p.iterations / 100, p.iterations + 1)
  }

  lemma ShuffledKeys(s: Settings, o: Oracle, pass: nat, keys: seq<string>)
    requires o.Shuffles() && KeysOf(s, keys)
    ensures KeysOf(s, o.order(pass, keys))
  {
    var shuffled := o.order(pass, keys);
    assert forall k :: k in shuffled <==> k in multiset(shuffled);
    assert forall k :: k in keys <==> k in multiset(keys);
  }

  // ------------------------------------------------------------- weights

  function WeightOf(values: seq<PossibleValue>): real {
    if values == [] then 0.0 else WeightOf(values[..|values| - 1]) + values[|values| - 1].weight
  }

  function WeightSum(s: Settings, keys: seq<string>): real
    requires forall k | k in keys :: k in s
  {
    if keys == [] then 0.0 else WeightSum(s, keys[..|keys| - 1]) + WeightOf(s[keys[|keys| - 1]])
  }

  /** Each value adds its weight. */
  lemma {:induction false} WeightOfWithout(values: seq<PossibleValue>, i: nat)
    requires i < |values|
    ensures WeightOf(values) == WeightOf(Drop(values, i)) + values[i].weight
  {
    var n := |values| - 1;
    if i == n {
      assert Drop(values, i) == values[..n];
    } else {
      WeightOfWithout(values[..n], i);
      var rest := Drop(values, i);
      assert rest[..|rest| - 1] == Drop(values[..n], i) && rest[|rest| - 1] == values[n];
    }
  }

  lemma {:induction false} WeightSumWithout(s: Settings, keys: seq<string>, i: nat)
    requires forall k | k in keys :: k in s
    requires i < |keys|
    ensures forall k | k in Drop(keys, i) :: k in s
    ensures WeightSum(s, keys) == WeightSum(s, Drop(keys, i)) + WeightOf(s[keys[i]])
  {
    var n := |keys| - 1;
    if i == n {
      assert Drop(keys, i) == keys[..n];
    } else {
      WeightSumWithout(s, keys[..n], i);
      var rest := Drop(keys, i);
      assert rest[..|rest| - 1] == Drop(keys[..n], i);
      assert rest[|rest| - 1] == keys[n];
    }
  }

  /** With exact weights, the order of the keys does not matter. */
  lemma {:induction false} WeightSumAnyOrder(s: Settings, a: seq<string>, b: seq<string>)
    requires forall k | k in a :: k in s
    requires forall k | k in b :: k in s
    requires multiset(a) == multiset(b)
    ensures WeightSum(s, a) == WeightSum(s, b)
  {
    if a == [] {
      assert |multiset(b)| == 0;
    } else {
      var i := FindLast(a, b);
      WeightSumWithout(s, b, i);
      WeightSumAnyOrder(s, a[..|a| - 1], Drop(b, i));
    }
  }

  /** Adds up the weights in whatever order the map gives its keys. */
  method SumWeights(s: Settings, ghost keys: seq<string>) returns (sum: real)
    requires Distinct(keys) && KeysOf(s, keys)
    ensures sum == WeightSum(s, keys)
  {
    sum := 0.0;
    ghost var seen: seq<string> := [];
    var todo := s.Keys;
    while todo != {}
      invariant todo <= s.Keys && Distinct(seen)
      invariant forall k :: k in seen <==> k in s && k !in todo
      invariant sum == WeightSum(s, seen)
    {
      var k :| k in todo;
      for i := 0 to |s[k]|
        invariant sum == WeightSum(s, seen) + WeightOf(s[k][..i])
      {
        assert s[k][..i + 1][..i] == s[k][..i];
        sum := sum + s[k][i].weight;
      }
      assert s[k][..|s[k]|] == s[k];
      assert (seen + [k])[..|seen|] == seen;
      seen := seen + [k];
      todo := todo - {k};
    }
    SameDistinct(seen, keys);
    WeightSumAnyOrder(s, seen, keys);
  }

  // ------------------------------------------------------------ sorted keys

  /** The order of strings. */
  predicate Less(a: string, b: string) {
    b != [] && (a == [] || a[0] < b[0] || (a[0] == b[0] && Less(a[1..], b[1..])))
  }

  lemma {:induction false} LessOrder(a: string, b: string, c: string)
    ensures Less(a, b) || Less(b, a) || a == b
    ensures Less(a, b) && Less(b, c) ==> Less(a, c)
    ensures !(Less(a, b) && Less(b, a)) && !Less(a, a)
  {
    if a != [] {
      LessOrder(a[1..], if b == [] then [] else b[1..], if c == [] then [] else c[1..]);
      if b != [] && a[0] == b[0] && a[1..] == b[1..] {
        assert a == [a[0]] + a[1..] == b;
      }
    }
  }

  ghost predicate Sorted(keys: seq<string>) {
    forall i, j | 0 <= i < j < |keys| :: Less(keys[i], keys[j])
  }

  method SortedKeys(s: Settings) returns (keys: seq<string>)
    ensures Sorted(keys) && KeysOf(s, keys)
  {
    keys := [];
    var todo := s.Keys;
    while todo != {}
      invariant todo <= s.Keys && Sorted(keys)
      invariant forall k :: k in keys <==> k in s && k !in todo
    {
      var k :| k in todo;
      keys := Inserted(keys, k);
      todo := todo - {k};
    }
  }

  method Inserted(keys: seq<string>, k: string) returns (r: seq<string>)
    requires Sorted(keys) && k !in keys
    ensures Sorted(r) && forall x :: x in r <==> x in keys || x == k
  {
    var i := 0;
    while i < |keys| && Less(keys[i], k)
      invariant 0 <= i <= |keys| && forall j | 0 <= j < i :: Less(keys[j], k)
    {
      i := i + 1;
    }
    r := keys[..i] + [k] + keys[i..];
    forall j | i <= j < |keys| ensures Less(k, keys[j]) {
      LessOrder(keys[i], k, k);
      LessOrder(k, keys[i], keys[j]);
    }
  }

  lemma SortedIsDistinct(keys: seq<string>)
    requires Sorted(keys)
    ensures Distinct(keys)
  {
    forall i, j | 0 <= i < j < |keys| ensures keys[i] != keys[j] {
      LessOrder(keys[i], keys[j], keys[j]);
    }
  }

  /** There is only one sorted list of the keys. */
  lemma {:induction false} SortedOnce(a: seq<string>, b: seq<string>)
    requires Sorted(a) && Sorted(b) && forall k :: k in a <==> k in b
    ensures a == b
  {
    var first := if b != [] then b[0] else "";
    assert b != [] ==> first in b;
    if a != [] {
      assert a[0] in a && a[0] in b;
      assert b[0] in b && b[0] in a;
      LessOrder(a[0], b[0], a[0]);
      SortedIsDistinct(a);
      SortedIsDistinct(b);
      forall k ensures k in a[1..] <==> k in b[1..] {
        assert k in a[1..] <==> k in a && k != a[0];
        assert k in b[1..] <==> k in b && k != b[0];
      }
      SortedOnce(a[1..], b[1..]);
    }
  }

  // ---------------------------------------------------------------- sampling

  function Shuffled(s: Settings, keys: seq<string>, costMax: int, o: Oracle): Progress
    requires o.Shuffles() && KeysOf(s, keys)
  {
    Passes(s, o, WeightSum(s, keys), costMax, BEGINNING, keys)
  }

  /** The picks made before stay. */
  lemma {:induction false} PassKeepsPicks(s: Settings, o: Oracle, weightSum: real, budget: int, st: State,
                                          keys: seq<string>)
    requires forall k | k in keys :: k in s
    ensures st.picks <= Pass(s, o, weightSum, budget, st, keys).picks
    decreases |keys|
  {
    if keys != [] {
      ValuesKeepPicks(s, o, weightSum, budget, st, keys[0], 0);
      PassKeepsPicks(s, o, weightSum, budget, TryKey(s, o, weightSum, budget, st, keys[0]), keys[1..]);
    }
  }

  lemma {:induction false} ValuesKeepPicks(s: Settings, o: Oracle, weightSum: real, budget: int, st: State, k: string,
                                           i: nat)
    requires k in s && i <= |s[k]|
    ensures st.picks <= TryValues(s, o, weightSum, budget, st, k, i).picks
    decreases |s[k]| - i
  {
    if i < |s[k]| {
      ValuesKeepPicks(s, o, weightSum, budget, st, k, i + 1);
      ValuesKeepPicks(s, o, weightSum, budget, st.(drawn := st.drawn + 1), k, i + 1);
    }
  }

  lemma {:induction false} PassesKeepPicks(s: Settings, o: Oracle, weightSum: real, costMax: int, p: Progress,
                                           keys: seq<string>)
    requires o.Shuffles() && KeysOf(s, keys)
    ensures p.st.picks <= Passes(s, o, weightSum, costMax, p, keys).st.picks
    decreases MAX_ITERATIONS - p.iterations
  {
    if Unsatisfied(costMax, p) {
      var shuffled := o.order(p.iterations, keys);
      ShuffledKeys(s, o, p.iterations, keys);
      PassKeepsPicks(s, o, weightSum, costMax - p.tolerance, p.st, shuffled);
      PassesKeepPicks(s, o, weightSum, costMax, AfterPass(s, o, weightSum, costMax, p, shuffled), shuffled);
    }
  }

  lemma StillPanics(a: seq<Pick>, b: seq<Pick>)
    requires Panics(a) && a <= b
    ensures Panics(b)
  {
    var p :| p in a && !Splits(p.key);
    assert p in b;
  }

  lemma {:induction false} PanicStays(s: Settings, o: Oracle, weightSum: real, costMax: int, p: Progress,
                                      keys: seq<string>)
    requires o.Shuffles() && KeysOf(s, keys) && Panics(p.st.picks)
    ensures Panics(Passes(s, o, weightSum, costMax, p, keys).st.picks)
  {
    PassesKeepPicks(s, o, weightSum, costMax, p, keys);
    StillPanics(p.st.picks, Passes(s, o, weightSum, costMax, p, keys).st.picks);
  }

  /** Goes through the values of one setting. */
  method TrySetting(s: Settings, o: Oracle, weightSum: real, budget: int, before: State, k: string)
    returns (st: State, panic: bool)
    requires k in s && !Panics(before.picks)
    ensures panic <==> Panics(TryKey(s, o, weightSum, budget, before, k).picks)
    ensures !panic ==> st == TryKey(s, o, weightSum, budget, before, k)
  {
    st, panic := before, false;
    if k in st.ret {
      return;
    }
    for i := 0 to |s[k]|
      invariant TryValues(s, o, weightSum, budget, st, k, i) == TryValues(s, o, weightSum, budget, before, k, 0)
      invariant st.ret == before.ret && st.costSum == before.costSum && st.picks == before.picks && !panic
    {
      var v := s[k][i];
      if v.weight <= 0.0 {
        continue;
      }
      var draw := o.draw(st.drawn);
      st := st.(drawn := st.drawn + 1);
      if NotSelected(draw, v.weight, weightSum) {
        continue;
      }
      var newCost := st.costSum + v.cost;
      if newCost > budget {
        continue;
      }
      ghost var picks := before.picks + [Pick(k, i)];
      assert forall p :: p in picks <==> p in before.picks || p == Pick(k, i);
      if !Splits(k) {
        assert Panics(picks);
        return st, true;
      }
      var ret := st.ret[k := v.value];
      ret := WithImplied(ret, v.implies);
      ret := HandleBridgeSettings(k, v.value, ret);
      st := st.(ret := ret, costSum := newCost, picks := st.picks + [Pick(k, i)]);
      return;
    }
  }

  /** Sets what a value implies, in whatever order the map gives it. */
  method WithImplied(before: Result, implies: map<string, Value>) returns (ret: Result)
    ensures ret == before + implies
  {
    ret := before;
    var todo := implies.Keys;
    while todo != {}
      invariant todo <= implies.Keys
      invariant ret == before + (map k | k in implies && k !in todo :: implies[k])
    {
      var k :| k in todo;
      ret := ret[k := implies[k]];
      todo := todo - {k};
    }
    assert implies == map k | k in implies :: implies[k];
  }

  /** One pass over all settings. */
  method TrySettings(s: Settings, o: Oracle, weightSum: real, budget: int, before: State, keys: seq<string>)
    returns (st: State, panic: bool)
    requires !Panics(before.picks) && forall k | k in keys :: k in s
    ensures panic <==> Panics(Pass(s, o, weightSum, budget, before, keys).picks)
    ensures !panic ==> st == Pass(s, o, weightSum, budget, before, keys)
  {
    st, panic := before, false;
    for j := 0 to |keys|
      invariant !panic && !Panics(st.picks)
      invariant Pass(s, o, weightSum, budget, st, keys[j..]) == Pass(s, o, weightSum, budget, before, keys)
    {
      assert keys[j..][0] == keys[j] && keys[j..][1..] == keys[j + 1..];
      ghost var next := TryKey(s, o, weightSum, budget, st, keys[j]);
      st, panic := TrySetting(s, o, weightSum, budget, st, keys[j]);
      if panic {
        PassKeepsPicks(s, o, weightSum, budget, next, keys[j + 1..]);
        StillPanics(next.picks, Pass(s, o, weightSum, budget, before, keys).picks);
        return;
      }
    }
  }

  /** What is returned at the end of a run. */
  function Outcome(e: Progress): Option<Result> {
    if Panics(e.st.picks) then None else Some(e.st.ret)
  }

  /** `None` is the panic on a picked bridge setting without an underscore. The
      result is a function of the settings, the budget and the draws: the order
      in which maps are gone through does not show. */
  method Shuffle(s: Settings, costMax: int, o: Oracle) returns (ret: Option<Result>)
    requires o.Shuffles()
    ensures exists keys :: Sorted(keys) && KeysOf(s, keys) && ret == Outcome(Shuffled(s, keys, costMax, o))
  {
    var keys := SortedKeys(s);
    SortedIsDistinct(keys);
    var weightSum := SumWeights(s, keys);
    ret := ShufflePasses(s, costMax, o, weightSum, keys);
  }

  /** Passes over the keys, from the sorted ones on. */
  method ShufflePasses(s: Settings, costMax: int, o: Oracle, weightSum: real, keys: seq<string>)
    returns (ret: Option<Result>)
    requires o.Shuffles() && KeysOf(s, keys)
    ensures ret == Outcome(Passes(s, o, weightSum, costMax, BEGINNING, keys))
  {
    ghost var end := Passes(s, o, weightSum, costMax, BEGINNING, keys);
    var current := keys;
    var tolerance: nat, iterations: nat, st := 0, 0, START;
    while Abs(costMax - st.costSum) > tolerance && iterations < MAX_ITERATIONS
      invariant KeysOf(s, current) && !Panics(st.picks)
      invariant Passes(s, o, weightSum, costMax, Progress(st, tolerance, iterations), current) == end
      decreases MAX_ITERATIONS - iterations
    {
      ghost var p := Progress(st, tolerance, iterations);
      assert Unsatisfied(costMax, p);
      ShuffledKeys(s, o, iterations, current);
      current := o.order(iterations, current);
      ghost var next := AfterPass(s, o, weightSum, costMax, p, current);
      var panic;
      st, panic := TrySettings(s, o, weightSum, costMax - tolerance, st, current);
      if panic {
        PanicStays(s, o, weightSum, costMax, next, current);
        return None;
      }
      tolerance := iterations / 100;
      iterations := iterations + 1;
    }
    ret := Some(st.ret);
  }

  /** Two runs with the same draws give the same result. */
  lemma SameDraws(s: Settings, costMax: int, o: Oracle, a: seq<string>, b: seq<string>)
    requires o.Shuffles()
    requires Sorted(a) && KeysOf(s, a) && Sorted(b) && KeysOf(s, b)
    ensures Shuffled(s, a, costMax, o) == Shuffled(s, b, costMax, o)
  {
    SortedOnce(a, b);
  }
}
