/** Bridge coherence: the settings of the rainbow bridge exclude each other, at
    every step of a shuffle. */
module Bridge {
  import opened Settings
  import opened Sampler

  function NameOf(kind: string): string {
    "bridge_" + kind
  }

  predicate BridgeKey(k: string) {
    k == "bridge" || exists kind | kind in KINDS :: k == NameOf(kind)
  }

  predicate OpenOrVanilla(v: Value) {
    v == Text("open") || v == Text("vanilla")
  }

  ghost predicate NoBridge(ret: map<string, Value>) {
    forall k | k in ret :: !BridgeKey(k)
  }

  /** Only the five known bridge settings exist, none is implied by a value, and
      "bridge" itself can only become open or vanilla. */
  ghost predicate KnownBridges(s: Settings) {
    && (forall k | k in s && IsBridge(k) :: BridgeKey(k))
    && (forall k, i | k in s && 0 <= i < |s[k]| :: NoBridge(s[k][i].implies))
    && ("bridge" in s ==> forall i | 0 <= i < |s["bridge"]| && s["bridge"][i].weight > 0.0 ::
      OpenOrVanilla(s["bridge"][i].value))
  }

  function Shown(kind: string): string {
    if kind == "rewards" then "dungeons" else kind
  }

  /** All five settings are there, those that were not picked are 0, and
      "bridge" names the kind that was picked. */
  ghost predicate Decided(ret: Result, key: string, value: Value) {
    && key in ret && ret[key] == value
    && "bridge" in ret
    && (forall kind | kind in KINDS :: NameOf(kind) in ret)
    && (forall kind | kind in KINDS && key != NameOf(kind) :: ret[NameOf(kind)] == Number(0))
    && (forall kind | kind in KINDS && key == NameOf(kind) :: ret["bridge"] == Text(Shown(kind)))
  }

  // ------------------------------------------------------------------- names

  lemma {:induction false} AfterFirst(a: string, c: char, b: string)
    requires c !in a
    ensures After(a + [c] + b, c) == b
  {
    if a == [] {
      assert (a + [c] + b)[1..] == b;
    } else {
      AfterFirst(a[1..], c, b);
      assert (a + [c] + b)[1..] == a[1..] + [c] + b;
    }
  }

  lemma {:induction false} BeforeNone(a: string, c: char)
    requires c !in a
    ensures Before(a, c) == a
  {
    if a != [] {
      BeforeNone(a[1..], c);
    }
  }

  lemma SecondPartOfName(kind: string)
    requires '_' !in kind
    ensures '_' in NameOf(kind) && IsBridge(NameOf(kind)) && NameOf(kind) != "bridge"
    ensures SecondPart(NameOf(kind)) == kind
  {
    assert NameOf(kind) == "bridge" + ['_'] + kind;
    assert NameOf(kind)[6] == '_';
    AfterFirst("bridge", '_', kind);
    BeforeNone(kind, '_');
  }

  lemma NamesDiffer(a: string, b: string)
    requires NameOf(a) == NameOf(b)
    ensures a == b
  {
    assert NameOf(a)[7..] == a && NameOf(b)[7..] == b;
  }

  lemma Names()
    ensures NameOf(KINDS[0]) == "bridge_stones" && NameOf(KINDS[1]) == "bridge_medallions"
    ensures NameOf(KINDS[2]) == "bridge_rewards" && NameOf(KINDS[3]) == "bridge_tokens"
  {
  }

  lemma KindsHaveNoUnderscore(kind: string)
    requires kind in KINDS
    ensures '_' !in kind
  {
  }

  // -------------------------------------------------------------- bridge rule

  lemma {:induction false} OthersAreZero(ret: Result, typ: string, n: nat)
    requires n <= 4
    ensures var r := ZeroOthers(ret, typ, n);
      && (forall k | k in ret :: k in r)
      && (forall j | 0 <= j < n && KINDS[j] != typ :: NameOf(KINDS[j]) in r && r[NameOf(KINDS[j])] == Number(0))
      && (forall k | k in ret && (k == "bridge" || k == NameOf(typ)) :: r[k] == ret[k])
  {
    if n > 0 {
      OthersAreZero(ret, typ, n - 1);
      if NameOf(KINDS[n - 1]) == NameOf(typ) {
        NamesDiffer(KINDS[n - 1], typ);
      }
    }
  }

  /** Picking a bridge setting decides the bridge, except for a "bridge" that is
      neither open nor vanilla. */
  lemma BridgePickDecides(ret: Result, key: string, v: PossibleValue)
    requires BridgeKey(key) && NoBridge(ret) && NoBridge(v.implies)
    ensures IsBridge(key) && Splits(key)
    ensures Decided(ApplyPick(ret, key, v), key, v.value) <==> (key == "bridge" ==> OpenOrVanilla(v.value))
  {
    var base := ret[key := v.value] + v.implies;
    assert key !in v.implies;
    if key == "bridge" {
      Names();
      assert BridgeKey(NameOf(KINDS[0]));
    } else {
      var kind :| kind in KINDS && key == NameOf(kind);
      KindPickDecides(base, kind, v.value);
    }
  }

  lemma KindPickDecides(base: Result, kind: string, value: Value)
    requires kind in KINDS && NameOf(kind) in base && base[NameOf(kind)] == value
    ensures IsBridge(NameOf(kind)) && NameOf(kind) != "bridge" && '_' in NameOf(kind)
    ensures Decided(BridgeRule(NameOf(kind), value, base), NameOf(kind), value)
  {
    KindsHaveNoUnderscore(kind);
    SecondPartOfName(kind);
    var r := base["bridge" := Text(Shown(kind))];
    assert r[NameOf(kind)] == value;
    OthersAreZero(r, kind, 4);
    assert BridgeRule(NameOf(kind), value, base) == ZeroOthers(r, kind, 4);
    forall other | other in KINDS && NameOf(kind) == NameOf(other) ensures other == kind {
      NamesDiffer(kind, other);
    }
  }

  // ----------------------------------------------------------------- the picks

  function BridgePicks(picks: seq<Pick>): seq<Pick> {
    if picks == [] then []
    else
      var p := picks[|picks| - 1];
      BridgePicks(picks[..|picks| - 1]) + if IsBridge(p.key) then [p] else []
  }

  /** No bridge setting has a value, or exactly one was picked and decides all. */
  ghost predicate Coherent(s: Settings, picks: seq<Pick>)
    requires ValidPicks(s, picks)
  {
    var ret, bridges := Replayed(s, picks), BridgePicks(picks);
    || (bridges == [] && NoBridge(ret))
    || (|bridges| == 1 && bridges[0] in picks && BridgeKey(bridges[0].key) &&
        Decided(ret, bridges[0].key, s[bridges[0].key][bridges[0].index].value))
  }

  lemma OtherPickKeeps(ret: Result, key: string, v: PossibleValue)
    requires !IsBridge(key) && NoBridge(v.implies)
    ensures !BridgeKey(key)
    ensures NoBridge(ret) ==> NoBridge(ApplyPick(ret, key, v))
    ensures forall k | k in ret && BridgeKey(k) :: k in ApplyPick(ret, key, v) && ApplyPick(ret, key, v)[k] == ret[k]
  {
    forall kind ensures key != NameOf(kind) {
      assert "bridge" <= NameOf(kind);
    }
  }

  lemma DecidedIsKept(ret: Result, next: Result, key: string, value: Value)
    requires BridgeKey(key) && Decided(ret, key, value)
    requires forall k | k in ret && BridgeKey(k) :: k in next && next[k] == ret[k]
    ensures Decided(next, key, value)
  {
    assert forall kind | kind in KINDS :: BridgeKey(NameOf(kind));
  }

  lemma {:induction false} BridgePickIsFirst(s: Settings, before: seq<Pick>, p: Pick)
    requires ValidPicks(s, before) && Coherent(s, before)
    requires BridgeKey(p.key) && p.key !in Replayed(s, before)
    ensures BridgePicks(before) == [] && NoBridge(Replayed(s, before))
  {
  }

  lemma OtherPickIsCoherent(s: Settings, before: seq<Pick>, p: Pick)
    requires ValidPicks(s, before) && Coherent(s, before) && ValidPicks(s, before + [p])
    requires KnownBridges(s) && !IsBridge(p.key)
    ensures Coherent(s, before + [p])
  {
    var picks, ret, v, bridges := before + [p], Replayed(s, before), s[p.key][p.index], BridgePicks(before);
    assert picks[..|before|] == before;
    assert BridgePicks(picks) == bridges;
    assert Replayed(s, picks) == ApplyPick(ret, p.key, v);
    OtherPickKeeps(ret, p.key, v);
    if |bridges| == 1 && bridges[0] in before {
      var b := bridges[0];
      assert BridgeKey(b.key);
      DecidedIsKept(ret, Replayed(s, picks), b.key, s[b.key][b.index].value);
    }
  }

  lemma {:induction false} PicksAreCoherent(s: Settings, picks: seq<Pick>)
    requires ValidPicks(s, picks) && Fresh(s, picks) && KnownBridges(s)
    ensures Coherent(s, picks)
  {
    if picks != [] {
      var n := |picks| - 1;
      var p, before := picks[n], picks[..n];
      PicksAreCoherent(s, before);
      assert p in picks;
      if IsBridge(p.key) {
        BridgePickIsFirst(s, before, p);
        BridgePickDecides(Replayed(s, before), p.key, s[p.key][p.index]);
      } else {
        OtherPickIsCoherent(s, before, p);
      }
    }
  }

  /** Bridge coherence, after any number of the picks of any shuffle. */
  lemma BridgeIsCoherent(s: Settings, keys: seq<string>, costMax: int, o: Oracle, n: nat)
    requires o.Shuffles() && KeysOf(s, keys) && KnownBridges(s)
    ensures var st := Shuffled(s, keys, costMax, o).st;
      n <= |st.picks| ==> ValidPicks(s, st.picks[..n]) && Coherent(s, st.picks[..n])
  {
    var picks := Shuffled(s, keys, costMax, o).st.picks;
    ShuffleIsReplay(s, keys, costMax, o);
    if n <= |picks| {
      FreshPrefix(s, picks, n);
      PicksAreCoherent(s, picks[..n]);
    }
  }
}
