/** Whole runs of the storage engine: commands, sweeper passes and changes of the memory limit in any order. */
module EngineRuns {
  import opened Machine
  import opened Keyspace
  import KeyspaceLaws
  import opened Accounting
  import opened Engine
  import opened EngineLaws
  import opened EngineRefinement

  datatype Action =
    | Execute(command: Command, now: nat, gone: set<string>)
    | SweepShard(shard: nat, seen: set<string>, now: nat)
    | SetLimit(bytes: nat)

  ghost predicate Legal(cfg: Config, st: State, a: Action)
    requires cfg.Shaped(st.shards)
  {
    match a
    case Execute(c, now, gone) => cfg.Possible(st, c, now, gone)
    case SweepShard(i, seen, _) => i < cfg.numShards && |seen| <= 20
    case SetLimit(_) => true
  }

  ghost function Step(cfg: Config, st: State, a: Action): State
    requires cfg.Shaped(st.shards) && Legal(cfg, st, a)
  {
    match a
    case Execute(c, now, gone) => cfg.After(st, c, now, gone)
    case SweepShard(i, seen, now) => cfg.Sweep(st, i, seen, now)
    case SetLimit(bytes) => st.(limit := bytes)
  }

  lemma StepKeeps(cfg: Config, st: State, a: Action)
    requires Sound(cfg, st) && Legal(cfg, st, a)
    ensures Sound(cfg, Step(cfg, st, a))
  {
    match a
    case Execute(c, now, gone) => CommandKeeps(cfg, st, c, now, gone);
    case SweepShard(i, seen, now) => SweepKeeps(cfg, st, i, seen, now);
    case SetLimit(_) =>
  }

  ghost predicate Leads(cfg: Config, a: State, action: Action, b: State) {
    cfg.Shaped(a.shards) && Legal(cfg, a, action) && b == Step(cfg, a, action)
  }

  /** `trace` lists the states of a run, the first included. */
  ghost predicate IsRun(cfg: Config, trace: seq<State>, actions: seq<Action>) {
    && |trace| == |actions| + 1
    && forall i :: 0 <= i < |actions| ==>
         && cfg.Shaped(trace[i].shards) && Legal(cfg, trace[i], actions[i])
         && trace[i + 1] == Step(cfg, trace[i], actions[i])
  }

  lemma InitialIsSound(cfg: Config)
    requires cfg.numShards > 0
    ensures Sound(cfg, cfg.Initial()) && cfg.Union(cfg.Initial().shards) == map[]
  {
    EmptyShards(cfg.capacity, cfg.Initial().shards);
    assert cfg.AllKeys(cfg.Initial().shards) == {};
  }

  lemma {:induction false} EmptyShards(capacity: string -> nat, s: seq<Dict>)
    requires forall i :: 0 <= i < |s| ==> s[i] == map[]
    ensures SumTotals(capacity, s) == 0 && Held(s) == 0
    decreases |s|
  {
    if s != [] {
      EmptyShards(capacity, s[1..]);
    }
  }

  /** In every reachable state each key is in its hash shard only, the counter is the cost of all entries less
      the drift, no key is unaccounted for, and every key looked up was a hit or a miss. */
  lemma {:induction false} EveryStateIsSound(cfg: Config, trace: seq<State>, actions: seq<Action>, n: nat)
    requires IsRun(cfg, trace, actions) && n < |trace| && cfg.numShards > 0 && trace[0] == cfg.Initial()
    ensures Sound(cfg, trace[n])
    decreases n
  {
    if n == 0 {
      InitialIsSound(cfg);
    } else {
      EveryStateIsSound(cfg, trace, actions, n - 1);
      StepKeeps(cfg, trace[n - 1], actions[n - 1]);
    }
  }

  // ---------- the drift ----------

  /** The write succeeds, and evicts the very key it overwrites. */
  ghost predicate SelfEvicts(cfg: Config, st: State, a: Action)
    requires cfg.Shaped(st.shards)
  {
    a.Execute? &&
    match cfg.Writes(st, a.command, a.now)
    case None => false
    case Some((s, e)) => a.command.key in a.gone && cfg.Fits(s, a.command.key, e.value)
  }

  /** What an action makes the counter lose: the old cost of the key, when the write evicts that very key. */
  ghost function SelfEvicted(cfg: Config, st: State, a: Action): nat
    requires cfg.Shaped(st.shards)
  {
    if !SelfEvicts(cfg, st, a) then 0
    else
      var s := cfg.Writes(st, a.command, a.now).value.0;
      cfg.OldCost(cfg.Shard(s.shards, a.command.key), a.command.key)
  }

  /** It always loses something. */
  lemma SelfEvictionCosts(cfg: Config, st: State, a: Action)
    requires cfg.Shaped(st.shards) && Legal(cfg, st, a)
    ensures SelfEvicts(cfg, st, a) <==> SelfEvicted(cfg, st, a) > 0
  {
  }

  lemma {:induction false} ReadersDoNotDrift(cfg: Config, st: State, keys: seq<string>, now: nat)
    requires cfg.Shaped(st.shards)
    ensures cfg.LookUpAll(st, keys, now).ledger.drift == cfg.DeleteAll(st, keys).ledger.drift == st.ledger.drift
  {
    if keys != [] {
      ReadersDoNotDrift(cfg, st, keys[..|keys| - 1], now);
    }
  }

  lemma WriteDrift(cfg: Config, st: State, key: string, e: Entry, gone: set<string>)
    requires cfg.Placed(st.shards) && cfg.Evictable(st, key, e.value, gone)
    ensures cfg.Write(st, key, e, gone).ledger.drift ==
            st.ledger.drift + if key in gone && cfg.Fits(st, key, e.value)
                              then cfg.OldCost(cfg.Shard(st.shards, key), key) else 0
  {
  }

  /** The drift grows by exactly that, in every step. */
  lemma StepDrift(cfg: Config, st: State, a: Action)
    requires Sound(cfg, st) && Legal(cfg, st, a)
    ensures Step(cfg, st, a).ledger.drift == st.ledger.drift + SelfEvicted(cfg, st, a)
  {
    if a.Execute? {
      var c := a.command;
      if c.Del? || c.Exists? {
        ReadersDoNotDrift(cfg, st, c.keys, a.now);
      }
      var w := cfg.Writes(st, c, a.now);
      if w.Some? {
        PurgeKeeps(cfg, st, c.key, a.now, false);
        WriteDrift(cfg, w.value.0, c.key, w.value.1, a.gone);
      }
    }
  }

  /** In a run in which no write evicts its own key, the counter is exact in every state. */
  lemma {:induction false} ExactWithoutSelfEviction(cfg: Config, trace: seq<State>, actions: seq<Action>, n: nat)
    requires IsRun(cfg, trace, actions) && n < |trace| && cfg.numShards > 0 && trace[0] == cfg.Initial()
    requires forall i :: 0 <= i < n ==> !SelfEvicts(cfg, trace[i], actions[i])
    ensures trace[n].ledger.drift == 0 && trace[n].usage == Wrap(SumTotals(cfg.capacity, trace[n].shards))
    decreases n
  {
    EveryStateIsSound(cfg, trace, actions, n);
    if n > 0 {
      ExactWithoutSelfEviction(cfg, trace, actions, n - 1);
      EveryStateIsSound(cfg, trace, actions, n - 1);
      StepDrift(cfg, trace[n - 1], actions[n - 1]);
    }
  }

  /** In any sound state the counter is exact if and only if the drift is a multiple of 2^64. */
  lemma ExactIffNoDrift(cfg: Config, st: State)
    requires Sound(cfg, st)
    ensures st.usage == Wrap(SumTotals(cfg.capacity, st.shards)) <==> st.ledger.drift % WORD == 0
  {
    var sum, drift := SumTotals(cfg.capacity, st.shards), st.ledger.drift;
    WrapIsModulo(sum - drift);
    WrapIsModulo(sum);
    assert (sum - drift) % WORD == sum % WORD <==> drift % WORD == 0 by { SameRemainder(sum, drift); }
  }

  lemma SameRemainder(x: int, y: int)
    ensures (x - y) % WORD == x % WORD <==> y % WORD == 0
  {
    var q, r, s := x / WORD, (x - y) / WORD, y / WORD;
    assert x == q * WORD + x % WORD && x - y == r * WORD + (x - y) % WORD && y == s * WORD + y % WORD;
  }

  ghost predicate Exact(cfg: Config, st: State) {
    st.usage == Wrap(SumTotals(cfg.capacity, st.shards))
  }

  /** Between two exact counters nothing was lost. */
  lemma ExactLosesNothing(cfg: Config, a: State, b: State, lost: nat)
    requires Sound(cfg, a) && Sound(cfg, b) && b.ledger.drift == a.ledger.drift + lost && lost < WORD
    requires Exact(cfg, a) && Exact(cfg, b)
    ensures lost == 0
  {
    ExactIffNoDrift(cfg, a);
    ExactIffNoDrift(cfg, b);
    SmallMultiple(a.ledger.drift, lost);
  }

  lemma SmallMultiple(x: int, y: nat)
    requires x % WORD == 0 && (x + y) % WORD == 0 && y < WORD
    ensures y == 0
  {
    var q, r := x / WORD, (x + y) / WORD;
    assert x == q * WORD && x + y == r * WORD;
    assert y == (r - q) * WORD;
  }

  /** Every state of a run has an exact counter if and only if no write of the run evicts its own key. */
  lemma ExactIffNeverSelfEvicted(cfg: Config, trace: seq<State>, actions: seq<Action>, n: nat)
    requires IsRun(cfg, trace, actions) && n < |trace| && cfg.numShards > 0 && trace[0] == cfg.Initial()
    requires forall i :: 0 <= i < n ==> SelfEvicted(cfg, trace[i], actions[i]) < WORD
    ensures (forall m :: 0 <= m <= n ==> Exact(cfg, trace[m])) <==>
            (forall i :: 0 <= i < n ==> !SelfEvicts(cfg, trace[i], actions[i]))
  {
    if forall i :: 0 <= i < n ==> !SelfEvicts(cfg, trace[i], actions[i]) {
      forall m | 0 <= m <= n ensures Exact(cfg, trace[m]) {
        ExactWithoutSelfEviction(cfg, trace, actions, m);
      }
    }
    if forall m :: 0 <= m <= n ==> Exact(cfg, trace[m]) {
      forall i | 0 <= i < n ensures !SelfEvicts(cfg, trace[i], actions[i]) {
        assert Exact(cfg, trace[i]) && Exact(cfg, trace[i + 1]);
        EveryStateIsSound(cfg, trace, actions, i);
        EveryStateIsSound(cfg, trace, actions, i + 1);
        StepDrift(cfg, trace[i], actions[i]);
        ExactLosesNothing(cfg, trace[i], trace[i + 1], SelfEvicted(cfg, trace[i], actions[i]));
        SelfEvictionCosts(cfg, trace[i], actions[i]);
      }
    }
  }

  lemma FreedNothing(cfg: Config, d: Dict)
    ensures cfg.Freed(d, {}) == 0
  {
    assert d - {} == d;
  }

  /** An eviction that has come to `gone` and has not met its need goes on until it has, or the shard is empty. */
  lemma {:induction false} EvictionGoesOn(cfg: Config, d: Dict, need: nat, gone: set<string>) returns (all: set<string>)
    requires gone <= d.Keys && cfg.TookLast(d, gone, need)
    ensures gone <= all <= d.Keys && cfg.TookLast(d, all, need) && (cfg.Freed(d, all) >= need || all == d.Keys)
    decreases d.Keys - gone
  {
    all := gone;
    if cfg.Freed(d, gone) < need && gone != d.Keys {
      var left := d.Keys - gone;
      assert left != {} by { assert d.Keys == left + gone; }
      var v :| v in left;
      assert gone + {v} - {v} == gone;
      all := EvictionGoesOn(cfg, d, need, gone + {v});
    }
  }

  lemma KeyMayGoFirst(cfg: Config, st: State, key: string, value: string) returns (gone: set<string>)
    requires cfg.Shaped(st.shards) && key in cfg.Shard(st.shards, key) && cfg.Need(st, key, value) > 0
    ensures cfg.Evictable(st, key, value, gone) && key in gone
  {
    var d, need := cfg.Shard(st.shards, key), cfg.Need(st, key, value);
    FreedNothing(cfg, d);
    assert {key} - {key} == {};
    gone := EvictionGoesOn(cfg, d, need, {key});
  }

  /** The key is there when the command asks for room, and room is needed. */
  ghost predicate AtRisk(cfg: Config, st: State, c: Command, now: nat)
    requires cfg.Shaped(st.shards)
  {
    match cfg.Writes(st, c, now)
    case None => false
    case Some((s, e)) => c.key in cfg.Shard(s.shards, c.key) && cfg.Need(s, c.key, e.value) > 0
  }

  /** SET, INCR and DECR can evict their own key if and only if it is there and the new value needs room. */
  lemma OwnKeyIsAtRisk(cfg: Config, st: State, c: Command, now: nat)
    requires cfg.Shaped(st.shards) && (c.Set? || c.Add?)
    ensures (exists gone :: cfg.Possible(st, c, now, gone) && c.key in gone) <==> AtRisk(cfg, st, c, now)
  {
    if AtRisk(cfg, st, c, now) {
      var (s, e) := cfg.Writes(st, c, now).value;
      var gone := KeyMayGoFirst(cfg, s, c.key, e.value);
      assert cfg.Possible(st, c, now, gone) && c.key in gone;
    }
  }

  /** Self-eviction is forced when the key is alone in its shard and the new value needs room: every choice
      the eviction has takes the key itself, and the counter loses the old cost. */
  lemma LoneKeyEvictsItself(cfg: Config, st: State, key: string, value: string, now: nat, gone: set<string>)
    requires Sound(cfg, st) && cfg.Shard(st.shards, key).Keys == {key}
    requires cfg.Need(st, key, value) > 0 && cfg.Fits(st, key, value)
    requires cfg.Possible(st, Set(key, value), now, gone)
    ensures gone == {key}
    ensures cfg.After(st, Set(key, value), now, gone).ledger.drift ==
            st.ledger.drift + cfg.Cost(key, cfg.Shard(st.shards, key)[key].value)
  {
    var d := cfg.Shard(st.shards, key);
    assert d - {} == d;
    assert gone == {} || gone == {key};
    WriteDrift(cfg, st, key, Entry(value, 0, now), gone);
  }

  // ---------- a run that loses count ----------

  /** A store that uses one shard only. */
  function Using(cfg: Config, i: nat, d: Dict, usage: nat, limit: nat, stats: Stats, ledger: Ledger): State
    requires i < cfg.numShards
  {
    State(cfg.Initial().shards[i := d], usage, limit, stats, ledger)
  }

  lemma UsingOne(cfg: Config, i: nat, d: Dict, usage: nat, limit: nat, stats: Stats, ledger: Ledger, d': Dict)
    requires i < cfg.numShards
    ensures Using(cfg, i, d, usage, limit, stats, ledger).shards[i] == d
    ensures Using(cfg, i, d, usage, limit, stats, ledger).shards[i := d'] ==
            Using(cfg, i, d', usage, limit, stats, ledger).shards
  {
  }

  lemma TotalOfOne(capacity: string -> nat, k: string, e: Entry)
    ensures Total(capacity, map[k := e]) == EntryCost(capacity, k, e.value)
  {
    TotalWithout(capacity, map[k := e], k);
    assert map[k := e] - {k} == map[];
  }

  /** The first SET of a key: there is room. */
  lemma FirstSet(cfg: Config, k: string, e: Entry, limit: nat)
    requires cfg.numShards > 0 && cfg.Cost(k, e.value) <= limit <= UINT64_MAX
    ensures var i, z := cfg.Index(k), Stats(0, 0, 0, 0);
            var st := Using(cfg, i, map[], 0, limit, z, Ledger(0, 0, 0, 0, 0));
            && cfg.Evictable(st, k, e.value, {})
            && cfg.Write(st, k, e, {}) ==
               Using(cfg, i, map[k := e], cfg.Cost(k, e.value), limit, z, Ledger(1, 0, 0, 0, 0))
  {
    var i, z := cfg.Index(k), Stats(0, 0, 0, 0);
    var st := Using(cfg, i, map[], 0, limit, z, Ledger(0, 0, 0, 0, 0));
    UsingOne(cfg, i, map[], 0, limit, z, Ledger(0, 0, 0, 0, 0), map[k := e]);
    var empty: Dict := map[];
    assert empty - {} == empty && st.shards[i := empty] == st.shards;
    ShortfallIsExcess(0, cfg.Cost(k, e.value), 0, limit);
  }

  /** The second SET needs room that only the key itself can give. */
  lemma SecondSet(cfg: Config, k: string, a: Entry, b: Entry, limit: nat)
    requires cfg.numShards > 0 && cfg.Cost(k, a.value) <= limit < cfg.Cost(k, b.value) <= limit + cfg.Cost(k, a.value)
    requires limit + cfg.Cost(k, a.value) + cfg.Cost(k, b.value) <= UINT64_MAX
    ensures var i, c, c' := cfg.Index(k), cfg.Cost(k, a.value), cfg.Cost(k, b.value);
            var st := Using(cfg, i, map[k := a], c, limit, Stats(0, 0, 0, 0), Ledger(1, 0, 0, 0, 0));
            && cfg.Evictable(st, k, b.value, {k})
            && cfg.Write(st, k, b, {k}) ==
               Using(cfg, i, map[k := b], c' - c, limit, Stats(0, 0, 1, 0), Ledger(2, 0, 0, 0, c))
  {
    var i, c, c' := cfg.Index(k), cfg.Cost(k, a.value), cfg.Cost(k, b.value);
    var st := Using(cfg, i, map[k := a], c, limit, Stats(0, 0, 0, 0), Ledger(1, 0, 0, 0, 0));
    UsingOne(cfg, i, map[k := a], c, limit, Stats(0, 0, 0, 0), Ledger(1, 0, 0, 0, 0), map[]);
    UsingOne(cfg, i, map[], 0, limit, Stats(0, 0, 1, 0), Ledger(1, 0, 0, 0, 0), map[k := b]);
    TotalOfOne(cfg.capacity, k, a);
    assert map[k := a] - {k} == map[] && map[k := a].Keys == {k};
    ShortfallIsExcess(c, c', c, limit);
    assert cfg.Evict(st, i, {k}) == Using(cfg, i, map[], 0, limit, Stats(0, 0, 1, 0), Ledger(1, 0, 0, 0, 0));
  }

  lemma LastDel(cfg: Config, k: string, e: Entry, usage: nat, limit: nat, drift: nat)
    requires cfg.numShards > 0 && usage < cfg.Cost(k, e.value) < WORD
    ensures var i, stats, left := cfg.Index(k), Stats(0, 0, 1, 0), usage - cfg.Cost(k, e.value) + WORD;
            cfg.DeleteAll(Using(cfg, i, map[k := e], usage, limit, stats, Ledger(2, 0, 0, 0, drift)), [k]) ==
            Using(cfg, i, map[], left, limit, stats, Ledger(2, 1, 0, 0, drift))
  {
    var i, stats, ledger := cfg.Index(k), Stats(0, 0, 1, 0), Ledger(2, 0, 0, 0, drift);
    var st := Using(cfg, i, map[k := e], usage, limit, stats, ledger);
    UsingOne(cfg, i, map[k := e], usage, limit, stats, ledger, map[]);
    TotalOfOne(cfg.capacity, k, e);
    assert map[k := e] - {k} == map[];
    assert [k][..0] == [] && cfg.DeleteAll(st, [k]) == cfg.Delete(st, k);
    var x: int := usage - cfg.Cost(k, e.value);
    assert Wrap(x) == Wrap(x + WORD) == x + WORD;
  }

  /** The states of the run below. */
  function Losing(cfg: Config, k: string, v: string, w: string, limit: nat): (trace: seq<State>)
    requires cfg.numShards > 0 && cfg.Cost(k, v) < cfg.Cost(k, w) < WORD
    ensures |trace| == 5
  {
    var i, z, c, c' := cfg.Index(k), Stats(0, 0, 0, 0), cfg.Cost(k, v), cfg.Cost(k, w);
    [cfg.Initial(),
     Using(cfg, i, map[], 0, limit, z, Ledger(0, 0, 0, 0, 0)),
     Using(cfg, i, map[k := Entry(v, 0, 0)], c, limit, z, Ledger(1, 0, 0, 0, 0)),
     Using(cfg, i, map[k := Entry(w, 0, 0)], c' - c, limit, Stats(0, 0, 1, 0), Ledger(2, 0, 0, 0, c)),
     Using(cfg, i, map[], WORD - c, limit, Stats(0, 0, 1, 0), Ledger(2, 1, 0, 0, c))]
  }

  lemma LosingBegins(cfg: Config, k: string, v: string, w: string, limit: nat)
    requires cfg.numShards > 0 && cfg.Cost(k, v) <= limit < cfg.Cost(k, w) < WORD
    ensures var t := Losing(cfg, k, v, w, limit);
            Leads(cfg, t[0], SetLimit(limit), t[1]) && Leads(cfg, t[1], Execute(Set(k, v), 0, {}), t[2])
    ensures Losing(cfg, k, v, w, limit)[4].shards == cfg.Initial().shards
  {
    assert cfg.Initial().shards[cfg.Index(k) := map[]] == cfg.Initial().shards;
    FirstSet(cfg, k, Entry(v, 0, 0), limit);
  }

  lemma LosingOverwrites(cfg: Config, k: string, v: string, w: string, limit: nat)
    requires cfg.numShards > 0 && cfg.Cost(k, v) <= limit < cfg.Cost(k, w) <= limit + cfg.Cost(k, v)
    requires limit + cfg.Cost(k, v) + cfg.Cost(k, w) <= UINT64_MAX
    ensures var t := Losing(cfg, k, v, w, limit); Leads(cfg, t[2], Execute(Set(k, w), 0, {k}), t[3])
  {
    SecondSet(cfg, k, Entry(v, 0, 0), Entry(w, 0, 0), limit);
  }

  lemma LosingEnds(cfg: Config, k: string, v: string, w: string, limit: nat)
    requires cfg.numShards > 0 && cfg.Cost(k, v) <= limit < cfg.Cost(k, w) < WORD
    ensures var t := Losing(cfg, k, v, w, limit); Leads(cfg, t[3], Execute(Del([k]), 0, {}), t[4])
  {
    LastDel(cfg, k, Entry(w, 0, 0), cfg.Cost(k, w) - cfg.Cost(k, v), limit, cfg.Cost(k, v));
  }

  /** From an empty server: a limit is set, a key stored, overwritten by a value for which it has to be evicted
      itself, and deleted. The store is empty again and the counter stands just below 2^64. */
  lemma SelfEvictionLosesCount(cfg: Config, k: string, v: string, w: string, limit: nat) returns (trace: seq<State>)
    requires cfg.numShards > 0 && cfg.Cost(k, v) <= limit < cfg.Cost(k, w) <= limit + cfg.Cost(k, v)
    requires limit + cfg.Cost(k, v) + cfg.Cost(k, w) <= UINT64_MAX
    ensures IsRun(cfg, trace, [SetLimit(limit), Execute(Set(k, v), 0, {}), Execute(Set(k, w), 0, {k}),
                               Execute(Del([k]), 0, {})])
    ensures trace[0] == cfg.Initial() && trace[4].shards == cfg.Initial().shards
    ensures trace[4].usage == WORD - cfg.Cost(k, v)
  {
    trace := Losing(cfg, k, v, w, limit);
    LosingBegins(cfg, k, v, w, limit);
    LosingOverwrites(cfg, k, v, w, limit);
    LosingEnds(cfg, k, v, w, limit);
    FourSteps(cfg, trace, SetLimit(limit), Execute(Set(k, v), 0, {}), Execute(Set(k, w), 0, {k}),
              Execute(Del([k]), 0, {}));
  }

  lemma FourSteps(cfg: Config, t: seq<State>, a0: Action, a1: Action, a2: Action, a3: Action)
    requires |t| == 5 && Leads(cfg, t[0], a0, t[1]) && Leads(cfg, t[1], a1, t[2])
    requires Leads(cfg, t[2], a2, t[3]) && Leads(cfg, t[3], a3, t[4])
    ensures IsRun(cfg, t, [a0, a1, a2, a3])
  {
    var actions := [a0, a1, a2, a3];
    forall i | 0 <= i < |actions| ensures Leads(cfg, t[i], actions[i], t[i + 1]) {
      assert i == 0 || i == 1 || i == 2 || i == 3;
    }
    LeadsOn(cfg, t, actions);
  }

  lemma LeadsOn(cfg: Config, t: seq<State>, actions: seq<Action>)
    requires |t| == |actions| + 1
    requires forall i :: 0 <= i < |actions| ==> Leads(cfg, t[i], actions[i], t[i + 1])
    ensures IsRun(cfg, t, actions)
  {
    forall i | 0 <= i < |actions|
      ensures cfg.Shaped(t[i].shards) && Legal(cfg, t[i], actions[i]) && t[i + 1] == Step(cfg, t[i], actions[i])
    {
      assert Leads(cfg, t[i], actions[i], t[i + 1]);
    }
  }

  // ---------- SET in full ----------

  /** With an exact counter and nothing wrapping, SET fails exactly when a limit is set and what it exceeds the
      limit by is more than its whole shard holds. Failing, it leaves that shard empty; succeeding, it leaves
      the key without expiry, the evicted neighbours gone and everything else as it was. */
  lemma SetOutcome(cfg: Config, st: State, key: string, value: string, now: nat, gone: set<string>)
    requires Sound(cfg, st) && st.ledger.drift == 0 && cfg.Possible(st, Set(key, value), now, gone)
    requires SumTotals(cfg.capacity, st.shards) + cfg.Cost(key, value) <= UINT64_MAX
    requires st.limit + cfg.OldCost(cfg.Shard(st.shards, key), key) <= UINT64_MAX
    ensures var d := cfg.Shard(st.shards, key);
            var would := SumTotals(cfg.capacity, st.shards) + cfg.Cost(key, value) - cfg.OldCost(d, key);
            cfg.Refused(st, Set(key, value), now) <==> st.limit > 0 && would - st.limit > Total(cfg.capacity, d)
    ensures cfg.Refused(st, Set(key, value), now) ==>
              cfg.After(st, Set(key, value), now, gone).shards == st.shards[cfg.Index(key) := map[]]
    ensures !cfg.Refused(st, Set(key, value), now) ==> forall k ::
              cfg.At(cfg.After(st, Set(key, value), now, gone).shards, k) ==
              if k == key then Some(Entry(value, 0, now)) else if k in gone then None else cfg.At(st.shards, k)
  {
    var e := Entry(value, 0, now);
    if st.limit > 0 {
      ShortfallIsExcess(st.usage, cfg.Cost(key, value), cfg.OldCost(cfg.Shard(st.shards, key), key), st.limit);
    }
    if cfg.Fits(st, key, value) {
      forall k: string
        ensures cfg.At(cfg.Write(st, key, e, gone).shards, k) ==
                if k == key then Some(e) else if k in gone then None else cfg.At(st.shards, k)
      {
        AtWrite(cfg, st, key, e, gone, k);
      }
    } else {
      RefusedWriteEmptiesShard(cfg, st, key, e, gone);
    }
  }

  // ---------- refinement of runs ----------

  /** The same run on one map. */
  ghost function Seen(cfg: Config, a: Action): KeyspaceLaws.Event
    requires !a.SetLimit?
  {
    match a
    case Execute(c, now, _) => KeyspaceLaws.Do(c, now)
    case SweepShard(i, seen, now) => KeyspaceLaws.Sweep((set k | k in seen && cfg.Index(k) == i), now)
  }

  ghost function AllSeen(cfg: Config, actions: seq<Action>): seq<KeyspaceLaws.Event>
    requires forall i :: 0 <= i < |actions| ==> !actions[i].SetLimit?
  {
    seq(|actions|, i requires 0 <= i < |actions| => Seen(cfg, actions[i]))
  }

  lemma SweepRefines(cfg: Config, st: State, i: nat, seen: set<string>, now: nat)
    requires Sound(cfg, st) && i < cfg.numShards
    ensures cfg.Placed(cfg.Sweep(st, i, seen, now).shards)
    ensures cfg.Union(cfg.Sweep(st, i, seen, now).shards) ==
            KeyspaceLaws.After(Seen(cfg, SweepShard(i, seen, now)), cfg.Union(st.shards))
  {
    SweepKeeps(cfg, st, i, seen, now);
    var ev := Seen(cfg, SweepShard(i, seen, now));
    var a, b := cfg.Union(cfg.Sweep(st, i, seen, now).shards), KeyspaceLaws.After(ev, cfg.Union(st.shards));
    forall k: string ensures Find(a, k) == Find(b, k) {
      KeyspaceLaws.FindAfter(ev, cfg.Union(st.shards), k);
      assert Find(cfg.Union(st.shards), k) == cfg.At(st.shards, k);
    }
    SameFinds(a, b);
  }

  /** With no memory limit nothing is evicted and nothing refused. */
  lemma UnlimitedIsRoomy(cfg: Config, st: State, c: Command, now: nat, gone: set<string>)
    requires cfg.Shaped(st.shards) && st.limit == 0 && cfg.Possible(st, c, now, gone)
    ensures gone == {} && !cfg.Refused(st, c, now)
  {
  }

  lemma {:induction false} ReadersKeepLimit(cfg: Config, st: State, keys: seq<string>, now: nat)
    requires cfg.Shaped(st.shards)
    ensures cfg.LookUpAll(st, keys, now).limit == cfg.DeleteAll(st, keys).limit == st.limit
  {
    if keys != [] {
      ReadersKeepLimit(cfg, st, keys[..|keys| - 1], now);
    }
  }

  lemma StepKeepsLimit(cfg: Config, st: State, a: Action)
    requires cfg.Shaped(st.shards) && Legal(cfg, st, a) && !a.SetLimit?
    ensures Step(cfg, st, a).limit == st.limit
  {
    if a.Execute? && (a.command.Del? || a.command.Exists?) {
      ReadersKeepLimit(cfg, st, a.command.keys, a.now);
    }
  }

  lemma UnlimitedCommandRefines(cfg: Config, st: State, c: Command, now: nat, gone: set<string>)
    requires Sound(cfg, st) && st.limit == 0 && cfg.Possible(st, c, now, gone)
    ensures cfg.Placed(cfg.After(st, c, now, gone).shards)
    ensures cfg.Union(cfg.After(st, c, now, gone).shards) == Apply(c, cfg.Union(st.shards), now)
  {
    UnlimitedIsRoomy(cfg, st, c, now, gone);
    CommandRefines(cfg, st, c, now, gone);
    assert gone - c.Keys() == {};
    assert forall d: Dict :: d - {} == d;
  }

  lemma StepRefines(cfg: Config, st: State, a: Action)
    requires Sound(cfg, st) && st.limit == 0 && Legal(cfg, st, a) && !a.SetLimit?
    ensures cfg.Placed(Step(cfg, st, a).shards)
    ensures cfg.Union(Step(cfg, st, a).shards) == KeyspaceLaws.After(Seen(cfg, a), cfg.Union(st.shards))
  {
    match a
    case SweepShard(i, seen, now) => SweepRefines(cfg, st, i, seen, now);
    case Execute(c, now, gone) => UnlimitedCommandRefines(cfg, st, c, now, gone);
  }

  lemma RunTail(cfg: Config, trace: seq<State>, actions: seq<Action>)
    requires IsRun(cfg, trace, actions) && actions != []
    ensures IsRun(cfg, trace[1..], actions[1..])
    ensures trace[1] == Step(cfg, trace[0], actions[0]) && trace[1..][|actions[1..]|] == trace[|actions|]
  {
    var t, rest := trace[1..], actions[1..];
    forall i | 0 <= i < |rest|
      ensures cfg.Shaped(t[i].shards) && Legal(cfg, t[i], rest[i]) && t[i + 1] == Step(cfg, t[i], rest[i])
    {
      assert t[i] == trace[i + 1] && t[i + 1] == trace[i + 2] && rest[i] == actions[i + 1];
    }
  }

  lemma FirstStepRefines(cfg: Config, st: State, a: Action)
    requires Sound(cfg, st) && st.limit == 0 && Legal(cfg, st, a) && !a.SetLimit?
    ensures Sound(cfg, Step(cfg, st, a)) && Step(cfg, st, a).limit == 0
    ensures cfg.Union(Step(cfg, st, a).shards) == KeyspaceLaws.After(Seen(cfg, a), cfg.Union(st.shards))
  {
    StepKeeps(cfg, st, a);
    StepKeepsLimit(cfg, st, a);
    StepRefines(cfg, st, a);
  }

  lemma AllSeenTail(cfg: Config, actions: seq<Action>)
    requires actions != [] && forall i :: 0 <= i < |actions| ==> !actions[i].SetLimit?
    ensures AllSeen(cfg, actions)[0] == Seen(cfg, actions[0])
    ensures AllSeen(cfg, actions)[1..] == AllSeen(cfg, actions[1..])
  {
  }

  /** With no memory limit, every run on the shards is that run on one map. */
  lemma {:induction false} RunRefines(cfg: Config, trace: seq<State>, actions: seq<Action>)
    requires IsRun(cfg, trace, actions) && Sound(cfg, trace[0]) && trace[0].limit == 0
    requires forall i :: 0 <= i < |actions| ==> !actions[i].SetLimit?
    ensures Sound(cfg, trace[|actions|])
    ensures cfg.Union(trace[|actions|].shards) == KeyspaceLaws.Run(AllSeen(cfg, actions), cfg.Union(trace[0].shards))
    decreases |actions|
  {
    if actions != [] {
      RunTail(cfg, trace, actions);
      FirstStepRefines(cfg, trace[0], actions[0]);
      RunRefines(cfg, trace[1..], actions[1..]);
      AllSeenTail(cfg, actions);
    }
  }
}
