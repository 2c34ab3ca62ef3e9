/** The interleaved accesses of module `MemoryBound` and the transitions of module `Engine` model the same code: a
    write whose accesses nobody interrupts is the engine's write, and every write of the engine is made that way. */
module Uninterrupted {
  import opened Machine
  import opened Keyspace
  import opened Accounting
  import opened Engine
  import opened MemoryBound
  import Storage

  /** The interleaved system holds what the engine holds. */
  predicate Shows(sys: System, st: State) {
    sys.shards == st.shards && sys.counter == st.usage
  }

  /** A writer may begin on shard `i`. */
  predicate Ready(cfg: Config, sys: System, i: nat, key: string) {
    i < |sys.shards| == |sys.writers| && cfg.Index(key) == i && sys.writers[i].Free? && sys.counter <= UINT64_MAX
  }

  function Needed(cfg: Config, sys: System, limit: nat, i: nat, key: string, e: Entry): nat
    requires i < |sys.shards|
  {
    Shortfall(sys.counter, cfg.Cost(key, e.value), cfg.OldCost(sys.shards[i], key), limit)
  }

  /** The system while a writer evicts, the entries `gone` having gone. */
  ghost function Midway(cfg: Config, sys: System, limit: nat, i: nat, key: string, e: Entry, gone: set<string>): System
    requires i < |sys.shards| == |sys.writers|
  {
    var d, need := sys.shards[i], Needed(cfg, sys, limit, i, key, e);
    var left := if cfg.Freed(d, gone) < need then need - cfg.Freed(d, gone) else 0;
    System(sys.shards[i := d - gone], Wrap(sys.counter - cfg.Freed(d, gone)),
           sys.writers[i := Evicting(key, e, cfg.OldCost(d, key), left)], sys.lost)
  }

  lemma BeginsMidway(cfg: Config, sys: System, limit: nat, i: nat, key: string, e: Entry)
    requires Ready(cfg, sys, i, key)
    ensures Enabled(cfg, sys, Begin(i, key, e))
    ensures Take(cfg, sys, limit, Begin(i, key, e)) == Midway(cfg, sys, limit, i, key, e, {})
  {
    var d := sys.shards[i];
    assert d - {} == d && sys.shards[i := d] == sys.shards;
  }

  lemma RefundTwice(counter: int, freed: int, cost: int)
    ensures Wrap(Wrap(counter - freed) - cost) == Wrap(counter - (freed + cost))
  {
    WrapSum(counter - freed, -cost);
    assert counter - freed + -cost == counter - (freed + cost);
  }

  lemma MayEvict(cfg: Config, sys: System, limit: nat, i: nat, key: string, e: Entry, gone: set<string>, v: string)
    requires i < |sys.shards| == |sys.writers|
    ensures Enabled(cfg, Midway(cfg, sys, limit, i, key, e, gone), EvictOne(i, v)) <==>
            v in sys.shards[i] - gone && cfg.Freed(sys.shards[i], gone) < Needed(cfg, sys, limit, i, key, e)
  {
  }

  lemma EvictsCounter(cfg: Config, sys: System, limit: nat, i: nat, key: string, e: Entry, gone: set<string>, v: string)
    requires i < |sys.shards| == |sys.writers|
    requires Enabled(cfg, Midway(cfg, sys, limit, i, key, e, gone), EvictOne(i, v))
    ensures Take(cfg, Midway(cfg, sys, limit, i, key, e, gone), limit, EvictOne(i, v)).counter ==
            Midway(cfg, sys, limit, i, key, e, gone + {v}).counter
  {
    var d := sys.shards[i];
    Storage.FreedMore(cfg, d, gone, v);
    RefundTwice(sys.counter, cfg.Freed(d, gone), cfg.Cost(v, d[v].value));
  }

  lemma EvictsEntry(cfg: Config, sys: System, limit: nat, i: nat, key: string, e: Entry, gone: set<string>, v: string)
    requires i < |sys.shards| == |sys.writers|
    requires Enabled(cfg, Midway(cfg, sys, limit, i, key, e, gone), EvictOne(i, v))
    ensures var next := Take(cfg, Midway(cfg, sys, limit, i, key, e, gone), limit, EvictOne(i, v));
            var want := Midway(cfg, sys, limit, i, key, e, gone + {v});
            next.shards == want.shards && next.writers == want.writers && next.lost == want.lost
  {
    Storage.FreedMore(cfg, sys.shards[i], gone, v);
    assert sys.shards[i] - gone - {v} == sys.shards[i] - (gone + {v});
  }

  lemma EvictsMidway(cfg: Config, sys: System, limit: nat, i: nat, key: string, e: Entry, gone: set<string>, v: string)
    requires i < |sys.shards| == |sys.writers|
    requires Enabled(cfg, Midway(cfg, sys, limit, i, key, e, gone), EvictOne(i, v))
    ensures Take(cfg, Midway(cfg, sys, limit, i, key, e, gone), limit, EvictOne(i, v)) ==
            Midway(cfg, sys, limit, i, key, e, gone + {v})
  {
    EvictsCounter(cfg, sys, limit, i, key, e, gone, v);
    EvictsEntry(cfg, sys, limit, i, key, e, gone, v);
  }

  // ---------- the end of a write ----------

  /** The write is done: the entry stored, the difference charged. */
  ghost function Stored(cfg: Config, sys: System, i: nat, key: string, e: Entry, gone: set<string>): System
    requires i < |sys.shards|
  {
    var d := sys.shards[i];
    System(sys.shards[i := (d - gone)[key := e]],
           Wrap(Wrap(sys.counter - cfg.Freed(d, gone)) + cfg.Cost(key, e.value) - cfg.OldCost(d, key)),
           sys.writers, sys.lost + if key in d - gone then 0 else cfg.OldCost(d, key))
  }

  ghost function Charging(cfg: Config, sys: System, i: nat, key: string, e: Entry, gone: set<string>): System
    requires i < |sys.shards| == |sys.writers|
  {
    var d := sys.shards[i];
    System(sys.shards[i := d - gone],
           Wrap(Wrap(sys.counter - cfg.Freed(d, gone)) + cfg.Cost(key, e.value) - cfg.OldCost(d, key)),
           sys.writers[i := Charged(key, e, cfg.OldCost(d, key))], sys.lost)
  }

  lemma Charges(cfg: Config, sys: System, limit: nat, i: nat, key: string, e: Entry, gone: set<string>)
    requires i < |sys.shards| == |sys.writers|
    ensures var mid := Midway(cfg, sys, limit, i, key, e, gone);
            && (Enabled(cfg, mid, Charge(i)) <==>
                  cfg.Freed(sys.shards[i], gone) >= Needed(cfg, sys, limit, i, key, e))
            && (Enabled(cfg, mid, Charge(i)) ==>
                  Take(cfg, mid, limit, Charge(i)) == Charging(cfg, sys, i, key, e, gone))
  {
    var w := Charged(key, e, cfg.OldCost(sys.shards[i], key));
    assert Midway(cfg, sys, limit, i, key, e, gone).writers[i := w] == sys.writers[i := w];
  }

  lemma Commits(cfg: Config, sys: System, limit: nat, i: nat, key: string, e: Entry, gone: set<string>)
    requires Ready(cfg, sys, i, key)
    ensures var mid := Charging(cfg, sys, i, key, e, gone);
            Enabled(cfg, mid, Commit(i)) && Take(cfg, mid, limit, Commit(i)) == Stored(cfg, sys, i, key, e, gone)
  {
    var d, mid := sys.shards[i], Charging(cfg, sys, i, key, e, gone);
    assert mid.writers[i := Free] == sys.writers;
    assert mid.shards[i := (d - gone)[key := e]] == sys.shards[i := (d - gone)[key := e]];
  }

  /** The write is refused: the shard is empty. */
  ghost function Refused(cfg: Config, sys: System, i: nat, gone: set<string>): System
    requires i < |sys.shards|
  {
    sys.(shards := sys.shards[i := sys.shards[i] - gone], counter := Wrap(sys.counter - cfg.Freed(sys.shards[i], gone)))
  }

  lemma GivesUp(cfg: Config, sys: System, limit: nat, i: nat, key: string, e: Entry, gone: set<string>)
    requires Ready(cfg, sys, i, key)
    ensures var mid, d := Midway(cfg, sys, limit, i, key, e, gone), sys.shards[i];
            && (Enabled(cfg, mid, GiveUp(i)) <==>
                  d - gone == map[] && cfg.Freed(d, gone) < Needed(cfg, sys, limit, i, key, e))
            && (Enabled(cfg, mid, GiveUp(i)) ==> Take(cfg, mid, limit, GiveUp(i)) == Refused(cfg, sys, i, gone))
  {
    assert Midway(cfg, sys, limit, i, key, e, gone).writers[i := Free] == sys.writers;
  }

  /** Both ends are the ends of the engine's write. */
  lemma EndsAsWrite(cfg: Config, st: State, sys: System, key: string, e: Entry, gone: set<string>)
    requires cfg.Shaped(st.shards) && Shows(sys, st)
    ensures cfg.Fits(st, key, e.value) ==>
              var end, w := Stored(cfg, sys, cfg.Index(key), key, e, gone), cfg.Write(st, key, e, gone);
              Shows(end, w) && end.lost - sys.lost == w.ledger.drift - st.ledger.drift
    ensures !cfg.Fits(st, key, e.value) ==>
              Shows(Refused(cfg, sys, cfg.Index(key), gone), cfg.Write(st, key, e, gone))
  {
    var i := cfg.Index(key);
    var d := st.shards[i];
    assert st.shards[i := d - gone][i := (d - gone)[key := e]] == st.shards[i := (d - gone)[key := e]];
  }

  // ---------- from accesses to the write ----------

  /** One writer's accesses: it begins, evicts in this order, and ends with `end`. */
  function Accesses(i: nat, key: string, e: Entry, victims: seq<string>, end: seq<Step>): seq<Step> {
    [Begin(i, key, e)] + seq(|victims|, j requires 0 <= j < |victims| => EvictOne(i, victims[j])) + end
  }

  lemma MembersMore(victims: seq<string>, j: nat)
    requires j < |victims|
    ensures Members(victims[..j + 1]) == Members(victims[..j]) + {victims[j]}
  {
    assert victims[..j + 1] == victims[..j] + [victims[j]];
  }

  /** Each victim was there when its turn came, and the need was not met yet. */
  ghost predicate InTurn(cfg: Config, d: Dict, victims: seq<string>, need: nat, j: nat)
    requires j < |victims|
  {
    victims[j] in d - Members(victims[..j]) && cfg.Freed(d, Members(victims[..j])) < need
  }

  ghost predicate AllInTurn(cfg: Config, d: Dict, victims: seq<string>, need: nat, n: nat)
    requires n <= |victims|
  {
    forall j :: 0 <= j < n ==> InTurn(cfg, d, victims, need, j)
  }

  lemma NextAccess(cfg: Config, limit: nat, trace: seq<System>, steps: seq<Step>, i: nat, key: string, e: Entry,
                   victims: seq<string>, end: seq<Step>, j: nat)
    requires IsRun(cfg, limit, trace, steps) && steps == Accesses(i, key, e, victims, end) && j < |victims|
    requires Ready(cfg, trace[0], i, key)
    requires trace[j + 1] == Midway(cfg, trace[0], limit, i, key, e, Members(victims[..j]))
    ensures trace[j + 2] == Midway(cfg, trace[0], limit, i, key, e, Members(victims[..j + 1]))
    ensures InTurn(cfg, trace[0].shards[i], victims, Needed(cfg, trace[0], limit, i, key, e), j)
  {
    assert steps[j + 1] == EvictOne(i, victims[j]);
    MayEvict(cfg, trace[0], limit, i, key, e, Members(victims[..j]), victims[j]);
    EvictsMidway(cfg, trace[0], limit, i, key, e, Members(victims[..j]), victims[j]);
    MembersMore(victims, j);
  }

  lemma {:induction false} Evicts(cfg: Config, limit: nat, trace: seq<System>, steps: seq<Step>, i: nat, key: string,
                                  e: Entry, victims: seq<string>, end: seq<Step>, j: nat)
    requires IsRun(cfg, limit, trace, steps) && steps == Accesses(i, key, e, victims, end) && j <= |victims|
    requires Ready(cfg, trace[0], i, key)
    ensures trace[j + 1] == Midway(cfg, trace[0], limit, i, key, e, Members(victims[..j]))
    ensures AllInTurn(cfg, trace[0].shards[i], victims, Needed(cfg, trace[0], limit, i, key, e), j)
  {
    if j == 0 {
      BeginsMidway(cfg, trace[0], limit, i, key, e);
      assert steps[0] == Begin(i, key, e) && Members(victims[..0]) == {};
    } else {
      Evicts(cfg, limit, trace, steps, i, key, e, victims, end, j - 1);
      NextAccess(cfg, limit, trace, steps, i, key, e, victims, end, j - 1);
    }
  }

  lemma {:induction false} InTurnAreThere(cfg: Config, d: Dict, victims: seq<string>, need: nat, n: nat)
    requires n <= |victims| && AllInTurn(cfg, d, victims, need, n)
    ensures Members(victims[..n]) <= d.Keys
  {
    if n > 0 {
      InTurnAreThere(cfg, d, victims, need, n - 1);
      MembersMore(victims, n - 1);
      assert InTurn(cfg, d, victims, need, n - 1);
    }
  }

  /** Entries that went in turn, until the need was met or the shard empty, are a possible eviction. */
  lemma InTurnIsEvictable(cfg: Config, st: State, key: string, value: string, victims: seq<string>)
    requires cfg.Shaped(st.shards)
    requires AllInTurn(cfg, cfg.Shard(st.shards, key), victims, cfg.Need(st, key, value), |victims|)
    requires var d, gone := cfg.Shard(st.shards, key), Members(victims);
             cfg.Freed(d, gone) >= cfg.Need(st, key, value) || d - gone == map[]
    ensures cfg.Evictable(st, key, value, Members(victims))
    ensures cfg.Fits(st, key, value) <==>
            cfg.Freed(cfg.Shard(st.shards, key), Members(victims)) >= cfg.Need(st, key, value)
  {
    var d, need, gone, n := cfg.Shard(st.shards, key), cfg.Need(st, key, value), Members(victims), |victims|;
    assert victims[..n] == victims;
    InTurnAreThere(cfg, d, victims, need, n);
    assert d - gone == map[] ==> gone == d.Keys by {
      assert (d - gone).Keys == d.Keys - gone;
      assert d.Keys == (d.Keys - gone) + gone;
    }
    if n > 0 {
      LastInTurn(cfg, d, victims, need);
    }
    Storage.FitsIffFreed(cfg, st, key, value, gone);
  }

  lemma LastInTurn(cfg: Config, d: Dict, victims: seq<string>, need: nat)
    requires victims != [] && AllInTurn(cfg, d, victims, need, |victims|)
    ensures cfg.TookLast(d, Members(victims), need) && need > 0
  {
    var n := |victims| - 1;
    assert InTurn(cfg, d, victims, need, n) && InTurn(cfg, d, victims, need, 0);
    assert victims[..n + 1] == victims && Members(victims[..0]) == {} && d - {} == d;
    MembersMore(victims, n);
    assert Members(victims) - {victims[n]} == Members(victims[..n]);
  }

  /** A writer that begins, evicts, charges and commits, with nothing in between, has made the engine's write. */
  lemma UninterruptedWrite(cfg: Config, st: State, trace: seq<System>, steps: seq<Step>, key: string, e: Entry,
                           victims: seq<string>)
    requires cfg.Shaped(st.shards) && IsRun(cfg, st.limit, trace, steps)
    requires steps == Accesses(cfg.Index(key), key, e, victims, [Charge(cfg.Index(key)), Commit(cfg.Index(key))])
    requires Shows(trace[0], st) && Ready(cfg, trace[0], cfg.Index(key), key)
    ensures cfg.Evictable(st, key, e.value, Members(victims)) && cfg.Fits(st, key, e.value)
    ensures var end, w := trace[|steps|], cfg.Write(st, key, e, Members(victims));
            && Shows(end, w) && end.writers == trace[0].writers
            && end.lost - trace[0].lost == w.ledger.drift - st.ledger.drift
  {
    var i, n, gone := cfg.Index(key), |victims|, Members(victims);
    Evicts(cfg, st.limit, trace, steps, i, key, e, victims, [Charge(i), Commit(i)], n);
    assert victims[..n] == victims && steps[n + 1] == Charge(i) && steps[n + 2] == Commit(i);
    Charges(cfg, trace[0], st.limit, i, key, e, gone);
    Commits(cfg, trace[0], st.limit, i, key, e, gone);
    InTurnIsEvictable(cfg, st, key, e.value, victims);
    EndsAsWrite(cfg, st, trace[0], key, e, gone);
  }

  /** The same accesses ending in giving up are its refusal. */
  lemma UninterruptedRefusal(cfg: Config, st: State, trace: seq<System>, steps: seq<Step>, key: string, e: Entry,
                             victims: seq<string>)
    requires cfg.Shaped(st.shards) && IsRun(cfg, st.limit, trace, steps)
    requires steps == Accesses(cfg.Index(key), key, e, victims, [GiveUp(cfg.Index(key))])
    requires Shows(trace[0], st) && Ready(cfg, trace[0], cfg.Index(key), key)
    ensures cfg.Evictable(st, key, e.value, Members(victims)) && !cfg.Fits(st, key, e.value)
    ensures var end, w := trace[|steps|], cfg.Write(st, key, e, Members(victims));
            Shows(end, w) && end.writers == trace[0].writers && end.lost == trace[0].lost
  {
    var i, n, gone := cfg.Index(key), |victims|, Members(victims);
    Evicts(cfg, st.limit, trace, steps, i, key, e, victims, [GiveUp(i)], n);
    assert victims[..n] == victims && steps[n + 1] == GiveUp(i);
    GivesUp(cfg, trace[0], st.limit, i, key, e, gone);
    InTurnIsEvictable(cfg, st, key, e.value, victims);
    EndsAsWrite(cfg, st, trace[0], key, e, gone);
  }

  // ---------- from the write to accesses ----------

  lemma {:induction false} RoundsInTurn(cfg: Config, d: Dict, victims: seq<string>, samples: seq<set<string>>,
                                        need: nat)
    requires Storage.Rounds(cfg, d, victims, samples, need)
    ensures AllInTurn(cfg, d, victims, need, |victims|)
    decreases |victims|
  {
    if victims != [] {
      var n := |victims| - 1;
      RoundsInTurn(cfg, d, victims[..n], samples[..n], need);
      forall j | 0 <= j <= n ensures InTurn(cfg, d, victims, need, j) {
        if j < n {
          assert InTurn(cfg, d, victims[..n], need, j) && victims[..n][..j] == victims[..j];
        }
      }
    }
  }

  /** The states of a writer's accesses, up to the end of its eviction. */
  ghost function Path(cfg: Config, sys: System, limit: nat, i: nat, key: string, e: Entry, victims: seq<string>)
      : seq<System>
    requires i < |sys.shards| == |sys.writers|
  {
    [sys] + seq(|victims| + 1, j requires 0 <= j <= |victims| =>
                  Midway(cfg, sys, limit, i, key, e, Members(victims[..j])))
  }

  lemma PathStep(cfg: Config, sys: System, limit: nat, i: nat, key: string, e: Entry, victims: seq<string>, j: nat)
    requires Ready(cfg, sys, i, key) && j < |victims|
    requires InTurn(cfg, sys.shards[i], victims, Needed(cfg, sys, limit, i, key, e), j)
    ensures var path := Path(cfg, sys, limit, i, key, e, victims);
            && Enabled(cfg, path[j + 1], EvictOne(i, victims[j]))
            && path[j + 2] == Take(cfg, path[j + 1], limit, EvictOne(i, victims[j]))
  {
    var gone := Members(victims[..j]);
    MembersMore(victims, j);
    MayEvict(cfg, sys, limit, i, key, e, gone, victims[j]);
    EvictsMidway(cfg, sys, limit, i, key, e, gone, victims[j]);
  }

  lemma PathStarts(cfg: Config, sys: System, limit: nat, i: nat, key: string, e: Entry, victims: seq<string>)
    requires Ready(cfg, sys, i, key)
    ensures var path := Path(cfg, sys, limit, i, key, e, victims);
            Enabled(cfg, path[0], Begin(i, key, e)) && path[1] == Take(cfg, path[0], limit, Begin(i, key, e))
  {
    BeginsMidway(cfg, sys, limit, i, key, e);
    assert Members(victims[..0]) == {};
  }

  /** A run and one more step. */
  lemma RunMore(cfg: Config, limit: nat, trace: seq<System>, steps: seq<Step>, s: Step)
    requires IsRun(cfg, limit, trace, steps) && Enabled(cfg, trace[|steps|], s)
    ensures IsRun(cfg, limit, trace + [Take(cfg, trace[|steps|], limit, s)], steps + [s])
  {
    var longer, more := trace + [Take(cfg, trace[|steps|], limit, s)], steps + [s];
    forall j | 0 <= j < |more|
      ensures Enabled(cfg, longer[j], more[j]) && longer[j + 1] == Take(cfg, longer[j], limit, more[j])
    {
      if j < |steps| {
        assert longer[j] == trace[j] && longer[j + 1] == trace[j + 1] && more[j] == steps[j];
      }
    }
  }

  lemma PathIsRun(cfg: Config, sys: System, limit: nat, i: nat, key: string, e: Entry, victims: seq<string>)
    requires Ready(cfg, sys, i, key)
    requires AllInTurn(cfg, sys.shards[i], victims, Needed(cfg, sys, limit, i, key, e), |victims|)
    ensures IsRun(cfg, limit, Path(cfg, sys, limit, i, key, e, victims), Accesses(i, key, e, victims, []))
    ensures Path(cfg, sys, limit, i, key, e, victims)[|victims| + 1] ==
            Midway(cfg, sys, limit, i, key, e, Members(victims))
  {
    var path, steps := Path(cfg, sys, limit, i, key, e, victims), Accesses(i, key, e, victims, []);
    forall j | 0 <= j < |steps|
      ensures Enabled(cfg, path[j], steps[j]) && path[j + 1] == Take(cfg, path[j], limit, steps[j])
    {
      if j == 0 {
        PathStarts(cfg, sys, limit, i, key, e, victims);
      } else {
        assert InTurn(cfg, sys.shards[i], victims, Needed(cfg, sys, limit, i, key, e), j - 1);
        PathStep(cfg, sys, limit, i, key, e, victims, j - 1);
      }
    }
    assert victims[..|victims|] == victims;
  }

  lemma AccessesMore(i: nat, key: string, e: Entry, victims: seq<string>, end: seq<Step>, s: Step)
    ensures Accesses(i, key, e, victims, end) + [s] == Accesses(i, key, e, victims, end + [s])
    ensures |Accesses(i, key, e, victims, end)| == |victims| + 1 + |end|
  {
  }

  lemma EvictableOrder(cfg: Config, st: State, key: string, value: string, gone: set<string>)
      returns (victims: seq<string>)
    requires cfg.Shaped(st.shards) && cfg.Evictable(st, key, value, gone)
    ensures Members(victims) == gone
    ensures AllInTurn(cfg, cfg.Shard(st.shards, key), victims, cfg.Need(st, key, value), |victims|)
  {
    victims := [];
    if gone != {} {
      var samples;
      victims, samples := Storage.LastOfOrder(cfg, cfg.Shard(st.shards, key), gone, cfg.Need(st, key, value));
      RoundsInTurn(cfg, cfg.Shard(st.shards, key), victims, samples, cfg.Need(st, key, value));
    }
  }

  /** Every write of the engine, with whatever it evicts, is made by such accesses: charged and committed when it
      fits, given up when it does not. */
  lemma WriteIsMadeOfAccesses(cfg: Config, st: State, sys: System, key: string, e: Entry, gone: set<string>)
      returns (trace: seq<System>, victims: seq<string>)
    requires cfg.Shaped(st.shards) && Shows(sys, st) && Ready(cfg, sys, cfg.Index(key), key)
    requires cfg.Evictable(st, key, e.value, gone)
    ensures trace != [] && trace[0] == sys && Members(victims) == gone
    ensures var i := cfg.Index(key);
            var end := if cfg.Fits(st, key, e.value) then [Charge(i), Commit(i)] else [GiveUp(i)];
            IsRun(cfg, st.limit, trace, Accesses(i, key, e, victims, end))
  {
    var i := cfg.Index(key);
    victims := EvictableOrder(cfg, st, key, e.value, gone);
    PathIsRun(cfg, sys, st.limit, i, key, e, victims);
    var path, steps := Path(cfg, sys, st.limit, i, key, e, victims), Accesses(i, key, e, victims, []);
    trace := EndOfPath(cfg, st, sys, key, e, gone, path, steps);
    AccessesMore(i, key, e, victims, [], Charge(i));
    AccessesMore(i, key, e, victims, [Charge(i)], Commit(i));
    AccessesMore(i, key, e, victims, [], GiveUp(i));
  }

  lemma EndOfPath(cfg: Config, st: State, sys: System, key: string, e: Entry, gone: set<string>, path: seq<System>,
                  steps: seq<Step>)
      returns (trace: seq<System>)
    requires cfg.Shaped(st.shards) && Shows(sys, st) && Ready(cfg, sys, cfg.Index(key), key)
    requires cfg.Evictable(st, key, e.value, gone) && IsRun(cfg, st.limit, path, steps) && path[0] == sys
    requires path[|steps|] == Midway(cfg, sys, st.limit, cfg.Index(key), key, e, gone)
    ensures trace != [] && trace[0] == sys
    ensures var i := cfg.Index(key);
            if cfg.Fits(st, key, e.value) then IsRun(cfg, st.limit, trace, steps + [Charge(i)] + [Commit(i)])
            else IsRun(cfg, st.limit, trace, steps + [GiveUp(i)])
  {
    var i, d := cfg.Index(key), cfg.Shard(st.shards, key);
    Storage.FitsIffFreed(cfg, st, key, e.value, gone);
    if cfg.Fits(st, key, e.value) {
      Charges(cfg, sys, st.limit, i, key, e, gone);
      Commits(cfg, sys, st.limit, i, key, e, gone);
      RunMore(cfg, st.limit, path, steps, Charge(i));
      trace := path + [Charging(cfg, sys, i, key, e, gone)];
      RunMore(cfg, st.limit, trace, steps + [Charge(i)], Commit(i));
      trace := trace + [Stored(cfg, sys, i, key, e, gone)];
    } else {
      assert d - d.Keys == map[];
      GivesUp(cfg, sys, st.limit, i, key, e, gone);
      RunMore(cfg, st.limit, path, steps, GiveUp(i));
      trace := path + [Refused(cfg, sys, i, gone)];
    }
  }
}
