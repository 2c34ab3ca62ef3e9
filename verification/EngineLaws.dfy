/** What every run of the storage engine keeps: placement, the memory account, and the conservation of keys. */
module EngineLaws {
  import opened Machine
  import opened Keyspace
  import opened Accounting
  import opened Engine

  /** The counter is the cost of all entries, less the drift, in 64 bits. */
  ghost predicate Balanced(cfg: Config, s: seq<Dict>, usage: nat, drift: nat) {
    usage == Wrap(SumTotals(cfg.capacity, s) - drift)
  }

  /** Keys that came to be are held, or were deleted, evicted or expired. */
  ghost predicate Conserved(held: int, stats: Stats, ledger: Ledger) {
    ledger.inserted == held + ledger.deleted + stats.evicted + stats.expired + ledger.silent
  }

  ghost predicate Sound(cfg: Config, st: State) {
    && cfg.Placed(st.shards)
    && Balanced(cfg, st.shards, st.usage, st.ledger.drift)
    && Conserved(Held(st.shards), st.stats, st.ledger)
    && st.ledger.lookups == st.stats.hits + st.stats.misses
  }

  // ---------- primitive changes ----------

  /** The counter moves with the sum, and away from it by what is lost. */
  lemma Rebalance(usage: nat, sum: int, drift: int, change: int, lost: int)
    requires usage == Wrap(sum - drift)
    ensures Wrap(usage + change - lost) == Wrap(sum + change - (drift + lost))
  {
    WrapSum(sum - drift, change - lost);
  }

  lemma Refund(usage: nat, before: int, after: int, drift: int, freed: int)
    requires usage == Wrap(before - drift) && after == before - freed
    ensures Wrap(usage - freed) == Wrap(after - drift)
  {
    Rebalance(usage, before, drift, -freed, 0);
  }

  lemma RemoveSums(cfg: Config, s: seq<Dict>, i: nat, gone: set<string>)
    requires cfg.Placed(s) && i < |s| && gone <= s[i].Keys
    ensures var t := s[i := s[i] - gone];
            && cfg.Placed(t) && Held(t) == Held(s) - |gone|
            && SumTotals(cfg.capacity, t) == SumTotals(cfg.capacity, s) - cfg.Freed(s[i], gone)
  {
    SumTotalsUpdate(cfg.capacity, s, i, s[i] - gone);
    HeldUpdate(s, i, s[i] - gone);
    SizeWithout(s[i], gone);
  }

  lemma RemoveBalances(cfg: Config, s: seq<Dict>, t: seq<Dict>, usage: nat, drift: nat, freed: int)
    requires Balanced(cfg, s, usage, drift) && SumTotals(cfg.capacity, t) == SumTotals(cfg.capacity, s) - freed
    ensures Balanced(cfg, t, Wrap(usage - freed), drift)
  {
    Refund(usage, SumTotals(cfg.capacity, s), SumTotals(cfg.capacity, t), drift, freed);
  }

  lemma RemoveBalanced(cfg: Config, st: State, i: nat, gone: set<string>)
    requires cfg.Placed(st.shards) && Balanced(cfg, st.shards, st.usage, st.ledger.drift)
    requires i < |st.shards| && gone <= st.shards[i].Keys
    ensures var r := cfg.Remove(st, i, gone); Balanced(cfg, r.shards, r.usage, st.ledger.drift)
  {
    var s, freed := st.shards, cfg.Freed(st.shards[i], gone);
    RemoveSums(cfg, s, i, gone);
    RemoveBalances(cfg, s, s[i := s[i] - gone], st.usage, st.ledger.drift, freed);
  }

  lemma RemoveKeeps(cfg: Config, st: State, i: nat, gone: set<string>)
    requires cfg.Placed(st.shards) && Balanced(cfg, st.shards, st.usage, st.ledger.drift)
    requires i < |st.shards| && gone <= st.shards[i].Keys
    ensures var r := cfg.Remove(st, i, gone);
            && cfg.Placed(r.shards) && Held(r.shards) == Held(st.shards) - |gone|
            && Balanced(cfg, r.shards, r.usage, st.ledger.drift)
  {
    RemoveSums(cfg, st.shards, i, gone);
    RemoveBalanced(cfg, st, i, gone);
  }

  lemma TouchKeeps(cfg: Config, st: State, key: string, e: Entry)
    requires cfg.Placed(st.shards) && key in cfg.Shard(st.shards, key)
    requires e.value == cfg.Shard(st.shards, key)[key].value
    ensures var r := cfg.Touch(st, key, e);
            && cfg.Placed(r.shards) && Held(r.shards) == Held(st.shards)
            && SumTotals(cfg.capacity, r.shards) == SumTotals(cfg.capacity, st.shards)
  {
    var i, d := cfg.Index(key), cfg.Shard(st.shards, key);
    TotalPut(cfg.capacity, d, key, e);
    SumTotalsUpdate(cfg.capacity, st.shards, i, d[key := e]);
    SizePut(d, key, e);
    HeldUpdate(st.shards, i, d[key := e]);
  }

  lemma InsertSums(cfg: Config, s: seq<Dict>, key: string, e: Entry)
    requires cfg.Placed(s)
    ensures var d := cfg.Shard(s, key); var t := s[cfg.Index(key) := d[key := e]];
            && cfg.Placed(t) && Held(t) == Held(s) + (if key in d then 0 else 1)
            && SumTotals(cfg.capacity, t) == SumTotals(cfg.capacity, s) + cfg.Cost(key, e.value) - cfg.OldCost(d, key)
  {
    var i, d := cfg.Index(key), cfg.Shard(s, key);
    TotalPut(cfg.capacity, d, key, e);
    SumTotalsUpdate(cfg.capacity, s, i, d[key := e]);
    SizePut(d, key, e);
    HeldUpdate(s, i, d[key := e]);
  }

  /** Storing keeps the account: what was not there to give back is lost, and that is the drift. */
  lemma InsertKeeps(cfg: Config, st: State, key: string, e: Entry, oldCost: nat)
    requires Sound(cfg, st)
    requires key in cfg.Shard(st.shards, key) ==> oldCost == cfg.OldCost(cfg.Shard(st.shards, key), key)
    ensures Sound(cfg, cfg.Insert(st, key, e, oldCost))
  {
    var d := cfg.Shard(st.shards, key);
    InsertSums(cfg, st.shards, key, e);
    Rebalance(st.usage, SumTotals(cfg.capacity, st.shards), st.ledger.drift,
              cfg.Cost(key, e.value) - cfg.OldCost(d, key), if key in d then 0 else oldCost);
  }

  // ---------- commands ----------

  lemma PurgeKeeps(cfg: Config, st: State, key: string, now: nat, counted: bool)
    requires Sound(cfg, st)
    ensures Sound(cfg, cfg.Purge(st, key, now, counted))
  {
    if cfg.Lapsed(st, key, now) {
      RemoveKeeps(cfg, st, cfg.Index(key), {key});
    }
  }

  lemma LookUpKeeps(cfg: Config, st: State, key: string, now: nat)
    requires Sound(cfg, st)
    ensures Sound(cfg, cfg.LookUp(st, key, now))
  {
    PurgeKeeps(cfg, st, key, now, true);
    var p := cfg.Purge(st, key, now, true);
    var e := cfg.At(p.shards, key);
    if e.Some? {
      TouchKeeps(cfg, p, key, e.value.(lastAccess := now));
    }
  }

  lemma {:induction false} LookUpAllKeeps(cfg: Config, st: State, keys: seq<string>, now: nat)
    requires Sound(cfg, st)
    ensures Sound(cfg, cfg.LookUpAll(st, keys, now))
  {
    if keys != [] {
      LookUpAllKeeps(cfg, st, keys[..|keys| - 1], now);
      LookUpKeeps(cfg, cfg.LookUpAll(st, keys[..|keys| - 1], now), keys[|keys| - 1], now);
    }
  }

  lemma {:induction false} DeleteAllKeeps(cfg: Config, st: State, keys: seq<string>)
    requires Sound(cfg, st)
    ensures Sound(cfg, cfg.DeleteAll(st, keys))
  {
    if keys != [] {
      var key, s := keys[|keys| - 1], cfg.DeleteAll(st, keys[..|keys| - 1]);
      DeleteAllKeeps(cfg, st, keys[..|keys| - 1]);
      if key in cfg.Shard(s.shards, key) {
        RemoveKeeps(cfg, s, cfg.Index(key), {key});
      }
    }
  }

  lemma RetimeKeeps(cfg: Config, st: State, key: string, deadline: nat, now: nat)
    requires Sound(cfg, st)
    ensures Sound(cfg, cfg.Retime(st, key, deadline, now))
  {
    PurgeKeeps(cfg, st, key, now, true);
    var p := cfg.Purge(st, key, now, true);
    var e := cfg.At(p.shards, key);
    if e.Some? {
      TouchKeeps(cfg, p, key, e.value.(expireAt := deadline, lastAccess := now));
    }
  }

  lemma UnexpireKeeps(cfg: Config, st: State, key: string, now: nat)
    requires Sound(cfg, st)
    ensures Sound(cfg, cfg.Unexpire(st, key, now))
  {
    PurgeKeeps(cfg, st, key, now, false);
    var p := cfg.Purge(st, key, now, false);
    var e := cfg.At(p.shards, key);
    if e.Some? {
      TouchKeeps(cfg, p, key, e.value.(expireAt := 0, lastAccess := now));
    }
  }

  lemma WriteKeeps(cfg: Config, st: State, key: string, e: Entry, gone: set<string>)
    requires Sound(cfg, st) && cfg.Evictable(st, key, e.value, gone)
    ensures Sound(cfg, cfg.Write(st, key, e, gone))
  {
    var i := cfg.Index(key);
    var room := cfg.Evict(st, i, gone);
    RemoveKeeps(cfg, st, i, gone);
    InsertKeeps(cfg, room, key, e, cfg.OldCost(cfg.Shard(st.shards, key), key));
  }

  lemma SweepKeeps(cfg: Config, st: State, i: nat, seen: set<string>, now: nat)
    requires Sound(cfg, st) && i < |st.shards|
    ensures Sound(cfg, cfg.Sweep(st, i, seen, now))
  {
    RemoveKeeps(cfg, st, i, set k | k in seen && k in st.shards[i] && Dead(st.shards[i][k], now));
  }

  lemma CommandKeeps(cfg: Config, st: State, c: Command, now: nat, gone: set<string>)
    requires Sound(cfg, st) && cfg.Possible(st, c, now, gone)
    ensures Sound(cfg, cfg.After(st, c, now, gone))
  {
    match c
    case Set(k, v) => WriteKeeps(cfg, st, k, Entry(v, 0, now), gone);
    case Get(k) => LookUpKeeps(cfg, st, k, now);
    case Del(keys) => DeleteAllKeeps(cfg, st, keys);
    case Exists(keys) => LookUpAllKeeps(cfg, st, keys, now);
    case Add(k, delta) =>
      PurgeKeeps(cfg, st, k, now, false);
      var w := cfg.Writes(st, c, now);
      if w.Some? {
        WriteKeeps(cfg, w.value.0, k, w.value.1, gone);
      }
    case Expire(k, _) => RetimeKeeps(cfg, st, k, c.Deadline(now), now);
    case ExpireAt(k, _) => RetimeKeeps(cfg, st, k, c.Deadline(now), now);
    case Pttl(k) => PurgeKeeps(cfg, st, k, now, false);
    case Persist(k) => UnexpireKeeps(cfg, st, k, now);
  }
}
