/** What each command leaves in its shard, in plain arithmetic. */
module ShardLaws {
  import opened Machine
  import opened Decimal
  import opened Keyspace
  import Accounting
  import opened Engine
  import opened EngineLaws
  import opened EngineRefinement
  import opened ClientLaws

  lemma CommandEntry(cfg: Config, st: State, c: Command, now: nat, gone: set<string>)
    requires Sound(cfg, st) && cfg.Possible(st, c, now, gone) && !cfg.Refused(st, c, now) && !c.Del? && !c.Exists?
    ensures cfg.At(cfg.After(st, c, now, gone).shards, c.key) == KeyStep(c, c.key, cfg.At(st.shards, c.key), now)
  {
    if c.Add? {
      PurgeKeeps(cfg, st, c.key, now, false);
    }
    CommandAt(cfg, st, c, now, gone, c.key);
  }

  /** The number that INCR and DECR start from. */
  function Start(e: Option<Entry>, now: nat): Option<int> {
    if Live(e, now) then WholeNumber(e.value.value) else Some(0)
  }

  /** The deadline that they keep. */
  function Kept(e: Option<Entry>, now: nat): nat {
    if Live(e, now) then e.value.expireAt else 0
  }

  /** INCR and DECR compute the two's complement sum. */
  lemma SumNumber(e: Option<Entry>, now: nat, delta: int)
    ensures Base(e, now) == Start(e, now)
    ensures Base(e, now).Some? ==> Int64(Base(e, now).value + delta) == Signed(Start(e, now).value + delta)
  {
    BaseIsWhole(e, now);
    if Base(e, now).Some? {
      Int64IsSigned(Base(e, now).value + delta);
    }
  }

  /** And if they are not refused, store it, under the deadline that the key had. */
  lemma SumEntryStored(cfg: Config, st: State, k: string, delta: int, now: nat, gone: set<string>, n: int)
    requires Sound(cfg, st) && cfg.Possible(st, Add(k, delta), now, gone) && !cfg.Refused(st, Add(k, delta), now)
    requires Base(cfg.At(st.shards, k), now).Some? && Int64(Base(cfg.At(st.shards, k), now).value + delta) == n
    ensures cfg.At(cfg.After(st, Add(k, delta), now, gone).shards, k) ==
            Some(Entry(Print(n), Kept(cfg.At(st.shards, k), now), now))
  {
    CommandEntry(cfg, st, Add(k, delta), now, gone);
  }

  /** EXPIRE, PEXPIRE and PEXPIREAT give a live entry its new deadline. */
  lemma ExpiryStored(cfg: Config, st: State, c: Command, now: nat)
    requires Sound(cfg, st) && (c.Expire? || c.ExpireAt?)
    ensures var e := cfg.At(st.shards, c.key);
            cfg.At(cfg.After(st, c, now, {}).shards, c.key) ==
            if Live(e, now) then Some(Entry(e.value.value, NewDeadline(c, now), now)) else None
  {
    CommandEntry(cfg, st, c, now, {});
    if c.Expire? {
      WrapIsModulo(now + c.offset);
    }
  }

  /** PERSIST takes the deadline from a live entry. */
  lemma PersistStored(cfg: Config, st: State, k: string, now: nat)
    requires Sound(cfg, st)
    ensures var e := cfg.At(st.shards, k);
            cfg.At(cfg.After(st, Persist(k), now, {}).shards, k) ==
            if !Live(e, now) then None
            else if e.value.expireAt == 0 then e
            else Some(Entry(e.value.value, 0, now))
  {
    CommandEntry(cfg, st, Persist(k), now, {});
  }

  /** GET leaves a live entry as it is, its access time aside; PTTL leaves that as well. */
  lemma ReadStored(cfg: Config, st: State, c: Command, now: nat)
    requires Sound(cfg, st) && (c.Get? || c.Pttl?)
    ensures var e := cfg.At(st.shards, c.key);
            cfg.At(cfg.After(st, c, now, {}).shards, c.key) ==
            if !Live(e, now) then None
            else Some(Entry(e.value.value, e.value.expireAt, if c.Get? then now else e.value.lastAccess))
  {
    CommandEntry(cfg, st, c, now, {});
  }

  // ---------- the counters ----------

  /** SET that evicts nothing charges a new key with the capacities of key and value and 80 bytes, and an old one with
      the difference of the values' capacities. */
  lemma SetCharges(cfg: Config, st: State, k: string, v: string, now: nat)
    requires Sound(cfg, st) && cfg.Evictable(st, k, v, {}) && cfg.Fits(st, k, v)
    ensures var e := cfg.At(st.shards, k);
            cfg.After(st, Set(k, v), now, {}).usage ==
            Wrap(if e.None? then st.usage + (cfg.capacity(k) + cfg.capacity(v) + 80)
                 else st.usage + cfg.capacity(v) - cfg.capacity(e.value.value))
  {
    var d := cfg.Shard(st.shards, k);
    assert d - {} == d && st.shards[cfg.Index(k) := d] == st.shards;
    assert cfg.Evict(st, cfg.Index(k), {}) == st;
  }

  /** DEL gives the same back. */
  lemma DelRefunds(cfg: Config, st: State, k: string, now: nat)
    requires Sound(cfg, st)
    ensures var e := cfg.At(st.shards, k);
            cfg.After(st, Del([k]), now, {}).usage ==
            if e.None? then st.usage else Wrap(st.usage - (cfg.capacity(k) + cfg.capacity(e.value.value) + 80))
  {
    assert [k][..0] == [] && cfg.DeleteAll(st, []) == st;
    if k in cfg.Shard(st.shards, k) {
      Accounting.TotalWithout(cfg.capacity, cfg.Shard(st.shards, k), k);
    }
  }

  /** The telemetry after a command on one key: GET counts a hit or a miss; evicted keys are counted, and a key that
      GET, EXPIRE, PEXPIRE or PEXPIREAT find expired. */
  ghost predicate Counted(cfg: Config, st: State, c: Command, now: nat, gone: set<string>)
    requires cfg.Shaped(st.shards) && !c.Del? && !c.Exists?
  {
    var live, lapsed := Live(cfg.At(st.shards, c.key), now), cfg.Lapsed(st, c.key, now);
    var s, t := st.stats, cfg.After(st, c, now, gone).stats;
    && t.hits == s.hits + (if c.Get? && live then 1 else 0)
    && t.misses == s.misses + (if c.Get? && !live then 1 else 0)
    && t.evicted == s.evicted + |gone|
    && t.expired == s.expired + (if (c.Get? || c.Expire? || c.ExpireAt?) && lapsed then 1 else 0)
  }

  lemma WriteCounted(cfg: Config, st: State, key: string, e: Entry, gone: set<string>)
    requires cfg.Shaped(st.shards)
    ensures cfg.Write(st, key, e, gone).stats == st.stats.(evicted := st.stats.evicted + |gone|)
  {
  }

  lemma WritesCounted(cfg: Config, st: State, c: Command, now: nat, gone: set<string>)
    requires Sound(cfg, st) && cfg.Possible(st, c, now, gone) && (c.Set? || c.Add?)
    ensures Counted(cfg, st, c, now, gone)
  {
    if cfg.Writes(st, c, now).Some? {
      var (s, e) := cfg.Writes(st, c, now).value;
      WriteCounted(cfg, s, c.key, e, gone);
    }
  }

  lemma OthersCounted(cfg: Config, st: State, c: Command, now: nat)
    requires Sound(cfg, st) && !c.Del? && !c.Exists? && !c.Set? && !c.Add?
    ensures Counted(cfg, st, c, now, {})
  {
    AtPurge(cfg, st, c.key, now, c.Get? || c.Expire? || c.ExpireAt?, c.key);
  }

  lemma StatsTell(cfg: Config, st: State, c: Command, now: nat, gone: set<string>)
    requires Sound(cfg, st) && cfg.Possible(st, c, now, gone) && !c.Del? && !c.Exists?
    ensures Counted(cfg, st, c, now, gone)
  {
    if c.Set? || c.Add? {
      WritesCounted(cfg, st, c, now, gone);
    } else {
      OthersCounted(cfg, st, c, now);
    }
  }
}
