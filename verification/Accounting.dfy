/** Sums over dictionaries: what the entries of a shard cost, and what all shards together hold. */
module Accounting {
  import opened Machine
  import opened Keyspace

  /** `sizeof(DictEntry)`: a string object and two 64-bit fields. */
  const ENTRY_SIZE: nat := 48
  const NODE_OVERHEAD: nat := 32

  /** `capacity` is what a string's buffer takes, as a function of its contents. */
  function EntryCost(capacity: string -> nat, key: string, value: string): (c: nat)
    ensures c > 0
  {
    capacity(key) + capacity(value) + ENTRY_SIZE + NODE_OVERHEAD
  }

  ghost function Total(capacity: string -> nat, d: Dict): nat
    decreases |d|
  {
    if d == map[] then 0
    else
      var k :| k in d;
      EntryCost(capacity, k, d[k].value) + Total(capacity, d - {k})
  }

  /** The sum does not depend on the order of summation: any entry can be taken out first. */
  lemma {:induction false} TotalWithout(capacity: string -> nat, d: Dict, k: string)
    requires k in d
    ensures Total(capacity, d) == EntryCost(capacity, k, d[k].value) + Total(capacity, d - {k})
    decreases |d|
  {
    var x :| x in d && Total(capacity, d) == EntryCost(capacity, x, d[x].value) + Total(capacity, d - {x});
    if x != k {
      TotalWithout(capacity, d - {x}, k);
      TotalWithout(capacity, d - {k}, x);
      assert d - {x} - {k} == d - {k} - {x};
    }
  }

  lemma TotalPut(capacity: string -> nat, d: Dict, k: string, e: Entry)
    ensures Total(capacity, d[k := e]) ==
            Total(capacity, d) + EntryCost(capacity, k, e.value)
            - (if k in d then EntryCost(capacity, k, d[k].value) else 0)
  {
    TotalWithout(capacity, d[k := e], k);
    assert d[k := e] - {k} == d - {k};
    if k in d {
      TotalWithout(capacity, d, k);
    } else {
      assert d - {k} == d;
    }
  }

  ghost function SumTotals(capacity: string -> nat, shards: seq<Dict>): nat {
    if shards == [] then 0 else Total(capacity, shards[0]) + SumTotals(capacity, shards[1..])
  }

  lemma {:induction false} SumTotalsUpdate(capacity: string -> nat, shards: seq<Dict>, i: nat, d: Dict)
    requires i < |shards|
    ensures SumTotals(capacity, shards[i := d]) ==
            SumTotals(capacity, shards) - Total(capacity, shards[i]) + Total(capacity, d)
    decreases |shards|
  {
    if i == 0 {
      assert shards[i := d][1..] == shards[1..];
    } else {
      assert shards[i := d][1..] == shards[1..][i - 1 := d];
      SumTotalsUpdate(capacity, shards[1..], i - 1, d);
    }
  }

  /** Number of entries held. */
  ghost function Held(shards: seq<Dict>): nat {
    if shards == [] then 0 else |shards[0]| + Held(shards[1..])
  }

  lemma {:induction false} HeldUpdate(shards: seq<Dict>, i: nat, d: Dict)
    requires i < |shards|
    ensures Held(shards[i := d]) == Held(shards) - |shards[i]| + |d|
    decreases |shards|
  {
    if i == 0 {
      assert shards[i := d][1..] == shards[1..];
    } else {
      assert shards[i := d][1..] == shards[1..][i - 1 := d];
      HeldUpdate(shards[1..], i - 1, d);
    }
  }

  lemma SizeWithout(d: Dict, gone: set<string>)
    requires gone <= d.Keys
    ensures |d - gone| == |d| - |gone|
  {
    assert (d - gone).Keys == d.Keys - gone;
  }

  lemma SizePut(d: Dict, k: string, e: Entry)
    ensures |d[k := e]| == |d| + if k in d then 0 else 1
  {
    assert d[k := e].Keys == d.Keys + {k};
  }

  // ---------- the memory check ----------

  /** Bytes a write must free first: the check of `set`, `incr` and `decr` in 64-bit arithmetic. */
  function Shortfall(usage: nat, newCost: nat, oldCost: nat, limit: nat): nat {
    if limit > 0 && Wrap(usage + newCost) > Wrap(limit + oldCost)
    then Wrap(Wrap(usage + newCost) - Wrap(limit + oldCost))
    else 0
  }

  /** While nothing wraps, the shortfall is what the write would put on top of the limit. */
  lemma ShortfallIsExcess(usage: nat, newCost: nat, oldCost: nat, limit: nat)
    requires limit > 0 && usage + newCost <= UINT64_MAX && limit + oldCost <= UINT64_MAX
    ensures var s := Shortfall(usage, newCost, oldCost, limit);
            s == if usage + newCost - oldCost > limit then usage + newCost - oldCost - limit else 0
  {
  }
}
