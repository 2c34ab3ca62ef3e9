/** The key space as one timed map, with no memory limit: what every command answers and leaves behind.
    Each command acts on the keys it names and on nothing else, so its effect is given key by key. */
module Keyspace {
  import opened Machine
  import opened Decimal

  /** `expireAt` is absolute, in milliseconds; 0 means no expiry. */
  datatype Entry = Entry(value: string, expireAt: nat, lastAccess: nat)

  type Dict = map<string, Entry>

  function Find(d: Dict, k: string): Option<Entry> {
    if k in d then Some(d[k]) else None
  }

  predicate Dead(e: Entry, now: nat) {
    e.expireAt > 0 && e.expireAt <= now
  }

  predicate Live(e: Option<Entry>, now: nat) {
    e.Some? && !Dead(e.value, now)
  }

  /** `Add` is INCR (+1) and DECR (-1); `Expire` is EXPIRE and PEXPIRE with the offset in milliseconds. */
  datatype Command =
    | Set(key: string, value: string)
    | Get(key: string)
    | Del(keys: seq<string>)
    | Exists(keys: seq<string>)
    | Add(key: string, delta: int)
    | Expire(key: string, offset: int)
    | ExpireAt(key: string, at: nat)
    | Pttl(key: string)
    | Persist(key: string)
  {
    function Keys(): set<string> {
      if Del? || Exists? then set k | k in keys else {key}
    }

    /** The absolute deadline an expiry command sets. */
    function Deadline(now: nat): nat
      requires Expire? || ExpireAt?
    {
      if Expire? then Wrap(now + offset) else at
    }
  }

  datatype Reply = Stored | Text(text: Option<string>) | Number(n: int) | NotANumber

  /** The integer INCR and DECR start from: 0 when there is no live entry, the whole value otherwise. */
  function Base(e: Option<Entry>, now: nat): Option<int> {
    if !Live(e, now) then Some(0)
    else
      match ScanSigned(e.value.value)
      case None => None
      case Some(r) => if r.length == |e.value.value| then Some(r.value) else None
  }

  /** The entry of key `k` after command `c`, given the one before. */
  function KeyStep(c: Command, k: string, e: Option<Entry>, now: nat): Option<Entry> {
    if k !in c.Keys() then e
    else if c.Set? then Some(Entry(c.value, 0, now))
    else if c.Add? then
      match Base(e, now)
      case None => e
      case Some(n) => Some(Entry(Print(Int64(n + c.delta)), if Live(e, now) then e.value.expireAt else 0, now))
    else if c.Del? || !Live(e, now) then None
    else
      match c
      case Expire(_, _) => Some(e.value.(expireAt := c.Deadline(now), lastAccess := now))
      case ExpireAt(_, _) => Some(e.value.(expireAt := c.Deadline(now), lastAccess := now))
      case Persist(_) => if e.value.expireAt == 0 then e else Some(e.value.(expireAt := 0, lastAccess := now))
      case Pttl(_) => e
      case _ => Some(e.value.(lastAccess := now))
  }

  function Apply(c: Command, d: Dict, now: nat): Dict {
    map k | k in d.Keys + c.Keys() && KeyStep(c, k, Find(d, k), now).Some?
      :: KeyStep(c, k, Find(d, k), now).value
  }

  /** How many of the listed keys are live, repeats counted as often as listed. */
  function CountLive(d: Dict, keys: seq<string>, now: nat): nat {
    if keys == [] then 0
    else CountLive(d, keys[..|keys| - 1], now) + if Live(Find(d, keys[|keys| - 1]), now) then 1 else 0
  }

  function Answer(c: Command, d: Dict, now: nat): Reply {
    match c
    case Set(_, _) => Stored
    case Get(k) => Text(if Live(Find(d, k), now) then Some(d[k].value) else None)
    case Del(_) => Number(|c.Keys() * d.Keys|)
    case Exists(keys) => Number(CountLive(d, keys, now))
    case Add(k, delta) =>
      (match Base(Find(d, k), now)
       case None => NotANumber
       case Some(n) => Number(Int64(n + delta)))
    case Expire(k, _) => Number(if Live(Find(d, k), now) then 1 else 0)
    case ExpireAt(k, _) => Number(if Live(Find(d, k), now) then 1 else 0)
    case Pttl(k) =>
      Number(if !Live(Find(d, k), now) then -2
             else if d[k].expireAt == 0 then -1
             else Int64(d[k].expireAt - now))
    case Persist(k) => Number(if Live(Find(d, k), now) && d[k].expireAt > 0 then 1 else 0)
  }

  /** What the log keeps of a command that was answered `r` at time `now`. */
  function LoggedAs(c: Command, r: Reply, now: nat): Option<Command> {
    match c
    case Set(_, _) => Some(c)
    case Del(_) => if r.Number? && r.n > 0 then Some(c) else None
    case Add(_, _) => if r.Number? then Some(c) else None
    case Expire(k, _) => if r == Number(1) then Some(ExpireAt(k, c.Deadline(now))) else None
    case ExpireAt(_, _) => if r == Number(1) then Some(c) else None
    case Persist(_) => if r == Number(1) then Some(c) else None
    case _ => None
  }

  // ---------- what a client can see ----------

  datatype Seen = Seen(value: string, expireAt: nat)

  /** What is visible of an entry at time `now`: nothing once it is dead; the access time never shows. */
  function See(e: Option<Entry>, now: nat): Option<Seen> {
    if Live(e, now) then Some(Seen(e.value.value, e.value.expireAt)) else None
  }

  function Visible(d: Dict, now: nat): map<string, Seen> {
    map k | k in d && Live(Find(d, k), now) :: Seen(d[k].value, d[k].expireAt)
  }

  lemma FindApply(c: Command, d: Dict, now: nat, k: string)
    ensures Find(Apply(c, d, now), k) == KeyStep(c, k, Find(d, k), now)
  {
  }

  /** Two maps look the same exactly when every key does. */
  lemma VisibleByKey(a: Dict, b: Dict, now: nat)
    ensures Visible(a, now) == Visible(b, now) <==>
            forall k: string :: See(Find(a, k), now) == See(Find(b, k), now)
  {
    if Visible(a, now) == Visible(b, now) {
      forall k: string ensures See(Find(a, k), now) == See(Find(b, k), now) {
        assert k in Visible(a, now) <==> k in Visible(b, now);
        if k in Visible(a, now) {
          assert Visible(a, now)[k] == Visible(b, now)[k];
        }
      }
    }
    if forall k: string :: See(Find(a, k), now) == See(Find(b, k), now) {
      forall k: string
        ensures k in Visible(a, now) <==> k in Visible(b, now)
        ensures k in Visible(a, now) && k in Visible(b, now) ==> Visible(a, now)[k] == Visible(b, now)[k]
      {
        assert See(Find(a, k), now) == See(Find(b, k), now);
      }
    }
  }

  lemma SameFinds(a: Dict, b: Dict)
    requires forall k: string :: Find(a, k) == Find(b, k)
    ensures a == b
  {
    assert forall k: string :: k in a <==> Find(a, k).Some?;
    assert forall k: string :: k in b <==> Find(b, k).Some?;
    assert forall k: string :: k in a ==> a[k] == Find(a, k).value;
  }
}
