/** What clients get: the answer of every command and what it changes for others to see, in terms of what is visible
    and in plain arithmetic. */
module ClientLaws {
  import opened Machine
  import opened Decimal
  import opened Keyspace

  /** A 64-bit number with a sign, in two's complement. */
  function Signed(x: int): int {
    (x + 0x8000_0000_0000_0000) % 0x1_0000_0000_0000_0000 - 0x8000_0000_0000_0000
  }

  /** The text is a number from its first byte to its last: digits, a minus sign before them or not, in 64 bits. */
  function WholeNumber(s: string): Option<int> {
    var negative := s != "" && s[0] == '-';
    var digits := if negative then s[1..] else s;
    if digits == "" || !AllDigits(digits) then None
    else
      var n: int := if negative then 0 - Denoted(digits) else Denoted(digits);
      if -0x8000_0000_0000_0000 <= n < 0x8000_0000_0000_0000 then Some(n) else None
  }

  /** Until when a key is visible that has this deadline; 0 is none. */
  predicate Lasts(deadline: nat, t: nat) {
    deadline == 0 || t < deadline
  }

  /** What is visible at time `t` if it was `seen` and then key `k` came to hold this. */
  function Holding(seen: map<string, Seen>, k: string, value: string, deadline: nat, t: nat): map<string, Seen> {
    if Lasts(deadline, t) then seen[k := Seen(value, deadline)] else seen - {k}
  }

  // ---------- one key at a time ----------

  lemma SeenAt(d: Dict, t: nat, k: string)
    ensures (k in Visible(d, t) <==> See(Find(d, k), t).Some?)
    ensures k in Visible(d, t) ==> Visible(d, t)[k] == See(Find(d, k), t).value
  {
  }

  /** What is visible after a command, key by key. */
  lemma SeenAfter(c: Command, d: Dict, now: nat, t: nat, k: string)
    ensures var after := Visible(Apply(c, d, now), t);
            && (k in after <==> See(KeyStep(c, k, Find(d, k), now), t).Some?)
            && (k in after ==> after[k] == See(KeyStep(c, k, Find(d, k), now), t).value)
            && (k !in c.Keys() ==> (k in after <==> k in Visible(d, t))
                                   && (k in after ==> after[k] == Visible(d, t)[k]))
  {
    FindApply(c, d, now, k);
    SeenAt(Apply(c, d, now), t, k);
    SeenAt(d, t, k);
  }

  lemma SameSeen(a: map<string, Seen>, b: map<string, Seen>)
    requires forall k: string :: (k in a <==> k in b) && (k in a && k in b ==> a[k] == b[k])
    ensures a == b
  {
  }

  /** A command on one key changes what is visible of that key alone. */
  lemma OneKeyShows(c: Command, d: Dict, now: nat, t: nat, k: string)
    requires c.Keys() == {k}
    ensures Visible(Apply(c, d, now), t) ==
            match See(KeyStep(c, k, Find(d, k), now), t)
            case None => Visible(d, t) - {k}
            case Some(s) => Visible(d, t)[k := s]
  {
    forall x: string { SeenAfter(c, d, now, t, x); }
    var after, s := Visible(d, t), See(KeyStep(c, k, Find(d, k), now), t);
    SameSeen(Visible(Apply(c, d, now), t), if s.None? then after - {k} else after[k := s.value]);
  }

  // ---------- values ----------

  /** SET: from now on and for good the key shows the value, and nothing else changes. */
  lemma SetShows(k: string, v: string, d: Dict, now: nat, t: nat)
    ensures Answer(Set(k, v), d, now) == Stored
    ensures Visible(Apply(Set(k, v), d, now), t) == Visible(d, t)[k := Seen(v, 0)]
  {
    OneKeyShows(Set(k, v), d, now, t, k);
  }

  /** GET answers the visible value, whatever its deadline. */
  lemma GetAnswers(k: string, d: Dict, now: nat)
    ensures Answer(Get(k), d, now) == Text(if k in Visible(d, now) then Some(Visible(d, now)[k].value) else None)
  {
  }

  /** The positions at which a visible key is listed. */
  function Hits(keys: seq<string>, seen: map<string, Seen>): set<int> {
    set i | 0 <= i < |keys| && keys[i] in seen
  }

  lemma HitsMore(keys: seq<string>, n: nat, seen: map<string, Seen>)
    requires n + 1 == |keys|
    ensures |Hits(keys, seen)| == |Hits(keys[..n], seen)| + if keys[n] in seen then 1 else 0
  {
    var before := Hits(keys[..n], seen);
    assert n !in before;
    assert Hits(keys, seen) == if keys[n] in seen then before + {n} else before;
  }

  /** EXISTS answers at how many positions a visible key is listed. */
  lemma {:induction false} ExistsAnswers(keys: seq<string>, d: Dict, now: nat)
    ensures Answer(Exists(keys), d, now) == Number(|Hits(keys, Visible(d, now))|)
    decreases |keys|
  {
    if keys == [] {
      assert Hits(keys, Visible(d, now)) == {};
    } else {
      var n := |keys| - 1;
      ExistsAnswers(keys[..n], d, now);
      HitsMore(keys, n, Visible(d, now));
    }
  }

  /** DEL takes the listed keys from sight, now and later, and answers how many different ones were there, those
      included that had expired and not yet gone. */
  lemma DelShows(keys: seq<string>, d: Dict, now: nat, t: nat)
    ensures Answer(Del(keys), d, now) == Number(|set k | k in keys && k in d|)
    ensures Visible(Apply(Del(keys), d, now), t) == Visible(d, t) - (set k | k in keys)
  {
    assert Del(keys).Keys() * d.Keys == set k | k in keys && k in d;
    forall x: string { SeenAfter(Del(keys), d, now, t, x); }
    SameSeen(Visible(Apply(Del(keys), d, now), t), Visible(d, t) - (set k | k in keys));
  }

  /** GET, EXISTS and PTTL change nothing that is visible from then on. */
  lemma ReadsShowNothing(c: Command, d: Dict, now: nat, t: nat)
    requires (c.Get? || c.Exists? || c.Pttl?) && now <= t
    ensures Visible(Apply(c, d, now), t) == Visible(d, t)
  {
    forall x: string ensures See(Find(Apply(c, d, now), x), t) == See(Find(d, x), t) {
      FindApply(c, d, now, x);
    }
    VisibleByKey(Apply(c, d, now), d, t);
  }

  // ---------- sums ----------

  lemma DigitsScan(s: string, limit: int)
    ensures ScanDigits(s, limit).Some? && ScanDigits(s, limit).value.length == |s| <==>
            s != "" && AllDigits(s) && Denoted(s) <= limit
    ensures ScanDigits(s, limit).Some? && ScanDigits(s, limit).value.length == |s| ==>
              ScanDigits(s, limit).value.value == Denoted(s)
  {
    if AllDigits(s) {
      DigitRunStops(s, "");
      assert s + "" == s;
    }
    assert s[..|s|] == s;
  }

  /** INCR and DECR start from the visible value if all of it is a number, and from 0 if there is none. */
  lemma BaseIsWhole(e: Option<Entry>, now: nat)
    ensures Base(e, now) == if Live(e, now) then WholeNumber(e.value.value) else Some(0)
  {
    if Live(e, now) {
      var s := e.value.value;
      if s != "" && s[0] == '-' {
        DigitsScan(s[1..], -INT64_MIN);
      } else {
        DigitsScan(s, INT64_MAX);
      }
    }
  }

  /** What INCR and DECR answer. */
  lemma SumAnswers(k: string, delta: int, d: Dict, now: nat)
    ensures var seen := Visible(d, now);
            var start := if k in seen then WholeNumber(seen[k].value) else Some(0);
            Answer(Add(k, delta), d, now) == if start.None? then NotANumber else Number(Signed(start.value + delta))
  {
    BaseIsWhole(Find(d, k), now);
    if Base(Find(d, k), now).Some? {
      Int64IsSigned(Base(Find(d, k), now).value + delta);
    }
  }

  /** The number that is answered is the number that is stored, with the deadline the key had; when there is no
      number, nothing is changed. */
  lemma SumShows(k: string, delta: int, d: Dict, now: nat, t: nat)
    ensures var deadline := if k in Visible(d, now) then Visible(d, now)[k].expireAt else 0;
            match Answer(Add(k, delta), d, now)
            case Number(n) =>
              Visible(Apply(Add(k, delta), d, now), t) == Holding(Visible(d, t), k, Print(n), deadline, t)
            case _ => Apply(Add(k, delta), d, now) == d
  {
    if Answer(Add(k, delta), d, now).Number? {
      OneKeyShows(Add(k, delta), d, now, t, k);
    } else {
      forall x: string ensures Find(Apply(Add(k, delta), d, now), x) == Find(d, x) {
        FindApply(Add(k, delta), d, now, x);
      }
      SameFinds(Apply(Add(k, delta), d, now), d);
    }
  }

  lemma PrintIsWhole(n: int)
    requires INT64_MIN <= n <= INT64_MAX
    ensures WholeNumber(Print(n)) == Some(n)
  {
    if n < 0 {
      assert Print(n)[1..] == PrintNat(-n);
    } else {
      assert IsDigit(PrintNat(n)[0]);
    }
  }

  lemma SignedFits(x: int)
    requires INT64_MIN <= x <= INT64_MAX
    ensures Signed(x) == x
  {
  }

  /** GET answers the number that INCR and DECR answered, until the deadline that the key had. */
  lemma SumIsRead(k: string, delta: int, d: Dict, now: nat, t: nat, n: int)
    requires Answer(Add(k, delta), d, now) == Number(n)
    ensures var deadline := if k in Visible(d, now) then Visible(d, now)[k].expireAt else 0;
            Answer(Get(k), Apply(Add(k, delta), d, now), t) ==
            Text(if Lasts(deadline, t) then Some(Print(n)) else None)
  {
    SumShows(k, delta, d, now, t);
    GetAnswers(k, Apply(Add(k, delta), d, now), t);
  }

  /** What INCR and DECR make of a number `m`, and GET then answers, until the deadline that the key had. */
  lemma SumAdds(k: string, m: int, delta: int, d: Dict, now: nat, t: nat)
    requires INT64_MIN <= m + delta <= INT64_MAX
    requires if k in Visible(d, now) then WholeNumber(Visible(d, now)[k].value) == Some(m) else m == 0
    ensures var deadline := if k in Visible(d, now) then Visible(d, now)[k].expireAt else 0;
            && Answer(Add(k, delta), d, now) == Number(m + delta)
            && Answer(Get(k), Apply(Add(k, delta), d, now), t) ==
               Text(if Lasts(deadline, t) then Some(Print(m + delta)) else None)
  {
    assert Answer(Add(k, delta), d, now) == Number(m + delta) by {
      SumAnswers(k, delta, d, now);
      SignedFits(m + delta);
    }
    SumIsRead(k, delta, d, now, t, m + delta);
  }

  /** Counting counts: after SET of a number INCR and DECR answer the next one, and GET then answers it. */
  lemma SumCounts(k: string, m: int, delta: int, d: Dict, s: nat, now: nat, t: nat)
    requires INT64_MIN <= m <= INT64_MAX && INT64_MIN <= m + delta <= INT64_MAX
    ensures var e := Apply(Set(k, Print(m)), d, s);
            && Answer(Add(k, delta), e, now) == Number(m + delta)
            && Answer(Get(k), Apply(Add(k, delta), e, now), t) == Text(Some(Print(m + delta)))
  {
    SetShows(k, Print(m), d, s, now);
    PrintIsWhole(m);
    SumAdds(k, m, delta, Apply(Set(k, Print(m)), d, s), now, t);
  }

  // ---------- deadlines ----------

  /** The deadline a command gives its key, in plain arithmetic. */
  function NewDeadline(c: Command, now: nat): nat
    requires c.Expire? || c.ExpireAt?
  {
    if c.Expire? then (now + c.offset) % 0x1_0000_0000_0000_0000 else c.at
  }

  /** EXPIRE, PEXPIRE and PEXPIREAT: a visible key keeps its value and gets the deadline; of any other nothing is
      visible from then on. */
  lemma ExpireShows(c: Command, d: Dict, now: nat, t: nat)
    requires c.Expire? || c.ExpireAt?
    ensures var seen := Visible(d, now);
            && Answer(c, d, now) == Number(if c.key in seen then 1 else 0)
            && (c.key in seen ==> Visible(Apply(c, d, now), t) ==
                                  Holding(Visible(d, t), c.key, seen[c.key].value, NewDeadline(c, now), t))
            && (c.key !in seen && now <= t ==> Visible(Apply(c, d, now), t) == Visible(d, t))
  {
    var seen := Visible(d, now);
    if c.Expire? {
      WrapIsModulo(now + c.offset);
    }
    OneKeyShows(c, d, now, t, c.key);
    if c.key !in seen && now <= t {
      assert Visible(d, t) - {c.key} == Visible(d, t);
    }
  }

  /** PTTL: what is left until the deadline, -1 without one, -2 without a visible key. */
  lemma PttlAnswers(k: string, d: Dict, now: nat)
    ensures var seen := Visible(d, now);
            Answer(Pttl(k), d, now) ==
            Number(if k !in seen then -2 else if seen[k].expireAt == 0 then -1 else Signed(seen[k].expireAt - now))
  {
    if k in d {
      Int64IsSigned(d[k].expireAt - now);
    }
  }

  /** A key that is given a time to live lives exactly so long, and PTTL tells how long that is. */
  lemma ExpireLasts(k: string, offset: int, d: Dict, now: nat, t: nat)
    requires k in Visible(d, now) && 0 < now + offset <= UINT64_MAX
    ensures var after := Apply(Expire(k, offset), d, now);
            && Answer(Expire(k, offset), d, now) == Number(1)
            && (k in Visible(after, t) <==> t < now + offset)
            && (t < now + offset ==> Visible(after, t)[k] == Seen(Visible(d, now)[k].value, now + offset))
            && Answer(Get(k), after, t) == Text(if t < now + offset then Some(Visible(d, now)[k].value) else None)
            && (t < now + offset && now + offset - t <= INT64_MAX ==>
                  Answer(Pttl(k), after, t) == Number(now + offset - t))
            && (now + offset <= t ==> Answer(Pttl(k), after, t) == Number(-2))
  {
    ExpireShows(Expire(k, offset), d, now, t);
    PttlAnswers(k, Apply(Expire(k, offset), d, now), t);
  }

  /** The key is visible, at any reading of the clock, exactly before the time that was asked for. */
  ghost predicate KeepsTime(k: string, offset: int, d: Dict, now: nat) {
    forall t: nat :: t <= UINT64_MAX ==> (k in Visible(Apply(Expire(k, offset), d, now), t) <==> t < now + offset)
  }

  lemma DeadlineFits(sum: int, t: nat)
    requires t <= UINT64_MAX && 0 < sum && (sum <= UINT64_MAX || sum % WORD == 0)
    ensures Lasts(sum % WORD, t) <==> t < sum
  {
  }

  /** That is so if and only if the sum is positive and has 64 bits, or no more than 64 bits that are not 0. */
  lemma ExpireKeepsTimeIff(k: string, offset: int, d: Dict, now: nat)
    requires k in Visible(d, now)
    ensures KeepsTime(k, offset, d, now) <==>
            0 < now + offset && (now + offset <= UINT64_MAX || (now + offset) % 0x1_0000_0000_0000_0000 == 0)
  {
    var sum, deadline := now + offset, (now + offset) % WORD;
    forall t: nat ensures k in Visible(Apply(Expire(k, offset), d, now), t) <==> Lasts(deadline, t) {
      ExpireShows(Expire(k, offset), d, now, t);
    }
    if 0 < sum && (sum <= UINT64_MAX || deadline == 0) {
      forall t: nat | t <= UINT64_MAX ensures k in Visible(Apply(Expire(k, offset), d, now), t) <==> t < sum {
        DeadlineFits(sum, t);
      }
    } else {
      var t: nat := if sum <= 0 then 0 else UINT64_MAX;
      assert k in Visible(Apply(Expire(k, offset), d, now), t) <==> Lasts(deadline, t);
      assert !(Lasts(deadline, t) <==> t < sum);
    }
  }

  /** PERSIST: a visible key with a deadline loses it and is visible for good; otherwise nothing changes to see. */
  lemma PersistShows(k: string, d: Dict, now: nat, t: nat)
    ensures var seen := Visible(d, now);
            var timed := k in seen && seen[k].expireAt > 0;
            && Answer(Persist(k), d, now) == Number(if timed then 1 else 0)
            && (timed ==> Visible(Apply(Persist(k), d, now), t) == Visible(d, t)[k := Seen(seen[k].value, 0)])
            && (!timed && now <= t ==> Visible(Apply(Persist(k), d, now), t) == Visible(d, t))
  {
    var seen := Visible(d, now);
    OneKeyShows(Persist(k), d, now, t, k);
    if k !in seen && now <= t {
      assert Visible(d, t) - {k} == Visible(d, t);
    }
  }

  // ---------- what eviction and the log go by ----------

  /** The access time, by which eviction chooses: every command on a visible key sets it, but for PTTL, PERSIST of a
      key without a deadline, and INCR and DECR of what is no number. */
  lemma AccessTimes(c: Command, d: Dict, now: nat, k: string)
    requires k in c.Keys() && k in Visible(d, now) && !c.Del?
    ensures var idle := c.Pttl? || (c.Persist? && d[k].expireAt == 0) || (c.Add? && WholeNumber(d[k].value).None?);
            k in Apply(c, d, now) && Apply(c, d, now)[k].lastAccess == if idle then d[k].lastAccess else now
  {
    FindApply(c, d, now, k);
    BaseIsWhole(Find(d, k), now);
  }

  /** A command is logged exactly when it did something: SET always, DEL when a listed key was there, INCR and DECR
      of a number, an expiry of a visible key, PERSIST of a visible key with a deadline. */
  lemma LoggedIffEffective(c: Command, d: Dict, now: nat)
    ensures var seen := Visible(d, now);
            LoggedAs(c, Answer(c, d, now), now).Some? <==>
            || c.Set? || (c.Del? && exists k :: k in c.keys && k in d)
            || (c.Add? && (c.key in seen ==> WholeNumber(seen[c.key].value).Some?))
            || ((c.Expire? || c.ExpireAt?) && c.key in seen)
            || (c.Persist? && c.key in seen && seen[c.key].expireAt > 0)
  {
    if c.Del? {
      if k :| k in c.keys && k in d {
        assert k in c.Keys() * d.Keys;
      } else {
        assert c.Keys() * d.Keys == {};
      }
    } else if c.Add? {
      BaseIsWhole(Find(d, c.key), now);
    }
  }

  /** The log gets the command itself, and for an expiry the deadline that was set. */
  lemma LoggedDeadline(c: Command, d: Dict, now: nat)
    requires LoggedAs(c, Answer(c, d, now), now).Some?
    ensures LoggedAs(c, Answer(c, d, now), now).value ==
            if c.Expire? then ExpireAt(c.key, NewDeadline(c, now)) else c
  {
    if c.Expire? {
      WrapIsModulo(now + c.offset);
    }
  }
}
