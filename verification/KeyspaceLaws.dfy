/** Laws of whole runs over the key space: expiry deletions are invisible, and keys do not interact. */
module KeyspaceLaws {
  import opened Machine
  import opened Keyspace

  /** A run is a sequence of commands and of expiry deletions. A `Sweep` removes those of the chosen keys
      that are dead: a pass of the background sweeper, or any lazy deletion. */
  datatype Event = Do(command: Command, now: nat) | Sweep(chosen: set<string>, now: nat) {
    predicate Touches(k: string) {
      if Do? then k in command.Keys() else k in chosen
    }
  }

  function KeyEvent(ev: Event, k: string, e: Option<Entry>): Option<Entry> {
    match ev
    case Do(c, now) => KeyStep(c, k, e, now)
    case Sweep(chosen, now) => if k in chosen && e.Some? && Dead(e.value, now) then None else e
  }

  function After(ev: Event, d: Dict): Dict {
    match ev
    case Do(c, now) => Apply(c, d, now)
    case Sweep(chosen, now) => map k | k in d && !(k in chosen && Dead(d[k], now)) :: d[k]
  }

  function Run(events: seq<Event>, d: Dict): Dict {
    if events == [] then d else Run(events[1..], After(events[0], d))
  }

  /** The answers to the commands of a run, in order. */
  function Answers(events: seq<Event>, d: Dict): seq<Reply> {
    if events == [] then []
    else
      var rest := Answers(events[1..], After(events[0], d));
      if events[0].Do? then [Answer(events[0].command, d, events[0].now)] + rest else rest
  }

  /** The commands of a run alone. */
  function Commands(events: seq<Event>): seq<Event> {
    if events == [] then []
    else if events[0].Do? then [events[0]] + Commands(events[1..])
    else Commands(events[1..])
  }

  /** The clock never goes back. */
  predicate Timely(events: seq<Event>, since: nat) {
    events != [] ==> since <= events[0].now && Timely(events[1..], events[0].now)
  }

  function EndTime(events: seq<Event>, since: nat): nat {
    if events == [] then since else EndTime(events[1..], events[0].now)
  }

  lemma FindAfter(ev: Event, d: Dict, k: string)
    ensures Find(After(ev, d), k) == KeyEvent(ev, k, Find(d, k))
  {
    if ev.Do? {
      FindApply(ev.command, d, ev.now, k);
    }
  }

  // ---------- expiry is invisible ----------

  /** Looking the same is kept by every command and needs no refreshing as time passes. */
  lemma KeyStepSeesOnlyTheVisible(c: Command, k: string, a: Option<Entry>, b: Option<Entry>, since: nat, now: nat)
    requires since <= now && See(a, since) == See(b, since)
    ensures See(a, now) == See(b, now)
    ensures See(KeyStep(c, k, a, now), now) == See(KeyStep(c, k, b, now), now)
  {
  }

  lemma {:induction false} CountLiveSeesOnlyTheVisible(a: Dict, b: Dict, keys: seq<string>, now: nat)
    requires forall k: string :: See(Find(a, k), now) == See(Find(b, k), now)
    ensures CountLive(a, keys, now) == CountLive(b, keys, now)
  {
    if keys != [] {
      CountLiveSeesOnlyTheVisible(a, b, keys[..|keys| - 1], now);
      var k := keys[|keys| - 1];
      assert See(Find(a, k), now) == See(Find(b, k), now);
    }
  }

  /** Every command but DEL answers from what is visible; DEL counts dead entries it still finds. */
  lemma AnswerSeesOnlyTheVisible(c: Command, a: Dict, b: Dict, now: nat)
    requires Visible(a, now) == Visible(b, now) && !c.Del?
    ensures Answer(c, a, now) == Answer(c, b, now)
  {
    VisibleByKey(a, b, now);
    if c.Exists? {
      CountLiveSeesOnlyTheVisible(a, b, c.keys, now);
    } else {
      assert See(Find(a, c.key), now) == See(Find(b, c.key), now);
    }
  }

  lemma VisibleStaysEqual(a: Dict, b: Dict, since: nat, now: nat)
    requires since <= now && Visible(a, since) == Visible(b, since)
    ensures Visible(a, now) == Visible(b, now)
  {
    VisibleByKey(a, b, since);
    VisibleByKey(a, b, now);
  }

  lemma CommandKeepsVisibleEqual(c: Command, a: Dict, b: Dict, now: nat)
    requires Visible(a, now) == Visible(b, now)
    ensures Visible(Apply(c, a, now), now) == Visible(Apply(c, b, now), now)
  {
    VisibleByKey(a, b, now);
    var a', b' := Apply(c, a, now), Apply(c, b, now);
    forall k: string ensures See(Find(a', k), now) == See(Find(b', k), now) {
      FindApply(c, a, now, k);
      FindApply(c, b, now, k);
      KeyStepSeesOnlyTheVisible(c, k, Find(a, k), Find(b, k), now, now);
    }
    VisibleByKey(a', b', now);
  }

  lemma SweepIsInvisible(ev: Event, d: Dict)
    requires ev.Sweep?
    ensures Visible(After(ev, d), ev.now) == Visible(d, ev.now)
  {
    VisibleByKey(After(ev, d), d, ev.now);
  }

  /** Two lists of answers to the same commands agree, DEL's count excepted. */
  predicate SameAnswers(commands: seq<Event>, r: seq<Reply>, s: seq<Reply>) {
    && |r| == |s| == |commands|
    && forall i :: 0 <= i < |commands| && commands[i].Do? && !commands[i].command.Del? ==> r[i] == s[i]
  }

  /** Sweeper passes and lazy deletions put anywhere into a run change no answer, DEL's count excepted, and
      nothing that is visible at its end or at any later time. */
  lemma {:induction false} ExpiryIsInvisible(events: seq<Event>, a: Dict, b: Dict, since: nat, later: nat)
    requires Timely(events, since) && Visible(a, since) == Visible(b, since)
    requires EndTime(events, since) <= later
    ensures SameAnswers(Commands(events), Answers(events, a), Answers(Commands(events), b))
    ensures Visible(Run(events, a), later) == Visible(Run(Commands(events), b), later)
    decreases |events|
  {
    if events == [] {
      VisibleStaysEqual(a, b, since, later);
    } else {
      var ev, rest := events[0], events[1..];
      VisibleStaysEqual(a, b, since, ev.now);
      if ev.Sweep? {
        SweepIsInvisible(ev, a);
        ExpiryIsInvisible(rest, After(ev, a), b, ev.now, later);
      } else {
        CommandKeepsVisibleEqual(ev.command, a, b, ev.now);
        ExpiryIsInvisible(rest, After(ev, a), After(ev, b), ev.now, later);
        assert Commands(events)[1..] == Commands(rest);
        var x, y := Answer(ev.command, a, ev.now), Answer(ev.command, b, ev.now);
        assert ev.command.Del? || x == y by {
          if !ev.command.Del? { AnswerSeesOnlyTheVisible(ev.command, a, b, ev.now); }
        }
        SameAnswersCons(ev, Commands(rest), x, y,
                        Answers(rest, After(ev, a)), Answers(Commands(rest), After(ev, b)));
      }
    }
  }

  lemma SameAnswersCons(ev: Event, commands: seq<Event>, x: Reply, y: Reply, r: seq<Reply>, s: seq<Reply>)
    requires SameAnswers(commands, r, s) && ev.Do? && (ev.command.Del? || x == y)
    ensures SameAnswers([ev] + commands, [x] + r, [y] + s)
  {
  }

  /** DEL is the exception: it counts a dead entry when no sweep came first. */
  lemma DelSeesDeadEntries(k: string, v: string, now: nat)
    requires now > 0
    ensures var d: Dict := map[k := Entry(v, now, 0)];
            && Answers([Do(Del([k]), now)], d) == [Number(1)]
            && Answers([Sweep({k}, now), Do(Del([k]), now)], d) == [Number(0)]
  {
    var d: Dict := map[k := Entry(v, now, 0)];
    var c := Del([k]);
    assert c.Keys() == {k};
    assert c.Keys() * d.Keys == {k};
    var events := [Sweep({k}, now), Do(c, now)];
    assert After(events[0], d) == map[];
    assert events[1..] == [Do(c, now)];
    assert c.Keys() * After(events[0], d).Keys == {};
    assert [Do(c, now)][1..] == [];
  }

  /** The dead entries that a sweep takes and DEL names. */
  function Forestalled(keys: seq<string>, chosen: set<string>, d: Dict, now: nat): set<string> {
    set k | k in keys && k in chosen && k in d && Dead(d[k], now)
  }

  /** A sweep lowers DEL's count by exactly those, so it leaves the count alone exactly when there are none. */
  lemma DelCountChanges(keys: seq<string>, chosen: set<string>, d: Dict, now: nat)
    ensures Answer(Del(keys), After(Sweep(chosen, now), d), now) ==
            Number(Answer(Del(keys), d, now).n - |Forestalled(keys, chosen, d, now)|)
  {
    SweptKeys(keys, chosen, d, now);
    SizeWithout(Del(keys).Keys() * d.Keys, Forestalled(keys, chosen, d, now));
  }

  lemma SweptKeys(keys: seq<string>, chosen: set<string>, d: Dict, now: nat)
    ensures Del(keys).Keys() * After(Sweep(chosen, now), d).Keys
            == Del(keys).Keys() * d.Keys - Forestalled(keys, chosen, d, now)
    ensures Forestalled(keys, chosen, d, now) <= Del(keys).Keys() * d.Keys
  {
  }

  lemma SizeWithout(s: set<string>, part: set<string>)
    requires part <= s
    ensures |s - part| == |s| - |part|
  {
    assert s == (s - part) + part;
  }

  // ---------- keys do not interact ----------

  /** The events of a run that touch one key. */
  function OnKey(events: seq<Event>, k: string): seq<Event> {
    if events == [] then []
    else if events[0].Touches(k) then [events[0]] + OnKey(events[1..], k)
    else OnKey(events[1..], k)
  }

  function RunKey(events: seq<Event>, k: string, e: Option<Entry>): Option<Entry> {
    if events == [] then e else RunKey(events[1..], k, KeyEvent(events[0], k, e))
  }

  /** What a run leaves at a key is decided by that key's own events. */
  lemma {:induction false} RunIsLocal(events: seq<Event>, d: Dict, k: string)
    ensures Find(Run(events, d), k) == RunKey(OnKey(events, k), k, Find(d, k))
    decreases |events|
  {
    if events != [] {
      FindAfter(events[0], d, k);
      RunIsLocal(events[1..], After(events[0], d), k);
      if events[0].Touches(k) {
        assert OnKey(events, k)[1..] == OnKey(events[1..], k);
      }
    }
  }

  /** Any reordering that keeps each key's own sequence of events, those of multi-key DEL included, leaves
      the same map. */
  lemma ReorderingIsHarmless(a: seq<Event>, b: seq<Event>, d: Dict)
    requires forall k: string :: OnKey(a, k) == OnKey(b, k)
    ensures Run(a, d) == Run(b, d)
  {
    forall k: string ensures Find(Run(a, d), k) == Find(Run(b, d), k) {
      RunIsLocal(a, d, k);
      RunIsLocal(b, d, k);
      assert OnKey(a, k) == OnKey(b, k);
    }
    SameFinds(Run(a, d), Run(b, d));
  }
}
