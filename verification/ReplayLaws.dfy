/** Replaying the commands a run logged, at a restart or by a replica while the run goes on: when the rebuilt key
    space looks like the original one. */
module ReplayLaws {
  import opened Machine
  import opened Sequences
  import opened Keyspace
  import opened KeyspaceLaws

  /** What a server does to its key space: an event of its own, for which the entries `gone` may be evicted, or a
      command taken from a log, be it at start-up or from a primary's stream. */
  datatype Deed = Own(event: Event, gone: set<string> := {}) | Redo(command: Command, at: nat) {
    function Act(): Event {
      if Own? then event else Do(command, at)
    }

    /** The entries lost to eviction; a key that the command itself writes is not among them. */
    function Lost(): set<string> {
      if Redo? || gone == {} then {} else if event.Do? then gone - event.command.Keys() else gone
    }
  }

  function Outcome(deed: Deed, d: Dict): Dict {
    After(deed.Act(), d) - deed.Lost()
  }

  /** The key space after a run that starts from an empty server. */
  function Contents(deeds: seq<Deed>): Dict {
    if deeds == [] then map[] else Outcome(Last(deeds), Contents(Front(deeds)))
  }

  /** What one event of a run appends to the log. */
  function Logs(ev: Event, d: Dict): Option<Command> {
    if ev.Do? then LoggedAs(ev.command, Answer(ev.command, d, ev.now), ev.now) else None
  }

  /** What the log holds of a deed: a redone command is in it already. */
  function Kept(deed: Deed, d: Dict): Option<Command> {
    if deed.Own? then Logs(deed.event, d) else Some(deed.command)
  }

  /** The log after a run, what was replayed at its start included. */
  function LogOf(deeds: seq<Deed>): seq<Command> {
    if deeds == [] then []
    else
      match Kept(Last(deeds), Contents(Front(deeds)))
      case None => LogOf(Front(deeds))
      case Some(c) => LogOf(Front(deeds)) + [c]
  }

  function Latest(deeds: seq<Deed>): nat {
    if deeds == [] then 0 else Max(Last(deeds).Act().now, Latest(Front(deeds)))
  }

  /** For every command of the log, the latest clock reading of the run when it came to be there. */
  function LogTimes(deeds: seq<Deed>): (stamps: seq<nat>)
    ensures |stamps| == |LogOf(deeds)|
  {
    if deeds == [] then []
    else if Kept(Last(deeds), Contents(Front(deeds))).None? then LogTimes(Front(deeds))
    else LogTimes(Front(deeds)) + [Latest(deeds)]
  }

  /** The commands a log can hold. */
  predicate Loggable(c: Command) {
    c.Set? || c.Del? || c.Add? || c.ExpireAt? || c.Persist?
  }

  predicate Proper(deeds: seq<Deed>) {
    forall i :: 0 <= i < |deeds| && deeds[i].Redo? ==> Loggable(deeds[i].command)
  }

  /** A run that logs nothing of its own and evicts nothing: all its log is commands redone. */
  predicate OnlyRedoes(deeds: seq<Deed>) {
    deeds != [] ==>
      && OnlyRedoes(Front(deeds)) && Last(deeds).Lost() == {}
      && (Last(deeds).Own? ==> Logs(Last(deeds).event, Contents(Front(deeds))).None?)
  }

  /** The clock never goes back. */
  predicate Ordered(deeds: seq<Deed>) {
    deeds != [] ==> Ordered(Front(deeds)) && Latest(Front(deeds)) <= Last(deeds).Act().now
  }

  /** Run `b` redoes the log of run `a`, as far as it has come, by whatever clock: a restart, or a replica while `a`
      still goes on. Sweeps and reads may come in between. */
  predicate Follows(b: seq<Deed>, a: seq<Deed>) {
    LogOf(b) <= LogOf(a) && OnlyRedoes(b)
  }

  // ---------- what decides ----------

  /** The command checks whether its key is live. SET and DEL do not. */
  predicate ChecksKey(c: Command) {
    c.Add? || c.Persist? || c.Expire? || c.ExpireAt?
  }

  predicate Finds(c: Command, d: Dict, now: nat) {
    ChecksKey(c) && Live(Find(d, c.key), now)
  }

  /** For every command of the log, whether it found its key live when it was executed. */
  function Founds(deeds: seq<Deed>): (founds: seq<bool>)
    ensures |founds| == |LogOf(deeds)|
  {
    if deeds == [] then []
    else if Kept(Last(deeds), Contents(Front(deeds))).None? then Founds(Front(deeds))
    else
      var act := Last(deeds).Act();
      Founds(Front(deeds)) + [act.Do? && Finds(act.command, Contents(Front(deeds)), act.now)]
  }

  /** Two executions of a logged command part: one found the key live and the other did not, and what one of them
      leaves behind is still there at time `upto`. */
  predicate Parts(logged: Command, x: bool, y: bool, upto: nat) {
    x != y && (logged.Add? || logged.Persist? || (logged.ExpireAt? && (logged.at == 0 || logged.at > upto)))
  }

  /** Both executions of the i-th command of the log are done, and nobody looks before `since`. */
  function Moment(a: seq<Deed>, b: seq<Deed>, i: nat, since: nat): nat
    requires i < |LogTimes(a)| && i < |LogTimes(b)|
  {
    Max(since, Max(LogTimes(a)[i], LogTimes(b)[i]))
  }

  /** The i-th command of the log parts the two runs. */
  predicate PartsInLog(a: seq<Deed>, b: seq<Deed>, since: nat, i: nat) {
    && i < |LogOf(a)| && i < |LogOf(b)|
    && Parts(LogOf(a)[i], Founds(a)[i], Founds(b)[i], Moment(a, b, i, since))
  }

  /** No command that both runs have executed parts them. */
  ghost predicate NeverPart(a: seq<Deed>, b: seq<Deed>, since: nat) {
    forall i: nat :: !PartsInLog(a, b, since, i)
  }

  /** The time from which the two runs are compared. */
  function Horizon(a: seq<Deed>, b: seq<Deed>, since: nat): nat {
    Max(since, Max(Latest(a), Latest(b)))
  }

  /** The deed evicts an entry that would still be live at time `to`. */
  predicate LosesLive(deed: Deed, d: Dict, to: nat) {
    exists k :: k in deed.Lost() && Live(Find(d, k), to)
  }

  /** The last deed of `a` has evicted an entry that is still live for `b`, which has the same log. */
  predicate BringsBack(a: seq<Deed>, b: seq<Deed>, since: nat) {
    a != [] && |LogOf(a)| == |LogOf(b)| && LosesLive(Last(a), Contents(Front(a)), Horizon(a, b, since))
  }

  /** That is so when `n` deeds of `a` and `m` deeds of `b` are done. */
  predicate ComesBack(a: seq<Deed>, b: seq<Deed>, since: nat, n: nat, m: nat) {
    n <= |a| && m <= |b| && BringsBack(a[..n], b[..m], since)
  }

  /** Nothing that `a` evicts is still live for `b` when `b` has got so far: evictions are not logged. */
  ghost predicate NothingComesBack(a: seq<Deed>, b: seq<Deed>, since: nat) {
    forall n: nat, m: nat :: !ComesBack(a, b, since, n, m)
  }

  // ---------- one deed, one key ----------

  /** The same entry, access times aside. */
  predicate Alike(e: Option<Entry>, f: Option<Entry>) {
    e.Some? == f.Some? && (e.Some? ==> e.value.value == f.value.value && e.value.expireAt == f.value.expireAt)
  }

  /** How the original entry `e` and the replayed entry `f` of a key relate: they look alike at time `to`, and are
      alike as long as both are there. */
  predicate Matches(e: Option<Entry>, f: Option<Entry>, to: nat) {
    See(e, to) == See(f, to) && (e.Some? && f.Some? ==> Alike(e, f))
  }

  ghost predicate AllMatch(d: Dict, r: Dict, to: nat) {
    forall k: string :: Matches(Find(d, k), Find(r, k), to)
  }

  /** The form in which a command is logged. */
  function Form(c: Command, now: nat): Command {
    if c.Expire? then ExpireAt(c.key, c.Deadline(now)) else c
  }

  /** What is known of a command that is in the log. */
  lemma KeptForms(deed: Deed, d: Dict)
    requires Kept(deed, d).Some? && (deed.Redo? ==> Loggable(deed.command))
    ensures deed.Act().Do?
    ensures var c, now := deed.Act().command, deed.Act().now;
            && Kept(deed, d).value == Form(c, now) && Loggable(Form(c, now))
            && (c.Expire? ==> Live(Find(d, c.key), now))
  {
  }

  /** On entries that are alike and both live, or both gone, a command and its logged form act alike. */
  lemma StepsAlike(c: Command, k: string, e: Option<Entry>, f: Option<Entry>, now: nat, at: nat)
    requires Loggable(Form(c, now)) && k in c.Keys()
    requires !ChecksKey(c) || (Live(e, now) && Live(f, at) && Alike(e, f)) || (!Live(e, now) && !Live(f, at))
    ensures Alike(KeyStep(c, k, e, now), KeyStep(Form(c, now), k, f, at))
  {
    assert c.Add? ==> Base(e, now) == Base(f, at);
  }

  /** When only one of them is live, it will be dead by `to`, so that the two look different then exactly if the
      command leaves something that is still there. */
  lemma StepsPart(c: Command, k: string, e: Option<Entry>, f: Option<Entry>, now: nat, at: nat, to: nat)
    requires ChecksKey(c) && Loggable(Form(c, now)) && k == c.key && (c.Expire? ==> Live(e, now))
    requires now <= to && at <= to && See(e, to) == See(f, to) && Live(e, now) != Live(f, at)
    ensures var e', f' := KeyStep(c, k, e, now), KeyStep(Form(c, now), k, f, at);
            && (See(e', to) == See(f', to) <==> !Parts(Form(c, now), Live(e, now), Live(f, at), to))
            && (See(e', to) == See(f', to) ==> e'.None? || f'.None?)
  {
  }

  /** A logged command and its replay leave entries that look alike if and only if the two do not part. */
  lemma KeptKeySees(deed: Deed, d: Dict, k: string, f: Option<Entry>, at: nat, to: nat)
    requires Kept(deed, d).Some? && (deed.Redo? ==> Loggable(deed.command))
    requires deed.Act().now <= to && at <= to && See(Find(d, k), to) == See(f, to)
    requires Live(Find(d, k), deed.Act().now) && Live(f, at) ==> Alike(Find(d, k), f)
    ensures deed.Act().Do?
    ensures var c, now := deed.Act().command, deed.Act().now;
            See(KeyEvent(deed.Act(), k, Find(d, k)), to) == See(KeyStep(Kept(deed, d).value, k, f, at), to) <==>
            !(ChecksKey(c) && k == c.key && Parts(Kept(deed, d).value, Live(Find(d, k), now), Live(f, at), to))
  {
    KeptForms(deed, d);
    var c, now, e := deed.Act().command, deed.Act().now, Find(d, k);
    if k in c.Keys() {
      if ChecksKey(c) && Live(e, now) != Live(f, at) {
        StepsPart(c, k, e, f, now, at, to);
      } else {
        StepsAlike(c, k, e, f, now, at);
      }
    }
  }

  /** As long as they do not part, what they leave is alike where both leave something. */
  lemma KeptKeyMatches(deed: Deed, d: Dict, k: string, f: Option<Entry>, at: nat, to: nat)
    requires Kept(deed, d).Some? && (deed.Redo? ==> Loggable(deed.command))
    requires deed.Act().now <= to && at <= to && Matches(Find(d, k), f, to)
    requires See(KeyEvent(deed.Act(), k, Find(d, k)), to) == See(KeyStep(Kept(deed, d).value, k, f, at), to)
    ensures Matches(KeyEvent(deed.Act(), k, Find(d, k)), KeyStep(Kept(deed, d).value, k, f, at), to)
  {
    KeptForms(deed, d);
    var c, now, e := deed.Act().command, deed.Act().now, Find(d, k);
    if k in c.Keys() {
      if ChecksKey(c) && Live(e, now) != Live(f, at) {
        StepsPart(c, k, e, f, now, at, to);
      } else {
        StepsAlike(c, k, e, f, now, at);
      }
    }
  }

  /** An event that is not logged keeps or drops what it finds, and drops only what is dead. */
  lemma UnloggedKeyStays(ev: Event, d: Dict, k: string)
    requires Logs(ev, d).None?
    ensures var e, after := Find(d, k), KeyEvent(ev, k, Find(d, k));
            Alike(e, after) || (after.None? && e.Some? && Dead(e.value, ev.now))
  {
    if ev.Do? && ev.command.Del? {
      assert k !in ev.command.Keys() * d.Keys;
    }
  }

  // ---------- one deed, the whole key space ----------

  lemma MatchLater(d: Dict, r: Dict, to: nat, to': nat)
    requires AllMatch(d, r, to) && to <= to'
    ensures AllMatch(d, r, to')
  {
    forall k: string ensures Matches(Find(d, k), Find(r, k), to') {
      assert Matches(Find(d, k), Find(r, k), to);
    }
  }

  lemma MatchIsVisible(d: Dict, r: Dict, to: nat)
    requires AllMatch(d, r, to)
    ensures Visible(d, to) == Visible(r, to)
  {
    VisibleByKey(d, r, to);
    assert forall k: string :: Matches(Find(d, k), Find(r, k), to);
  }

  /** An event of the original that is not logged. */
  lemma UnloggedMatches(ev: Event, d: Dict, r: Dict, to: nat)
    requires AllMatch(d, r, to) && ev.now <= to && Logs(ev, d).None?
    ensures AllMatch(After(ev, d), r, to)
  {
    forall k: string ensures Matches(Find(After(ev, d), k), Find(r, k), to) {
      assert Matches(Find(d, k), Find(r, k), to);
      FindAfter(ev, d, k);
      UnloggedKeyStays(ev, d, k);
    }
  }

  /** An event of the follower that is not logged: a sweep, or a client that reads. */
  lemma FollowerUnloggedMatches(ev: Event, d: Dict, r: Dict, to: nat)
    requires AllMatch(d, r, to) && ev.now <= to && Logs(ev, r).None?
    ensures AllMatch(d, After(ev, r), to)
  {
    forall k: string ensures Matches(Find(d, k), Find(After(ev, r), k), to) {
      assert Matches(Find(d, k), Find(r, k), to);
      FindAfter(ev, r, k);
      UnloggedKeyStays(ev, r, k);
    }
  }

  /** Eviction of entries that will be dead by `to` does not show then. */
  lemma LoseMatches(deed: Deed, d: Dict, r: Dict, to: nat)
    requires AllMatch(After(deed.Act(), d), r, to) && deed.Act().now <= to && !LosesLive(deed, d, to)
    ensures AllMatch(Outcome(deed, d), r, to)
  {
    forall k: string ensures Matches(Find(Outcome(deed, d), k), Find(r, k), to) {
      assert Matches(Find(After(deed.Act(), d), k), Find(r, k), to);
      FindAfter(deed.Act(), d, k);
    }
  }

  /** What a command leaves, less what was evicted for it. */
  lemma CommandOutcome(c: Command, now: nat, gone: set<string>, d: Dict)
    ensures Outcome(Own(Do(c, now), gone), d) == Apply(c, d, now) - (gone - c.Keys())
  {
    if gone == {} {
      assert gone - c.Keys() == {};
    }
  }

  lemma LosesNothing(deed: Deed, d: Dict)
    requires deed.Lost() == {}
    ensures Outcome(deed, d) == After(deed.Act(), d)
  {
  }

  /** The deed and its replay at `at` part. */
  predicate DeedParts(deed: Deed, d: Dict, r: Dict, at: nat, to: nat)
    requires Kept(deed, d).Some?
  {
    var act, logged := deed.Act(), Kept(deed, d).value;
    Parts(logged, act.Do? && Finds(act.command, d, act.now), Finds(logged, r, at), to)
  }

  /** The two key spaces may be compared: what is live on both sides, each by its own clock, is alike. */
  ghost predicate Comparable(d: Dict, r: Dict, now: nat, at: nat, to: nat) {
    && now <= to && at <= to && Visible(d, to) == Visible(r, to)
    && forall k: string :: Live(Find(d, k), now) && Live(Find(r, k), at) ==> Alike(Find(d, k), Find(r, k))
  }

  /** The key a parting shows at. */
  predicate PartsAt(deed: Deed, d: Dict, r: Dict, at: nat, to: nat, k: string)
    requires Kept(deed, d).Some?
  {
    deed.Act().Do? && ChecksKey(deed.Act().command) && k == deed.Act().command.key && DeedParts(deed, d, r, at, to)
  }

  lemma KeptSeesAt(deed: Deed, d: Dict, r: Dict, at: nat, to: nat, k: string)
    requires Kept(deed, d).Some? && (deed.Redo? ==> Loggable(deed.command))
    requires deed.Act().now <= to && at <= to && See(Find(d, k), to) == See(Find(r, k), to)
    requires Live(Find(d, k), deed.Act().now) && Live(Find(r, k), at) ==> Alike(Find(d, k), Find(r, k))
    ensures See(Find(After(deed.Act(), d), k), to) == See(Find(After(Do(Kept(deed, d).value, at), r), k), to)
            <==> !PartsAt(deed, d, r, at, to, k)
  {
    KeptForms(deed, d);
    FindAfter(deed.Act(), d, k);
    FindAfter(Do(Kept(deed, d).value, at), r, k);
    KeptKeySees(deed, d, k, Find(r, k), at, to);
  }

  lemma PartsSomewhere(deed: Deed, d: Dict, r: Dict, at: nat, to: nat)
    requires Kept(deed, d).Some? && (deed.Redo? ==> Loggable(deed.command))
    ensures DeedParts(deed, d, r, at, to) <==> exists k: string :: PartsAt(deed, d, r, at, to, k)
  {
    KeptForms(deed, d);
    if DeedParts(deed, d, r, at, to) {
      assert PartsAt(deed, d, r, at, to, deed.Act().command.key);
    }
  }

  /** Such key spaces look the same after a logged command and its replay if and only if these do not part. */
  lemma KeptSees(deed: Deed, d: Dict, r: Dict, at: nat, to: nat)
    requires Kept(deed, d).Some? && (deed.Redo? ==> Loggable(deed.command))
    requires Comparable(d, r, deed.Act().now, at, to)
    ensures Visible(After(deed.Act(), d), to) == Visible(After(Do(Kept(deed, d).value, at), r), to)
            <==> !DeedParts(deed, d, r, at, to)
  {
    var d', r' := After(deed.Act(), d), After(Do(Kept(deed, d).value, at), r);
    VisibleByKey(d, r, to);
    VisibleByKey(d', r', to);
    PartsSomewhere(deed, d, r, at, to);
    forall k: string ensures See(Find(d', k), to) == See(Find(r', k), to) <==> !PartsAt(deed, d, r, at, to, k) {
      assert See(Find(d, k), to) == See(Find(r, k), to);
      KeptSeesAt(deed, d, r, at, to, k);
    }
  }

  lemma MatchIsComparable(d: Dict, r: Dict, now: nat, at: nat, to: nat)
    requires AllMatch(d, r, to) && now <= to && at <= to
    ensures Comparable(d, r, now, at, to)
  {
    MatchIsVisible(d, r, to);
    forall k: string | Live(Find(d, k), now) && Live(Find(r, k), at) ensures Alike(Find(d, k), Find(r, k)) {
      assert Matches(Find(d, k), Find(r, k), to);
    }
  }

  lemma KeptMatches(deed: Deed, d: Dict, r: Dict, at: nat, to: nat)
    requires Kept(deed, d).Some? && (deed.Redo? ==> Loggable(deed.command)) && !DeedParts(deed, d, r, at, to)
    requires AllMatch(d, r, to) && deed.Act().now <= to && at <= to
    ensures AllMatch(After(deed.Act(), d), After(Do(Kept(deed, d).value, at), r), to)
  {
    var replayed := Do(Kept(deed, d).value, at);
    MatchIsComparable(d, r, deed.Act().now, at, to);
    KeptSees(deed, d, r, at, to);
    VisibleByKey(After(deed.Act(), d), After(replayed, r), to);
    forall k: string ensures Matches(Find(After(deed.Act(), d), k), Find(After(replayed, r), k), to) {
      assert Matches(Find(d, k), Find(r, k), to);
      assert See(Find(After(deed.Act(), d), k), to) == See(Find(After(replayed, r), k), to);
      FindAfter(deed.Act(), d, k);
      FindAfter(replayed, r, k);
      KeptKeyMatches(deed, d, k, Find(r, k), at, to);
    }
  }

  /** Two key spaces that look the same at the later of the two clocks look the same then after a logged command
      and its replay if and only if these do not part. */
  lemma CommandFollowsIff(deed: Deed, d: Dict, r: Dict, at: nat)
    requires Kept(deed, d).Some? && (deed.Redo? ==> Loggable(deed.command))
    requires var to := Max(deed.Act().now, at); Visible(d, to) == Visible(r, to)
    ensures var to := Max(deed.Act().now, at);
            Visible(After(deed.Act(), d), to) == Visible(After(Do(Kept(deed, d).value, at), r), to)
            <==> !DeedParts(deed, d, r, at, to)
  {
    var now, to := deed.Act().now, Max(deed.Act().now, at);
    VisibleByKey(d, r, to);
    forall k: string | Live(Find(d, k), now) && Live(Find(r, k), at) ensures Alike(Find(d, k), Find(r, k)) {
      assert See(Find(d, k), to) == See(Find(r, k), to);
    }
    KeptSees(deed, d, r, at, to);
  }

  // ---------- the two ways to part ----------

  /** The command depends on an expiry that will have passed by `upto`: a replay then finds the key gone, and
      the command leaves something that outlives the old deadline. */
  predicate Hazard(deed: Deed, d: Dict, upto: nat) {
    && deed.Act().Do?
    && var c, now := deed.Act().command, deed.Act().now;
    && Finds(c, d, now) && 0 < d[c.key].expireAt <= upto
    && (c.Expire? || c.ExpireAt? ==> c.Deadline(now) == 0 || c.Deadline(now) > upto)
  }

  /** A replay by a clock that is not behind parts exactly from a hazard, which the original alone can tell. */
  lemma LateReplayParts(deed: Deed, d: Dict, r: Dict, at: nat)
    requires Kept(deed, d).Some? && (deed.Redo? ==> Loggable(deed.command))
    requires deed.Act().now <= at && Visible(d, at) == Visible(r, at)
    ensures DeedParts(deed, d, r, at, at) <==> Hazard(deed, d, at)
  {
    KeptForms(deed, d);
    VisibleByKey(d, r, at);
    if ChecksKey(deed.Act().command) {
      var k := deed.Act().command.key;
      assert See(Find(d, k), at) == See(Find(r, k), at);
    }
  }

  lemma KeptOwnIsLive(ev: Event, d: Dict)
    requires Kept(Own(ev), d).Some?
    ensures ev.Do?
    ensures ChecksKey(ev.command) && !ev.command.Add? ==> Live(Find(d, ev.command.key), ev.now)
  {
  }

  /** A replay by a clock that is behind parts exactly from an INCR or DECR whose key is gone for the original and
      still live for the replay. */
  lemma EarlyReplayParts(ev: Event, d: Dict, r: Dict, at: nat)
    requires Kept(Own(ev), d).Some? && at < ev.now && Visible(d, ev.now) == Visible(r, ev.now)
    ensures DeedParts(Own(ev), d, r, at, ev.now) <==>
            ev.command.Add? && !Live(Find(d, ev.command.key), ev.now) && Live(Find(r, ev.command.key), at)
  {
    KeptOwnIsLive(ev, d);
    KeptForms(Own(ev), d);
    if ChecksKey(ev.command) {
      var k := ev.command.key;
      VisibleByKey(d, r, ev.now);
      assert See(Find(d, k), ev.now) == See(Find(r, k), ev.now);
    }
  }

  // ---------- whole runs ----------

  /** The same log as run `a`, redone to its end. */
  predicate Repeats(b: seq<Deed>, a: seq<Deed>) {
    LogOf(b) == LogOf(a) && OnlyRedoes(b)
  }

  /** A deed that is not logged leaves no trace in the log. */
  lemma LogUnchanged(deeds: seq<Deed>)
    requires deeds != [] && Kept(Last(deeds), Contents(Front(deeds))).None?
    ensures LogOf(deeds) == LogOf(Front(deeds)) && LogTimes(deeds) == LogTimes(Front(deeds))
    ensures Founds(deeds) == Founds(Front(deeds))
  {
  }

  /** Partings are decided by the logs alone. */
  lemma SamePartings(a: seq<Deed>, b: seq<Deed>, x: seq<Deed>, y: seq<Deed>, since: nat)
    requires LogOf(a) == LogOf(x) && LogTimes(a) == LogTimes(x) && Founds(a) == Founds(x)
    requires LogOf(b) == LogOf(y) && LogTimes(b) == LogTimes(y) && Founds(b) == Founds(y)
    ensures NeverPart(a, b, since) <==> NeverPart(x, y, since)
  {
    forall i: nat ensures PartsInLog(a, b, since, i) <==> PartsInLog(x, y, since, i) {
    }
  }

  lemma LogGrown(deeds: seq<Deed>)
    requires deeds != [] && Kept(Last(deeds), Contents(Front(deeds))).Some?
    ensures var act, d, n := Last(deeds).Act(), Contents(Front(deeds)), |LogOf(Front(deeds))|;
            && LogOf(deeds) == LogOf(Front(deeds)) + [Kept(Last(deeds), d).value]
            && LogTimes(deeds) == LogTimes(Front(deeds)) + [Latest(deeds)]
            && Founds(deeds) == Founds(Front(deeds)) + [act.Do? && Finds(act.command, d, act.now)]
            && |LogOf(deeds)| == n + 1
  {
  }

  /** What is left of the last command of both runs. */
  lemma PartsInFronts(a: seq<Deed>, b: seq<Deed>, since: nat, i: nat)
    requires a != [] && Kept(Last(a), Contents(Front(a))).Some?
    requires b != [] && Kept(Last(b), Contents(Front(b))).Some? && |LogOf(a)| == |LogOf(b)|
    ensures i < |LogOf(Front(a))| ==> (PartsInLog(a, b, since, i) <==> PartsInLog(Front(a), Front(b), since, i))
    ensures i > |LogOf(Front(a))| ==> !PartsInLog(a, b, since, i)
    ensures i >= |LogOf(Front(a))| ==> !PartsInLog(Front(a), Front(b), since, i)
  {
    LogGrown(a);
    LogGrown(b);
  }

  lemma LastInLog(a: seq<Deed>, b: seq<Deed>, since: nat)
    requires Repeats(b, a) && a != [] && Kept(Last(a), Contents(Front(a))).Some?
    requires b != [] && Kept(Last(b), Contents(Front(b))).Some?
    ensures Repeats(Front(b), Front(a))
    ensures var c := Kept(Last(a), Contents(Front(a))).value; Last(b).Redo? && Last(b).command == c
    ensures PartsInLog(a, b, since, |LogOf(Front(a))|) <==>
            DeedParts(Last(a), Contents(Front(a)), Contents(Front(b)), Last(b).at, Horizon(a, b, since))
  {
    LogGrown(a);
    LogGrown(b);
    var n := |LogOf(Front(a))|;
    assert LogOf(Front(a)) == LogOf(a)[..n] && LogOf(Front(b)) == LogOf(b)[..n];
    assert Kept(Last(a), Contents(Front(a))).value == LogOf(a)[n] == LogOf(b)[n];
    assert Moment(a, b, n, since) == Horizon(a, b, since);
  }

  /** The last command of both runs. */
  lemma LastRepeated(a: seq<Deed>, b: seq<Deed>, since: nat)
    requires Repeats(b, a) && a != [] && Kept(Last(a), Contents(Front(a))).Some?
    requires b != [] && Kept(Last(b), Contents(Front(b))).Some?
    ensures Repeats(Front(b), Front(a))
    ensures var c := Kept(Last(a), Contents(Front(a))).value; Last(b).Redo? && Last(b).command == c
    ensures NeverPart(a, b, since) <==>
            && NeverPart(Front(a), Front(b), since)
            && !DeedParts(Last(a), Contents(Front(a)), Contents(Front(b)), Last(b).at, Horizon(a, b, since))
  {
    LastInLog(a, b, since);
    forall i: nat
      ensures PartsInLog(a, b, since, i) <==>
              PartsInLog(Front(a), Front(b), since, i) ||
              (i == |LogOf(Front(a))| && PartsInLog(a, b, since, |LogOf(Front(a))|))
    {
      PartsInFronts(a, b, since, i);
    }
  }

  lemma WholeComesBack(a: seq<Deed>, b: seq<Deed>, since: nat)
    requires a != [] && |LogOf(a)| == |LogOf(b)| && NothingComesBack(a, b, since)
    ensures !LosesLive(Last(a), Contents(Front(a)), Horizon(a, b, since))
  {
    assert a[..|a|] == a && b[..|b|] == b;
    assert !ComesBack(a, b, since, |a|, |b|);
  }

  lemma PrefixComesBack(a: seq<Deed>, b: seq<Deed>, since: nat, x: seq<Deed>, y: seq<Deed>)
    requires NothingComesBack(a, b, since) && x <= a && y <= b
    ensures NothingComesBack(x, y, since)
  {
    forall n: nat, m: nat ensures !ComesBack(x, y, since, n, m) {
      if n <= |x| && m <= |y| {
        assert x[..n] == a[..n] && y[..m] == b[..m];
        assert !ComesBack(a, b, since, n, m);
      }
    }
  }

  /** No command parts the two runs, and nothing evicted comes back. */
  ghost predicate Undisturbed(a: seq<Deed>, b: seq<Deed>, since: nat) {
    NeverPart(a, b, since) && NothingComesBack(a, b, since)
  }

  /** A run matches the run it repeats, if no command parts them and nothing comes back. */
  lemma {:induction false} FollowerMatches(a: seq<Deed>, b: seq<Deed>, since: nat)
    requires Proper(a) && Repeats(b, a) && Undisturbed(a, b, since)
    ensures AllMatch(Contents(a), Contents(b), Horizon(a, b, since))
    decreases |a| + |b|
  {
    if a != [] && Kept(Last(a), Contents(Front(a))).None? {
      LogUnchanged(a);
      PrefixComesBack(a, b, since, Front(a), b);
      SamePartings(a, b, Front(a), b, since);
      FollowerMatches(Front(a), b, since);
      MatchLater(Contents(Front(a)), Contents(b), Horizon(Front(a), b, since), Horizon(a, b, since));
      UnloggedMatches(Last(a).event, Contents(Front(a)), Contents(b), Horizon(a, b, since));
      WholeComesBack(a, b, since);
      LoseMatches(Last(a), Contents(Front(a)), Contents(b), Horizon(a, b, since));
    } else if b != [] && Kept(Last(b), Contents(Front(b))).None? {
      LogUnchanged(b);
      PrefixComesBack(a, b, since, a, Front(b));
      SamePartings(a, b, a, Front(b), since);
      FollowerMatches(a, Front(b), since);
      MatchLater(Contents(a), Contents(Front(b)), Horizon(a, Front(b), since), Horizon(a, b, since));
      FollowerUnloggedMatches(Last(b).event, Contents(a), Contents(Front(b)), Horizon(a, b, since));
      LosesNothing(Last(b), Contents(Front(b)));
    } else if a != [] {
      LogGrown(a);
      LastRepeated(a, b, since);
      PrefixComesBack(a, b, since, Front(a), Front(b));
      FollowerMatches(Front(a), Front(b), since);
      LastMatches(a, b, since);
    }
  }

  lemma LastMatches(a: seq<Deed>, b: seq<Deed>, since: nat)
    requires Proper(a) && Repeats(b, a) && Undisturbed(a, b, since)
    requires a != [] && b != [] && Kept(Last(a), Contents(Front(a))).Some? && Kept(Last(b), Contents(Front(b))).Some?
    requires AllMatch(Contents(Front(a)), Contents(Front(b)), Horizon(Front(a), Front(b), since))
    ensures AllMatch(Contents(a), Contents(b), Horizon(a, b, since))
  {
    var d, r, to := Contents(Front(a)), Contents(Front(b)), Horizon(a, b, since);
    LastRepeated(a, b, since);
    MatchLater(d, r, Horizon(Front(a), Front(b), since), to);
    KeptMatches(Last(a), d, r, Last(b).at, to);
    LosesNothing(Last(b), r);
    WholeComesBack(a, b, since);
    LoseMatches(Last(a), d, Contents(b), to);
  }

  /** Then it shows what that run shows, at every time from both their clocks on. */
  lemma FollowerAgrees(a: seq<Deed>, b: seq<Deed>, since: nat, to: nat)
    requires Proper(a) && Repeats(b, a) && Undisturbed(a, b, since) && Horizon(a, b, since) <= to
    ensures Visible(Contents(a), to) == Visible(Contents(b), to)
  {
    FollowerMatches(a, b, since);
    MatchLater(Contents(a), Contents(b), Horizon(a, b, since), to);
    MatchIsVisible(Contents(a), Contents(b), to);
  }

  // ---------- exactly when ----------

  /** What a prefix of a run logs is a prefix of what the run logs. */
  lemma {:induction false} PrefixLogs(deeds: seq<Deed>, n: nat)
    requires n <= |deeds|
    ensures LogOf(deeds[..n]) <= LogOf(deeds) && LogTimes(deeds[..n]) <= LogTimes(deeds)
    ensures Founds(deeds[..n]) <= Founds(deeds)
    decreases |deeds|
  {
    if n == |deeds| {
      assert deeds[..n] == deeds;
    } else {
      PrefixLogs(Front(deeds), n);
      assert Front(deeds)[..n] == deeds[..n];
    }
  }

  lemma PrefixLogTimes(deeds: seq<Deed>, front: seq<Deed>)
    requires front <= deeds
    ensures LogTimes(front) <= LogTimes(deeds)
  {
    assert front == deeds[..|front|];
    PrefixLogs(deeds, |front|);
  }

  lemma {:induction false} PrefixOnlyRedoes(deeds: seq<Deed>, n: nat)
    requires OnlyRedoes(deeds) && n <= |deeds|
    ensures OnlyRedoes(deeds[..n])
    decreases |deeds|
  {
    if n == |deeds| {
      assert deeds[..n] == deeds;
    } else {
      PrefixOnlyRedoes(Front(deeds), n);
      assert Front(deeds)[..n] == deeds[..n];
    }
  }

  lemma PrefixParts(a: seq<Deed>, b: seq<Deed>, since: nat, n: nat, m: nat, i: nat)
    requires n <= |a| && m <= |b| && i < |LogOf(a[..n])| && i < |LogOf(b[..m])|
    ensures PartsInLog(a[..n], b[..m], since, i) <==> PartsInLog(a, b, since, i)
  {
    PrefixLogs(a, n);
    PrefixLogs(b, m);
  }

  lemma PrefixNeverParts(a: seq<Deed>, b: seq<Deed>, since: nat, n: nat, m: nat)
    requires NeverPart(a, b, since) && n <= |a| && m <= |b|
    ensures NeverPart(a[..n], b[..m], since)
  {
    forall i: nat ensures !PartsInLog(a[..n], b[..m], since, i) {
      if i < |LogOf(a[..n])| && i < |LogOf(b[..m])| {
        PrefixParts(a, b, since, n, m, i);
      }
    }
  }

  lemma PrefixRepeats(a: seq<Deed>, b: seq<Deed>, n: nat, m: nat)
    requires Follows(b, a) && n <= |a| && m <= |b| && |LogOf(a[..n])| == |LogOf(b[..m])|
    ensures Repeats(b[..m], a[..n])
  {
    PrefixLogs(a, n);
    PrefixLogs(b, m);
    PrefixOnlyRedoes(b, m);
    assert LogOf(a[..n]) == LogOf(a)[..|LogOf(a[..n])|] && LogOf(b[..m]) == LogOf(b)[..|LogOf(b[..m])|];
  }

  /** The two runs show the same as soon as both are done. */
  ghost predicate Agree(a: seq<Deed>, b: seq<Deed>, since: nat) {
    Visible(Contents(a), Horizon(a, b, since)) == Visible(Contents(b), Horizon(a, b, since))
  }

  /** They do so at every moment of both at which their logs are the same. */
  ghost predicate InStep(a: seq<Deed>, b: seq<Deed>, since: nat) {
    forall n, m :: 0 <= n <= |a| && 0 <= m <= |b| && |LogOf(a[..n])| == |LogOf(b[..m])| ==> Agree(a[..n], b[..m], since)
  }

  lemma UndisturbedIsInStep(a: seq<Deed>, b: seq<Deed>, since: nat)
    requires Proper(a) && Follows(b, a) && Undisturbed(a, b, since)
    ensures InStep(a, b, since)
  {
    forall n, m | 0 <= n <= |a| && 0 <= m <= |b| && |LogOf(a[..n])| == |LogOf(b[..m])|
      ensures Agree(a[..n], b[..m], since)
    {
      PrefixNeverParts(a, b, since, n, m);
      PrefixComesBack(a, b, since, a[..n], b[..m]);
      PrefixRepeats(a, b, n, m);
      FollowerAgrees(a[..n], b[..m], since, Horizon(a[..n], b[..m], since));
    }
  }

  /** The prefix of a run that ends with the i-th command of its log. */
  lemma EndsWithLogged(deeds: seq<Deed>, i: nat) returns (n: nat)
    requires i < |LogOf(deeds)|
    ensures 0 < n <= |deeds| && |LogOf(deeds[..n])| == i + 1 && |LogOf(deeds[..n - 1])| == i
    ensures deeds[..n] <= deeds && Front(deeds[..n]) == deeds[..n - 1]
    ensures Kept(Last(deeds[..n]), Contents(Front(deeds[..n]))).Some?
  {
    forall k | 0 <= k < |deeds|
      ensures LogOf(deeds[..k]) <= LogOf(deeds[..k + 1]) && |LogOf(deeds[..k + 1])| <= |LogOf(deeds[..k])| + 1
    {
      assert Front(deeds[..k + 1]) == deeds[..k];
    }
    assert deeds[..|deeds|] == deeds;
    n := PrefixWasReached(LogOf, deeds, i + 1);
    assert n > 0 && Front(deeds[..n]) == deeds[..n - 1];
  }

  lemma PartingShows(deed: Deed, d: Dict, r: Dict, at: nat, to: nat)
    requires Kept(deed, d).Some? && (deed.Redo? ==> Loggable(deed.command))
    requires AllMatch(d, r, to) && deed.Act().now <= to && at <= to && DeedParts(deed, d, r, at, to)
    ensures Visible(Outcome(deed, d), to) != Visible(After(Do(Kept(deed, d).value, at), r), to)
  {
    var d', r' := Outcome(deed, d), After(Do(Kept(deed, d).value, at), r);
    PartsSomewhere(deed, d, r, at, to);
    var k :| PartsAt(deed, d, r, at, to, k);
    assert Matches(Find(d, k), Find(r, k), to);
    KeptSeesAt(deed, d, r, at, to, k);
    assert Find(d', k) == Find(After(deed.Act(), d), k);
    assert See(Find(d', k), to) != See(Find(r', k), to);
    VisibleByKey(d', r', to);
  }

  /** When the two have matched so far and the last command parts them, they differ. */
  lemma LastPartingShows(a: seq<Deed>, b: seq<Deed>, since: nat)
    requires Proper(a) && Repeats(b, a) && a != [] && Kept(Last(a), Contents(Front(a))).Some?
    requires b != [] && Kept(Last(b), Contents(Front(b))).Some?
    requires Undisturbed(Front(a), Front(b), since) && !NeverPart(a, b, since)
    ensures !Agree(a, b, since)
  {
    var d, r, to := Contents(Front(a)), Contents(Front(b)), Horizon(a, b, since);
    LastRepeated(a, b, since);
    FollowerMatches(Front(a), Front(b), since);
    MatchLater(d, r, Horizon(Front(a), Front(b), since), to);
    PartingShows(Last(a), d, r, Last(b).at, to);
    LosesNothing(Last(b), r);
  }

  /** Nothing before the i-th command parts the two runs. */
  ghost predicate UnpartedUpTo(a: seq<Deed>, b: seq<Deed>, since: nat, i: nat) {
    forall j: nat :: j < i ==> !PartsInLog(a, b, since, j)
  }

  lemma PartsAlike(a: seq<Deed>, b: seq<Deed>, since: nat, x: seq<Deed>, y: seq<Deed>, i: nat)
    requires x <= a && y <= b && i < |LogOf(x)| && i < |LogOf(y)|
    ensures PartsInLog(x, y, since, i) <==> PartsInLog(a, b, since, i)
  {
    assert x == a[..|x|] && y == b[..|y|];
    PrefixParts(a, b, since, |x|, |y|, i);
  }

  lemma FrontsUndisturbed(a: seq<Deed>, b: seq<Deed>, since: nat, i: nat, x: seq<Deed>, y: seq<Deed>)
    requires UnpartedUpTo(a, b, since, i) && NothingComesBack(a, b, since)
    requires x <= a && y <= b && |LogOf(x)| == |LogOf(y)| == i
    ensures Undisturbed(x, y, since)
  {
    forall j: nat ensures !PartsInLog(x, y, since, j) {
      if j < i {
        PartsAlike(a, b, since, x, y, j);
      }
    }
    PrefixComesBack(a, b, since, x, y);
  }

  lemma RepeatsPrefix(a: seq<Deed>, b: seq<Deed>, x: seq<Deed>, y: seq<Deed>)
    requires Follows(b, a) && x <= a && y <= b && |LogOf(x)| == |LogOf(y)|
    ensures Repeats(y, x)
  {
    assert x == a[..|x|] && y == b[..|y|];
    PrefixRepeats(a, b, |x|, |y|);
  }

  lemma FirstPartingAt(a: seq<Deed>, b: seq<Deed>, since: nat, i: nat, x: seq<Deed>, y: seq<Deed>)
    requires Proper(a) && Follows(b, a) && PartsInLog(a, b, since, i) && UnpartedUpTo(a, b, since, i)
    requires NothingComesBack(a, b, since) && x <= a && y <= b && x != [] && y != []
    requires |LogOf(x)| == |LogOf(y)| == i + 1 && |LogOf(Front(x))| == |LogOf(Front(y))| == i
    requires Kept(Last(x), Contents(Front(x))).Some? && Kept(Last(y), Contents(Front(y))).Some?
    ensures !Agree(x, y, since)
  {
    PartsAlike(a, b, since, x, y, i);
    FrontsUndisturbed(a, b, since, i, Front(x), Front(y));
    RepeatsPrefix(a, b, x, y);
    LastPartingShows(x, y, since);
  }

  /** The first parting shows. */
  lemma FirstPartingShows(a: seq<Deed>, b: seq<Deed>, since: nat, i: nat)
    requires Proper(a) && Follows(b, a) && PartsInLog(a, b, since, i) && UnpartedUpTo(a, b, since, i)
    requires NothingComesBack(a, b, since)
    ensures !InStep(a, b, since)
  {
    var n := EndsWithLogged(a, i);
    var m := EndsWithLogged(b, i);
    FirstPartingAt(a, b, since, i, a[..n], b[..m]);
    NotInStep(a, b, since, a[..n], b[..m]);
  }

  lemma UnpartedMore(a: seq<Deed>, b: seq<Deed>, since: nat, i: nat)
    requires UnpartedUpTo(a, b, since, i) && !PartsInLog(a, b, since, i)
    ensures UnpartedUpTo(a, b, since, i + 1)
  {
    forall j: nat | j < i + 1 ensures !PartsInLog(a, b, since, j) {
      assert j < i || j == i;
    }
  }

  lemma {:induction false} InStepIsUnparted(a: seq<Deed>, b: seq<Deed>, since: nat, i: nat)
    requires Proper(a) && Follows(b, a) && InStep(a, b, since) && NothingComesBack(a, b, since)
    ensures UnpartedUpTo(a, b, since, i)
  {
    if i > 0 {
      InStepIsUnparted(a, b, since, i - 1);
      if PartsInLog(a, b, since, i - 1) {
        FirstPartingShows(a, b, since, i - 1);
      }
      UnpartedMore(a, b, since, i - 1);
    }
  }

  // ---------- what comes back shows ----------

  /** One more deed of the follower that logs nothing drops only what is dead. */
  lemma IdleKeepsSeen(b: seq<Deed>, k: string, to: nat)
    requires b != [] && OnlyRedoes(b) && Kept(Last(b), Contents(Front(b))).None? && Latest(b) <= to
    ensures See(Find(Contents(b), k), to) == See(Find(Contents(Front(b)), k), to)
  {
    LosesNothing(Last(b), Contents(Front(b)));
    FindAfter(Last(b).event, Contents(Front(b)), k);
    UnloggedKeyStays(Last(b).event, Contents(Front(b)), k);
  }

  lemma LastIsIdle(b: seq<Deed>, n: nat)
    requires n < |b| && |LogOf(b[..n])| == |LogOf(b)|
    ensures Kept(Last(b), Contents(Front(b))).None? && b[..n] == Front(b)[..n]
    ensures |LogOf(Front(b)[..n])| == |LogOf(Front(b))|
  {
    var front := Front(b);
    assert front[..n] == b[..n];
    PrefixLogs(front, n);
    if Kept(Last(b), Contents(front)).Some? {
      LogGrown(b);
    } else {
      LogUnchanged(b);
    }
  }

  lemma {:induction false} IdlesKeepSeen(b: seq<Deed>, n: nat, k: string, to: nat)
    requires OnlyRedoes(b) && n <= |b| && |LogOf(b[..n])| == |LogOf(b)| && Latest(b) <= to
    ensures See(Find(Contents(b), k), to) == See(Find(Contents(b[..n]), k), to)
    decreases |b|
  {
    if n == |b| {
      assert b[..n] == b;
    } else {
      LastIsIdle(b, n);
      IdleKeepsSeen(b, k, to);
      IdlesKeepSeen(Front(b), n, k, to);
    }
  }

  /** A redone command leaves other keys as they are. */
  lemma RedoneKeepsOthers(b: seq<Deed>, k: string)
    requires b != [] && Last(b).Redo? && k !in Last(b).command.Keys()
    ensures Find(Contents(b), k) == Find(Contents(Front(b)), k)
  {
    LosesNothing(Last(b), Contents(Front(b)));
    FindAfter(Last(b).Act(), Contents(Front(b)), k);
  }

  /** From before the last redone command to the end. */
  lemma StaysSeen(b: seq<Deed>, n: nat, k: string, to: nat)
    requires OnlyRedoes(b) && 0 < n <= |b| && |LogOf(b[..n])| == |LogOf(b)| && Latest(b) <= to
    requires Last(b[..n]).Redo? && k !in Last(b[..n]).command.Keys()
    ensures See(Find(Contents(b), k), to) == See(Find(Contents(b[..n - 1]), k), to)
  {
    assert Front(b[..n]) == b[..n - 1];
    RedoneKeepsOthers(b[..n], k);
    IdlesKeepSeen(b, n, k, to);
  }

  /** What is visible on one side, evicted there and visible on the other side makes a difference. */
  lemma LossShows(a: seq<Deed>, b: seq<Deed>, since: nat, k: string)
    requires a != [] && k in Last(a).Lost() && See(Find(Contents(b), k), Horizon(a, b, since)).Some?
    ensures !Agree(a, b, since)
  {
    VisibleByKey(Contents(a), Contents(b), Horizon(a, b, since));
    assert Find(Contents(a), k) == None;
  }

  /** What one run shows later the other has shown before. */
  lemma AgreedIsSeen(a: seq<Deed>, b: seq<Deed>, since: nat, k: string, to: nat)
    requires Agree(a, b, since) && Horizon(a, b, since) <= to && Live(Find(Contents(a), k), to)
    ensures See(Find(Contents(b), k), to).Some?
  {
    VisibleStaysEqual(Contents(a), Contents(b), Horizon(a, b, since), to);
    VisibleByKey(Contents(a), Contents(b), to);
    assert See(Find(Contents(a), k), to) == See(Find(Contents(b), k), to);
  }

  /** An unlogged deed that loses a live entry: the two differ after it. */
  lemma UnloggedLossShows(a: seq<Deed>, b: seq<Deed>, since: nat)
    requires a != [] && Kept(Last(a), Contents(Front(a))).None?
    requires LosesLive(Last(a), Contents(Front(a)), Horizon(a, b, since)) && Agree(Front(a), b, since)
    ensures !Agree(a, b, since)
  {
    var to := Horizon(a, b, since);
    var k :| k in Last(a).Lost() && Live(Find(Contents(Front(a)), k), to);
    AgreedIsSeen(Front(a), b, since, k, to);
    LossShows(a, b, since, k);
  }

  /** So do they after a logged one: its replay leaves the entry alone, and what comes after it does too. */
  lemma LoggedLossShows(a: seq<Deed>, b: seq<Deed>, since: nat, n: nat)
    requires Proper(a) && Repeats(b, a) && a != [] && Kept(Last(a), Contents(Front(a))).Some?
    requires 0 < n <= |b| && |LogOf(b[..n])| == |LogOf(b)| && Last(b[..n]).Redo?
    requires Last(b[..n]).command == Kept(Last(a), Contents(Front(a))).value
    requires LosesLive(Last(a), Contents(Front(a)), Horizon(a, b, since)) && Agree(Front(a), b[..n - 1], since)
    ensures !Agree(a, b, since)
  {
    var d, to := Contents(Front(a)), Horizon(a, b, since);
    var k :| k in Last(a).Lost() && Live(Find(d, k), to);
    PrefixLatest(b, n - 1);
    AgreedIsSeen(Front(a), b[..n - 1], since, k, to);
    KeptForms(Last(a), d);
    StaysSeen(b, n, k, to);
    LossShows(a, b, since, k);
  }

  lemma {:induction false} PrefixLatest(deeds: seq<Deed>, n: nat)
    requires n <= |deeds|
    ensures Latest(deeds[..n]) <= Latest(deeds)
    decreases |deeds|
  {
    if n == |deeds| {
      assert deeds[..n] == deeds;
    } else {
      PrefixLatest(Front(deeds), n);
      assert Front(deeds)[..n] == deeds[..n];
    }
  }

  /** The deed of a follower that brought the i-th command into its log. */
  lemma BroughtByRedo(b: seq<Deed>, n: nat, i: nat)
    requires OnlyRedoes(b) && 0 < n <= |b| && |LogOf(b[..n])| == i + 1
    requires Kept(Last(b[..n]), Contents(Front(b[..n]))).Some?
    ensures Last(b[..n]).Redo? && i < |LogOf(b)| && Last(b[..n]).command == LogOf(b)[i]
  {
    PrefixOnlyRedoes(b, n);
    PrefixLogs(b, n);
    LogGrown(b[..n]);
    assert LogOf(b[..n])[i] == LogOf(b)[i];
  }

  lemma LossAtShows(x: seq<Deed>, y: seq<Deed>, since: nat, n: nat)
    requires Proper(x) && Repeats(y, x) && x != [] && Kept(Last(x), Contents(Front(x))).Some?
    requires LosesLive(Last(x), Contents(Front(x)), Horizon(x, y, since))
    requires 0 < n <= |y| && |LogOf(y[..n])| == |LogOf(x)| && Agree(Front(x), y[..n - 1], since)
    requires Kept(Last(y[..n]), Contents(Front(y[..n]))).Some?
    ensures !Agree(x, y, since)
  {
    LogGrown(x);
    BroughtByRedo(y, n, |LogOf(x)| - 1);
    LoggedLossShows(x, y, since, n);
  }

  lemma NotInStep(a: seq<Deed>, b: seq<Deed>, since: nat, x: seq<Deed>, y: seq<Deed>)
    requires x <= a && y <= b && |LogOf(x)| == |LogOf(y)| && !Agree(x, y, since)
    ensures !InStep(a, b, since)
  {
    assert x == a[..|x|] && y == b[..|y|];
  }

  /** Before the loss or after it the two differ. */
  lemma UnloggedComesBack(x: seq<Deed>, y: seq<Deed>, since: nat)
    requires BringsBack(x, y, since) && Kept(Last(x), Contents(Front(x))).None?
    ensures |LogOf(Front(x))| == |LogOf(y)| && (!Agree(Front(x), y, since) || !Agree(x, y, since))
  {
    LogUnchanged(x);
    if Agree(Front(x), y, since) {
      UnloggedLossShows(x, y, since);
    }
  }

  lemma LoggedComesBack(x: seq<Deed>, y: seq<Deed>, since: nat) returns (k: nat)
    requires Proper(x) && Repeats(y, x) && BringsBack(x, y, since) && Kept(Last(x), Contents(Front(x))).Some?
    ensures k <= |y| && |LogOf(Front(x))| == |LogOf(y[..k])|
    ensures !Agree(Front(x), y[..k], since) || !Agree(x, y, since)
  {
    LogGrown(x);
    var e := EndsWithLogged(y, |LogOf(Front(x))|);
    k := e - 1;
    if Agree(Front(x), y[..k], since) {
      LossAtShows(x, y, since, e);
    }
  }

  lemma ThereIsADifference(x: seq<Deed>, y: seq<Deed>, since: nat) returns (k: nat)
    requires Proper(x) && Repeats(y, x) && BringsBack(x, y, since)
    ensures k <= |y| && |LogOf(Front(x))| == |LogOf(y[..k])|
    ensures !Agree(Front(x), y[..k], since) || !Agree(x, y, since)
  {
    if Kept(Last(x), Contents(Front(x))).None? {
      UnloggedComesBack(x, y, since);
      k := |y|;
      assert y[..k] == y;
    } else {
      k := LoggedComesBack(x, y, since);
    }
  }

  lemma WhatIsBackShows(a: seq<Deed>, b: seq<Deed>, since: nat, x: seq<Deed>, y: seq<Deed>)
    requires x <= a && y <= b && Proper(x) && Repeats(y, x) && BringsBack(x, y, since)
    ensures !InStep(a, b, since)
  {
    var k := ThereIsADifference(x, y, since);
    var front, less := Front(x), y[..k];
    assert front <= a && less <= b;
    if Agree(x, y, since) {
      NotInStep(a, b, since, front, less);
    } else {
      NotInStep(a, b, since, x, y);
    }
  }

  /** What comes back shows. */
  lemma WhatComesBackShows(a: seq<Deed>, b: seq<Deed>, since: nat, n: nat, m: nat)
    requires Proper(a) && Follows(b, a) && ComesBack(a, b, since, n, m)
    ensures !InStep(a, b, since)
  {
    PrefixRepeats(a, b, n, m);
    WhatIsBackShows(a, b, since, a[..n], b[..m]);
  }

  lemma InStepBringsNothingBack(a: seq<Deed>, b: seq<Deed>, since: nat)
    requires Proper(a) && Follows(b, a) && InStep(a, b, since)
    ensures NothingComesBack(a, b, since)
  {
    forall n: nat, m: nat ensures !ComesBack(a, b, since, n, m) {
      if ComesBack(a, b, since, n, m) {
        WhatComesBackShows(a, b, since, n, m);
      }
    }
  }

  /** Whatever the two clocks do, and whatever the first run evicts, the second is in step with it if and only if no
      command parts them and nothing evicted comes back. */
  lemma FollowingIsExact(a: seq<Deed>, b: seq<Deed>, since: nat)
    requires Proper(a) && Follows(b, a)
    ensures InStep(a, b, since) <==> Undisturbed(a, b, since)
  {
    if Undisturbed(a, b, since) {
      UndisturbedIsInStep(a, b, since);
    }
    if InStep(a, b, since) {
      InStepBringsNothingBack(a, b, since);
      forall i: nat ensures !PartsInLog(a, b, since, i) {
        InStepIsUnparted(a, b, since, i + 1);
      }
    }
  }

  lemma NothingLostNothingBack(a: seq<Deed>, b: seq<Deed>, since: nat)
    requires forall i :: 0 <= i < |a| ==> a[i].Lost() == {}
    ensures NothingComesBack(a, b, since)
  {
  }

  // ---------- clocks in order ----------

  /** No command is a hazard for its own replay: `times` says when each command of the log is replayed, as far
      as it is. */
  predicate HazardFree(deeds: seq<Deed>, times: seq<nat>) {
    deeds != [] ==>
      && HazardFree(Front(deeds), times)
      && (var i, d := |LogOf(Front(deeds))|, Contents(Front(deeds));
          Kept(Last(deeds), d).Some? && i < |times| ==> !Hazard(Last(deeds), d, times[i]))
  }

  /** The clock of `b` does not go back, and is never behind that of `a` nor before `since`. */
  predicate NotBehind(b: seq<Deed>, a: seq<Deed>, since: nat) {
    && Ordered(b)
    && forall i :: 0 <= i < |LogTimes(a)| && i < |LogTimes(b)| ==> Max(since, LogTimes(a)[i]) <= LogTimes(b)[i]
  }

  lemma {:induction false} HazardFreeSame(deeds: seq<Deed>, t: seq<nat>, u: seq<nat>)
    requires |LogOf(deeds)| <= |u| && u <= t
    ensures HazardFree(deeds, t) <==> HazardFree(deeds, u)
    decreases |deeds|
  {
    if deeds != [] {
      HazardFreeSame(Front(deeds), t, u);
    }
  }

  /** What the follower has not reached yet does not matter. */
  lemma WithoutUnreached(a: seq<Deed>, b: seq<Deed>, since: nat)
    requires a != [] && LogOf(b) <= LogOf(Front(a))
    ensures NotBehind(b, a, since) ==> NotBehind(b, Front(a), since)
    ensures NeverPart(a, b, since) <==> NeverPart(Front(a), b, since)
    ensures HazardFree(a, LogTimes(b)) <==> HazardFree(Front(a), LogTimes(b))
  {
    PrefixLogs(a, |a| - 1);
    forall i: nat ensures PartsInLog(a, b, since, i) <==> PartsInLog(Front(a), b, since, i) {
    }
  }

  lemma WithoutIdle(a: seq<Deed>, b: seq<Deed>, since: nat)
    requires b != [] && Kept(Last(b), Contents(Front(b))).None? && Follows(b, a) && NotBehind(b, a, since)
    ensures Follows(Front(b), a) && NotBehind(Front(b), a, since) && LogTimes(Front(b)) == LogTimes(b)
    ensures NeverPart(a, b, since) <==> NeverPart(a, Front(b), since)
  {
    LogUnchanged(b);
    SamePartings(a, b, a, Front(b), since);
  }

  lemma WithoutLast(a: seq<Deed>, b: seq<Deed>, since: nat)
    requires Repeats(b, a) && NotBehind(b, a, since) && a != [] && Kept(Last(a), Contents(Front(a))).Some?
    requires b != [] && Kept(Last(b), Contents(Front(b))).Some?
    ensures Repeats(Front(b), Front(a)) && NotBehind(Front(b), Front(a), since)
    ensures LogTimes(b) == LogTimes(Front(b)) + [Latest(b)] && |LogTimes(Front(b))| == |LogOf(Front(a))|
    ensures Last(b).Redo? && Last(b).at == Latest(b) == Horizon(a, b, since)
    ensures Horizon(Front(a), Front(b), since) <= Latest(b)
  {
    LogGrown(a);
    LogGrown(b);
    LastRepeated(a, b, since);
    var n := |LogOf(Front(a))|;
    assert Max(since, LogTimes(a)[n]) <= LogTimes(b)[n];
    forall i | 0 <= i < |LogTimes(Front(a))| ensures Max(since, LogTimes(Front(a))[i]) <= LogTimes(Front(b))[i] {
      assert Max(since, LogTimes(a)[i]) <= LogTimes(b)[i];
    }
  }

  lemma BothLogLast(a: seq<Deed>, b: seq<Deed>)
    requires Follows(b, a) && a != [] && !(LogOf(b) <= LogOf(Front(a)))
    requires b != [] ==> Kept(Last(b), Contents(Front(b))).Some?
    ensures Repeats(b, a) && Kept(Last(a), Contents(Front(a))).Some? && b != []
  {
  }

  lemma LastHazardIff(a: seq<Deed>, b: seq<Deed>, since: nat)
    requires Proper(a) && Repeats(b, a) && NotBehind(b, a, since) && a != [] && b != []
    requires Kept(Last(a), Contents(Front(a))).Some? && Kept(Last(b), Contents(Front(b))).Some?
    requires Undisturbed(Front(a), Front(b), since)
    ensures NeverPart(a, b, since) <==> !Hazard(Last(a), Contents(Front(a)), Latest(b))
  {
    WithoutLast(a, b, since);
    LastRepeated(a, b, since);
    FollowerAgrees(Front(a), Front(b), since, Latest(b));
    LateReplayParts(Last(a), Contents(Front(a)), Contents(Front(b)), Latest(b));
  }

  /** When the follower's clock is never behind and nothing comes back, only hazards part the two, and the original
      alone can tell them. */
  lemma {:induction false} PartingsAreHazards(a: seq<Deed>, b: seq<Deed>, since: nat)
    requires Proper(a) && Follows(b, a) && NotBehind(b, a, since) && NothingComesBack(a, b, since)
    ensures NeverPart(a, b, since) <==> HazardFree(a, LogTimes(b))
    decreases |a| + |b|
  {
    if a != [] && LogOf(b) <= LogOf(Front(a)) {
      WithoutUnreached(a, b, since);
      PrefixComesBack(a, b, since, Front(a), b);
      PartingsAreHazards(Front(a), b, since);
    } else if b != [] && Kept(Last(b), Contents(Front(b))).None? {
      WithoutIdle(a, b, since);
      PrefixComesBack(a, b, since, a, Front(b));
      PartingsAreHazards(a, Front(b), since);
    } else if a != [] {
      BothLogLast(a, b);
      PrefixComesBack(a, b, since, Front(a), Front(b));
      WithoutLast(a, b, since);
      LastRepeated(a, b, since);
      PartingsAreHazards(Front(a), Front(b), since);
      HazardFreeSame(Front(a), LogTimes(b), LogTimes(Front(b)));
      if NeverPart(Front(a), Front(b), since) {
        LastHazardIff(a, b, since);
      }
    }
  }
  // ---------- restarts ----------

  /** A run that redoes the commands of a log and nothing else. */
  function Redos(log: seq<Command>, times: seq<nat>): seq<Deed>
    requires |log| == |times|
  {
    seq(|log|, i requires 0 <= i < |log| => Redo(log[i], times[i]))
  }

  predicate Sorted(times: seq<nat>) {
    forall i, j :: 0 <= i <= j < |times| ==> times[i] <= times[j]
  }

  lemma RedosLast(log: seq<Command>, times: seq<nat>)
    requires |log| == |times| > 0
    ensures Front(Redos(log, times)) == Redos(Front(log), Front(times))
    ensures Last(Redos(log, times)) == Redo(Last(log), Last(times))
  {
  }

  lemma RedosSplit(log: seq<Command>, times: seq<nat>)
    requires |log| == |times| > 0
    ensures Redos(log, times) == Redos(Front(log), Front(times)) + [Redo(Last(log), Last(times))]
    ensures log == Front(log) + [Last(log)]
  {
  }

  lemma RedoLogs(deeds: seq<Deed>, c: Command, at: nat)
    ensures LogOf(deeds + [Redo(c, at)]) == LogOf(deeds) + [c]
  {
    assert Front(deeds + [Redo(c, at)]) == deeds;
  }

  lemma {:induction false} RedosLogOf(log: seq<Command>, times: seq<nat>)
    requires |log| == |times|
    ensures LogOf(Redos(log, times)) == log
    decreases |log|
  {
    if log == [] {
      assert Redos(log, times) == [];
    } else {
      RedosLogOf(Front(log), Front(times));
      RedosSplit(log, times);
      RedoLogs(Redos(Front(log), Front(times)), Last(log), Last(times));
    }
  }

  lemma {:induction false} RedosOnly(log: seq<Command>, times: seq<nat>)
    requires |log| == |times|
    ensures OnlyRedoes(Redos(log, times))
    decreases |log|
  {
    if log != [] {
      RedosOnly(Front(log), Front(times));
      RedosLast(log, times);
    }
  }

  lemma {:induction false} RedosLatest(log: seq<Command>, times: seq<nat>)
    requires |log| == |times| && Sorted(times)
    ensures Latest(Redos(log, times)) == (if times == [] then 0 else Last(times)) && Ordered(Redos(log, times))
    decreases |log|
  {
    if log != [] {
      RedosLatest(Front(log), Front(times));
      RedosLast(log, times);
    }
  }

  lemma {:induction false} RedosTimes(log: seq<Command>, times: seq<nat>)
    requires |log| == |times| && Sorted(times)
    ensures LogTimes(Redos(log, times)) == times
    decreases |log|
  {
    if log != [] {
      RedosTimes(Front(log), Front(times));
      RedosLast(log, times);
      RedosLatest(log, times);
      assert times == Front(times) + [Last(times)];
    }
  }

  lemma RedosLog(log: seq<Command>, times: seq<nat>)
    requires |log| == |times| && Sorted(times)
    ensures LogOf(Redos(log, times)) == log && LogTimes(Redos(log, times)) == times
    ensures OnlyRedoes(Redos(log, times)) && Ordered(Redos(log, times))
    ensures Latest(Redos(log, times)) == if times == [] then 0 else Last(times)
  {
    RedosLogOf(log, times);
    RedosOnly(log, times);
    RedosLatest(log, times);
    RedosTimes(log, times);
  }

  function Repeat(now: nat, n: nat): (times: seq<nat>)
    ensures |times| == n && forall i :: 0 <= i < n ==> times[i] == now
  {
    seq(n, _ => now)
  }

  predicate ClockWithin(deeds: seq<Deed>, to: nat) {
    forall i :: 0 <= i < |deeds| ==> deeds[i].Act().now <= to
  }

  lemma {:induction false} LogTimesBounded(deeds: seq<Deed>, to: nat)
    requires ClockWithin(deeds, to)
    ensures Latest(deeds) <= to && forall i :: 0 <= i < |LogTimes(deeds)| ==> LogTimes(deeds)[i] <= to
    decreases |deeds|
  {
    if deeds != [] {
      LogTimesBounded(Front(deeds), to);
    }
  }

  /** A restart at time `now` shows what was lost by a crash after the run. */
  ghost predicate Recovers(deeds: seq<Deed>, now: nat) {
    Visible(Contents(deeds), now) == Visible(Contents(Redos(LogOf(deeds), Repeat(now, |LogOf(deeds)|))), now)
  }

  /** The replay of a prefix of the log is a prefix of the replay. */
  lemma RedosPrefix(log: seq<Command>, now: nat, n: nat)
    requires n <= |log|
    ensures Redos(log, Repeat(now, |log|))[..n] == Redos(log[..n], Repeat(now, n))
  {
  }

  /** Recovery is agreement at the moment at which the replay is done. */
  lemma RecoversIsAgree(deeds: seq<Deed>, now: nat, n: nat, m: nat)
    requires ClockWithin(deeds, now) && n <= |deeds| && m <= |LogOf(deeds)|
    ensures var b := Redos(LogOf(deeds), Repeat(now, |LogOf(deeds)|));
            && |LogOf(b[..m])| == m
            && (m == |LogOf(deeds[..n])| ==> (Recovers(deeds[..n], now) <==> Agree(deeds[..n], b[..m], now)))
  {
    RedosPrefix(LogOf(deeds), now, m);
    RedosLog(LogOf(deeds)[..m], Repeat(now, m));
    if m == |LogOf(deeds[..n])| {
      PrefixLogs(deeds, n);
      assert LogOf(deeds[..n]) == LogOf(deeds)[..m];
      LogTimesBounded(deeds[..n], now);
    }
  }

  lemma RestartFollows(deeds: seq<Deed>, now: nat)
    requires ClockWithin(deeds, now)
    ensures var b := Redos(LogOf(deeds), Repeat(now, |LogOf(deeds)|));
            Follows(b, deeds) && NotBehind(b, deeds, now) && LogTimes(b) == Repeat(now, |LogOf(deeds)|)
  {
    RedosLog(LogOf(deeds), Repeat(now, |LogOf(deeds)|));
    LogTimesBounded(deeds, now);
  }

  lemma RecoversIsInStep(deeds: seq<Deed>, now: nat)
    requires ClockWithin(deeds, now)
    ensures (forall n :: 0 <= n <= |deeds| ==> Recovers(deeds[..n], now)) <==>
            InStep(deeds, Redos(LogOf(deeds), Repeat(now, |LogOf(deeds)|)), now)
  {
    var b := Redos(LogOf(deeds), Repeat(now, |LogOf(deeds)|));
    if InStep(deeds, b, now) {
      forall n | 0 <= n <= |deeds| ensures Recovers(deeds[..n], now) {
        PrefixLogs(deeds, n);
        RecoversIsAgree(deeds, now, n, |LogOf(deeds[..n])|);
      }
    }
    if forall n :: 0 <= n <= |deeds| ==> Recovers(deeds[..n], now) {
      forall n, m | 0 <= n <= |deeds| && 0 <= m <= |b| && |LogOf(deeds[..n])| == |LogOf(b[..m])|
        ensures Agree(deeds[..n], b[..m], now)
      {
        RecoversIsAgree(deeds, now, n, m);
      }
    }
  }

  /** No entry that was evicted would still be live at time `now`. */
  predicate LossFree(deeds: seq<Deed>, now: nat) {
    forall n :: 0 <= n < |deeds| ==> !LosesLive(deeds[n], Contents(deeds[..n]), now)
  }

  /** The moments at which a restart is compared are all `now`, and there is one for every deed. */
  lemma RestartMoment(deeds: seq<Deed>, now: nat, n: nat, m: nat)
    requires ClockWithin(deeds, now) && n <= |deeds| && m <= |LogOf(deeds)|
    ensures var b := Redos(LogOf(deeds), Repeat(now, |LogOf(deeds)|));
            && |LogOf(b[..m])| == m && |LogOf(deeds[..n])| <= |LogOf(deeds)|
            && Horizon(deeds[..n], b[..m], now) == now
  {
    RedosPrefix(LogOf(deeds), now, m);
    RedosLog(LogOf(deeds)[..m], Repeat(now, m));
    LogTimesBounded(deeds[..n], now);
    PrefixLogs(deeds, n);
  }

  lemma LossFreeIsNothingBack(deeds: seq<Deed>, now: nat)
    requires ClockWithin(deeds, now)
    ensures LossFree(deeds, now) <==>
            NothingComesBack(deeds, Redos(LogOf(deeds), Repeat(now, |LogOf(deeds)|)), now)
  {
    var b := Redos(LogOf(deeds), Repeat(now, |LogOf(deeds)|));
    if LossFree(deeds, now) {
      forall n: nat, m: nat ensures !ComesBack(deeds, b, now, n, m) {
        if 0 < n <= |deeds| && m <= |b| {
          RestartMoment(deeds, now, n, m);
          assert Last(deeds[..n]) == deeds[n - 1] && Front(deeds[..n]) == deeds[..n - 1];
        }
      }
    }
    if NothingComesBack(deeds, b, now) {
      forall n | 0 <= n < |deeds| ensures !LosesLive(deeds[n], Contents(deeds[..n]), now) {
        LossWouldComeBack(deeds, now, n);
      }
    }
  }

  lemma LossWouldComeBack(deeds: seq<Deed>, now: nat, n: nat)
    requires ClockWithin(deeds, now) && n < |deeds|
    requires NothingComesBack(deeds, Redos(LogOf(deeds), Repeat(now, |LogOf(deeds)|)), now)
    ensures !LosesLive(deeds[n], Contents(deeds[..n]), now)
  {
    var x := deeds[..n + 1];
    assert Last(x) == deeds[n] && Front(x) == deeds[..n];
    RestartReaches(deeds, now, n + 1);
    var y := Redos(LogOf(deeds), Repeat(now, |LogOf(deeds)|))[..|LogOf(x)|];
    NotBroughtBack(deeds, Redos(LogOf(deeds), Repeat(now, |LogOf(deeds)|)), now, x, y);
  }

  lemma RestartReaches(deeds: seq<Deed>, now: nat, n: nat)
    requires ClockWithin(deeds, now) && n <= |deeds|
    ensures var b, m := Redos(LogOf(deeds), Repeat(now, |LogOf(deeds)|)), |LogOf(deeds[..n])|;
            m <= |b| && |LogOf(b[..m])| == m && Horizon(deeds[..n], b[..m], now) == now
  {
    PrefixLogs(deeds, n);
    RestartMoment(deeds, now, n, |LogOf(deeds[..n])|);
  }

  lemma NotBroughtBack(a: seq<Deed>, b: seq<Deed>, since: nat, x: seq<Deed>, y: seq<Deed>)
    requires NothingComesBack(a, b, since) && x <= a && y <= b && x != [] && |LogOf(x)| == |LogOf(y)|
    ensures !LosesLive(Last(x), Contents(Front(x)), Horizon(x, y, since))
  {
    PrefixComesBack(a, b, since, x, y);
    WholeComesBack(x, y, since);
  }

  /** Every crash point of a run is recovered by a restart at time `now` if and only if the run holds no hazard
      for that time and evicted nothing that would still be live then. */
  lemma ReplayIsExact(deeds: seq<Deed>, now: nat)
    requires Proper(deeds) && ClockWithin(deeds, now)
    ensures (forall n :: 0 <= n <= |deeds| ==> Recovers(deeds[..n], now)) <==>
            HazardFree(deeds, Repeat(now, |LogOf(deeds)|)) && LossFree(deeds, now)
  {
    var b := Redos(LogOf(deeds), Repeat(now, |LogOf(deeds)|));
    RestartFollows(deeds, now);
    RecoversIsInStep(deeds, now);
    FollowingIsExact(deeds, b, now);
    LossFreeIsNothingBack(deeds, now);
    if LossFree(deeds, now) {
      PartingsAreHazards(deeds, b, now);
    }
  }

  // ---------- how each way is taken ----------

  /** SET, PEXPIREAT and PERSIST, dispatched at times `s`, `t` and `u`. */
  function Persisting(k: string, v: string, deadline: nat, s: nat, t: nat, u: nat): seq<Event> {
    [Do(Set(k, v), s), Do(ExpireAt(k, deadline), t), Do(Persist(k), u)]
  }

  lemma PersistingLeaves(k: string, v: string, deadline: nat, s: nat, t: nat, u: nat)
    requires 0 < deadline
    ensures var es := Persisting(k, v, deadline, s, t, u);
            var d0, d1 := After(es[0], map[]), After(es[1], After(es[0], map[]));
            && d0 == map[k := Entry(v, 0, s)] && d1 == map[k := Entry(v, deadline, t)]
            && After(es[2], d1) == if deadline <= u then map[] else map[k := Entry(v, 0, u)]
  {
  }

  lemma FirstDeed(a: Deed, x: Command)
    requires Kept(a, map[]) == Some(x) && a.Lost() == {}
    ensures Contents([a]) == After(a.Act(), map[]) && LogOf([a]) == [x]
  {
    LosesNothing(a, map[]);
    assert Front([a]) == [];
  }

  lemma SecondDeed(a: Deed, b: Deed, d: Dict, y: Command)
    requires Contents([a]) == d && Kept(b, d) == Some(y) && b.Lost() == {}
    ensures Contents([a, b]) == After(b.Act(), d) && LogOf([a, b]) == LogOf([a]) + [y]
  {
    LosesNothing(b, d);
    assert Front([a, b]) == [a];
  }

  lemma ThirdDeed(a: Deed, b: Deed, c: Deed, d: Dict, z: Command)
    requires Contents([a, b]) == d && Kept(c, d) == Some(z) && c.Lost() == {}
    ensures Contents([a, b, c]) == After(c.Act(), d) && LogOf([a, b, c]) == LogOf([a, b]) + [z]
  {
    NextDeed([a, b], c, d, z, [a, b, c]);
  }

  lemma NextDeed(deeds: seq<Deed>, deed: Deed, d: Dict, z: Command, all: seq<Deed>)
    requires Contents(deeds) == d && Kept(deed, d) == Some(z) && deed.Lost() == {} && all == deeds + [deed]
    ensures Contents(all) == After(deed.Act(), d) && LogOf(all) == LogOf(deeds) + [z]
  {
    LosesNothing(deed, d);
    assert Front(all) == deeds;
  }

  lemma PersistingRun(k: string, v: string, deadline: nat)
    requires 1 < deadline
    ensures var run := [Own(Do(Set(k, v), 0)), Own(Do(ExpireAt(k, deadline), 0)), Own(Do(Persist(k), 1))];
            Contents(run) == map[k := Entry(v, 0, 1)] && LogOf(run) == [Set(k, v), ExpireAt(k, deadline), Persist(k)]
  {
    var a, b, c := Own(Do(Set(k, v), 0)), Own(Do(ExpireAt(k, deadline), 0)), Own(Do(Persist(k), 1));
    PersistingLeaves(k, v, deadline, 0, 0, 1);
    FirstDeed(a, Set(k, v));
    SecondDeed(a, b, map[k := Entry(v, 0, 0)], ExpireAt(k, deadline));
    ThirdDeed(a, b, c, map[k := Entry(v, deadline, 0)], Persist(k));
  }

  lemma PersistingReplay(k: string, v: string, deadline: nat, now: nat)
    requires 1 < deadline <= now
    ensures Contents(Redos([Set(k, v), ExpireAt(k, deadline), Persist(k)], Repeat(now, 3))) == map[]
  {
    var a, b, c := Redo(Set(k, v), now), Redo(ExpireAt(k, deadline), now), Redo(Persist(k), now);
    assert Redos([Set(k, v), ExpireAt(k, deadline), Persist(k)], Repeat(now, 3)) == [a, b, c];
    PersistingLeaves(k, v, deadline, now, now, now);
    FirstDeed(a, Set(k, v));
    SecondDeed(a, b, map[k := Entry(v, 0, now)], ExpireAt(k, deadline));
    ThirdDeed(a, b, c, map[k := Entry(v, deadline, now)], Persist(k));
  }

  /** The shortest loss: a key made persistent before its logged deadline is there after the run, and gone after
      a replay past the deadline. */
  lemma PersistIsLost(k: string, v: string, deadline: nat, now: nat)
    requires 1 < deadline <= now
    ensures var run := [Own(Do(Set(k, v), 0)), Own(Do(ExpireAt(k, deadline), 0)), Own(Do(Persist(k), 1))];
            && LogOf(run) == [Set(k, v), ExpireAt(k, deadline), Persist(k)]
            && k in Visible(Contents(run), now)
            && k !in Visible(Contents(Redos(LogOf(run), Repeat(now, 3))), now)
  {
    PersistingRun(k, v, deadline);
    PersistingReplay(k, v, deadline, now);
  }

  /** SET, PEXPIREAT and INCR or DECR, the last past the deadline or before it. */
  lemma CountingLeaves(k: string, v: string, delta: int, deadline: nat, at: nat)
    requires 0 < deadline
    ensures var d0: Dict, d1: Dict := map[k := Entry(v, 0, 0)], map[k := Entry(v, deadline, 0)];
            && After(Do(Set(k, v), 0), map[]) == d0 && After(Do(ExpireAt(k, deadline), 0), d0) == d1
            && var d2 := After(Do(Add(k, delta), at), d1);
               && k in d2 && d2[k].expireAt == (if deadline <= at then 0 else deadline)
               && Kept(Own(Do(ExpireAt(k, deadline), 0)), d0) == Some(ExpireAt(k, deadline))
               && (deadline <= at ==> Kept(Own(Do(Add(k, delta), at)), d1) == Some(Add(k, delta)))
  {
  }

  lemma OrderedThen(deeds: seq<Deed>, deed: Deed)
    requires Ordered(deeds) && Latest(deeds) <= deed.Act().now
    ensures Ordered(deeds + [deed]) && Latest(deeds + [deed]) == deed.Act().now
  {
    assert Front(deeds + [deed]) == deeds;
  }

  lemma ThreeOrdered(a: Deed, b: Deed, c: Deed)
    requires a.Act().now == b.Act().now == 0
    ensures Ordered([a, b, c]) && Latest([a, b, c]) == c.Act().now
  {
    OrderedThen([], a);
    assert [] + [a] == [a] && [a] + [b] == [a, b] && [a, b] + [c] == [a, b, c];
    OrderedThen([a], b);
    OrderedThen([a, b], c);
  }

  lemma ThreeHazardFree(a: Deed, b: Deed, c: Deed, d: Dict, e: Dict, times: seq<nat>)
    requires Contents([a]) == d && Contents([a, b]) == e
    requires forall t: nat :: !Hazard(a, map[], t) && !Hazard(b, d, t) && !Hazard(c, e, t)
    ensures HazardFree([a, b, c], times)
  {
    assert Front([a]) == [] && Front([a, b]) == [a] && Front([a, b, c]) == [a, b];
    assert HazardFree([a], times);
    assert HazardFree([a, b], times);
  }

  function CountingLog(k: string, v: string, delta: int, deadline: nat): seq<Command> {
    [Set(k, v), ExpireAt(k, deadline), Add(k, delta)]
  }

  lemma CountingSteps(k: string, v: string, delta: int, deadline: nat, now: nat, a0: Deed, a1: Deed, a2: Deed)
    requires 0 < deadline <= now
    requires a0 == Own(Do(Set(k, v), 0)) && a1 == Own(Do(ExpireAt(k, deadline), 0)) && a2 == Own(Do(Add(k, delta), now))
    ensures Contents([a0]) == map[k := Entry(v, 0, 0)] && Contents([a0, a1]) == map[k := Entry(v, deadline, 0)]
    ensures LogOf([a0, a1, a2]) == [Set(k, v)] + [ExpireAt(k, deadline)] + [Add(k, delta)]
    ensures Contents([a0, a1, a2]) == After(a2.Act(), map[k := Entry(v, deadline, 0)])
  {
    CountingLeaves(k, v, delta, deadline, now);
    FirstDeed(a0, Set(k, v));
    SecondDeed(a0, a1, map[k := Entry(v, 0, 0)], ExpireAt(k, deadline));
    ThirdDeed(a0, a1, a2, map[k := Entry(v, deadline, 0)], Add(k, delta));
  }

  /** The run of the original. */
  lemma CountingRun(k: string, v: string, delta: int, deadline: nat, now: nat, times: seq<nat>)
      returns (a: seq<Deed>)
    requires 0 < deadline <= now
    ensures a == [Own(Do(Set(k, v), 0)), Own(Do(ExpireAt(k, deadline), 0)), Own(Do(Add(k, delta), now))]
    ensures LogOf(a) == CountingLog(k, v, delta, deadline) && k in Visible(Contents(a), now)
    ensures Ordered(a) && Latest(a) == now && HazardFree(a, times)
  {
    var a0, a1, a2 := Own(Do(Set(k, v), 0)), Own(Do(ExpireAt(k, deadline), 0)), Own(Do(Add(k, delta), now));
    var d0: Dict, d1: Dict := map[k := Entry(v, 0, 0)], map[k := Entry(v, deadline, 0)];
    CountingSteps(k, v, delta, deadline, now, a0, a1, a2);
    CountingLeaves(k, v, delta, deadline, now);
    ThreeOrdered(a0, a1, a2);
    ThreeHazardFree(a0, a1, a2, d0, d1, times);
    a := [a0, a1, a2];
  }

  /** A replay at these times leaves a dead entry at the key. */
  predicate LeavesDead(log: seq<Command>, times: seq<nat>, k: string, now: nat) {
    && |log| == |times| && Sorted(times) && times != [] && Last(times) <= now
    && var r := Contents(Redos(log, times)); k in r && Dead(r[k], now)
  }

  lemma CountingRedone(k: string, v: string, delta: int, deadline: nat, at: nat)
    requires at < deadline
    ensures var b := [Redo(Set(k, v), 0), Redo(ExpireAt(k, deadline), 0), Redo(Add(k, delta), at)];
            k in Contents(b) && Contents(b)[k].expireAt == deadline
  {
    var b0, b1, b2 := Redo(Set(k, v), 0), Redo(ExpireAt(k, deadline), 0), Redo(Add(k, delta), at);
    var d0: Dict, d1: Dict := map[k := Entry(v, 0, 0)], map[k := Entry(v, deadline, 0)];
    CountingLeaves(k, v, delta, deadline, at);
    FirstDeed(b0, Set(k, v));
    SecondDeed(b0, b1, d0, ExpireAt(k, deadline));
    ThirdDeed(b0, b1, b2, d1, Add(k, delta));
  }

  lemma CountingReplay(k: string, v: string, delta: int, deadline: nat, times: seq<nat>, now: nat)
    requires |times| == 3 && times[0] == times[1] == 0 && times[2] < deadline <= now
    ensures LeavesDead(CountingLog(k, v, delta, deadline), times, k, now)
  {
    var b0, b1, b2 := Redo(Set(k, v), 0), Redo(ExpireAt(k, deadline), 0), Redo(Add(k, delta), times[2]);
    assert Redos(CountingLog(k, v, delta, deadline), times) == [b0, b1, b2];
    CountingRedone(k, v, delta, deadline, times[2]);
  }

  /** Both clocks are in order and no command is a hazard, and still run `b`, which repeats run `a`, has lost a key. */
  ghost predicate LosesKey(a: seq<Deed>, b: seq<Deed>, k: string, now: nat) {
    && Repeats(b, a) && Ordered(a) && Ordered(b) && HazardFree(a, LogTimes(b)) && Horizon(a, b, 0) == now
    && k in Visible(Contents(a), now) && k !in Visible(Contents(b), now)
  }

  lemma RedoneLosesKey(a: seq<Deed>, log: seq<Command>, times: seq<nat>, k: string, now: nat)
    requires LogOf(a) == log && Latest(a) == now && Ordered(a) && HazardFree(a, times)
    requires k in Visible(Contents(a), now) && LeavesDead(log, times, k, now)
    ensures LosesKey(a, Redos(log, times), k, now)
  {
    RedosLog(log, times);
  }

  /** A replay by a clock that is behind: the key had expired when INCR or DECR was executed and was made anew, but
      is still live for the replay, which counts on and lets it expire. */
  lemma LaggingCountIsLost(k: string, v: string, delta: int, deadline: nat, times: seq<nat>, now: nat)
      returns (a: seq<Deed>)
    requires |times| == 3 && times[0] == times[1] == 0 && times[2] < deadline <= now
    ensures a == [Own(Do(Set(k, v), 0)), Own(Do(ExpireAt(k, deadline), 0)), Own(Do(Add(k, delta), now))]
    ensures LosesKey(a, Redos(CountingLog(k, v, delta, deadline), times), k, now)
  {
    a := CountingRun(k, v, delta, deadline, now, times);
    CountingReplay(k, v, delta, deadline, times, now);
    RedoneLosesKey(a, CountingLog(k, v, delta, deadline), times, k, now);
  }

  /** Eviction is not logged: a key that was evicted for another is absent after the run and back after a replay. */
  lemma EvictedComesBack(k: string, v: string, j: string, w: string, now: nat)
    requires j != k
    ensures var run := [Own(Do(Set(k, v), 0)), Own(Do(Set(j, w), 0), {k})];
            && LogOf(run) == [Set(k, v), Set(j, w)]
            && k !in Visible(Contents(run), now)
            && k in Visible(Contents(Redos(LogOf(run), Repeat(now, 2))), now)
  {
    var a, b := Own(Do(Set(k, v), 0)), Own(Do(Set(j, w), 0), {k});
    FirstDeed(a, Set(k, v));
    assert Front([a, b]) == [a];
    assert k in b.Lost();
    var c, e := Redo(Set(k, v), now), Redo(Set(j, w), now);
    assert Redos([Set(k, v), Set(j, w)], Repeat(now, 2)) == [c, e];
    FirstDeed(c, Set(k, v));
    SecondDeed(c, e, Contents([c]), Set(j, w));
  }
}
