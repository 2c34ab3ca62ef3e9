/** The server as it runs: the log file, the dispatcher, the start-up loop, the client loop and the replica's
    reading loop, each proved against the transitions of modules `Serving` and `Replication`. */
module Server {
  import opened Machine
  import opened Resp
  import opened RespCodec
  import opened Framing
  import opened Keyspace
  import opened Engine
  import opened EngineLaws
  import opened Storage
  import opened Dispatcher
  import opened Serving
  import Replication

  /** What a dispatch appends to the log file. */
  ghost function LogBytes(cfg: Config, st: State, request: Value, mode: Mode, now: nat, logging: bool): string
    requires cfg.Placed(st.shards)
  {
    if logging then SerializeAll(LoggedFor(cfg, st, request, mode, now)) else ""
  }

  /** PSYNC turns the connection into a stream; QUIT closes it. */
  predicate Ends(request: Value) {
    Decode(request).Psync? || Decode(request).Quit?
  }

  ghost function EntryFor(request: Value, c: Command, r: Option<Reply>, now: nat): seq<Value> {
    match r
    case None => []
    case Some(a) => (match LogEntry(request, c, a, now) case None => [] case Some(v) => [v])
  }

  lemma OneEntry(v: Value)
    ensures SerializeAll([v]) == Serialize(v)
  {
    assert [v][1..] == [];
    assert Serialize(v) + "" == Serialize(v);
  }

  lemma LoggedForCommand(cfg: Config, st: State, request: Value, c: Command, seconds: bool, mode: Mode, now: nat)
    requires cfg.Placed(st.shards) && Decode(request) == Perform(c, seconds)
    requires !Gated(request, mode.readOnly, mode.bypass)
    ensures LoggedFor(cfg, st, request, mode, now) ==
            if mode.bypass then [] else EntryFor(request, c, Reported(cfg, st, c, now), now)
    ensures SerializeAll([]) == ""
  {
  }

  lemma CommandDispatches(cfg: Config, st: State, request: Value, c: Command, seconds: bool, mode: Mode, now: nat,
                          gone: set<string>)
    requires Sound(cfg, st) && Decode(request) == Perform(c, seconds)
    requires !Gated(request, mode.readOnly, mode.bypass) && cfg.Possible(st, c, now, gone)
    ensures Dispatches(cfg, st, cfg.After(st, c, now, gone), request, mode, now, gone)
  {
  }

  /** A request that does not reach the key space. */
  lemma OtherDispatches(cfg: Config, st: State, request: Value, mode: Mode, now: nat)
    requires Sound(cfg, st) && (Gated(request, mode.readOnly, mode.bypass) || !Decode(request).Perform?)
    ensures var resizes := !Gated(request, mode.readOnly, mode.bypass) && Decode(request).Resize?;
            Dispatches(cfg, st, if resizes then st.(limit := Decode(request).bytes) else st, request, mode, now, {})
  {
  }

  lemma NothingLogged(cfg: Config, st: State, request: Value, mode: Mode, now: nat)
    requires cfg.Placed(st.shards) && (Gated(request, mode.readOnly, mode.bypass) || !Decode(request).Perform?)
    ensures LoggedFor(cfg, st, request, mode, now) == [] && SerializeAll([]) == ""
  {
  }

  /** The response to a request that does not reach the key space; `info` is the text of INFO. */
  function SimpleAnswer(d: Decoded, gated: bool, info: string): Value {
    if gated then Error(READONLY)
    else
      match d
      case Reject(message) => Error(message)
      case Psync(_) => SimpleString("CONTINUE")
      case Say(text) => text
      case Info => BulkString(info)
      case _ => SimpleString("OK")
  }

  /** A life that led from `a` to `b` by dispatching `values`. */
  ghost predicate Led(life: Life, cfg: Config, readOnly: bool, clock: nat -> nat, a: State, b: State,
                      values: seq<Value>, bypass: bool)
  {
    && IsLife(life) && life.cfg == cfg && life.readOnly == readOnly && life.clock == clock
    && life.works == Asks(values, bypass) && life.trace[0] == a && life.trace[|values|] == b
  }

  lemma LedNowhere(cfg: Config, readOnly: bool, clock: nat -> nat, st: State, bypass: bool)
    requires Sound(cfg, st)
    ensures Led(Newborn(cfg, readOnly, clock, st), cfg, readOnly, clock, st, st, [], bypass)
  {
    NewbornIsLife(cfg, readOnly, clock, st);
  }

  lemma LedOn(life: Life, cfg: Config, readOnly: bool, clock: nat -> nat, a: State, b: State, values: seq<Value>,
              bypass: bool, v: Value, gone: set<string>, next: State)
    requires Led(life, cfg, readOnly, clock, a, b, values, bypass)
    requires Dispatches(cfg, b, next, v, Mode(readOnly, bypass), clock(|values|), gone)
    ensures var logged := LoggedFor(cfg, b, v, Mode(readOnly, bypass), clock(|values|));
            && Led(life.Then(Ask(v, bypass), gone, logged, next), cfg, readOnly, clock, a, next, values + [v], bypass)
            && LoggedIn(life.Then(Ask(v, bypass), gone, logged, next)) == LoggedIn(life) + logged
  {
    var logged := LoggedFor(cfg, b, v, Mode(readOnly, bypass), clock(|values|));
    LifeExtends(life, Ask(v, bypass), gone, logged, next);
    LogExtends(life, Ask(v, bypass), gone, logged, next);
    AsksMore(values, v, bypass);
  }

  // ---------- taking frames off a buffer ----------

  /** `done` and then the frames of `rest` are the frames of the buffer. */
  ghost predicate Split(buffer: string, done: seq<Value>, rest: string) {
    Frames(buffer) == Framed(done + Frames(rest).commands, Frames(rest).residue)
  }

  lemma SplitStarts(buffer: string)
    ensures Split(buffer, [], buffer)
  {
    assert [] + Frames(buffer).commands == Frames(buffer).commands;
  }

  lemma SplitMore(buffer: string, done: seq<Value>, rest: string)
    requires Split(buffer, done, rest) && Parse(rest).Done?
    ensures Split(buffer, done + [Parse(rest).value], rest[Parse(rest).size..])
  {
    var v, more := Parse(rest).value, Frames(rest[Parse(rest).size..]);
    assert done + ([v] + more.commands) == done + [v] + more.commands;
  }

  lemma SplitEnds(buffer: string, done: seq<Value>, rest: string)
    requires Split(buffer, done, rest) && !Parse(rest).Done?
    ensures Frames(buffer) == Framed(done, rest)
  {
    assert done + [] == done;
  }

  // ---------- a conversation ----------

  /** The requests `done` of a client, the server's life with them, and the responses. */
  datatype Talk = Talk(done: seq<Value>, life: Life, responses: seq<Value>)

  ghost predicate Fits(cfg: Config, st: State, request: Value, response: Value, mode: Mode, now: nat) {
    cfg.Placed(st.shards) &&
    var spec := ResponseTo(cfg, st, request, mode, now);
    spec.Some? ==> response == spec.value
  }

  /** One response to each request, in order. */
  ghost predicate AllFit(cfg: Config, trace: seq<State>, done: seq<Value>, responses: seq<Value>, mode: Mode,
                         clock: nat -> nat)
    requires |trace| == |done| + 1
    decreases |done|
  {
    && |responses| == |done|
    && (done != [] ==>
          var n := |done| - 1;
          && AllFit(cfg, trace[..n + 1], done[..n], responses[..n], mode, clock)
          && Fits(cfg, trace[n], done[n], responses[n], mode, clock(n)))
  }

  /** The requests were dispatched, logged and answered in order, leading from `a` to `b`: `log` is `before` and
      what they logged. */
  ghost predicate Talked(t: Talk, cfg: Config, readOnly: bool, clock: nat -> nat, a: State, b: State,
                         before: string, log: string)
  {
    && Led(t.life, cfg, readOnly, clock, a, b, t.done, false)
    && AllFit(cfg, t.life.trace, t.done, t.responses, Mode(readOnly, false), clock)
    && log == before + SerializeAll(LoggedIn(t.life))
  }

  lemma TalkStarts(cfg: Config, readOnly: bool, clock: nat -> nat, st: State, log: string)
    requires Sound(cfg, st)
    ensures Talked(Talk([], Newborn(cfg, readOnly, clock, st), []), cfg, readOnly, clock, st, st, log, log)
  {
    LedNowhere(cfg, readOnly, clock, st, false);
    NewbornIsLife(cfg, readOnly, clock, st);
    assert log + "" == log;
  }

  lemma LogMore(before: string, logged: seq<Value>, more: seq<Value>)
    ensures before + SerializeAll(logged) + SerializeAll(more) == before + SerializeAll(logged + more)
  {
    SerializeAllAppend(logged, more);
    assert before + SerializeAll(logged) + SerializeAll(more) == before + (SerializeAll(logged) + SerializeAll(more));
  }

  lemma FitMore(cfg: Config, trace: seq<State>, done: seq<Value>, responses: seq<Value>, mode: Mode,
                clock: nat -> nat, request: Value, next: State, response: Value)
    requires |trace| == |done| + 1 && AllFit(cfg, trace, done, responses, mode, clock)
    requires Fits(cfg, trace[|done|], request, response, mode, clock(|done|))
    ensures AllFit(cfg, trace + [next], done + [request], responses + [response], mode, clock)
  {
    var n := |done|;
    assert (trace + [next])[..n + 1] == trace && (done + [request])[..n] == done;
    assert (responses + [response])[..n] == responses;
  }

  /** The conversation with one more request. */
  ghost function TalkOn(t: Talk, cfg: Config, readOnly: bool, now: nat, b: State, request: Value, gone: set<string>,
                        next: State, response: Value): Talk
    requires cfg.Placed(b.shards)
  {
    var logged := LoggedFor(cfg, b, request, Mode(readOnly, false), now);
    Talk(t.done + [request], t.life.Then(Ask(request, false), gone, logged, next), t.responses + [response])
  }

  lemma TalkMore(t: Talk, cfg: Config, readOnly: bool, clock: nat -> nat, a: State, b: State, before: string,
                 log: string, request: Value, gone: set<string>, next: State, response: Value)
    requires Talked(t, cfg, readOnly, clock, a, b, before, log)
    requires Dispatches(cfg, b, next, request, Mode(readOnly, false), clock(|t.done|), gone)
    requires Fits(cfg, b, request, response, Mode(readOnly, false), clock(|t.done|))
    ensures Talked(TalkOn(t, cfg, readOnly, clock(|t.done|), b, request, gone, next, response), cfg, readOnly, clock,
                   a, next, before, log + LogBytes(cfg, b, request, Mode(readOnly, false), clock(|t.done|), true))
  {
    LedOn(t.life, cfg, readOnly, clock, a, b, t.done, false, request, gone, next);
    FitMore(cfg, t.life.trace, t.done, t.responses, Mode(readOnly, false), clock, request, next, response);
    LogMore(before, LoggedIn(t.life), LoggedFor(cfg, b, request, Mode(readOnly, false), clock(|t.done|)));
  }

  lemma OutputMore(responses: seq<Value>, response: Value)
    ensures SerializeAll(responses) + Serialize(response) == SerializeAll(responses + [response])
  {
    SerializeAllAppend(responses, [response]);
    OneEntry(response);
  }

  /** The responses `written` went out, and the one after them, if there is one, could not. */
  ghost predicate Sent(output: string, responses: seq<Value>, written: seq<Value>, writes: nat -> bool) {
    && written <= responses && output == SerializeAll(written)
    && (written < responses ==> !writes(|written|)) && forall i: nat :: i < |written| ==> writes(i)
  }

  lemma SentNothing(writes: nat -> bool)
    ensures Sent("", [], [], writes)
  {
  }

  /** One more response is written, or is the last. */
  lemma SentMore(output: string, responses: seq<Value>, next: seq<Value>, writes: nat -> bool, bytes: string)
    requires Sent(output, responses, responses, writes) && responses < next && |next| == |responses| + 1
    requires SerializeAll(next) == SerializeAll(responses) + bytes
    ensures writes(|responses|) ==> Sent(output + bytes, next, next, writes)
    ensures !writes(|responses|) ==> Sent(output, next, responses, writes)
  {
  }

  /** The conversation ends with its last request or not at all: `ending` when that is PSYNC or QUIT, `broken` when
      the response to it could not be written. */
  ghost predicate StopsAtEnd(done: seq<Value>, ending: bool, broken: bool) {
    && (ending || broken ==> done != []) && (ending ==> Ends(done[|done| - 1]))
    && forall i :: 0 <= i < |done| - (if ending || broken then 1 else 0) ==> !Ends(done[i])
  }

  lemma StopMore(done: seq<Value>, request: Value, ends: bool)
    requires StopsAtEnd(done, false, false) && (ends <==> Ends(request))
    ensures StopsAtEnd(done + [request], ends, false) && StopsAtEnd(done + [request], false, true)
  {
  }

  // ---------- the life of the process ----------

  /** The server was started on `file`, has lived this life since, and now its engine holds `st` and its log `data`. */
  ghost predicate Alive(life: Life, file: string, cfg: Config, readOnly: bool, st: State, data: string) {
    && Lived(life, file) && life.cfg == cfg && life.readOnly == readOnly
    && life.trace[|life.works|] == st && FileAfter(file, life) == data
  }

  /** After its start the server is alive. */
  lemma StartIsAlive(life: Life, cfg: Config, readOnly: bool, clock: nat -> nat, st: State, file: string)
    requires cfg.numShards > 0
    requires Led(life, cfg, readOnly, clock, cfg.Initial(), st, Frames(file).commands, true)
    ensures Alive(life, file, cfg, readOnly, st, file)
  {
    var values := Frames(file).commands;
    AsksReplayed(values, |values|);
    assert values[..|values|] == values;
    BootLogsNothing(life, |life.works|);
    assert file + SerializeAll([]) == file;
  }

  /** Requests that were taken off a buffer came through the parser. */
  lemma DoneAreReceived(buffer: string, done: seq<Value>, rest: string)
    requires Split(buffer, done, rest) && |buffer| <= INT64_MAX
    ensures ClientsReceived(Asks(done, false))
  {
    FramesLength(buffer);
    forall i | 0 <= i < |done| ensures WireSafe(done[i]) {
      assert Frames(buffer).commands[i] == done[i];
    }
  }

  lemma AliveOn(life: Life, more: Life, file: string, cfg: Config, readOnly: bool, st: State, before: string,
                next: State, after: string)
    requires Alive(life, file, cfg, readOnly, st, before) && IsLife(more)
    requires more.cfg == cfg && more.readOnly == readOnly && more.trace[0] == st && more.trace[|more.works|] == next
    requires NoReplays(more.works) && ClientsReceived(more.works) && after == before + SerializeAll(LoggedIn(more))
    ensures Continues(more, life) && Alive(Continued(life, more), file, cfg, readOnly, next, after)
  {
    LivedOn(life, more, file);
    LivesJoin(life, more);
  }

  /** It stays so whatever is read from a client. */
  lemma ServeKeepsAlive(life: Life, file: string, cfg: Config, readOnly: bool, st: State, before: string, talk: Talk,
                        clock: nat -> nat, next: State, after: string, buffer: string, rest: string)
    requires Alive(life, file, cfg, readOnly, st, before) && Talked(talk, cfg, readOnly, clock, st, next, before, after)
    requires Split(buffer, talk.done, rest) && |buffer| <= INT64_MAX
    ensures Continues(talk.life, life) && Alive(Continued(life, talk.life), file, cfg, readOnly, next, after)
  {
    DoneAreReceived(buffer, talk.done, rest);
    AliveOn(life, talk.life, file, cfg, readOnly, st, before, next, after);
  }

  /** And through every pass of the sweeper. */
  lemma SweepKeepsAlive(life: Life, file: string, cfg: Config, readOnly: bool, st: State, data: string,
                        seen: seq<set<string>>, now: nat)
    requires Alive(life, file, cfg, readOnly, st, data) && Sound(cfg, st) && |seen| == cfg.numShards
    ensures var pass := Sweeping(cfg, readOnly, st, seen, now);
            && Continues(pass, life)
            && Alive(Continued(life, pass), file, cfg, readOnly, cfg.SweepAll(st, seen, now), data)
  {
    SweepingIsLife(cfg, readOnly, st, seen, now);
    assert data + SerializeAll([]) == data;
    AliveOn(life, Sweeping(cfg, readOnly, st, seen, now), file, cfg, readOnly, st, data,
            cfg.SweepAll(st, seen, now), data);
  }

  /** The append-only file: what was written, in order. */
  class AofLogger {
    var data: string

    constructor (data: string)
      ensures this.data == data
    {
      this.data := data;
    }

    method Log(command: string)
      modifies this
      ensures data == old(data) + command
    {
      data := data + command;
    }

    method LogRaw(bytes: string)
      modifies this
      ensures data == old(data) + bytes
    {
      data := data + bytes;
    }

    method FileSize() returns (size: nat)
      ensures size == |data|
    {
      size := |data|;
    }
  }

  class Node {
    const storage: StorageEngine
    const aof: AofLogger
    const isReplica: bool

    constructor (storage: StorageEngine, aof: AofLogger, isReplica: bool)
      ensures this.storage == storage && this.aof == aof && this.isReplica == isReplica
    {
      this.storage, this.aof, this.isReplica := storage, aof, isReplica;
    }

    /** One command on the storage engine. */
    method Perform(c: Command, now: nat) returns (r: Option<Reply>, ghost gone: set<string>)
      requires storage.Valid()
      modifies storage
      ensures storage.Valid() && storage.cfg.Possible(old(storage.St()), c, now, gone)
      ensures storage.St() == storage.cfg.After(old(storage.St()), c, now, gone)
      ensures r == Reported(storage.cfg, old(storage.St()), c, now)
    {
      gone := {};
      match c
      case Set(k, v) =>
        var ok;
        ok, gone := storage.Set(k, v, now);
        r := if ok then Some(Stored) else None;
      case Get(k) =>
        var v := storage.Get(k, now);
        r := Some(Text(v));
      case Del(keys) =>
        var n := storage.Del(keys);
        r := Some(Number(n));
      case Exists(keys) =>
        var n := storage.Exists(keys, now);
        r := Some(Number(n));
      case Add(k, delta) =>
        SumAnswerRefines(storage.cfg, storage.St(), k, delta, now);
        var n;
        n, gone := storage.Add(k, delta, now);
        r := Some(if n.Some? then Number(n.value) else NotANumber);
      case Expire(k, offset) =>
        var done := storage.Expire(k, offset, now);
        r := Some(Number(if done then 1 else 0));
      case ExpireAt(k, at) =>
        var done := storage.ExpireAt(k, at, now);
        r := Some(Number(if done then 1 else 0));
      case Pttl(k) =>
        var left := storage.Pttl(k, now);
        r := Some(Number(left));
      case Persist(k) =>
        var done := storage.Persist(k, now);
        r := Some(Number(if done then 1 else 0));
    }

    /** What logging appends for a command that was reported as `r`. */
    method LogCommand(request: Value, c: Command, r: Option<Reply>, now: nat)
      modifies aof
      ensures aof.data == old(aof.data) + SerializeAll(EntryFor(request, c, r, now))
    {
      if r.Some? {
        var entry := LogEntry(request, c, r.value, now);
        if entry.Some? {
          OneEntry(entry.value);
          var bytes := SerializeValue(entry.value);
          aof.Log(bytes);
        }
      }
    }

    /** A request that asks for a command and is let through. */
    method DispatchCommand(request: Value, c: Command, seconds: bool, bypass: bool, logging: bool, now: nat)
      returns (response: Value, ghost gone: set<string>)
      requires storage.Valid() && Decode(request) == Decoded.Perform(c, seconds) && !Gated(request, isReplica, bypass)
      modifies storage, aof
      ensures storage.Valid()
      ensures Dispatches(storage.cfg, old(storage.St()), storage.St(), request, Mode(isReplica, bypass), now, gone)
      ensures aof.data == old(aof.data)
                          + LogBytes(storage.cfg, old(storage.St()), request, Mode(isReplica, bypass), now, logging)
      ensures response == Respond(c, seconds, Reported(storage.cfg, old(storage.St()), c, now))
    {
      ghost var st := storage.St();
      LoggedForCommand(storage.cfg, st, request, c, seconds, Mode(isReplica, bypass), now);
      var r;
      r, gone := Perform(c, now);
      CommandDispatches(storage.cfg, st, request, c, seconds, Mode(isReplica, bypass), now, gone);
      response := Respond(c, seconds, r);
      if logging && !bypass {
        LogCommand(request, c, r, now);
      }
    }

    /** A request that is turned away or does not reach the key space. */
    method DispatchOther(request: Value, bypass: bool, info: string, now: nat) returns (response: Value)
      requires storage.Valid() && (Gated(request, isReplica, bypass) || !Decode(request).Perform?)
      modifies storage
      ensures storage.Valid()
      ensures Dispatches(storage.cfg, old(storage.St()), storage.St(), request, Mode(isReplica, bypass), now, {})
      ensures var spec := ResponseTo(storage.cfg, old(storage.St()), request, Mode(isReplica, bypass), now);
              spec.Some? ==> response == spec.value
    {
      OtherDispatches(storage.cfg, storage.St(), request, Mode(isReplica, bypass), now);
      var d := Decode(request);
      response := SimpleAnswer(d, Gated(request, isReplica, bypass), info);
      if !Gated(request, isReplica, bypass) && d.Resize? {
        storage.SetMaxMemory(d.bytes);
      }
    }

    /** One request: the gate, the command, the log, the response. `ending` is set when the connection turns
        into a stream or is closed. */
    method Dispatch(request: Value, bypass: bool, logging: bool, info: string, now: nat)
      returns (response: Value, ending: bool, ghost gone: set<string>)
      requires storage.Valid()
      modifies storage, aof
      ensures storage.Valid() && (ending <==> Ends(request))
      ensures Dispatches(storage.cfg, old(storage.St()), storage.St(), request, Mode(isReplica, bypass), now, gone)
      ensures aof.data == old(aof.data)
                          + LogBytes(storage.cfg, old(storage.St()), request, Mode(isReplica, bypass), now, logging)
      ensures var spec := ResponseTo(storage.cfg, old(storage.St()), request, Mode(isReplica, bypass), now);
              spec.Some? ==> response == spec.value
    {
      ghost var st, mode := storage.St(), Mode(isReplica, bypass);
      ending := Ends(request);
      var d := Decode(request);
      if !Gated(request, isReplica, bypass) && d.Perform? {
        response, gone := DispatchCommand(request, d.command, d.seconds, bypass, logging, now);
      } else {
        gone := {};
        NothingLogged(storage.cfg, st, request, mode, now);
        response := DispatchOther(request, bypass, info, now);
      }
    }

    /** Parse, dispatch and erase until no whole frame is left: the loop that replays the log at start-up and
        applies a replica's stream. Exactly the whole frames of the buffer are dispatched, in order, past the
        gate and unlogged. The i-th is dispatched at clock reading `clock(i)`. */
    method ApplyFrames(buffer: string, clock: nat -> nat) returns (residue: string, count: nat, ghost life: Life)
      requires storage.Valid()
      modifies storage, aof
      ensures storage.Valid() && aof.data == old(aof.data)
      ensures residue == Frames(buffer).residue && count == |Frames(buffer).commands|
      ensures Led(life, storage.cfg, isReplica, clock, old(storage.St()), storage.St(), Frames(buffer).commands, true)
    {
      ghost var done: seq<Value> := [];
      residue, count, life := buffer, 0, Newborn(storage.cfg, isReplica, clock, storage.St());
      SplitStarts(buffer);
      LedNowhere(storage.cfg, isReplica, clock, storage.St(), true);
      while true
        invariant storage.Valid() && aof.data == old(aof.data) && count == |done|
        invariant Split(buffer, done, residue)
        invariant Led(life, storage.cfg, isReplica, clock, old(storage.St()), storage.St(), done, true)
        decreases |residue|
      {
        var value, consumed, _ := ParseFrame(residue);
        if value.None? {
          break;
        }
        SplitMore(buffer, done, residue);
        ghost var st := storage.St();
        var _, _, gone := Dispatch(value.value, true, false, "", clock(count));
        LedOn(life, storage.cfg, isReplica, clock, old(storage.St()), st, done, true, value.value, gone, storage.St());
        ghost var logged := LoggedFor(storage.cfg, st, value.value, Mode(isReplica, true), clock(count));
        life, done := life.Then(Ask(value.value, true), gone, logged, storage.St()), done + [value.value];
        residue, count := residue[consumed..], count + 1;
      }
      SplitEnds(buffer, done, residue);
    }

    /** Start-up: the log found on disk is replayed and left as it is. */
    method Start(clock: nat -> nat) returns (loaded: nat, ghost life: Life)
      requires storage.Valid()
      modifies storage, aof
      ensures storage.Valid() && aof.data == old(aof.data) && loaded == |Frames(aof.data).commands|
      ensures Led(life, storage.cfg, isReplica, clock, old(storage.St()), storage.St(), Frames(aof.data).commands, true)
    {
      var residue;
      residue, loaded, life := ApplyFrames(aof.data, clock);
    }

    /** One request of a client: dispatched, logged and answered. */
    method Exchange(request: Value, info: string, clock: nat -> nat, i: nat, ghost talk: Talk, ghost start: State,
                    ghost log: string)
      returns (bytes: string, ending: bool, ghost next: Talk)
      requires storage.Valid() && i == |talk.done| && StopsAtEnd(talk.done, false, false)
      requires Talked(talk, storage.cfg, isReplica, clock, start, storage.St(), log, aof.data)
      modifies storage, aof
      ensures storage.Valid() && StopsAtEnd(next.done, ending, false) && StopsAtEnd(next.done, false, true)
      ensures Talked(next, storage.cfg, isReplica, clock, start, storage.St(), log, aof.data)
      ensures next.done == talk.done + [request]
      ensures SerializeAll(next.responses) == SerializeAll(talk.responses) + bytes
      ensures talk.responses < next.responses && |next.responses| == |talk.responses| + 1
    {
      ghost var before, st := aof.data, storage.St();
      var response, ends, gone := Dispatch(request, false, true, info, clock(i));
      TalkMore(talk, storage.cfg, isReplica, clock, start, st, log, before, request, gone, storage.St(), response);
      StopMore(talk.done, request, ends);
      OutputMore(talk.responses, response);
      bytes := SerializeValue(response);
      ending, next := ends, TalkOn(talk, storage.cfg, isReplica, clock(i), st, request, gone, storage.St(), response);
    }

    /** One read of a client's connection: every whole frame is dispatched, logged and answered in order, up to
        a PSYNC or QUIT, or a response that cannot be written. `info(i)` is the text of INFO at the i-th request,
        and `writes(i)` says whether the i-th response is written. */
    method Serve(buffer: string, data: string, clock: nat -> nat, info: nat -> string, writes: nat -> bool)
      returns (rest: string, output: string, ending: bool, broken: bool, ghost talk: Talk, ghost written: seq<Value>)
      requires storage.Valid()
      modifies storage, aof
      ensures storage.Valid()
      ensures Talked(talk, storage.cfg, isReplica, clock, old(storage.St()), storage.St(), old(aof.data), aof.data)
      ensures Split(buffer + data, talk.done, rest) && StopsAtEnd(talk.done, ending, broken)
      ensures !ending && !broken ==> Frames(buffer + data) == Framed(talk.done, rest)
      ensures Sent(output, talk.responses, written, writes) && |talk.responses| == |talk.done|
      ensures |written| == |talk.done| - if broken then 1 else 0
    {
      rest, output, ending, broken := buffer + data, "", false, false;
      talk, written := Talk([], Newborn(storage.cfg, isReplica, clock, storage.St()), []), [];
      SplitStarts(buffer + data);
      TalkStarts(storage.cfg, isReplica, clock, storage.St(), aof.data);
      SentNothing(writes);
      var i := 0;
      while true
        invariant storage.Valid() && i == |talk.done| && written == talk.responses && |written| == i
        invariant Talked(talk, storage.cfg, isReplica, clock, old(storage.St()), storage.St(), old(aof.data), aof.data)
        invariant Split(buffer + data, talk.done, rest) && !ending && !broken && StopsAtEnd(talk.done, ending, broken)
        invariant Sent(output, talk.responses, written, writes)
        decreases |rest|
      {
        var request, consumed, _ := ParseFrame(rest);
        if request.None? {
          break;
        }
        SplitMore(buffer + data, talk.done, rest);
        rest := rest[consumed..];
        var bytes, ends;
        bytes, ends, talk := Exchange(request.value, info(i), clock, i, talk, old(storage.St()), old(aof.data));
        SentMore(output, written, talk.responses, writes, bytes);
        if !writes(i) {
          broken := true;
          return;
        }
        output, i, written := output + bytes, i + 1, talk.responses;
        if ends {
          ending := true;
          return;
        }
      }
      SplitEnds(buffer + data, talk.done, rest);
    }

    /** The primary's side of a stream: the next bytes of the log from `pos` on, none at its end. Each non-empty
        result is one `Send` of the transition system. */
    method StreamChunk(pos: nat, ghost net: Replication.Net) returns (chunk: string)
      requires net.primary == aof.data && net.pos == pos && !net.conn.Down?
      ensures chunk == "" <==> pos >= |aof.data|
      ensures chunk != "" ==>
                && Replication.Enabled(net, Replication.Send(|chunk|))
                && Replication.Take(net, Replication.Send(|chunk|)) ==
                   net.(link := net.link + chunk, pos := pos + |chunk|)
    {
      if pos >= |aof.data| {
        return "";
      }
      var end := if pos + Replication.CHUNK < |aof.data| then pos + Replication.CHUNK else |aof.data|;
      chunk := aof.data[pos..end];
    }
  }

  /** The replica's side of a connection to its primary. */
  class ReplicaWorker {
    const node: Node
    var connected: bool
    var inStream: bool
    var buffer: string

    constructor (node: Node)
      ensures this.node == node && !connected
    {
      this.node, connected, inStream, buffer := node, false, false, "";
    }

    ghost function Conn(): Replication.Conn
      reads this
    {
      if !connected then Replication.Down
      else if inStream then Replication.Streaming(buffer)
      else Replication.Handshake(buffer)
    }

    /** The worker and the log it writes are the replica of `net`. */
    ghost predicate Mirrors(net: Replication.Net)
      reads this, node.aof
    {
      net.conn == Conn() && net.replica == node.aof.data
    }

    /** A new connection asks for the stream from the length of the replica's own log on. */
    method Connect(ghost net: Replication.Net) returns (request: string)
      requires !connected && Mirrors(net)
      modifies this
      ensures Mirrors(Replication.Take(net, Replication.Step.Connect))
      ensures request == Replication.PsyncBytes(Replication.Take(net, Replication.Step.Connect).pos)
    {
      var offset := node.aof.FileSize();
      request := Replication.PsyncBytes(offset);
      connected, inStream, buffer := true, false, "";
    }

    /** Stream bytes are logged as they came; then the frames they complete are applied. */
    method Absorb(data: string, clock: nat -> nat)
      returns (ghost commands: seq<Value>, ghost life: Life)
      requires node.storage.Valid()
      modifies this, node.storage, node.aof
      ensures node.storage.Valid() && connected == old(connected) && inStream == old(inStream)
      ensures node.aof.data == old(node.aof.data) + data
      ensures Framed(commands, buffer) == Frames(old(buffer) + data)
      ensures Led(life, node.storage.cfg, node.isReplica, clock, old(node.storage.St()), node.storage.St(),
                  commands, true)
    {
      node.aof.LogRaw(data);
      commands := Frames(buffer + data).commands;
      var rest, count;
      rest, count, life := node.ApplyFrames(buffer + data, clock);
      buffer := rest;
    }

    /** A read before the reply to PSYNC is complete: the stream bytes behind an accepting reply, if it came. */
    method TakeReply(data: string, ghost net: Replication.Net) returns (stream: Option<string>)
      requires connected && !inStream && Mirrors(net)
      modifies this
      ensures stream.Some? ==>
                && connected && inStream && buffer == ""
                && Replication.Reads(net, data) == Replication.Absorb(net, "", stream.value)
      ensures stream.None? ==>
                && Mirrors(Replication.Reads(net, data)) && Replication.Reads(net, data).applied == net.applied
    {
      stream := None;
      buffer := buffer + data;
      var pos := FindCrlf(buffer);
      if pos.Some? {
        if buffer[..pos.value] == Replication.CONTINUE {
          stream := Some(buffer[pos.value + 2..]);
          inStream, buffer := true, "";
        } else {
          connected := false;
        }
      }
    }

    /** One read of the connection, handshake or stream: a `Reads` of the transition system, whose newly applied
        commands are dispatched in order. */
    method Receive(data: string, clock: nat -> nat, ghost net: Replication.Net)
      returns (ghost commands: seq<Value>, ghost life: Life)
      requires connected && Mirrors(net) && node.storage.Valid()
      modifies this, node.storage, node.aof
      ensures node.storage.Valid() && Mirrors(Replication.Reads(net, data))
      ensures Replication.Reads(net, data).applied == net.applied + commands
      ensures Led(life, node.storage.cfg, node.isReplica, clock, old(node.storage.St()), node.storage.St(),
                  commands, true)
    {
      if inStream {
        commands, life := Absorb(data, clock);
      } else {
        var stream := TakeReply(data, net);
        if stream.Some? {
          assert "" + stream.value == stream.value;
          commands, life := Absorb(stream.value, clock);
        } else {
          commands, life := [], Newborn(node.storage.cfg, node.isReplica, clock, node.storage.St());
          LedNowhere(node.storage.cfg, node.isReplica, clock, node.storage.St(), true);
          assert net.applied + [] == net.applied;
        }
      }
    }
  }
}
