/** Requests: what a RESP value asks for, what is logged of it and what is answered. */
module Dispatcher {
  import opened Machine
  import opened Decimal
  import opened Resp
  import opened Keyspace

  function Upper(c: char): char {
    if 'a' <= c <= 'z' then (c as int - 32) as char else c
  }

  function ToUpper(s: string): (r: string)
    ensures |r| == |s|
  {
    seq(|s|, i requires 0 <= i < |s| => Upper(s[i]))
  }

  predicate IsMutating(cmd: string) {
    cmd in {"SET", "DEL", "INCR", "DECR", "EXPIRE", "PEXPIRE", "PEXPIREAT", "PERSIST"}
  }

  /** `Perform` reaches the key space; `seconds` is TTL's unit. `Resize` is CONFIG SET MAXMEMORY. `Say`,
      `Quit` and `Info` touch neither the key space nor the log. */
  datatype Decoded =
    | Reject(message: string)
    | Perform(command: Command, seconds: bool)
    | Resize(bytes: nat)
    | Psync(offset: nat)
    | Say(text: Value)
    | Quit
    | Info

  const NOT_A_NUMBER := "ERR value is not an integer or out of range"

  function WrongArity(name: string): Decoded {
    Reject("ERR wrong number of arguments for '" + name + "' command")
  }

  /** The command word of a request, upper-cased; `None` when the request has none. */
  function CommandWord(request: Value): Option<string> {
    if request.Array? && request.items != [] && (request.items[0].BulkString? || request.items[0].SimpleString?)
    then Some(ToUpper(StringValue(request.items[0]))) else None
  }

  /** Argument `i` as text; a missing text field reads as empty. */
  function Arg(request: Value, i: nat): string {
    if request.Array? && i < |request.items| then StringValue(request.items[i]) else ""
  }

  function Args(request: Value): seq<string> {
    if request.Array? && request.items != []
    then seq(|request.items| - 1, i requires 0 <= i < |request.items| - 1 => StringValue(request.items[i + 1]))
    else []
  }

  function Decode(request: Value): Decoded {
    if !request.Array? || request.items == [] then Reject("ERR invalid request type, expected array of bulk strings")
    else
      match CommandWord(request)
      case None => Reject("ERR invalid command format")
      case Some(cmd) => DecodeWord(cmd, request, |request.items|)
  }

  function DecodeWord(cmd: string, request: Value, size: nat): Decoded {
    if cmd == "PING" then
      if size > 2 then WrongArity("ping")
      else Say(if size == 2 then BulkString(Arg(request, 1)) else SimpleString("PONG"))
    else if cmd == "ECHO" then
      if size != 2 then WrongArity("echo") else Say(BulkString(Arg(request, 1)))
    else if cmd == "QUIT" then
      if size != 1 then WrongArity("quit") else Quit
    else if cmd == "INFO" then
      if size > 2 then WrongArity("info") else Info
    else if cmd == "SET" then
      if size < 3 then WrongArity("set") else Perform(Set(Arg(request, 1), Arg(request, 2)), false)
    else if cmd == "GET" then
      if size != 2 then WrongArity("get") else Perform(Get(Arg(request, 1)), false)
    else if cmd == "DEL" then
      if size < 2 then WrongArity("del") else Perform(Del(Args(request)), false)
    else if cmd == "EXISTS" then
      if size < 2 then WrongArity("exists") else Perform(Exists(Args(request)), false)
    else if cmd == "INCR" then
      if size != 2 then WrongArity("incr") else Perform(Add(Arg(request, 1), 1), false)
    else if cmd == "DECR" then
      if size != 2 then WrongArity("decr") else Perform(Add(Arg(request, 1), -1), false)
    else if cmd == "EXPIRE" || cmd == "PEXPIRE" then
      if size != 3 then WrongArity(cmd)
      else
        match ScanSigned(Arg(request, 2))
        case None => Reject(NOT_A_NUMBER)
        case Some(n) =>
          Perform(Expire(Arg(request, 1), if cmd == "EXPIRE" then Int64(n.value * 1000) else n.value), false)
    else if cmd == "PEXPIREAT" then
      if size != 3 then WrongArity("pexpireat")
      else
        match ScanUnsigned(Arg(request, 2))
        case None => Reject(NOT_A_NUMBER)
        case Some(n) => Perform(ExpireAt(Arg(request, 1), n.value), false)
    else if cmd == "TTL" || cmd == "PTTL" then
      if size != 2 then WrongArity(cmd) else Perform(Pttl(Arg(request, 1)), cmd == "TTL")
    else if cmd == "PERSIST" then
      if size != 2 then WrongArity("persist") else Perform(Persist(Arg(request, 1)), false)
    else if cmd == "CONFIG" then
      if size != 4 || ToUpper(Arg(request, 1)) != "SET" then Reject("ERR unsupported config command")
      else if ToUpper(Arg(request, 2)) != "MAXMEMORY" then Reject("ERR unsupported config parameter")
      else
        match ScanSigned(Arg(request, 3))
        case None => Reject("ERR invalid maxmemory value")
        case Some(n) => Resize(Wrap(n.value))
    else if cmd == "PSYNC" then
      if size != 2 then WrongArity("psync")
      else
        match ScanUnsigned(Arg(request, 1))
        case None => Reject("ERR invalid offset")
        case Some(n) => Psync(n.value)
    else Reject("ERR unknown command '" + cmd + "'")
  }

  /** The request is turned away by the read-only gate. */
  predicate Gated(request: Value, readOnly: bool, bypass: bool) {
    readOnly && !bypass && CommandWord(request).Some? && IsMutating(CommandWord(request).value)
  }

  function PexpireatRequest(key: string, at: nat): Value {
    Array([BulkString("PEXPIREAT"), BulkString(key), BulkString(Print(at))])
  }

  /** What the log receives for a request that asks for `c` and was answered `r` at time `now`: an absolute
      deadline for EXPIRE and PEXPIRE, the request itself otherwise. */
  function LogEntry(request: Value, c: Command, r: Reply, now: nat): Option<Value> {
    match LoggedAs(c, r, now)
    case None => None
    case Some(l) => if c.Expire? then Some(PexpireatRequest(c.key, c.Deadline(now))) else Some(request)
  }

  /** The response to a command: `None` for the answer stands for a refusal for lack of memory. */
  function Respond(c: Command, seconds: bool, r: Option<Reply>): Value {
    match r
    case None => if c.Set? then Error("OOM command not allowed when used memory > 'maxmemory'") else Error(NOT_A_NUMBER)
    case Some(Stored) => SimpleString("OK")
    case Some(Text(t)) => (match t case None => Null case Some(s) => BulkString(s))
    case Some(Number(n)) => Integer(if seconds && n >= 0 then n / 1000 else n)
    case Some(NotANumber) => Error(NOT_A_NUMBER)
  }

  // ---------- laws ----------

  /** The read-only gate covers every command that logs: whatever is asked of a replica by a client, either
      the gate turns it away or nothing is logged. */
  lemma GateCoversLog(request: Value, r: Reply, now: nat)
    requires Decode(request).Perform? && LogEntry(request, Decode(request).command, r, now).Some?
    ensures Gated(request, true, false)
  {
    assert CommandWord(request).Some?;
  }

  lemma {:induction false} PrintIsShort(n: nat)
    ensures |PrintNat(n)| <= n / 4 + 1
  {
    if n >= 10 {
      PrintIsShort(n / 10);
    }
  }

  lemma PexpireatIsWireSafe(key: string, at: nat)
    requires |key| <= INT64_MAX && at <= UINT64_MAX
    ensures WireSafe(PexpireatRequest(key, at))
  {
    PrintIsShort(at);
    var items := PexpireatRequest(key, at).items;
    assert WireSafe(items[0]) && WireSafe(items[1]) && WireSafe(items[2]);
  }

  lemma ArgIsShort(request: Value, i: nat)
    requires WireSafe(request)
    ensures |Arg(request, i)| <= INT64_MAX
  {
    if request.Array? && i < |request.items| {
      assert WireSafe(request.items[i]);
    }
  }

  lemma ExpireKey(request: Value)
    requires Decode(request).Perform? && Decode(request).command.Expire?
    ensures Decode(request).command.key == Arg(request, 1)
  {
  }

  /** What is logged of an accepted request can be read back. */
  lemma LogEntryIsWireSafe(request: Value, r: Reply, now: nat)
    requires WireSafe(request) && Decode(request).Perform?
    requires LogEntry(request, Decode(request).command, r, now).Some?
    ensures WireSafe(LogEntry(request, Decode(request).command, r, now).value)
  {
    var c := Decode(request).command;
    if c.Expire? {
      ExpireKey(request);
      ArgIsShort(request, 1);
      PexpireatIsWireSafe(c.key, c.Deadline(now));
    }
  }

  lemma ToUpperOfPexpireat()
    ensures ToUpper("PEXPIREAT") == "PEXPIREAT"
  {
  }

  /** Reading a logged deadline back gives that deadline. */
  lemma PexpireatDecodes(key: string, at: nat)
    requires at <= UINT64_MAX
    ensures Decode(PexpireatRequest(key, at)) == Perform(ExpireAt(key, at), false)
  {
    ToUpperOfPexpireat();
    ScanPrintedNat(at, "", UINT64_MAX);
    assert PrintNat(at) + "" == PrintNat(at);
  }

  /** Decoding what was logged of a request gives the command that the log stands for. */
  lemma LogEntryDecodes(request: Value, r: Reply, now: nat)
    requires Decode(request).Perform?
    requires LogEntry(request, Decode(request).command, r, now).Some?
    ensures var c := Decode(request).command;
            Decode(LogEntry(request, c, r, now).value) == Perform(LoggedAs(c, r, now).value, false)
  {
    var c := Decode(request).command;
    if c.Expire? {
      PexpireatDecodes(c.key, c.Deadline(now));
    }
  }
}
