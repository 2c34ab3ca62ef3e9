/** Requests as clients write them: which request asks for what, which are turned away by a replica, and what is
    responded. */
module Requests {
  import opened Machine
  import opened Decimal
  import opened Resp
  import opened Keyspace
  import opened ClientLaws
  import opened Dispatcher

  predicate Capital(name: string) {
    forall i :: 0 <= i < |name| ==> 'A' <= name[i] <= 'Z'
  }

  /** The letters of the name, which are capitals, each of them in upper or lower case. */
  predicate SameLetters(word: string, name: string) {
    && |word| == |name| && Capital(name)
    && forall i :: 0 <= i < |name| ==> word[i] == name[i] || word[i] as int == name[i] as int + 32
  }

  /** The request is an array whose first item is the word. */
  predicate Named(request: Value, name: string) {
    && request.Array? && request.items != [] && (request.items[0].BulkString? || request.items[0].SimpleString?)
    && SameLetters(request.items[0].text, name)
  }

  /** It has `n` arguments, the word not among them. */
  predicate Has(request: Value, n: nat) {
    request.Array? && |request.items| == n + 1
  }

  /** Argument `i` is this text; what is no text counts as empty. */
  predicate Says(request: Value, i: nat, text: string) {
    && request.Array? && 0 < i < |request.items|
    && match request.items[i]
       case BulkString(s) => s == text
       case SimpleString(s) => s == text
       case Error(s) => s == text
       case _ => text == ""
  }

  /** The number that argument `i` begins with. */
  function NumberAt(request: Value, i: nat): Option<int> {
    if !request.Array? || i >= |request.items| || ScanSigned(StringValue(request.items[i])).None? then None
    else Some(ScanSigned(StringValue(request.items[i])).value.value)
  }

  /** The same where no sign is allowed. */
  function UnsignedAt(request: Value, i: nat): Option<int> {
    if !request.Array? || i >= |request.items| || ScanUnsigned(StringValue(request.items[i])).None? then None
    else Some(ScanUnsigned(StringValue(request.items[i])).value.value)
  }

  /** The request asks for the command; `seconds` when the answer is to be in seconds. */
  predicate AsksFor(request: Value, c: Command, seconds: bool) {
    match c
    case Set(k, v) => Named(request, "SET") && Says(request, 1, k) && Says(request, 2, v) && !seconds
    case Get(k) => Named(request, "GET") && Has(request, 1) && Says(request, 1, k) && !seconds
    case Del(keys) => Named(request, "DEL") && Lists(request, keys) && !seconds
    case Exists(keys) => Named(request, "EXISTS") && Lists(request, keys) && !seconds
    case Add(k, delta) =>
      && ((delta == 1 && Named(request, "INCR")) || (delta == -1 && Named(request, "DECR")))
      && Has(request, 1) && Says(request, 1, k) && !seconds
    case Expire(k, offset) =>
      && Has(request, 2) && Says(request, 1, k) && !seconds
      && NumberAt(request, 2).Some?
      && ((Named(request, "PEXPIRE") && offset == NumberAt(request, 2).value) ||
          (Named(request, "EXPIRE") && offset == Signed(1000 * NumberAt(request, 2).value)))
    case ExpireAt(k, at) =>
      && Named(request, "PEXPIREAT") && Has(request, 2) && Says(request, 1, k) && !seconds
      && UnsignedAt(request, 2) == Some(at)
    case Pttl(k) => Named(request, if seconds then "TTL" else "PTTL") && Has(request, 1) && Says(request, 1, k)
    case Persist(k) => Named(request, "PERSIST") && Has(request, 1) && Says(request, 1, k) && !seconds
  }

  /** The arguments are these keys, at least one. */
  predicate Lists(request: Value, keys: seq<string>) {
    keys != [] && Has(request, |keys|) && forall i :: 0 <= i < |keys| ==> Says(request, i + 1, keys[i])
  }

  // ---------- words and arguments ----------

  lemma NameIsUpper(word: string, name: string)
    requires SameLetters(word, name)
    ensures ToUpper(word) == name
  {
    forall i | 0 <= i < |name| ensures ToUpper(word)[i] == name[i] {
    }
  }

  lemma UpperIsSameLetters(word: string, name: string)
    requires Capital(name)
    ensures ToUpper(word) == name <==> SameLetters(word, name)
  {
    if SameLetters(word, name) {
      NameIsUpper(word, name);
    }
    if ToUpper(word) == name {
      forall i | 0 <= i < |name| ensures word[i] == name[i] || word[i] as int == name[i] as int + 32 {
        assert name[i] == ToUpper(word)[i];
      }
    }
  }

  /** The word of a request is this name exactly when the request is named so. */
  lemma WordIsName(request: Value, name: string)
    requires Capital(name)
    ensures CommandWord(request) == Some(name) <==> Named(request, name)
  {
    if request.Array? && request.items != [] && (request.items[0].BulkString? || request.items[0].SimpleString?) {
      UpperIsSameLetters(request.items[0].text, name);
    }
  }

  lemma ArgIsSaid(request: Value, i: nat, text: string)
    requires request.Array? && 0 < i < |request.items|
    ensures Says(request, i, text) <==> Arg(request, i) == text
  {
  }

  lemma ArgsAreListed(request: Value, keys: seq<string>)
    requires request.Array? && request.items != []
    ensures Lists(request, keys) <==> |request.items| >= 2 && Args(request) == keys
  {
    forall i | 0 < i < |request.items| ensures Says(request, i, StringValue(request.items[i])) {
    }
    if Lists(request, keys) {
      forall i | 0 <= i < |keys| ensures Args(request)[i] == keys[i] {
        assert Says(request, i + 1, keys[i]);
        ArgIsSaid(request, i + 1, keys[i]);
      }
    }
    if |request.items| >= 2 && Args(request) == keys {
      forall i | 0 <= i < |keys| ensures Says(request, i + 1, keys[i]) {
        assert Args(request)[i] == keys[i];
      }
    }
  }

  // ---------- each command ----------

  lemma SetWord(cmd: string, request: Value, size: nat)
    requires cmd == "SET" && size >= 3
    ensures DecodeWord(cmd, request, size) == Perform(Set(Arg(request, 1), Arg(request, 2)), false)
  {
  }

  lemma OnlySet(cmd: string, request: Value, size: nat)
    requires DecodeWord(cmd, request, size).Perform? && DecodeWord(cmd, request, size).command.Set?
    ensures cmd == "SET" && size >= 3
    ensures DecodeWord(cmd, request, size) == Perform(Set(Arg(request, 1), Arg(request, 2)), false)
  {
  }

  lemma SetDecodes(request: Value, k: string, v: string)
    requires AsksFor(request, Set(k, v), false)
    ensures Decode(request) == Perform(Set(k, v), false)
  {
    WordIsName(request, "SET");
    SetWord("SET", request, |request.items|);
    ArgIsSaid(request, 1, k);
    ArgIsSaid(request, 2, v);
  }

  lemma SetIsAsked(request: Value, k: string, v: string, seconds: bool)
    requires Decode(request) == Perform(Set(k, v), seconds)
    ensures AsksFor(request, Set(k, v), seconds)
  {
    OnlySet(CommandWord(request).value, request, |request.items|);
    WordIsName(request, "SET");
    ArgIsSaid(request, 1, k);
    ArgIsSaid(request, 2, v);
  }

  lemma GetWord(cmd: string, request: Value, size: nat)
    requires cmd == "GET" && size == 2
    ensures DecodeWord(cmd, request, size) == Perform(Get(Arg(request, 1)), false)
  {
  }

  lemma OnlyGet(cmd: string, request: Value, size: nat)
    requires DecodeWord(cmd, request, size).Perform? && DecodeWord(cmd, request, size).command.Get?
    ensures cmd == "GET" && size == 2 && DecodeWord(cmd, request, size) == Perform(Get(Arg(request, 1)), false)
  {
  }

  lemma GetDecodes(request: Value, k: string)
    requires AsksFor(request, Get(k), false)
    ensures Decode(request) == Perform(Get(k), false)
  {
    WordIsName(request, "GET");
    GetWord("GET", request, |request.items|);
    ArgIsSaid(request, 1, k);
  }

  lemma GetIsAsked(request: Value, k: string, seconds: bool)
    requires Decode(request) == Perform(Get(k), seconds)
    ensures AsksFor(request, Get(k), seconds)
  {
    OnlyGet(CommandWord(request).value, request, |request.items|);
    WordIsName(request, "GET");
    ArgIsSaid(request, 1, k);
  }

  lemma DelWord(cmd: string, request: Value, size: nat)
    requires cmd == "DEL" && size >= 2
    ensures DecodeWord(cmd, request, size) == Perform(Del(Args(request)), false)
  {
  }

  lemma OnlyDel(cmd: string, request: Value, size: nat)
    requires DecodeWord(cmd, request, size).Perform? && DecodeWord(cmd, request, size).command.Del?
    ensures cmd == "DEL" && size >= 2 && DecodeWord(cmd, request, size) == Perform(Del(Args(request)), false)
  {
  }

  lemma DelDecodes(request: Value, keys: seq<string>)
    requires AsksFor(request, Del(keys), false)
    ensures Decode(request) == Perform(Del(keys), false)
  {
    WordIsName(request, "DEL");
    DelWord("DEL", request, |request.items|);
    ArgsAreListed(request, keys);
  }

  lemma DelIsAsked(request: Value, keys: seq<string>, seconds: bool)
    requires Decode(request) == Perform(Del(keys), seconds)
    ensures AsksFor(request, Del(keys), seconds)
  {
    OnlyDel(CommandWord(request).value, request, |request.items|);
    WordIsName(request, "DEL");
    ArgsAreListed(request, keys);
  }

  lemma ExistsWord(cmd: string, request: Value, size: nat)
    requires cmd == "EXISTS" && size >= 2
    ensures DecodeWord(cmd, request, size) == Perform(Exists(Args(request)), false)
  {
  }

  lemma OnlyExists(cmd: string, request: Value, size: nat)
    requires DecodeWord(cmd, request, size).Perform? && DecodeWord(cmd, request, size).command.Exists?
    ensures cmd == "EXISTS" && size >= 2 && DecodeWord(cmd, request, size) == Perform(Exists(Args(request)), false)
  {
  }

  lemma ExistsDecodes(request: Value, keys: seq<string>)
    requires AsksFor(request, Exists(keys), false)
    ensures Decode(request) == Perform(Exists(keys), false)
  {
    WordIsName(request, "EXISTS");
    ExistsWord("EXISTS", request, |request.items|);
    ArgsAreListed(request, keys);
  }

  lemma ExistsIsAsked(request: Value, keys: seq<string>, seconds: bool)
    requires Decode(request) == Perform(Exists(keys), seconds)
    ensures AsksFor(request, Exists(keys), seconds)
  {
    OnlyExists(CommandWord(request).value, request, |request.items|);
    WordIsName(request, "EXISTS");
    ArgsAreListed(request, keys);
  }

  lemma PersistWord(cmd: string, request: Value, size: nat)
    requires cmd == "PERSIST" && size == 2
    ensures DecodeWord(cmd, request, size) == Perform(Persist(Arg(request, 1)), false)
  {
  }

  lemma OnlyPersist(cmd: string, request: Value, size: nat)
    requires DecodeWord(cmd, request, size).Perform? && DecodeWord(cmd, request, size).command.Persist?
    ensures cmd == "PERSIST" && size == 2 && DecodeWord(cmd, request, size) == Perform(Persist(Arg(request, 1)), false)
  {
  }

  lemma PersistDecodes(request: Value, k: string)
    requires AsksFor(request, Persist(k), false)
    ensures Decode(request) == Perform(Persist(k), false)
  {
    WordIsName(request, "PERSIST");
    PersistWord("PERSIST", request, |request.items|);
    ArgIsSaid(request, 1, k);
  }

  lemma PersistIsAsked(request: Value, k: string, seconds: bool)
    requires Decode(request) == Perform(Persist(k), seconds)
    ensures AsksFor(request, Persist(k), seconds)
  {
    OnlyPersist(CommandWord(request).value, request, |request.items|);
    WordIsName(request, "PERSIST");
    ArgIsSaid(request, 1, k);
  }

  lemma AddWord(cmd: string, request: Value, size: nat)
    requires (cmd == "INCR" || cmd == "DECR") && size == 2
    ensures DecodeWord(cmd, request, size) == Perform(Add(Arg(request, 1), if cmd == "INCR" then 1 else -1), false)
  {
  }

  lemma OnlyAdd(cmd: string, request: Value, size: nat)
    requires DecodeWord(cmd, request, size).Perform? && DecodeWord(cmd, request, size).command.Add?
    ensures (cmd == "INCR" || cmd == "DECR") && size == 2
    ensures DecodeWord(cmd, request, size) == Perform(Add(Arg(request, 1), if cmd == "INCR" then 1 else -1), false)
  {
  }

  lemma AddDecodes(request: Value, k: string, delta: int)
    requires AsksFor(request, Add(k, delta), false)
    ensures Decode(request) == Perform(Add(k, delta), false)
  {
    var word := if delta == 1 then "INCR" else "DECR";
    WordIsName(request, word);
    AddWord(word, request, |request.items|);
    ArgIsSaid(request, 1, k);
  }

  lemma AddIsAsked(request: Value, k: string, delta: int, seconds: bool)
    requires Decode(request) == Perform(Add(k, delta), seconds)
    ensures AsksFor(request, Add(k, delta), seconds)
  {
    var word := CommandWord(request).value;
    OnlyAdd(word, request, |request.items|);
    WordIsName(request, word);
    ArgIsSaid(request, 1, k);
  }

  lemma ExpireWord(cmd: string, request: Value, size: nat)
    requires (cmd == "EXPIRE" || cmd == "PEXPIRE") && size == 3 && ScanSigned(Arg(request, 2)).Some?
    ensures var n := ScanSigned(Arg(request, 2)).value.value;
            DecodeWord(cmd, request, size) ==
            Perform(Expire(Arg(request, 1), if cmd == "EXPIRE" then Int64(n * 1000) else n), false)
  {
  }

  lemma OnlyExpire(cmd: string, request: Value, size: nat)
    requires DecodeWord(cmd, request, size).Perform? && DecodeWord(cmd, request, size).command.Expire?
    ensures (cmd == "EXPIRE" || cmd == "PEXPIRE") && size == 3 && ScanSigned(Arg(request, 2)).Some?
  {
  }

  lemma ExpireTexts(request: Value, k: string, offset: int) returns (word: string)
    requires AsksFor(request, Expire(k, offset), false)
    ensures (word == "EXPIRE" || word == "PEXPIRE") && CommandWord(request) == Some(word)
    ensures |request.items| == 3 && ScanSigned(Arg(request, 2)).Some? && Arg(request, 1) == k
    ensures var n := ScanSigned(Arg(request, 2)).value.value; offset == if word == "EXPIRE" then Int64(n * 1000) else n
  {
    WordIsName(request, "EXPIRE");
    WordIsName(request, "PEXPIRE");
    word := if Named(request, "EXPIRE") then "EXPIRE" else "PEXPIRE";
    Int64IsSigned(1000 * NumberAt(request, 2).value);
    ArgIsSaid(request, 1, k);
  }

  lemma ExpireDecodes(request: Value, k: string, offset: int)
    requires AsksFor(request, Expire(k, offset), false)
    ensures Decode(request) == Perform(Expire(k, offset), false)
  {
    var word := ExpireTexts(request, k, offset);
    ExpireWord(word, request, |request.items|);
  }

  lemma ExpireTextsAsk(request: Value, k: string, offset: int, word: string)
    requires (word == "EXPIRE" || word == "PEXPIRE") && CommandWord(request) == Some(word)
    requires |request.items| == 3 && ScanSigned(Arg(request, 2)).Some? && Arg(request, 1) == k
    requires var n := ScanSigned(Arg(request, 2)).value.value; offset == if word == "EXPIRE" then Int64(n * 1000) else n
    ensures AsksFor(request, Expire(k, offset), false)
  {
    WordIsName(request, word);
    Int64IsSigned(1000 * NumberAt(request, 2).value);
    ArgIsSaid(request, 1, k);
  }

  lemma ExpireIsAsked(request: Value, k: string, offset: int, seconds: bool)
    requires Decode(request) == Perform(Expire(k, offset), seconds)
    ensures AsksFor(request, Expire(k, offset), seconds)
  {
    var word := CommandWord(request).value;
    OnlyExpire(word, request, |request.items|);
    ExpireWord(word, request, |request.items|);
    ExpireTextsAsk(request, k, offset, word);
  }

  lemma ExpireAtWord(cmd: string, request: Value, size: nat)
    requires cmd == "PEXPIREAT" && size == 3 && ScanUnsigned(Arg(request, 2)).Some?
    ensures DecodeWord(cmd, request, size) ==
            Perform(ExpireAt(Arg(request, 1), ScanUnsigned(Arg(request, 2)).value.value), false)
  {
  }

  lemma OnlyExpireAt(cmd: string, request: Value, size: nat)
    requires DecodeWord(cmd, request, size).Perform? && DecodeWord(cmd, request, size).command.ExpireAt?
    ensures cmd == "PEXPIREAT" && size == 3 && ScanUnsigned(Arg(request, 2)).Some?
  {
  }

  lemma ExpireAtDecodes(request: Value, k: string, at: nat)
    requires AsksFor(request, ExpireAt(k, at), false)
    ensures Decode(request) == Perform(ExpireAt(k, at), false)
  {
    WordIsName(request, "PEXPIREAT");
    ExpireAtWord("PEXPIREAT", request, |request.items|);
    ArgIsSaid(request, 1, k);
  }

  lemma ExpireAtIsAsked(request: Value, k: string, at: nat, seconds: bool)
    requires Decode(request) == Perform(ExpireAt(k, at), seconds)
    ensures AsksFor(request, ExpireAt(k, at), seconds)
  {
    OnlyExpireAt(CommandWord(request).value, request, |request.items|);
    ExpireAtWord("PEXPIREAT", request, |request.items|);
    WordIsName(request, "PEXPIREAT");
    ArgIsSaid(request, 1, k);
  }

  lemma PttlWord(cmd: string, request: Value, size: nat)
    requires (cmd == "TTL" || cmd == "PTTL") && size == 2
    ensures DecodeWord(cmd, request, size) == Perform(Pttl(Arg(request, 1)), cmd == "TTL")
  {
  }

  lemma OnlyPttl(cmd: string, request: Value, size: nat)
    requires DecodeWord(cmd, request, size).Perform? && DecodeWord(cmd, request, size).command.Pttl?
    ensures (cmd == "TTL" || cmd == "PTTL") && size == 2
  {
  }

  lemma PttlDecodes(request: Value, k: string, seconds: bool)
    requires AsksFor(request, Pttl(k), seconds)
    ensures Decode(request) == Perform(Pttl(k), seconds)
  {
    var word := if seconds then "TTL" else "PTTL";
    WordIsName(request, word);
    PttlWord(word, request, |request.items|);
    ArgIsSaid(request, 1, k);
  }

  lemma PttlIsAsked(request: Value, k: string, seconds: bool)
    requires Decode(request) == Perform(Pttl(k), seconds)
    ensures AsksFor(request, Pttl(k), seconds)
  {
    var word := CommandWord(request).value;
    OnlyPttl(word, request, |request.items|);
    PttlWord(word, request, |request.items|);
    WordIsName(request, word);
    ArgIsSaid(request, 1, k);
  }

  lemma AskedDecodes(request: Value, c: Command, seconds: bool)
    requires AsksFor(request, c, seconds)
    ensures Decode(request) == Perform(c, seconds)
  {
    match c
    case Set(k, v) => SetDecodes(request, k, v);
    case Get(k) => GetDecodes(request, k);
    case Del(keys) => DelDecodes(request, keys);
    case Exists(keys) => ExistsDecodes(request, keys);
    case Add(k, delta) => AddDecodes(request, k, delta);
    case Expire(k, offset) => ExpireDecodes(request, k, offset);
    case ExpireAt(k, at) => ExpireAtDecodes(request, k, at);
    case Pttl(k) => PttlDecodes(request, k, seconds);
    case Persist(k) => PersistDecodes(request, k);
  }

  lemma DecodedIsAsked(request: Value, c: Command, seconds: bool)
    requires Decode(request) == Perform(c, seconds)
    ensures AsksFor(request, c, seconds)
  {
    match c
    case Set(k, v) => SetIsAsked(request, k, v, seconds);
    case Get(k) => GetIsAsked(request, k, seconds);
    case Del(keys) => DelIsAsked(request, keys, seconds);
    case Exists(keys) => ExistsIsAsked(request, keys, seconds);
    case Add(k, delta) => AddIsAsked(request, k, delta, seconds);
    case Expire(k, offset) => ExpireIsAsked(request, k, offset, seconds);
    case ExpireAt(k, at) => ExpireAtIsAsked(request, k, at, seconds);
    case Pttl(k) => PttlIsAsked(request, k, seconds);
    case Persist(k) => PersistIsAsked(request, k, seconds);
  }

  /** A request is performed as this command if and only if it asks for it. */
  lemma DecodesIffAsked(request: Value, c: Command, seconds: bool)
    ensures Decode(request) == Perform(c, seconds) <==> AsksFor(request, c, seconds)
  {
    if AsksFor(request, c, seconds) {
      AskedDecodes(request, c, seconds);
    }
    if Decode(request) == Perform(c, seconds) {
      DecodedIsAsked(request, c, seconds);
    }
  }

  // ---------- the other requests ----------

  /** What the requests say that do not reach the key space. */
  predicate Tells(request: Value, d: Decoded) {
    match d
    case Resize(bytes) =>
      && Named(request, "CONFIG") && Has(request, 3) && SameLetters(StringValue(request.items[1]), "SET")
      && SameLetters(StringValue(request.items[2]), "MAXMEMORY")
      && NumberAt(request, 3).Some? && bytes == NumberAt(request, 3).value % 0x1_0000_0000_0000_0000
    case Psync(offset) => Named(request, "PSYNC") && Has(request, 1) && UnsignedAt(request, 1) == Some(offset)
    case Say(text) =>
      || (Named(request, "PING") && Has(request, 0) && text == SimpleString("PONG"))
      || ((Named(request, "PING") || Named(request, "ECHO")) && Has(request, 1) && text.BulkString?
          && Says(request, 1, text.text))
    case Quit => Named(request, "QUIT") && Has(request, 0)
    case Info => Named(request, "INFO") && (Has(request, 0) || Has(request, 1))
    case _ => false
  }

  lemma ResizeWord(cmd: string, request: Value, size: nat)
    requires cmd == "CONFIG" && size == 4
    requires ToUpper(Arg(request, 1)) == "SET" && ToUpper(Arg(request, 2)) == "MAXMEMORY"
    requires ScanSigned(Arg(request, 3)).Some?
    ensures DecodeWord(cmd, request, size) == Resize(Wrap(ScanSigned(Arg(request, 3)).value.value))
  {
  }

  lemma OnlyResize(cmd: string, request: Value, size: nat)
    requires DecodeWord(cmd, request, size).Resize?
    ensures cmd == "CONFIG" && size == 4 && ToUpper(Arg(request, 1)) == "SET" && ToUpper(Arg(request, 2)) == "MAXMEMORY"
    ensures ScanSigned(Arg(request, 3)).Some?
  {
  }

  lemma ResizeTexts(request: Value, bytes: nat)
    requires Tells(request, Resize(bytes))
    ensures CommandWord(request) == Some("CONFIG")
    ensures ToUpper(Arg(request, 1)) == "SET" && ToUpper(Arg(request, 2)) == "MAXMEMORY"
    ensures ScanSigned(Arg(request, 3)).Some? && Wrap(ScanSigned(Arg(request, 3)).value.value) == bytes
  {
    NameIsUpper(request.items[0].text, "CONFIG");
    NameIsUpper(Arg(request, 1), "SET");
    NameIsUpper(Arg(request, 2), "MAXMEMORY");
    WrapIsModulo(NumberAt(request, 3).value);
  }

  lemma ResizeDecodes(request: Value, bytes: nat)
    requires Tells(request, Resize(bytes))
    ensures Decode(request) == Resize(bytes)
  {
    ResizeTexts(request, bytes);
    ResizeWord("CONFIG", request, |request.items|);
  }

  lemma ResizeTextsTell(request: Value, bytes: nat)
    requires CommandWord(request) == Some("CONFIG") && |request.items| == 4
    requires ToUpper(Arg(request, 1)) == "SET" && ToUpper(Arg(request, 2)) == "MAXMEMORY"
    requires ScanSigned(Arg(request, 3)).Some? && Wrap(ScanSigned(Arg(request, 3)).value.value) == bytes
    ensures Tells(request, Resize(bytes))
  {
    WrapIsModulo(NumberAt(request, 3).value);
    assert Named(request, "CONFIG") by { WordIsName(request, "CONFIG"); }
    assert SameLetters(Arg(request, 1), "SET") by { UpperIsSameLetters(Arg(request, 1), "SET"); }
    assert SameLetters(Arg(request, 2), "MAXMEMORY") by { UpperIsSameLetters(Arg(request, 2), "MAXMEMORY"); }
  }

  lemma ResizeIsTold(request: Value, bytes: nat)
    requires Decode(request) == Resize(bytes)
    ensures Tells(request, Resize(bytes))
  {
    OnlyResize(CommandWord(request).value, request, |request.items|);
    ResizeWord("CONFIG", request, |request.items|);
    ResizeTextsTell(request, bytes);
  }

  lemma PsyncWord(cmd: string, request: Value, size: nat)
    requires cmd == "PSYNC" && size == 2 && ScanUnsigned(Arg(request, 1)).Some?
    ensures DecodeWord(cmd, request, size) == Psync(ScanUnsigned(Arg(request, 1)).value.value)
  {
  }

  lemma OnlyPsync(cmd: string, request: Value, size: nat)
    requires DecodeWord(cmd, request, size).Psync?
    ensures cmd == "PSYNC" && size == 2 && ScanUnsigned(Arg(request, 1)).Some?
  {
  }

  lemma PsyncIsExact(request: Value, offset: nat)
    ensures Decode(request) == Psync(offset) <==> Tells(request, Psync(offset))
  {
    WordIsName(request, "PSYNC");
    if Tells(request, Psync(offset)) {
      PsyncWord("PSYNC", request, |request.items|);
    } else if Decode(request) == Psync(offset) {
      OnlyPsync(CommandWord(request).value, request, |request.items|);
      PsyncWord("PSYNC", request, |request.items|);
    }
  }

  lemma SayWord(cmd: string, request: Value, size: nat)
    requires cmd == "PING" || cmd == "ECHO"
    ensures size == 2 ==> DecodeWord(cmd, request, size) == Say(BulkString(Arg(request, 1)))
    ensures size == 1 && cmd == "PING" ==> DecodeWord(cmd, request, size) == Say(SimpleString("PONG"))
  {
  }

  lemma OnlySay(cmd: string, request: Value, size: nat)
    requires DecodeWord(cmd, request, size).Say?
    ensures (cmd == "PING" && size < 2) || ((cmd == "PING" || cmd == "ECHO") && size == 2)
  {
  }

  lemma SayDecodes(request: Value, text: Value)
    requires Tells(request, Say(text))
    ensures Decode(request) == Say(text)
  {
    WordIsName(request, "PING");
    WordIsName(request, "ECHO");
    SayWord(if Named(request, "PING") then "PING" else "ECHO", request, |request.items|);
  }

  lemma SayIsTold(request: Value, text: Value)
    requires Decode(request) == Say(text)
    ensures Tells(request, Say(text))
  {
    var word := CommandWord(request).value;
    OnlySay(word, request, |request.items|);
    SayWord(word, request, |request.items|);
    WordIsName(request, word);
  }

  lemma QuitWord(cmd: string, request: Value, size: nat)
    ensures cmd == "QUIT" && size == 1 ==> DecodeWord(cmd, request, size) == Quit
    ensures cmd == "INFO" && size <= 2 ==> DecodeWord(cmd, request, size) == Info
  {
  }

  lemma OnlyQuit(cmd: string, request: Value, size: nat)
    ensures DecodeWord(cmd, request, size) == Quit ==> cmd == "QUIT" && size == 1
    ensures DecodeWord(cmd, request, size) == Info ==> cmd == "INFO" && size <= 2
  {
  }

  lemma QuitIsExact(request: Value)
    ensures Decode(request) == Quit <==> Tells(request, Quit)
  {
    WordIsName(request, "QUIT");
    if CommandWord(request).Some? {
      QuitWord(CommandWord(request).value, request, |request.items|);
      OnlyQuit(CommandWord(request).value, request, |request.items|);
    }
  }

  lemma InfoIsExact(request: Value)
    ensures Decode(request) == Info <==> Tells(request, Info)
  {
    WordIsName(request, "INFO");
    if CommandWord(request).Some? {
      QuitWord(CommandWord(request).value, request, |request.items|);
      OnlyQuit(CommandWord(request).value, request, |request.items|);
    }
  }

  /** CONFIG SET MAXMEMORY, PSYNC, PING, ECHO, QUIT and INFO are understood if and only if they are said. */
  lemma DecodesIffTold(request: Value, d: Decoded)
    requires !d.Perform? && !d.Reject?
    ensures Decode(request) == d <==> Tells(request, d)
  {
    match d
    case Resize(bytes) =>
      if Tells(request, d) {
        ResizeDecodes(request, bytes);
      } else if Decode(request) == d {
        ResizeIsTold(request, bytes);
      }
    case Psync(offset) => PsyncIsExact(request, offset);
    case Say(text) =>
      if Tells(request, d) {
        SayDecodes(request, text);
      } else if Decode(request) == d {
        SayIsTold(request, text);
      }
    case Quit => QuitIsExact(request);
    case Info => InfoIsExact(request);
  }

  // ---------- the gate ----------

  /** The commands that may change something. */
  predicate Changes(c: Command) {
    c.Set? || c.Del? || c.Add? || c.Expire? || c.ExpireAt? || c.Persist?
  }

  lemma GateNames(request: Value)
    ensures Gated(request, true, false) <==>
            || Named(request, "SET") || Named(request, "DEL") || Named(request, "INCR") || Named(request, "DECR")
            || Named(request, "EXPIRE") || Named(request, "PEXPIRE") || Named(request, "PEXPIREAT")
            || Named(request, "PERSIST")
  {
    WordIsName(request, "SET");
    WordIsName(request, "DEL");
    WordIsName(request, "INCR");
    WordIsName(request, "DECR");
    WordIsName(request, "EXPIRE");
    WordIsName(request, "PEXPIRE");
    WordIsName(request, "PEXPIREAT");
    WordIsName(request, "PERSIST");
  }

  /** Who asks for what changes nothing is let through. */
  lemma ReadsPass(request: Value, name: string)
    requires Named(request, name) && name in {"GET", "EXISTS", "TTL", "PTTL", "PING", "ECHO", "INFO", "PSYNC", "CONFIG"}
    ensures !Gated(request, true, false)
  {
    WordIsName(request, name);
  }

  lemma ChangesAreGated(request: Value, c: Command, seconds: bool)
    requires AsksFor(request, c, seconds) && Changes(c)
    ensures Gated(request, true, false)
  {
    GateNames(request);
  }

  /** A replica turns a client's command away if and only if it may change something, and a primary, or a command that
      comes from a log or a stream, is never turned away. */
  lemma GateIsExact(request: Value, c: Command, seconds: bool, readOnly: bool, bypass: bool)
    requires AsksFor(request, c, seconds)
    ensures Gated(request, readOnly, bypass) <==> readOnly && !bypass && Changes(c)
  {
    if Changes(c) {
      ChangesAreGated(request, c, seconds);
    } else {
      ReadsPass(request, if c.Get? then "GET" else if c.Exists? then "EXISTS" else if seconds then "TTL" else "PTTL");
    }
  }

  // ---------- responses ----------

  /** The bytes of a response. Whole seconds are rounded down. */
  lemma ResponseBytes(c: Command, seconds: bool, r: Reply)
    ensures var bytes := Serialize(Respond(c, seconds, Some(r)));
            match r
            case Stored => bytes == "+OK\r\n"
            case Text(None) => bytes == "$-1\r\n"
            case Text(Some(v)) => bytes == "$" + Print(|v|) + "\r\n" + v + "\r\n"
            case NotANumber => bytes == "-" + "ERR value is not an integer or out of range" + "\r\n"
            case Number(n) =>
              if !seconds || n < 0 then bytes == ":" + Print(n) + "\r\n"
              else exists q :: 1000 * q <= n < 1000 * q + 1000 && bytes == ":" + Print(q) + "\r\n"
  {
    if r.Number? && seconds && r.n >= 0 {
      var q := r.n / 1000;
      assert 1000 * q <= r.n < 1000 * q + 1000;
      assert Respond(c, seconds, Some(r)) == Integer(q);
    }
  }

  /** The bytes of a refusal for lack of memory. */
  lemma RefusalBytes(k: string, v: string)
    ensures Serialize(Respond(Set(k, v), false, None)) ==
            "-" + "OOM command not allowed when used memory > 'maxmemory'" + "\r\n"
  {
  }

  // ---------- writing requests ----------

  /** The numbers in the command can be written down. */
  predicate Askable(c: Command) {
    match c
    case Del(keys) => keys != []
    case Exists(keys) => keys != []
    case Add(_, delta) => delta == 1 || delta == -1
    case Expire(_, offset) => INT64_MIN <= offset <= INT64_MAX
    case ExpireAt(_, at) => at <= UINT64_MAX
    case _ => true
  }

  function Bulks(texts: seq<string>): seq<Value> {
    seq(|texts|, i requires 0 <= i < |texts| => BulkString(texts[i]))
  }

  /** The word and the arguments of a request for the command. */
  function Spelling(c: Command): (string, seq<string>) {
    match c
    case Set(k, v) => ("SET", [k, v])
    case Get(k) => ("GET", [k])
    case Del(keys) => ("DEL", keys)
    case Exists(keys) => ("EXISTS", keys)
    case Add(k, delta) => (if delta == 1 then "INCR" else "DECR", [k])
    case Expire(k, offset) => ("PEXPIRE", [k, Print(offset)])
    case ExpireAt(k, at) => ("PEXPIREAT", [k, Print(at)])
    case Pttl(k) => ("PTTL", [k])
    case Persist(k) => ("PERSIST", [k])
  }

  /** The request for a command, its word in any letter case. */
  function RequestFor(c: Command, word: string): Value {
    Array([BulkString(word)] + Bulks(Spelling(c).1))
  }

  lemma PrintedIsRead(n: int)
    ensures INT64_MIN <= n <= INT64_MAX ==> ScanSigned(Print(n)).Some? && ScanSigned(Print(n)).value.value == n
    ensures 0 <= n <= UINT64_MAX ==> ScanUnsigned(Print(n)).Some? && ScanUnsigned(Print(n)).value.value == n
  {
    assert Print(n) + "" == Print(n);
    if INT64_MIN <= n <= INT64_MAX {
      ScanPrinted(n, "");
    }
    if 0 <= n <= UINT64_MAX {
      ScanPrintedNat(n, "", UINT64_MAX);
    }
  }

  lemma RequestAsks(c: Command, word: string)
    requires Askable(c) && SameLetters(word, Spelling(c).0)
    ensures AsksFor(RequestFor(c, word), c, false)
  {
    var request, args := RequestFor(c, word), Spelling(c).1;
    forall i | 0 <= i < |args| ensures request.items[i + 1] == BulkString(args[i]) {
    }
    if c.Expire? {
      PrintedIsRead(c.offset);
      assert request.items[2] == BulkString(Print(c.offset));
    } else if c.ExpireAt? {
      PrintedIsRead(c.at);
      assert request.items[2] == BulkString(Print(c.at));
    }
    assert args != [] ==> request.items[1] == BulkString(args[0]);
    assert |args| > 1 ==> request.items[2] == BulkString(args[1]);
  }

  /** Writing a request and decoding it gives the command back. */
  lemma RequestRoundTrip(c: Command, word: string)
    requires Askable(c) && SameLetters(word, Spelling(c).0)
    ensures Decode(RequestFor(c, word)) == Perform(c, false)
  {
    RequestAsks(c, word);
    AskedDecodes(RequestFor(c, word), c, false);
  }
}
