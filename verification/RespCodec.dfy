/** The printer and the position-threading parser as the server runs them, proved against module `Resp`. */
module RespCodec {
  import opened Machine
  import opened Decimal
  import opened Resp

  method SerializeValue(v: Value) returns (out: string)
    ensures out == Serialize(v)
    decreases v
  {
    match v
    case SimpleString(s) => out := "+" + s + CRLF;
    case Error(s) => out := "-" + s + CRLF;
    case Integer(n) => out := ":" + Print(n) + CRLF;
    case BulkString(s) => out := "$" + Print(|s|) + CRLF + s + CRLF;
    case Null => out := "$-1\r\n";
    case Array(items) =>
      var header := "*" + Print(|items|) + CRLF;
      out := header;
      for i := 0 to |items|
        invariant out == header + SerializeAll(items[..i])
      {
        var item := SerializeValue(items[i]);
        ItemAdded(header, items, i);
        out := out + item;
      }
      assert items[..|items|] == items;
  }

  lemma ItemAdded(header: string, items: seq<Value>, i: nat)
    requires i < |items|
    ensures header + SerializeAll(items[..i]) + Serialize(items[i]) == header + SerializeAll(items[..i + 1])
  {
    assert items[..i + 1] == items[..i] + [items[i]];
    SerializeAllAppend(items[..i], [items[i]]);
    assert SerializeAll([items[i]]) == Serialize(items[i]) + "" == Serialize(items[i]);
    Associate(header, SerializeAll(items[..i]), Serialize(items[i]));
  }

  /** The line starting at `pos`; the position moves past its CRLF, or stays when there is none. */
  method ReadLine(buffer: string, pos: nat) returns (line: Option<string>, next: nat)
    requires pos <= |buffer|
    ensures line.None? <==> forall j: nat :: pos <= j ==> !CrlfAt(buffer, j)
    ensures line.None? ==> next == pos
    ensures line.Some? ==>
              && pos + 2 <= next <= |buffer| && CrlfAt(buffer, next - 2) && line.value == buffer[pos..next - 2]
              && forall j: nat :: pos <= j < next - 2 ==> !CrlfAt(buffer, j)
  {
    var tail := buffer[pos..];
    assert forall j: nat :: CrlfAt(tail, j) <==> CrlfAt(buffer, pos + j);
    assert forall j: nat :: pos <= j ==> (CrlfAt(buffer, j) <==> CrlfAt(tail, j - pos));
    match FindCrlf(tail)
    case None => line, next := None, pos;
    case Some(e) => line, next := Some(buffer[pos..pos + e]), pos + e + 2;
  }

  /** What parsing at a position means: the frame at the front of the rest of the buffer. */
  function ParseAt(buffer: string, pos: nat): Result {
    if pos <= |buffer| then Parse(buffer[pos..]) else Pending
  }

  /** The value and the position after its frame; on any other outcome the position is the one given.
      `inDomain` is false when a declared length or count below -1 was met. */
  method ParseInternal(buffer: string, pos: nat) returns (value: Option<Value>, next: nat, inDomain: bool)
    ensures value.Some? <==> ParseAt(buffer, pos).Done?
    ensures value.Some? ==> pos < next <= |buffer| && ParseAt(buffer, pos) == Done(value.value, next - pos)
    ensures value.None? ==> next == pos
    ensures inDomain <==> !ParseAt(buffer, pos).OutOfDomain?
    decreases |buffer| - pos, 0
  {
    if pos >= |buffer| {
      return None, pos, true;
    }
    var prefix := buffer[pos];
    var line, body := ReadLine(buffer, pos);
    ghost var s := buffer[pos..];
    assert forall j: nat :: CrlfAt(s, j) <==> CrlfAt(buffer, pos + j);
    if line.None? {
      return None, pos, true;
    }
    ghost var e := body - 2 - pos;
    assert FindCrlf(s) == Some(e) by {
      assert CrlfAt(s, e);
    }
    if line.value == "" {
      return None, pos, true;
    }
    var content := line.value[1..];
    ghost var rest := buffer[body..];
    assert content == s[1..e] && rest == s[e + 2..];
    assert Parse(s) == ParseBody(prefix, content, rest).After(e + 2);
    value, next, inDomain := ParseContent(buffer, prefix, content, body);
    if value.None? {
      next := pos;
    }
  }

  /** The switch on the frame's first byte, `pos` being just after its first line. */
  method ParseContent(buffer: string, prefix: char, content: string, pos: nat)
    returns (value: Option<Value>, next: nat, inDomain: bool)
    requires 0 < pos <= |buffer|
    ensures var r := ParseBody(prefix, content, buffer[pos..]);
            && (value.Some? <==> r.Done?)
            && (value.Some? ==> pos <= next <= |buffer| && r == Done(value.value, next - pos))
            && (inDomain <==> !r.OutOfDomain?)
    decreases |buffer| - pos, 2
  {
    value, next, inDomain := None, pos, true;
    if prefix == '+' {
      value := Some(SimpleString(content));
    } else if prefix == '-' {
      value := Some(Error(content));
    } else if prefix == ':' || prefix == '$' || prefix == '*' {
      var number := ScanSigned(content);
      if number.Some? {
        var n := number.value.value;
        if prefix == ':' {
          value := Some(Integer(n));
        } else if n == -1 {
          value := Some(Null);
        } else if n < -1 {
          inDomain := false;
        } else if prefix == '*' {
          value, next, inDomain := ParseArray(buffer, pos, n);
        } else if pos + n + 2 <= |buffer| {
          assert buffer[pos..][..n] == buffer[pos..pos + n];
          value, next := Some(BulkString(buffer[pos..pos + n])), pos + n + 2;
        }
      }
    }
  }

  /** Items already read, put in front of the outcome for the items still to read. */
  function Prepend(done: seq<Value>, size: nat, r: Result): Result {
    if r.Done? && r.value.Array? then Done(Array(done + r.value.items), size + r.size) else r
  }

  lemma PrependStep(done: seq<Value>, buffer: string, start: nat, pos: nat, next: nat, v: Value, count: nat)
    requires count > 0 && start <= pos < next <= |buffer| && ParseAt(buffer, pos) == Done(v, next - pos)
    ensures Prepend(done, pos - start, ParseItems(buffer[pos..], count)) ==
            Prepend(done + [v], next - start, ParseItems(buffer[next..], count - 1))
  {
    assert buffer[pos..][next - pos..] == buffer[next..];
    var others := ParseItems(buffer[next..], count - 1);
    if others.Done? {
      assert done + ([v] + others.value.items) == done + [v] + others.value.items;
    }
  }

  method ParseArray(buffer: string, pos: nat, count: nat) returns (value: Option<Value>, next: nat, inDomain: bool)
    requires 0 < pos <= |buffer|
    ensures var r := ParseItems(buffer[pos..], count);
            && (value.Some? <==> r.Done?)
            && (value.Some? ==> pos <= next <= |buffer| && r == Done(value.value, next - pos))
            && (inDomain <==> !r.OutOfDomain?)
    decreases |buffer| - pos, 1
  {
    var arr: seq<Value> := [];
    next := pos;
    ghost var whole := ParseItems(buffer[pos..], count);
    ghost var todo := whole;
    var i := 0;
    while i < count
      invariant i <= count && pos <= next <= |buffer|
      invariant todo == ParseItems(buffer[next..], count - i) && whole == Prepend(arr, next - pos, todo)
      decreases count - i
    {
      var elem, after, ok := ParseInternal(buffer, next);
      if elem.None? {
        return None, next, ok;
      }
      PrependStep(arr, buffer, pos, next, after, elem.value, count - i);
      arr, next, i := arr + [elem.value], after, i + 1;
      todo := ParseItems(buffer[next..], count - i);
    }
    assert arr + [] == arr;
    value, inDomain := Some(Array(arr)), true;
  }

  /** `RESPParser::parse`: the frame at the front of a buffer and the bytes it takes. */
  method ParseFrame(buffer: string) returns (value: Option<Value>, consumed: nat, inDomain: bool)
    ensures value.Some? <==> Parse(buffer).Done?
    ensures value.Some? ==> Parse(buffer) == Done(value.value, consumed)
    ensures inDomain <==> !Parse(buffer).OutOfDomain?
  {
    assert buffer[0..] == buffer;
    value, consumed, inDomain := ParseInternal(buffer, 0);
  }
}
