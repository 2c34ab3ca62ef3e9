/** The bytes on the wire: each of the six forms as the protocol writes it, printed and parsed. */
module Wire {
  import opened Machine
  import opened Decimal
  import opened Resp

  /** "+text\r\n" is a simple string. */
  lemma SimpleStringForm(s: string, rest: string)
    ensures Serialize(SimpleString(s)) == "+" + s + "\r\n"
    ensures FindCrlf(s).None? ==> Parse("+" + s + "\r\n" + rest) == Done(SimpleString(s), |s| + 3)
  {
    if FindCrlf(s).None? {
      NoCrlf('+', s);
      ParseFirstLine('+', s, rest);
    }
  }

  /** "-text\r\n" is an error. */
  lemma ErrorForm(s: string, rest: string)
    ensures Serialize(Error(s)) == "-" + s + "\r\n"
    ensures FindCrlf(s).None? ==> Parse("-" + s + "\r\n" + rest) == Done(Error(s), |s| + 3)
  {
    if FindCrlf(s).None? {
      NoCrlf('-', s);
      ParseFirstLine('-', s, rest);
    }
  }

  /** ":number\r\n" is an integer. */
  lemma IntegerForm(n: int, rest: string)
    ensures Serialize(Integer(n)) == ":" + Print(n) + "\r\n"
    ensures INT64_MIN <= n <= INT64_MAX ==> Parse(":" + Print(n) + "\r\n" + rest) == Done(Integer(n), |Print(n)| + 3)
  {
    if INT64_MIN <= n <= INT64_MAX {
      ParseNumberLine(':', n, rest);
    }
  }

  /** "$length\r\nbytes\r\n" is a bulk string, whatever its bytes; the parser does not look at the last two. */
  lemma BulkStringForm(s: string, x: char, y: char, rest: string)
    ensures Serialize(BulkString(s)) == "$" + Print(|s|) + "\r\n" + s + "\r\n"
    ensures |s| <= INT64_MAX ==>
              Parse("$" + Print(|s|) + "\r\n" + (s + [x, y] + rest)) == Done(BulkString(s), |Print(|s|)| + |s| + 5)
  {
    if |s| <= INT64_MAX {
      ParseNumberLine('$', |s|, s + [x, y] + rest);
      assert (s + [x, y] + rest)[..|s|] == s;
    }
  }

  /** "$-1\r\n" is null, and "*-1\r\n" is read as null. */
  lemma NullForm(rest: string)
    ensures Serialize(Null) == "$-1\r\n"
    ensures Parse("$-1\r\n" + rest) == Done(Null, 5) && Parse("*-1\r\n" + rest) == Done(Null, 5)
  {
    assert Print(-1) == "-1";
    ParseNumberLine('$', -1, rest);
    ParseNumberLine('*', -1, rest);
    assert "$-1\r\n" + rest == ['$'] + Print(-1) + CRLF + rest;
    assert "*-1\r\n" + rest == ['*'] + Print(-1) + CRLF + rest;
  }

  /** "*count\r\n" and then the items, one after the other, is an array; read back if its items are. */
  lemma ArrayForm(items: seq<Value>, rest: string)
    ensures Serialize(Array(items)) == "*" + Print(|items|) + "\r\n" + SerializeAll(items)
    ensures WireSafe(Array(items)) ==>
              Parse("*" + Print(|items|) + "\r\n" + SerializeAll(items) + rest) ==
              Done(Array(items), |Print(|items|)| + |SerializeAll(items)| + 3)
  {
    if WireSafe(Array(items)) {
      RoundTrip(Array(items), rest);
    }
  }

  /** The items of an array follow each other without anything in between. */
  lemma ItemsForm(a: seq<Value>, v: Value, b: seq<Value>)
    ensures SerializeAll(a + [v] + b) == SerializeAll(a) + Serialize(v) + SerializeAll(b)
  {
    SerializeAllAppend(a + [v], b);
    SerializeAllAppend(a, [v]);
    assert [v][1..] == [];
    assert Serialize(v) + "" == Serialize(v);
  }

  /** No other first byte begins a frame. */
  lemma NoOtherForm(prefix: char, s: string)
    requires prefix !in {'+', '-', ':', '$', '*'}
    ensures Parse([prefix] + s) == Pending
  {
  }
}
