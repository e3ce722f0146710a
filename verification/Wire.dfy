/**
 The protocol in literal bytes: what the printers and the readers of module `Resp` do, stated
 without them.
 */
module Wire {
  import opened Prelude
  import opened Decimal
  import opened Resp
  import opened RespLaws
  import opened Server

  // ------------------------------------------------------------------------------- printing

  /** Bulk strings one after the other. */
  function BulkBytes(lines: seq<string>): string {
    if lines == [] then ""
    else "$" + PrintNat(|lines[0]|) + "\r\n" + lines[0] + "\r\n" + BulkBytes(lines[1..])
  }

  lemma {:induction false} BulksAreBytes(lines: seq<string>)
    ensures EncodeReplies(Bulks(lines)) == BulkBytes(lines)
  {
    if lines == [] {
      assert EncodeEach(Bulks(lines)) == [];
    } else {
      BulksAreBytes(lines[1..]);
      assert EncodeEach(Bulks(lines))[1..] == EncodeEach(Bulks(lines[1..]));
    }
  }

  /** A command: its number of strings in decimal, then each string behind its size in decimal. */
  lemma CommandBytes(lines: Command)
    ensures EncodeCommand(lines) == "*" + PrintNat(|lines|) + "\r\n" + BulkBytes(lines)
    ensures Weighted(PrintNat(|lines|)) == |lines|
    ensures forall i :: 0 <= i < |lines| ==> Weighted(PrintNat(|lines[i]|)) == |lines[i]|
  {
    BulksAreBytes(lines);
    PrintIsDecimal(|lines|);
    forall i | 0 <= i < |lines| ensures Weighted(PrintNat(|lines[i]|)) == |lines[i]| {
      PrintIsDecimal(|lines[i]|);
    }
  }

  /** Ten bytes are announced as 10. */
  lemma TenBytes(v: string)
    requires |v| == 10
    ensures EncodeCommand([v]) == "*1\r\n$10\r\n" + v + "\r\n"
  {
    CommandBytes([v]);
    assert PrintNat(10) == PrintNat(1) + PrintNat(0) == "10" && PrintNat(1) == "1";
    assert BulkBytes([v][1..]) == "";
    assert BulkBytes([v]) == "$10" + "\r\n" + v + "\r\n";
    assert "*1" + "\r\n" == "*1\r\n" && "*1\r\n" + "$10" + "\r\n" == "*1\r\n$10\r\n";
  }

  /** The replies of the protocol; an array is its length and its elements one after the other. */
  lemma ReplyBytes(text: string, n: nat, items: seq<Reply>)
    ensures EncodeReply(Status(text)) == "+" + text + "\r\n"
    ensures EncodeReply(Error(text)) == "-" + text + "\r\n"
    ensures EncodeReply(Integer(n)) == ":" + PrintNat(n) + "\r\n" && Weighted(PrintNat(n)) == n
    ensures n > 0 ==> EncodeReply(Integer(-(n as int))) == ":-" + PrintNat(n) + "\r\n"
    ensures EncodeReply(Bulk(text)) == "$" + PrintNat(|text|) + "\r\n" + text + "\r\n"
    ensures EncodeReply(NullBulk) == "$-1\r\n"
    ensures EncodeReply(Array(items)) == "*" + PrintNat(|items|) + "\r\n" + EncodeReplies(items)
  {
    PrintIsDecimal(n);
    if n > 0 {
      assert ":" + ("-" + PrintNat(n)) == ":-" + PrintNat(n);
    }
  }

  // ------------------------------------------------------------------------------- reading lines

  /** Without LF there is no line: the whole stream is consumed and the end of it is an exception. */
  lemma NoLine(s: string)
    requires '\n' !in s
    ensures ParseLine(s) == Parsed(Err(ConnectionError), "")
  {}

  /** `recv_single_line_reply_` on the line read. */
  lemma StatusLines(text: string)
    ensures StatusOfLine("+" + text) == Ok(text)
    ensures StatusOfLine("") == Err(ProtocolError("empty single line reply"))
    ensures StatusOfLine("-ERR " + text) == Err(ProtocolError(if text == "" then "unknown error" else text))
    ensures text != "" && text[0] != '+' && !("-ERR " <= text) ==>
              StatusOfLine(text) == Err(ProtocolError("unexpected prefix for status reply"))
  {
    assert ("+" + text)[1..] == text;
    assert ("-ERR " + text)[5..] == text;
  }

  lemma SignedNumeral(text: string)
    requires Numeral(text)
    ensures LexicalCast(text) == Some(Weighted(text)) && LexicalCast("-" + text) == Some(-Weighted(text))
  {
    CastMeans(text);
    CastMeans("-" + text);
    assert ("-" + text)[1..] == text;
  }

  lemma BehindPrefix(prefix: char, text: string)
    ensures ([prefix] + text)[0] == prefix && ([prefix] + text)[1..] == text
  {}

  /** `recv_int_reply_` on the line read. */
  lemma IntegerLine(text: string)
    requires Numeral(text)
    ensures IntOfLine(":" + text) == Ok(Weighted(text)) && IntOfLine(":" + ("-" + text)) == Ok(-Weighted(text))
  {
    SignedNumeral(text);
    BehindPrefix(':', text);
    BehindPrefix(':', "-" + text);
  }

  lemma RefusedIntegerLine(text: string)
    ensures IntOfLine("") == Err(ProtocolError("invalid integer reply; empty"))
    ensures LexicalCast(text).None? ==> IntOfLine(":" + text) == Err(BadLexicalCast)
    ensures text != "" && text[0] != ':' ==>
              IntOfLine(text) == Err(ProtocolError("unexpected prefix for integer reply"))
  {
    BehindPrefix(':', text);
  }

  /** The header of a bulk string or an array. */
  lemma LengthLine(text: string, prefix: char)
    requires Numeral(text)
    ensures LengthOfLine([prefix] + text, prefix) == Ok(Weighted(text))
    ensures LengthOfLine([prefix] + ("-" + text), prefix) == Ok(-Weighted(text))
  {
    SignedNumeral(text);
    BehindPrefix(prefix, text);
    BehindPrefix(prefix, "-" + text);
  }

  lemma RefusedLengthLine(text: string, prefix: char)
    ensures LexicalCast(text).None? ==> LengthOfLine([prefix] + text, prefix) == Err(BadLexicalCast)
    ensures text == "" || text[0] != prefix ==>
              LengthOfLine(text, prefix) == Err(ProtocolError("unexpected prefix for bulk reply"))
  {
    BehindPrefix(prefix, text);
  }

  // ------------------------------------------------------------------------------- reading replies

  lemma SignedLineIsSafe(prefix: char, text: string)
    requires Numeral(text) && prefix != '\n'
    ensures LineSafe([prefix] + ("-" + text)) && LineSafe([prefix] + text)
  {}

  /** A header line with a negative length. */
  lemma NegativeHeader(prefix: char, text: string, t: string)
    requires Numeral(text) && prefix != '\n'
    ensures ParseLength([prefix] + ("-" + text) + "\r\n" + t, prefix) == Parsed(Ok(-Weighted(text)), t)
  {
    SignedLineIsSafe(prefix, text);
    LineRoundTrip([prefix] + ("-" + text), t);
    LengthLine(text, prefix);
  }

  lemma NegativeBulk(s: string, n: int, t: string)
    requires n < 0 && ParseLength(s, '$') == Parsed(Ok(n), t)
    ensures ParseBulk(s) == Parsed(if n == -1 then Ok("**nonexistent-key**")
                                   else if n == -2 then Err(ProtocolError("invalid bulk reply data; empty"))
                                   else Err(LengthError), t)
  {}

  /** Negative lengths of bulk strings: -1 is a missing value, -2 is refused as empty, others cannot be allocated. */
  lemma NegativeBulks(text: string, t: string)
    requires Numeral(text) && Weighted(text) > 0
    ensures var n := Weighted(text);
            ParseBulk("$" + ("-" + text) + "\r\n" + t)
            == Parsed(if n == 1 then Ok("**nonexistent-key**")
                      else if n == 2 then Err(ProtocolError("invalid bulk reply data; empty"))
                      else Err(LengthError), t)
  {
    var s, n := ['$'] + ("-" + text) + "\r\n" + t, Weighted(text);
    NegativeHeader('$', text, t);
    NegativeBulk(s, -n, t);
  }

  lemma NegativeArray(s: string, n: int, t: string, have: nat)
    requires n < 0 && ParseLength(s, '*') == Parsed(Ok(n), t)
    ensures ParseMultiBulk(s, None) == Parsed(if n == -1 then Err(KeyError) else Ok((n, [])), t)
    ensures ParseMultiBulk(s, Some(have))
         == Parsed(if n == -1 then Err(KeyError) else if have + n < 0 then Err(LengthError) else Ok((n, [])), t)
  {}

  /**
   Negative lengths of arrays: -1 throws; others are no elements, but a vector reserves its size and
   the length, which must not be negative together.
   */
  lemma NegativeArrays(text: string, t: string, have: nat)
    requires Numeral(text) && Weighted(text) > 0
    ensures var s, n := "*" + ("-" + text) + "\r\n" + t, Weighted(text);
            && ParseMultiBulk(s, None) == Parsed(if n == 1 then Err(KeyError) else Ok((-n, [])), t)
            && ParseMultiBulk(s, Some(have))
               == Parsed(if n == 1 then Err(KeyError) else if have < n then Err(LengthError) else Ok((-n, [])), t)
  {
    var s, n := ['*'] + ("-" + text) + "\r\n" + t, Weighted(text);
    NegativeHeader('*', text, t);
    NegativeArray(s, -n, t, have);
  }

  /** A bulk string that ends before its announced size and CRLF. */
  lemma ShortBulk(text: string, data: string)
    requires Numeral(text) && |data| < Weighted(text) + 2
    ensures ParseBulk("$" + text + "\r\n" + data) == Parsed(Err(ConnectionError), "")
  {
    SignedLineIsSafe('$', text);
    LineRoundTrip("$" + text, data);
    LengthLine(text, '$');
    ParseIsWeighted(text);
  }

  /** The five prefixes, and no other byte, select a reader. */
  lemma FirstBytes(c: char)
    ensures TypeOfByte('+') == Ok(STATUS_CODE_REPLY) && TypeOfByte('-') == Ok(ERROR_REPLY)
    ensures TypeOfByte(':') == Ok(INT_REPLY) && TypeOfByte('$') == Ok(BULK_REPLY)
    ensures TypeOfByte('*') == Ok(MULTI_BULK_REPLY)
    ensures c !in {'+', '-', ':', '$', '*'} ==> TypeOfByte(c) == Err(RuntimeError)
  {}

  /** Assigning to an `int` keeps the low 32 bits. */
  lemma NarrowIsModulo(n: int)
    ensures -2147483648 <= Narrow(n) <= 2147483647
    ensures exists k :: Narrow(n) == n + k * 4294967296
  {
    var q := (n + 2147483648) / 4294967296;
    assert Narrow(n) == n + (-q) * 4294967296;
  }

  /** What is not a whole command stays where it is. */
  lemma IncompleteStays(t: string)
    requires ParseItems(t).result.Err?
    ensures TakeCommands(t) == ([], t)
  {}

  // ------------------------------------------------------------------------------- commands

  // The strings of every request the client sends.

  lemma KeyStrings(k: string, v: string, d: string)
    ensures LinesOf(SET(k, v)) == ["SET", k, v] && LinesOf(GET(k)) == ["GET", k]
    ensures LinesOf(TYPE(k)) == ["TYPE", k] && LinesOf(RENAME(k, d)) == ["RENAME", k, d]
    ensures LinesOf(KEYS(k)) == ["KEYS", k] && LinesOf(DBSIZE) == ["DBSIZE"]
    ensures LinesOf(MULTI) == ["MULTI"] && LinesOf(EXEC) == ["EXEC"]
  {}

  lemma MemberStrings(k: string, v: string, d: string)
    ensures LinesOf(RPUSH(k, v)) == ["RPUSH", k, v] && LinesOf(SADD(k, v)) == ["SADD", k, v]
    ensures LinesOf(SREM(k, v)) == ["SREM", k, v] && LinesOf(SMEMBERS(k)) == ["SMEMBERS", k]
    ensures LinesOf(SMOVE(k, d, v)) == ["SMOVE", k, d, v]
  {}

  lemma NumberStrings(k: string, n: int, m: int)
    ensures LinesOf(EXPIRE(k, n)) == ["EXPIRE", k, PrintInt(n)]
    ensures LinesOf(LRANGE(k, n, m)) == ["LRANGE", k, PrintInt(n), PrintInt(m)]
  {}

  lemma ManyKeysStrings(keys: seq<string>, d: string)
    ensures LinesOf(MGET(keys)) == ["MGET"] + keys && LinesOf(DEL(keys)) == ["DEL"] + keys
    ensures LinesOf(SINTER(keys)) == ["SINTER"] + keys && LinesOf(SUNION(keys)) == ["SUNION"] + keys
    ensures LinesOf(SINTERSTORE(d, keys)) == ["SINTERSTORE", d] + keys
    ensures LinesOf(SUNIONSTORE(d, keys)) == ["SUNIONSTORE", d] + keys
  {}

  lemma ShiftByTwo(a: string, b: string, rest: seq<string>, j: nat)
    requires j < |rest|
    ensures ([a, b] + rest)[j + 2] == rest[j]
  {}

  lemma {:induction false} FlattenAt(pairs: seq<(string, string)>, i: nat)
    requires i < |pairs|
    ensures |Flatten(pairs)| == 2 * |pairs|
    ensures Flatten(pairs)[2 * i] == pairs[i].0 && Flatten(pairs)[2 * i + 1] == pairs[i].1
  {
    PairOfFlatten(pairs);
    var rest := Flatten(pairs[1..]);
    if i > 0 {
      FlattenAt(pairs[1..], i - 1);
      ShiftByTwo(pairs[0].0, pairs[0].1, rest, 2 * i - 2);
      ShiftByTwo(pairs[0].0, pairs[0].1, rest, 2 * i - 1);
    }
  }

  /** `MSET` has the keys and values in turn. */
  lemma MsetStrings(pairs: seq<(string, string)>, i: nat)
    requires i < |pairs|
    ensures var lines := LinesOf(MSET(pairs));
            && |lines| == 1 + 2 * |pairs| && lines[0] == "MSET"
            && lines[1 + 2 * i] == pairs[i].0 && lines[2 + 2 * i] == pairs[i].1
  {
    FlattenAt(pairs, i);
  }
}
