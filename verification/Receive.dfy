/**
 The client's request printer and its `recv_*_` routines, over sockets that deliver the stream in
 arbitrary pieces. Each routine is proved equal to its parser in module `Resp`, on every stream:
 the value or the exception, and what is left unread.
 */
module Receive {
  import opened Prelude
  import opened Resp
  import opened RespLaws
  import opened Decimal
  import opened Network

  const MAX_LINE := 2048

  ghost predicate Readable(net: Sockets, fd: int)
    reads net
  {
    0 <= fd < |net.links| && net.links[fd].Valid()
  }

  /** `makecmd::operator std::string` */
  method MakeRequest(lines: Command) returns (request: string)
    ensures request == EncodeCommand(lines)
  {
    request := "*" + PrintNat(|lines|) + CRLF;
    ghost var header := request;
    for i := 0 to |lines|
      invariant request == header + EncodeReplies(Bulks(lines[..i]))
    {
      ghost var before := request;
      var param := lines[i];
      request := request + "$" + PrintNat(|param|) + CRLF;
      request := request + param + CRLF;
      OnePiece(before, "$", PrintNat(|param|), CRLF, param, CRLF);
      Associate(header, EncodeReplies(Bulks(lines[..i])), EncodeReply(Bulk(param)));
      AppendBulk(lines[..i], param);
      assert lines[..i] + [param] == lines[..i + 1];
    }
    assert lines[..|lines|] == lines;
  }

  lemma OnePiece(s: string, a: string, b: string, c: string, d: string, e: string)
    ensures s + a + b + c + d + e == s + (a + b + c + d + e)
  {}

  lemma AppendBulk(lines: Command, param: string)
    ensures EncodeReplies(Bulks(lines + [param])) == EncodeReplies(Bulks(lines)) + EncodeReply(Bulk(param))
  {
    assert Bulks(lines + [param]) == Bulks(lines) + [Bulk(param)];
    EncodeRepliesAppend(Bulks(lines), [Bulk(param)]);
    assert EncodeEach([Bulk(param)]) == [EncodeReply(Bulk(param))];
    JoinOne(EncodeReply(Bulk(param)));
  }

  method RecvSingleLine(net: Sockets, fd: int) returns (r: Result<string>)
    requires Readable(net, fd)
    modifies net
    ensures r == ParseStatus(old(net.links[fd].incoming)).result
    ensures ReadUpTo(old(net.links), net.links, fd, ParseStatus(old(net.links[fd].incoming)).rest)
  {
    var line :- ReadLine(net, fd, MAX_LINE);
    return StatusOfLine(line);
  }

  /** `recv_bulk_reply_(socket, prefix)` */
  method RecvLength(net: Sockets, fd: int, prefix: char) returns (r: Result<int>)
    requires Readable(net, fd)
    modifies net
    ensures r == ParseLength(old(net.links[fd].incoming), prefix).result
    ensures ReadUpTo(old(net.links), net.links, fd, ParseLength(old(net.links[fd].incoming), prefix).rest)
  {
    var line :- ReadLine(net, fd, MAX_LINE);
    return LengthOfLine(line, prefix);
  }

  method RecvInt(net: Sockets, fd: int) returns (r: Result<int>)
    requires Readable(net, fd)
    modifies net
    ensures r == ParseInt(old(net.links[fd].incoming)).result
    ensures ReadUpTo(old(net.links), net.links, fd, ParseInt(old(net.links[fd].incoming)).rest)
  {
    var line :- ReadLine(net, fd, MAX_LINE);
    return IntOfLine(line);
  }

  /** `recv_bulk_reply_(socket)` */
  method RecvBulk(net: Sockets, fd: int) returns (r: Result<string>)
    requires Readable(net, fd)
    modifies net
    ensures r == ParseBulk(old(net.links[fd].incoming)).result
    ensures ReadUpTo(old(net.links), net.links, fd, ParseBulk(old(net.links[fd].incoming)).rest)
  {
    var length :- RecvLength(net, fd, '$');
    if length == -1 {
      return Ok(MISSING_VALUE);
    }
    var realLength := length + 2;
    if realLength < 0 {
      return Err(LengthError);
    }
    var data :- ReadN(net, fd, realLength);
    if data == "" {
      return Err(ProtocolError("invalid bulk reply data; empty"));
    }
    return Ok(data[..|data| - 2]);
  }

  /** One turn of the element loop of `recv_multi_bulk_reply_`. */
  method RecvElement(net: Sockets, fd: int, out: seq<string>, ghost stream: string, ghost i: nat)
    returns (r: Result<seq<string>>)
    requires Readable(net, fd)
    requires Many(ParseBulk, stream, i) == Parsed(Ok(out), net.links[fd].incoming)
    modifies net
    ensures r == Many(ParseBulk, stream, i + 1).result
    ensures ReadUpTo(old(net.links), net.links, fd, Many(ParseBulk, stream, i + 1).rest)
  {
    var item := RecvBulk(net, fd);
    return if item.Err? then Err(item.error) else Ok(out + [item.value]);
  }

  /** The element loop shared by both overloads of `recv_multi_bulk_reply_`. */
  method RecvElements(net: Sockets, fd: int, length: nat) returns (r: Result<seq<string>>)
    requires Readable(net, fd)
    modifies net
    ensures r == Many(ParseBulk, old(net.links[fd].incoming), length).result
    ensures ReadUpTo(old(net.links), net.links, fd, Many(ParseBulk, old(net.links[fd].incoming), length).rest)
  {
    ghost var stream := net.links[fd].incoming;
    r := Ok([]);
    var i := 0;
    while i < length && r.Ok?
      invariant i <= length
      invariant r == Many(ParseBulk, stream, i).result
      invariant ReadUpTo(old(net.links), net.links, fd, Many(ParseBulk, stream, i).rest)
      decreases length - i
    {
      r := RecvElement(net, fd, r.value, stream, i);
      i := i + 1;
    }
    if r.Err? {
      ManyStops(ParseBulk, stream, i, length);
    }
  }

  /** `recv_multi_bulk_reply_` into a vector: appends to `out` and returns the announced length. */
  method RecvMultiBulk(net: Sockets, fd: int, out: seq<string>) returns (r: Result<int>, grown: seq<string>)
    requires Readable(net, fd)
    modifies net
    ensures var p := ParseMultiBulk(old(net.links[fd].incoming), Some(|out|));
            && ReadUpTo(old(net.links), net.links, fd, p.rest)
            && (p.result.Err? ==> r == Err(p.result.error))
            && (p.result.Ok? ==> r == Ok(p.result.value.0) && grown == out + p.result.value.1)
  {
    grown := out;
    var length :- RecvLength(net, fd, '*');
    if length == -1 {
      return Err(KeyError), out;
    }
    if |out| + length < 0 {
      return Err(LengthError), out;
    }
    var items :- RecvElements(net, fd, Turns(length));
    return Ok(length), out + items;
  }

  /** `recv_multi_bulk_reply_` into a set. */
  method RecvMultiBulkSet(net: Sockets, fd: int, out: set<string>) returns (r: Result<int>, grown: set<string>)
    requires Readable(net, fd)
    modifies net
    ensures var p := ParseMultiBulk(old(net.links[fd].incoming), None);
            && ReadUpTo(old(net.links), net.links, fd, p.rest)
            && (p.result.Err? ==> r == Err(p.result.error))
            && (p.result.Ok? ==> r == Ok(p.result.value.0) && grown == out + set x | x in p.result.value.1)
  {
    grown := out;
    var length :- RecvLength(net, fd, '*');
    if length == -1 {
      return Err(KeyError), out;
    }
    var items :- RecvElements(net, fd, Turns(length));
    return Ok(length), out + set x | x in items;
  }

  /** `read_line(socket).substr(n)` */
  method RecvAfterPrefix(net: Sockets, fd: int, n: nat) returns (r: Result<string>)
    requires Readable(net, fd)
    modifies net
    ensures r == ParseAfterPrefix(old(net.links[fd].incoming), n).result
    ensures ReadUpTo(old(net.links), net.links, fd, ParseAfterPrefix(old(net.links[fd].incoming), n).rest)
  {
    var line := ReadLine(net, fd, MAX_LINE);
    return SubstrOf(line, n);
  }

  method RecvItems(net: Sockets, fd: int) returns (r: Result<seq<string>>)
    requires Readable(net, fd)
    modifies net
    ensures r == ParseItems(old(net.links[fd].incoming)).result
    ensures ReadUpTo(old(net.links), net.links, fd, ParseItems(old(net.links[fd].incoming)).rest)
  {
    ghost var p := ParseMultiBulk(net.links[fd].incoming, Some(0));
    var length, v := RecvMultiBulk(net, fd, []);
    assert p.result.Ok? ==> [] + p.result.value.1 == p.result.value.1;
    return if length.Err? then Err(length.error) else Ok(v);
  }

  /** `next_reply_type` */
  method NextReplyType(net: Sockets, fd: int) returns (r: Result<ReplyType>)
    requires Readable(net, fd)
    modifies net
    ensures var s := old(net.links[fd].incoming);
            && r == (if s == "" then Err(ConnectionError) else TypeOfByte(s[0]))
            && ReadUpTo(old(net.links), net.links, fd, s)
  {
    var prefix :- RecvOrThrow(net, fd, 1, true);
    return TypeOfByte(prefix[0]);
  }

  /** The switch of `recv_generic_reply_` */
  method RecvVal(net: Sockets, fd: int, kind: ReplyType) returns (r: Result<ReplyVal>)
    requires Readable(net, fd) && kind != NO_REPLY
    modifies net
    ensures r == ParseVal(old(net.links[fd].incoming), kind).result
    ensures ReadUpTo(old(net.links), net.links, fd, ParseVal(old(net.links[fd].incoming), kind).rest)
  {
    match kind
    case STATUS_CODE_REPLY =>
      var text :- RecvAfterPrefix(net, fd, 1);
      return Ok(Text(text));
    case ERROR_REPLY =>
      var text :- RecvAfterPrefix(net, fd, |ERR_PREFIX|);
      return Ok(Text(text));
    case INT_REPLY =>
      var n :- RecvInt(net, fd);
      return Ok(Number(Narrow(n)));
    case BULK_REPLY =>
      var data :- RecvBulk(net, fd);
      return Ok(Text(data));
    case MULTI_BULK_REPLY =>
      var items :- RecvItems(net, fd);
      return Ok(Texts(items));
  }

  /** `recv_generic_reply_` */
  method RecvGeneric(net: Sockets, fd: int) returns (r: Result<ReplyData>)
    requires Readable(net, fd)
    modifies net
    ensures r == ParseReply(old(net.links[fd].incoming)).result
    ensures ReadUpTo(old(net.links), net.links, fd, ParseReply(old(net.links[fd].incoming)).rest)
  {
    var first :- NextReplyType(net, fd);
    var second :- RecvVal(net, fd, first);
    return Ok(ReplyData(first, second));
  }
}
