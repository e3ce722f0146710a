/**
 The Redis serialization protocol as the client reads and writes it.

 `Encode...` prints replies and commands. Each `Parse...` function says, for a whole incoming
 stream, what one receive routine of the client returns or throws and what it leaves unread.
 The routines themselves are in module `Receive`.
 */
module Resp {
  import opened Prelude
  import opened Decimal

  const CRLF := "\r\n"
  const ERR_PREFIX := "-ERR "
  const MISSING_VALUE := "**nonexistent-key**"

  type Command = seq<string>

  datatype Reply =
    | Status(text: string)
    | Error(text: string)
    | Integer(n: int)
    | Bulk(data: string)
    | NullBulk
    | Array(items: seq<Reply>)

  /** `reply_t` and `reply_val_t`: a tag, and a variant that does not know about the tag. */
  datatype ReplyType = NO_REPLY | STATUS_CODE_REPLY | ERROR_REPLY | INT_REPLY | BULK_REPLY | MULTI_BULK_REPLY

  datatype ReplyVal = Text(text: string) | Number(n: int) | Texts(texts: seq<string>)

  /** `reply_data_t`, with the getters of `command`: they check the tag and then `boost::get` an alternative. */
  datatype ReplyData = ReplyData(kind: ReplyType, val: ReplyVal) {
    function GetText(want: ReplyType): Result<string> {
      if kind != want then Err(RuntimeError) else if val.Text? then Ok(val.text) else Err(BadGet)
    }

    function GetStatusCode(): Result<string> {
      GetText(STATUS_CODE_REPLY)
    }

    function GetError(): Result<string> {
      GetText(ERROR_REPLY)
    }

    function GetInt(): Result<int> {
      if kind != INT_REPLY then Err(RuntimeError) else if val.Number? then Ok(val.n) else Err(BadGet)
    }

    function GetBulk(): Result<string> {
      GetText(BULK_REPLY)
    }

    function GetMultiBulk(): Result<seq<string>> {
      if kind != MULTI_BULK_REPLY then Err(RuntimeError) else if val.Texts? then Ok(val.texts) else Err(BadGet)
    }
  }

  /** The variant holds an `int`: a `long` that is assigned to it keeps its low 32 bits. */
  function Narrow(n: int): int {
    (n + 0x8000_0000) % 0x1_0000_0000 - 0x8000_0000
  }

  // ---------------------------------------------------------------- printing

  function Join(parts: seq<string>): string {
    if parts == [] then "" else parts[0] + Join(parts[1..])
  }

  function EncodeReply(r: Reply): string
    decreases r, 0
  {
    match r
    case Status(text) => "+" + text + CRLF
    case Error(text) => "-" + text + CRLF
    case Integer(n) => ":" + PrintInt(n) + CRLF
    case Bulk(data) => "$" + PrintNat(|data|) + CRLF + data + CRLF
    case NullBulk => "$-1" + CRLF
    case Array(items) => "*" + PrintNat(|items|) + CRLF + Join(EncodeEach(items))
  }

  function EncodeEach(rs: seq<Reply>): (parts: seq<string>)
    ensures |parts| == |rs|
    ensures forall i :: 0 <= i < |rs| ==> parts[i] == EncodeReply(rs[i])
    decreases rs, 1
  {
    seq(|rs|, i requires 0 <= i < |rs| => EncodeReply(rs[i]))
  }

  function EncodeReplies(rs: seq<Reply>): string {
    Join(EncodeEach(rs))
  }

  function Bulks(lines: seq<string>): (rs: seq<Reply>)
    ensures |rs| == |lines|
    ensures forall i :: 0 <= i < |lines| ==> rs[i] == Bulk(lines[i])
  {
    seq(|lines|, i requires 0 <= i < |lines| => Bulk(lines[i]))
  }

  /** A command on the wire is an array of bulk strings. */
  function EncodeCommand(lines: Command): string {
    EncodeReply(Array(Bulks(lines)))
  }

  function CommandFrames(cmds: seq<Command>): (parts: seq<string>)
    ensures |parts| == |cmds|
    ensures forall i :: 0 <= i < |cmds| ==> parts[i] == EncodeCommand(cmds[i])
  {
    seq(|cmds|, i requires 0 <= i < |cmds| => EncodeCommand(cmds[i]))
  }

  /** Several commands joined for one send. */
  function EncodeCommands(cmds: seq<Command>): string {
    Join(CommandFrames(cmds))
  }

  // ---------------------------------------------------------------- parsing

  datatype Parsed<+T> = Parsed(result: Result<T>, rest: string)

  function IndexOf(s: string, c: char): (k: nat)
    ensures k <= |s|
    ensures forall i :: 0 <= i < k ==> s[i] != c
    ensures k < |s| ==> s[k] == c
  {
    if s == "" || s[0] == c then 0 else 1 + IndexOf(s[1..], c)
  }

  /** `str.erase(str.find_last_not_of(ws) + 1)` */
  function RTrim(s: string, ws: string): string {
    if s != "" && s[|s| - 1] in ws then RTrim(s[..|s| - 1], ws) else s
  }

  /** `read_line`: everything through the first LF, without trailing CR and LF bytes. */
  function ParseLine(s: string): Parsed<string> {
    var k := IndexOf(s, '\n');
    if k == |s| then Parsed(Err(ConnectionError), "")
    else Parsed(Ok(RTrim(s[..k + 1], CRLF)), s[k + 1..])
  }

  /** `read_n`, for a count that is not negative. */
  function ParseN(s: string, n: nat): Parsed<string> {
    if |s| < n then Parsed(Err(ConnectionError), "") else Parsed(Ok(s[..n]), s[n..])
  }

  /** `recv_single_line_reply_` on the line it read. */
  function StatusOfLine(line: string): Result<string> {
    if line == "" then Err(ProtocolError("empty single line reply"))
    else if ERR_PREFIX <= line then
      Err(ProtocolError(if |line| == |ERR_PREFIX| then "unknown error" else line[|ERR_PREFIX|..]))
    else if line[0] != '+' then Err(ProtocolError("unexpected prefix for status reply"))
    else Ok(line[1..])
  }

  function IntOfLine(line: string): Result<int> {
    if line == "" then Err(ProtocolError("invalid integer reply; empty"))
    else if line[0] != ':' then Err(ProtocolError("unexpected prefix for integer reply"))
    else match LexicalCast(line[1..]) case None => Err(BadLexicalCast) case Some(n) => Ok(n)
  }

  /** `recv_bulk_reply_(socket, prefix)`; reading byte 0 of an empty line gives NUL, which is no prefix. */
  function LengthOfLine(line: string, prefix: char): Result<int> {
    if line == "" || line[0] != prefix then Err(ProtocolError("unexpected prefix for bulk reply"))
    else match LexicalCast(line[1..]) case None => Err(BadLexicalCast) case Some(n) => Ok(n)
  }

  function ParseStatus(s: string): Parsed<string> {
    var h := ParseLine(s);
    Parsed(if h.result.Err? then h.result else StatusOfLine(h.result.value), h.rest)
  }

  function ParseInt(s: string): Parsed<int> {
    var h := ParseLine(s);
    Parsed(if h.result.Err? then Err(h.result.error) else IntOfLine(h.result.value), h.rest)
  }

  function ParseLength(s: string, prefix: char): Parsed<int> {
    var h := ParseLine(s);
    Parsed(if h.result.Err? then Err(h.result.error) else LengthOfLine(h.result.value, prefix), h.rest)
  }

  /** `recv_bulk_reply_(socket)` */
  function ParseBulk(s: string): Parsed<string> {
    var h := ParseLength(s, '$');
    if h.result.Err? then Parsed(Err(h.result.error), h.rest)
    else if h.result.value == -1 then Parsed(Ok(MISSING_VALUE), h.rest)
    else if h.result.value < -2 then Parsed(Err(LengthError), h.rest)
    else if h.result.value == -2 then Parsed(Err(ProtocolError("invalid bulk reply data; empty")), h.rest)
    else
      var d := ParseN(h.rest, h.result.value + 2);
      if d.result.Err? then d else Parsed(Ok(d.result.value[..h.result.value]), d.rest)
  }

  /** Runs one parser `n` times and collects what it returns; the first exception ends it. */
  function Many<T>(one: string -> Parsed<T>, s: string, n: nat): Parsed<seq<T>> {
    if n == 0 then Parsed(Ok([]), s)
    else
      var before := Many(one, s, n - 1);
      if before.result.Err? then before
      else
        var last := one(before.rest);
        Parsed(if last.result.Err? then Err(last.result.error)
               else Ok(before.result.value + [last.result.value]), last.rest)
  }

  /** How often `for (i = 0; i < length; ++i)` runs. */
  function Turns(length: int): nat {
    if length < 0 then 0 else length
  }

  /**
   `recv_multi_bulk_reply_`: the announced length and the strings read. `have` is the size of the
   vector that is appended to, whose `reserve` rejects a negative total; the overload for sets
   reserves nothing, which is the case `have == None`.
   */
  function ParseMultiBulk(s: string, have: Option<nat>): Parsed<(int, seq<string>)> {
    var h := ParseLength(s, '*');
    if h.result.Err? then Parsed(Err(h.result.error), h.rest)
    else if h.result.value == -1 then Parsed(Err(KeyError), h.rest)
    else if have.Some? && have.value + h.result.value < 0 then Parsed(Err(LengthError), h.rest)
    else
      var b := Many(ParseBulk, h.rest, Turns(h.result.value));
      if b.result.Err? then Parsed(Err(b.result.error), b.rest)
      else Parsed(Ok((h.result.value, b.result.value)), b.rest)
  }

  /** `line.substr(n)` */
  function Substr(line: string, n: nat): Result<string> {
    if |line| < n then Err(OutOfRange) else Ok(line[n..])
  }

  function SubstrOf(line: Result<string>, n: nat): Result<string> {
    if line.Err? then line else Substr(line.value, n)
  }

  function As<T>(p: Parsed<T>, val: T -> ReplyVal): Parsed<ReplyVal> {
    Parsed(if p.result.Err? then Err(p.result.error) else Ok(val(p.result.value)), p.rest)
  }

  function ParseAfterPrefix(s: string, n: nat): Parsed<string> {
    var p := ParseLine(s);
    Parsed(SubstrOf(p.result, n), p.rest)
  }

  function ParseItems(s: string): Parsed<seq<string>> {
    var p := ParseMultiBulk(s, Some(0));
    Parsed(if p.result.Err? then Err(p.result.error) else Ok(p.result.value.1), p.rest)
  }

  /** `next_reply_type` on the byte it peeked at. */
  function TypeOfByte(c: char): Result<ReplyType> {
    match c
    case '+' => Ok(STATUS_CODE_REPLY)
    case '-' => Ok(ERROR_REPLY)
    case ':' => Ok(INT_REPLY)
    case '$' => Ok(BULK_REPLY)
    case '*' => Ok(MULTI_BULK_REPLY)
    case _ => Err(RuntimeError)
  }

  /** The switch of `recv_generic_reply_`: what is assigned to the variant. */
  function ParseVal(s: string, kind: ReplyType): Parsed<ReplyVal> {
    match kind
    case NO_REPLY => Parsed(Ok(Text("")), s)
    case STATUS_CODE_REPLY => As(ParseAfterPrefix(s, 1), t => Text(t))
    case ERROR_REPLY => As(ParseAfterPrefix(s, |ERR_PREFIX|), t => Text(t))
    case INT_REPLY => As(ParseInt(s), n => Number(Narrow(n)))
    case BULK_REPLY => As(ParseBulk(s), d => Text(d))
    case MULTI_BULK_REPLY => As(ParseItems(s), v => Texts(v))
  }

  /** `recv_generic_reply_`: peek at the first byte, then read the rest in the way it selects. */
  function ParseReply(s: string): Parsed<ReplyData> {
    if s == "" then Parsed(Err(ConnectionError), "")
    else
      var kind := TypeOfByte(s[0]);
      if kind.Err? then Parsed(Err(kind.error), s)
      else
        var p := ParseVal(s, kind.value);
        Parsed(if p.result.Err? then Err(p.result.error) else Ok(ReplyData(kind.value, p.result.value)), p.rest)
  }

  // ------------------------------------------------------------------------------- commands

  /** Runs one parser while it succeeds and moves forward: what it returned, and what is left. */
  function TakeAll<T>(one: string -> Parsed<T>, s: string): (seq<T>, string)
    decreases |s|
  {
    var p := one(s);
    if p.result.Err? || |p.rest| >= |s| then ([], s)
    else
      var (more, rest) := TakeAll(one, p.rest);
      ([p.result.value] + more, rest)
  }

  /** The far end: takes complete commands off a stream until what is left is not one. */
  function TakeCommands(s: string): (seq<Command>, string) {
    TakeAll(ParseItems, s)
  }
}
