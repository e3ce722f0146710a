/** Printing and parsing undo each other, and framing is unambiguous. */
module RespLaws {
  import opened Prelude
  import opened Decimal
  import opened Resp

  // ------------------------------------------------- what a reply means to each receive routine

  /** A text that survives `read_line`: it has no LF and does not end in CR. */
  predicate LineSafe(text: string) {
    '\n' !in text && (text == "" || text[|text| - 1] != '\r')
  }

  const NOT_A_BULK := ProtocolError("unexpected prefix for bulk reply")

  predicate WireSafe(r: Reply) {
    match r
    case Status(text) => LineSafe(text)
    case Error(text) => LineSafe(text)
    case Array(items) => forall i :: 0 <= i < |items| ==> WireSafe(items[i])
    case _ => true
  }

  predicate AllWireSafe(rs: seq<Reply>) {
    forall i :: 0 <= i < |rs| ==> WireSafe(rs[i])
  }

  predicate BulkLike(r: Reply) {
    r.Bulk? || r.NullBulk?
  }

  predicate FlatItems(items: seq<Reply>) {
    forall i :: 0 <= i < |items| ==> BulkLike(items[i])
  }

  function StatusOf(r: Reply): Result<string> {
    match r
    case Status(text) => Ok(text)
    case Error(text) =>
      if "ERR " <= text then Err(ProtocolError(if |text| == 4 then "unknown error" else text[4..]))
      else Err(ProtocolError("unexpected prefix for status reply"))
    case _ => Err(ProtocolError("unexpected prefix for status reply"))
  }

  function IntOf(r: Reply): Result<int> {
    if r.Integer? then Ok(r.n) else Err(NOT_AN_INT)
  }

  /** A null bulk is reported as the sentinel string. */
  function TextOf(r: Reply): string
    requires BulkLike(r)
  {
    if r.Bulk? then r.data else MISSING_VALUE
  }

  function TextsOf(rs: seq<Reply>): (texts: seq<string>)
    requires FlatItems(rs)
    ensures |texts| == |rs|
  {
    seq(|rs|, i requires 0 <= i < |rs| => TextOf(rs[i]))
  }

  const NOT_AN_INT := ProtocolError("unexpected prefix for integer reply")

  function OkOf(r: Reply): Result<()> {
    match StatusOf(r)
    case Err(e) => Err(e)
    case Ok(text) => if text == "OK" then Ok(()) else Err(ProtocolError("expected OK response"))
  }

  function IntOkOf(r: Reply): Result<()> {
    if !r.Integer? then Err(NOT_AN_INT)
    else if r.n == 1 then Ok(())
    else Err(ProtocolError("expecting int reply of 1"))
  }

  function BulkOf(r: Reply): Result<string> {
    if BulkLike(r) then Ok(TextOf(r)) else Err(NOT_A_BULK)
  }

  function ItemsOf(r: Reply): Result<seq<string>> {
    if r.Array? && FlatItems(r.items) then Ok(TextsOf(r.items))
    else Err(NOT_A_BULK)
  }

  /** What `recv_generic_reply_` makes of a reply. */
  function DataOf(r: Reply): Result<ReplyData> {
    match r
    case Status(text) => Ok(ReplyData(STATUS_CODE_REPLY, Text(text)))
    case Error(text) => if |text| < 4 then Err(OutOfRange) else Ok(ReplyData(ERROR_REPLY, Text(text[4..])))
    case Integer(n) => Ok(ReplyData(INT_REPLY, Number(Narrow(n))))
    case Array(items) => if FlatItems(items) then Ok(ReplyData(MULTI_BULK_REPLY, Texts(TextsOf(items))))
                         else Err(NOT_A_BULK)
    case _ => Ok(ReplyData(BULK_REPLY, Text(TextOf(r))))
  }

  // ------------------------------------------------------------------------------- lines

  lemma IndexOfFirst(a: string, b: string, c: char)
    requires c !in a
    ensures IndexOf(a + [c] + b, c) == |a|
  {
    var s := a + [c] + b;
    assert s[|a|] == c;
    assert forall i :: 0 <= i < |a| ==> s[i] == a[i];
  }

  lemma RTrimKeeps(text: string)
    ensures RTrim(text + "\n", CRLF) == RTrim(text, CRLF)
    ensures RTrim(text + "\r", CRLF) == RTrim(text, CRLF)
  {
    assert (text + "\n")[..|text|] == text;
    assert (text + "\r")[..|text|] == text;
  }

  /** What is cut off are bytes of `ws`, and what is left does not end in one. */
  lemma {:induction false} RTrimMeans(text: string, ws: string)
    ensures RTrim(text, ws) <= text
    ensures forall i :: |RTrim(text, ws)| <= i < |text| ==> text[i] in ws
    ensures RTrim(text, ws) == "" || RTrim(text, ws)[|RTrim(text, ws)| - 1] !in ws
    ensures RTrim(text, ws) == text <==> (text == "" || text[|text| - 1] !in ws)
  {
    if text != "" && text[|text| - 1] in ws {
      RTrimMeans(text[..|text| - 1], ws);
    }
  }

  /** A line may end in LF alone; it is read up to its own trailing CRs, whatever follows. */
  lemma LineEndsAtLf(text: string, t: string)
    requires '\n' !in text
    ensures ParseLine(text + "\n" + t) == Parsed(Ok(RTrim(text, CRLF)), t)
  {
    IndexOfFirst(text, t, '\n');
    assert (text + "\n" + t)[..|text| + 1] == text + "\n";
    RTrimKeeps(text);
  }

  /** A text without LF that is ended by CRLF is read up to its own trailing CRs, whatever follows. */
  lemma LineUpToCr(text: string, t: string)
    requires '\n' !in text
    ensures ParseLine(text + CRLF + t) == Parsed(Ok(RTrim(text, CRLF)), t)
  {
    assert text + CRLF + t == (text + "\r") + "\n" + t;
    LineEndsAtLf(text + "\r", t);
    RTrimKeeps(text);
  }

  lemma LineRoundTrip(text: string, t: string)
    requires LineSafe(text)
    ensures ParseLine(text + CRLF + t) == Parsed(Ok(text), t)
  {
    LineUpToCr(text, t);
    RTrimMeans(text, CRLF);
  }

  // ------------------------------------------------------------------------------- heads

  /** The first line of an encoded reply, and what comes after it. */
  function Head(r: Reply): string {
    match r
    case Status(text) => "+" + text
    case Error(text) => "-" + text
    case Integer(n) => ":" + PrintInt(n)
    case Bulk(data) => "$" + PrintNat(|data|)
    case NullBulk => "$-1"
    case Array(items) => "*" + PrintNat(|items|)
  }

  function Body(r: Reply): string {
    match r
    case Bulk(data) => data + CRLF
    case Array(items) => EncodeReplies(items)
    case _ => ""
  }

  lemma PrintedIsSafe(c: char, n: int)
    requires c != '\n'
    ensures LineSafe([c] + PrintInt(n))
  {
    var digits := PrintNat(if n < 0 then -n else n);
    var line := [c] + PrintInt(n);
    assert forall i :: 1 <= i < |line| ==> IsDigit(line[i]) || line[i] == '-';
  }

  lemma HeadIsSafe(r: Reply)
    requires WireSafe(r)
    ensures LineSafe(Head(r))
  {
    match r
    case Status(text) => assert LineSafe("+" + text);
    case Error(text) => assert LineSafe("-" + text);
    case Integer(n) => PrintedIsSafe(':', n);
    case Bulk(data) => PrintedIsSafe('$', |data|);
    case NullBulk => assert LineSafe("$-1");
    case Array(items) => PrintedIsSafe('*', |items|);
  }

  lemma HeadAndBody(r: Reply)
    ensures EncodeReply(r) == Head(r) + CRLF + Body(r)
  {
    match r
    case Bulk(data) => assert EncodeReply(r) == "$" + PrintNat(|data|) + CRLF + (data + CRLF);
    case _ =>
  }

  lemma TailAfterBody(head: string, body: string, t: string)
    ensures (head + CRLF + body) + t == head + CRLF + (body + t)
  {}

  /** `read_line` at the start of a reply takes exactly its first line. */
  lemma ReadHead(r: Reply, t: string)
    requires WireSafe(r)
    ensures ParseLine(EncodeReply(r) + t) == Parsed(Ok(Head(r)), Body(r) + t)
  {
    HeadIsSafe(r);
    HeadAndBody(r);
    TailAfterBody(Head(r), Body(r), t);
    LineRoundTrip(Head(r), Body(r) + t);
  }

  lemma ReadLength(r: Reply, t: string, prefix: char)
    requires WireSafe(r) && Head(r)[0] == prefix
    requires r.Bulk? || r.Array?
    ensures ParseLength(EncodeReply(r) + t, prefix)
         == Parsed(Ok(if r.Bulk? then |r.data| else |r.items|), Body(r) + t)
  {
    ReadHead(r, t);
    var n := if r.Bulk? then |r.data| else |r.items|;
    CastOfPrint(n);
    assert Head(r)[1..] == PrintInt(n);
  }

  lemma ReadStatus(r: Reply, t: string)
    requires WireSafe(r) && (r.Status? || r.Error?)
    ensures ParseStatus(EncodeReply(r) + t) == Parsed(StatusOf(r), t)
  {
    ReadHead(r, t);
    assert Body(r) + t == t;
    StatusOfHead(r);
  }

  /** A status line gives its text; an error line throws, with the message behind `ERR ` if there is one. */
  lemma StatusOfHead(r: Reply)
    requires r.Status? || r.Error? || r.Array?
    ensures StatusOfLine(Head(r)) == StatusOf(r)
  {
    if r.Status? {
      assert Head(r)[1..] == r.text;
    } else if r.Error? {
      ErrorPrefix(r.text);
    }
  }

  lemma ErrorPrefix(text: string)
    ensures ERR_PREFIX <= "-" + text <==> "ERR " <= text
    ensures |text| >= 4 ==> ("-" + text)[5..] == text[4..]
  {
    var line := "-" + text;
    assert forall i :: 0 <= i < |text| ==> line[i + 1] == text[i];
    if "ERR " <= text {
      assert text[..4] == "ERR ";
      assert line[..5] == "-" + text[..4];
    }
    if ERR_PREFIX <= line {
      assert line[..5][1..] == text[..4];
    }
  }

  lemma ReadInt(r: Reply, t: string)
    requires WireSafe(r) && (r.Integer? || r.Error?)
    ensures ParseInt(EncodeReply(r) + t) == Parsed(IntOf(r), t)
  {
    ReadHead(r, t);
    assert Body(r) + t == t;
    if r.Integer? {
      CastOfPrint(r.n);
      assert Head(r)[1..] == PrintInt(r.n);
    }
  }

  lemma ReadBulk(r: Reply, t: string)
    requires BulkLike(r)
    ensures ParseBulk(EncodeReply(r) + t) == Parsed(Ok(TextOf(r)), t)
  {
    if r.Bulk? {
      ReadLength(r, t, '$');
      assert r.data + CRLF + t == (r.data + CRLF) + t;
      assert (r.data + CRLF + t)[..|r.data| + 2] == r.data + CRLF;
      assert (r.data + CRLF + t)[|r.data| + 2..] == t;
    } else {
      ReadHead(r, t);
      assert Body(r) + t == t;
      assert Head(r)[1..] == "-1";
      CastOfPrint(-1);
      assert PrintInt(-1) == "-1";
    }
  }

  lemma RefuseBulk(r: Reply, t: string)
    requires WireSafe(r) && !BulkLike(r)
    ensures ParseBulk(EncodeReply(r) + t)
         == Parsed(Err(NOT_A_BULK), Body(r) + t)
  {
    ReadHead(r, t);
  }

  // ------------------------------------------------------------------------------- arrays

  lemma Associate(x: string, y: string, z: string)
    ensures x + (y + z) == x + y + z
  {}

  lemma HeadThenTail<T>(xs: seq<T>, ys: seq<T>)
    requires xs != []
    ensures [xs[0]] + (xs[1..] + ys) == xs + ys
  {}

  lemma {:induction false} JoinAppend(a: seq<string>, b: seq<string>)
    ensures Join(a + b) == Join(a) + Join(b)
  {
    if a == [] {
      assert a + b == b;
    } else {
      JoinAppend(a[1..], b);
      assert (a + b)[1..] == a[1..] + b && (a + b)[0] == a[0];
      Associate(a[0], Join(a[1..]), Join(b));
    }
  }

  lemma EncodeEachAppend(a: seq<Reply>, b: seq<Reply>)
    ensures EncodeEach(a + b) == EncodeEach(a) + EncodeEach(b)
  {
    var parts, joined := EncodeEach(a + b), EncodeEach(a) + EncodeEach(b);
    forall i | 0 <= i < |parts| ensures parts[i] == joined[i] {
      assert (a + b)[i] == if i < |a| then a[i] else b[i - |a|];
    }
  }

  lemma CommandFramesAppend(a: seq<Command>, b: seq<Command>)
    ensures CommandFrames(a + b) == CommandFrames(a) + CommandFrames(b)
  {
    var parts, joined := CommandFrames(a + b), CommandFrames(a) + CommandFrames(b);
    forall i | 0 <= i < |parts| ensures parts[i] == joined[i] {
      assert (a + b)[i] == if i < |a| then a[i] else b[i - |a|];
    }
  }

  lemma EncodeRepliesAppend(a: seq<Reply>, b: seq<Reply>)
    ensures EncodeReplies(a + b) == EncodeReplies(a) + EncodeReplies(b)
  {
    EncodeEachAppend(a, b);
    JoinAppend(EncodeEach(a), EncodeEach(b));
  }

  lemma EncodeCommandsAppend(a: seq<Command>, b: seq<Command>)
    ensures EncodeCommands(a + b) == EncodeCommands(a) + EncodeCommands(b)
  {
    CommandFramesAppend(a, b);
    JoinAppend(CommandFrames(a), CommandFrames(b));
  }

  /** `part` is one unit that `one` reads as `v`, whatever follows it. */
  ghost predicate Frame<T>(one: string -> Parsed<T>, part: string, v: T) {
    forall t: string {:trigger one(part + t)} :: one(part + t) == Parsed(Ok(v), t)
  }

  /** `one` throws on `part` and leaves `body` of it unread, whatever follows it. */
  ghost predicate Refuses<T>(one: string -> Parsed<T>, part: string, e: Exception, body: string) {
    forall t: string {:trigger one(part + t)} :: one(part + t) == Parsed(Err(e), body + t)
  }

  ghost predicate Frames<T>(one: string -> Parsed<T>, parts: seq<string>, vs: seq<T>) {
    |parts| == |vs| && forall i :: 0 <= i < |parts| ==> Frame(one, parts[i], vs[i])
  }

  /** After `k` frames, reading has collected their values and stands before the rest. */
  lemma {:induction false} ManyFrames<T>(one: string -> Parsed<T>, parts: seq<string>, vs: seq<T>, s: string, k: nat)
    requires k <= |vs| <= |parts| && Frames(one, parts[..|vs|], vs)
    ensures Many(one, Join(parts) + s, k) == Parsed(Ok(vs[..k]), Join(parts[k..]) + s)
  {
    if k == 0 {
      assert parts[0..] == parts;
    } else {
      ManyFrames(one, parts, vs, s, k - 1);
      assert parts[..|vs|][k - 1] == parts[k - 1];
      assert parts[k - 1..][1..] == parts[k..];
      Associate(parts[k - 1], Join(parts[k..]), s);
      assert one(parts[k - 1] + (Join(parts[k..]) + s)).result == Ok(vs[k - 1]);
      assert vs[..k - 1] + [vs[k - 1]] == vs[..k];
    }
  }

  lemma AllFrames<T>(one: string -> Parsed<T>, parts: seq<string>, vs: seq<T>, t: string)
    requires Frames(one, parts, vs)
    ensures Many(one, Join(parts) + t, |parts|) == Parsed(Ok(vs), t)
  {
    assert parts[..|vs|] == parts && vs[..|vs|] == vs;
    ManyFrames(one, parts, vs, t, |parts|);
    assert Join(parts[|parts|..]) + t == t;
  }

  /** An exception ends the reading for good. */
  lemma {:induction false} ManyStops<T>(one: string -> Parsed<T>, s: string, k: nat, n: nat)
    requires k <= n && Many(one, s, k).result.Err?
    ensures Many(one, s, n) == Many(one, s, k)
    decreases n - k
  {
    if k < n {
      ManyStops(one, s, k, n - 1);
    }
  }

  /** After some frames, a unit that `one` refuses ends the reading, with `body` and the later units unread. */
  lemma RefusedFrame<T>(one: string -> Parsed<T>, parts: seq<string>, vs: seq<T>, e: Exception, body: string, t: string)
    requires |vs| < |parts| && Frames(one, parts[..|vs|], vs)
    requires Refuses(one, parts[|vs|], e, body)
    ensures Many(one, Join(parts) + t, |parts|) == Parsed(Err(e), body + (Join(parts[|vs| + 1..]) + t))
  {
    var k := |vs|;
    ManyFrames(one, parts, vs, t, k);
    assert parts[k..][1..] == parts[k + 1..];
    Associate(parts[k], Join(parts[k + 1..]), t);
    assert one(parts[k] + (Join(parts[k + 1..]) + t)).result == Err(e);
    ManyStops(one, Join(parts) + t, k + 1, |parts|);
  }

  lemma BulkFrame(r: Reply)
    requires BulkLike(r)
    ensures Frame(ParseBulk, EncodeReply(r), TextOf(r))
  {
    forall t: string ensures ParseBulk(EncodeReply(r) + t) == Parsed(Ok(TextOf(r)), t) {
      ReadBulk(r, t);
    }
  }

  lemma BulkRefused(r: Reply)
    requires WireSafe(r) && !BulkLike(r)
    ensures Refuses(ParseBulk, EncodeReply(r), NOT_A_BULK, Body(r))
  {
    forall t: string ensures ParseBulk(EncodeReply(r) + t) == Parsed(Err(NOT_A_BULK), Body(r) + t) {
      RefuseBulk(r, t);
    }
  }

  lemma BulkFrames(rs: seq<Reply>)
    requires FlatItems(rs)
    ensures Frames(ParseBulk, EncodeEach(rs), TextsOf(rs))
  {
    forall i | 0 <= i < |rs| ensures Frame(ParseBulk, EncodeEach(rs)[i], TextsOf(rs)[i]) {
      BulkFrame(rs[i]);
    }
  }

  lemma ReadBulks(rs: seq<Reply>, t: string)
    requires FlatItems(rs)
    ensures Many(ParseBulk, EncodeReplies(rs) + t, |rs|) == Parsed(Ok(TextsOf(rs)), t)
  {
    BulkFrames(rs);
    AllFrames(ParseBulk, EncodeEach(rs), TextsOf(rs), t);
  }

  /** How many elements come before the first that is no bulk string. */
  function BulksBefore(rs: seq<Reply>): (k: nat)
    ensures k <= |rs| && FlatItems(rs[..k]) && (k < |rs| ==> !BulkLike(rs[k]))
    ensures k == |rs| <==> FlatItems(rs)
  {
    if rs == [] || !BulkLike(rs[0]) then 0
    else
      var k := 1 + BulksBefore(rs[1..]);
      assert forall i :: 1 <= i < |rs| ==> rs[i] == rs[1..][i - 1];
      k
  }

  /** What is unread after the first line of the first reply: an array's elements come next. */
  function AfterHead(pending: seq<Reply>): seq<Reply>
    requires pending != []
  {
    (if pending[0].Array? then pending[0].items else []) + pending[1..]
  }

  lemma NextHead(replies: seq<Reply>, i: nat)
    requires i < |replies|
    ensures replies[i..][0] == replies[i]
    ensures !replies[i].Array? ==> AfterHead(replies[i..]) == replies[i + 1..]
  {}

  lemma BodyIsNext(pending: seq<Reply>)
    requires pending != [] && !pending[0].Bulk? && AllWireSafe(pending)
    ensures EncodeReplies(AfterHead(pending)) == Body(pending[0]) + EncodeReplies(pending[1..])
    ensures AllWireSafe(AfterHead(pending))
  {
    var items := if pending[0].Array? then pending[0].items else [];
    assert WireSafe(pending[0]);
    EncodeRepliesAppend(items, pending[1..]);
  }

  /** What stays unread of a reply on which `recv_generic_reply_` throws. */
  function LeftBehind(r: Reply): seq<Reply> {
    if r.Array? && !FlatItems(r.items) then AfterHead(r.items[BulksBefore(r.items)..]) else []
  }

  lemma LeftBehindIsSafe(r: Reply)
    requires WireSafe(r)
    ensures AllWireSafe(LeftBehind(r)) && (DataOf(r).Ok? ==> LeftBehind(r) == [])
  {
    if r.Array? && !FlatItems(r.items) {
      BodyIsNext(r.items[BulksBefore(r.items)..]);
    }
  }

  /**
   One element that is not a bulk string makes reading the whole array throw; its first line has been
   consumed, and what follows it is unread.
   */
  lemma RefuseBulks(rs: seq<Reply>, t: string)
    requires AllWireSafe(rs) && !FlatItems(rs)
    ensures Many(ParseBulk, EncodeReplies(rs) + t, |rs|)
         == Parsed(Err(NOT_A_BULK), EncodeReplies(LeftBehind(Array(rs))) + t)
  {
    RefuseBulksAt(rs, BulksBefore(rs), t);
  }

  lemma RefuseBulksAt(rs: seq<Reply>, bad: nat, t: string)
    requires AllWireSafe(rs) && bad < |rs| && FlatItems(rs[..bad]) && !BulkLike(rs[bad])
    ensures Many(ParseBulk, EncodeReplies(rs) + t, |rs|)
         == Parsed(Err(NOT_A_BULK), EncodeReplies(AfterHead(rs[bad..])) + t)
  {
    var parts, vs := EncodeEach(rs), TextsOf(rs[..bad]);
    EncodedParts(rs, bad);
    BulkFrames(rs[..bad]);
    assert Frames(ParseBulk, parts[..|vs|], vs);
    BulkRefused(rs[bad]);
    assert parts[|vs|] == EncodeReply(rs[bad]);
    RefusedFrame(ParseBulk, parts, vs, NOT_A_BULK, Body(rs[bad]), t);
    LeftEncoded(rs, bad, t);
  }

  lemma LeftEncoded(rs: seq<Reply>, bad: nat, t: string)
    requires AllWireSafe(rs) && bad < |rs| && !BulkLike(rs[bad])
    ensures Body(rs[bad]) + (EncodeReplies(rs[bad + 1..]) + t) == EncodeReplies(AfterHead(rs[bad..])) + t
  {
    BodyIsNext(rs[bad..]);
    assert rs[bad..][1..] == rs[bad + 1..];
    Associate(Body(rs[bad]), EncodeReplies(rs[bad + 1..]), t);
  }

  lemma EncodedParts(rs: seq<Reply>, k: nat)
    requires k < |rs|
    ensures EncodeEach(rs)[..k] == EncodeEach(rs[..k]) && EncodeEach(rs)[k + 1..] == EncodeEach(rs[k + 1..])
  {}

  /** Both overloads of `recv_multi_bulk_reply_` read as many bulk strings as the header announces. */
  lemma AfterHeader(s: string, n: nat, rest: string, have: Option<nat>)
    requires ParseLength(s, '*') == Parsed(Ok(n), rest)
    ensures ParseMultiBulk(s, have)
         == var b := Many(ParseBulk, rest, n);
            Parsed(if b.result.Err? then Err(b.result.error) else Ok((n, b.result.value)), b.rest)
  {}

  /** A flat array is received whole by both overloads, whatever is already in the output. */
  lemma ReadMultiBulk(items: seq<Reply>, t: string, have: Option<nat>)
    requires FlatItems(items)
    ensures ParseMultiBulk(EncodeReply(Array(items)) + t, have) == Parsed(Ok((|items|, TextsOf(items))), t)
  {
    ReadLength(Array(items), t, '*');
    AfterHeader(EncodeReply(Array(items)) + t, |items|, EncodeReplies(items) + t, have);
    ReadBulks(items, t);
  }

  lemma RefuseErrorAsArray(text: string, t: string, have: Option<nat>)
    requires LineSafe(text)
    ensures ParseMultiBulk(EncodeReply(Error(text)) + t, have)
         == Parsed(Err(NOT_A_BULK), t)
  {
    ReadHead(Error(text), t);
    assert Body(Error(text)) + t == t;
  }

  lemma RefuseNested(items: seq<Reply>, t: string, have: Option<nat>)
    requires AllWireSafe(items) && !FlatItems(items)
    ensures ParseMultiBulk(EncodeReply(Array(items)) + t, have)
         == Parsed(Err(NOT_A_BULK), EncodeReplies(LeftBehind(Array(items))) + t)
  {
    ReadLength(Array(items), t, '*');
    AfterHeader(EncodeReply(Array(items)) + t, |items|, EncodeReplies(items) + t, have);
    RefuseBulks(items, t);
  }

  // ------------------------------------------------------------------------- generic replies

  lemma FirstByte(r: Reply, t: string)
    ensures EncodeReply(r) + t != "" && (EncodeReply(r) + t)[0] == Head(r)[0]
  {
    HeadAndBody(r);
  }

  // What the first byte selects, for any stream.

  lemma SelectsLine(s: string, line: string, t: string)
    requires s != "" && (s[0] == '+' || s[0] == '-') && ParseLine(s) == Parsed(Ok(line), t)
    ensures s[0] == '+' && |line| >= 1 ==> ParseReply(s) == Parsed(Ok(ReplyData(STATUS_CODE_REPLY, Text(line[1..]))), t)
    ensures s[0] == '-' && |line| >= 5 ==> ParseReply(s) == Parsed(Ok(ReplyData(ERROR_REPLY, Text(line[5..]))), t)
    ensures s[0] == '-' && |line| < 5 ==> ParseReply(s) == Parsed(Err(OutOfRange), t)
  {}

  lemma SelectsInt(s: string, n: int, t: string)
    requires s != "" && s[0] == ':' && ParseInt(s) == Parsed(Ok(n), t)
    ensures ParseReply(s) == Parsed(Ok(ReplyData(INT_REPLY, Number(Narrow(n)))), t)
  {}

  lemma SelectsBulk(s: string, text: string, t: string)
    requires s != "" && s[0] == '$' && ParseBulk(s) == Parsed(Ok(text), t)
    ensures ParseReply(s) == Parsed(Ok(ReplyData(BULK_REPLY, Text(text))), t)
  {}

  lemma SelectsItems(s: string)
    requires s != "" && s[0] == '*'
    ensures var p := ParseMultiBulk(s, Some(0));
            && ParseReply(s).rest == p.rest
            && (p.result.Err? ==> ParseReply(s).result == Err(p.result.error))
            && (p.result.Ok? ==> ParseReply(s).result == Ok(ReplyData(MULTI_BULK_REPLY, Texts(p.result.value.1))))
  {}

  lemma ReadGenericLine(r: Reply, t: string)
    requires WireSafe(r) && (r.Status? || r.Error?)
    ensures ParseReply(EncodeReply(r) + t) == Parsed(DataOf(r), t)
  {
    FirstByte(r, t);
    ReadHead(r, t);
    assert Body(r) + t == t;
    SelectsLine(EncodeReply(r) + t, Head(r), t);
    if r.Status? {
      assert Head(r)[1..] == r.text;
    } else {
      assert |r.text| >= 4 ==> Head(r)[5..] == r.text[4..];
    }
  }

  lemma ReadGenericArray(items: seq<Reply>, t: string)
    requires AllWireSafe(items)
    ensures ParseReply(EncodeReply(Array(items)) + t)
         == Parsed(DataOf(Array(items)), EncodeReplies(LeftBehind(Array(items))) + t)
  {
    FirstByte(Array(items), t);
    SelectsItems(EncodeReply(Array(items)) + t);
    if FlatItems(items) {
      ReadMultiBulk(items, t, Some(0));
      NoReplies(t);
    } else {
      RefuseNested(items, t, Some(0));
    }
  }

  lemma NoReplies(t: string)
    ensures EncodeReplies([]) + t == t
  {
    assert EncodeEach([]) == [];
  }

  lemma ReadGenericInt(n: int, t: string)
    ensures ParseReply(EncodeReply(Integer(n)) + t) == Parsed(DataOf(Integer(n)), t)
  {
    FirstByte(Integer(n), t);
    ReadInt(Integer(n), t);
    SelectsInt(EncodeReply(Integer(n)) + t, n, t);
  }

  lemma ReadGenericBulk(r: Reply, t: string)
    requires BulkLike(r)
    ensures ParseReply(EncodeReply(r) + t) == Parsed(DataOf(r), t)
  {
    FirstByte(r, t);
    ReadBulk(r, t);
    SelectsBulk(EncodeReply(r) + t, TextOf(r), t);
  }

  /**
   For every reply a server can put on the wire, `recv_generic_reply_` gives exactly `DataOf` and
   leaves exactly `LeftBehind` of it unread, which is nothing when it returns normally.
   */
  lemma ReadGeneric(r: Reply, t: string)
    requires WireSafe(r)
    ensures ParseReply(EncodeReply(r) + t) == Parsed(DataOf(r), EncodeReplies(LeftBehind(r)) + t)
    ensures DataOf(r).Ok? ==> ParseReply(EncodeReply(r) + t) == Parsed(DataOf(r), t)
  {
    NoReplies(t);
    LeftBehindIsSafe(r);
    if r.Array? {
      ReadGenericArray(r.items, t);
    } else if r.Status? || r.Error? {
      ReadGenericLine(r, t);
    } else if r.Integer? {
      ReadGenericInt(r.n, t);
    } else {
      ReadGenericBulk(r, t);
    }
  }

  /** A missing value and the sentinel text are the only two replies that cannot be told apart from one another. */
  lemma SentinelIsOnlyCollision(r: Reply, q: Reply)
    requires BulkLike(r) && BulkLike(q) && r != q
    ensures DataOf(r) == DataOf(q) <==> {r, q} == {NullBulk, Bulk(MISSING_VALUE)}
  {
    assert DataOf(r) == DataOf(q) <==> TextOf(r) == TextOf(q);
  }

  /** On whatever has been received, a getter gives its value or says that the tag is another one. */
  lemma GettersMatchTags(s: string)
    requires ParseReply(s).result.Ok?
    ensures var d := ParseReply(s).result.value;
            && d.kind != NO_REPLY
            && (if d.kind == STATUS_CODE_REPLY then d.GetStatusCode().Ok? else d.GetStatusCode() == Err(RuntimeError))
            && (if d.kind == ERROR_REPLY then d.GetError().Ok? else d.GetError() == Err(RuntimeError))
            && (if d.kind == INT_REPLY then d.GetInt().Ok? else d.GetInt() == Err(RuntimeError))
            && (if d.kind == BULK_REPLY then d.GetBulk().Ok? else d.GetBulk() == Err(RuntimeError))
            && (if d.kind == MULTI_BULK_REPLY then d.GetMultiBulk().Ok? else d.GetMultiBulk() == Err(RuntimeError))
  {
    var kind := TypeOfByte(s[0]).value;
    var val := ParseVal(s, kind).result.value;
    assert kind != NO_REPLY && ParseReply(s).result.value == ReplyData(kind, val);
  }

  /** Bulk strings and flat arrays of them come back from their getters as they were sent. */
  lemma PayloadsRoundTrip(data: string, texts: seq<string>)
    ensures exists d :: ParseReply(EncodeReply(Bulk(data))) == Parsed(Ok(d), "") && d.GetBulk() == Ok(data)
    ensures exists d ::
              ParseReply(EncodeReply(Array(Bulks(texts)))) == Parsed(Ok(d), "") && d.GetMultiBulk() == Ok(texts)
  {
    ReadGeneric(Bulk(data), "");
    ReadGeneric(Array(Bulks(texts)), "");
    assert EncodeReply(Bulk(data)) + "" == EncodeReply(Bulk(data));
    assert EncodeReply(Array(Bulks(texts))) + "" == EncodeReply(Array(Bulks(texts)));
    assert TextsOf(Bulks(texts)) == texts;
    assert ReplyData(BULK_REPLY, Text(data)).GetBulk() == Ok(data);
    assert ReplyData(MULTI_BULK_REPLY, Texts(texts)).GetMultiBulk() == Ok(texts);
  }

  lemma IntegerIsNarrowed(n: int)
    ensures ParseReply(EncodeReply(Integer(n))) == Parsed(Ok(ReplyData(INT_REPLY, Number(Narrow(n)))), "")
  {
    ReadGeneric(Integer(n), "");
    assert EncodeReply(Integer(n)) + "" == EncodeReply(Integer(n));
  }

  /** An integer can be got back from what is stored exactly when it fits into an `int`. */
  lemma IntRoundTripExactly(n: int)
    ensures (exists d :: ParseReply(EncodeReply(Integer(n))) == Parsed(Ok(d), "") && d.GetInt() == Ok(n))
       <==> -0x8000_0000 <= n < 0x8000_0000
  {
    IntegerIsNarrowed(n);
    assert ReplyData(INT_REPLY, Number(Narrow(n))).GetInt() == Ok(Narrow(n));
  }

  /** A one-line reply whose text has an LF is not consumed whole. */
  lemma LfLeavesRest(prefix: string, text: string)
    requires '\n' in text
    ensures ParseLine(prefix + text + CRLF).rest != ""
  {
    var s := prefix + text + CRLF;
    var i :| 0 <= i < |text| && text[i] == '\n';
    assert s[|prefix| + i] == '\n';
    assert IndexOf(s, '\n') <= |prefix| + i;
  }

  /** A one-line reply whose text ends in CR is read shorter than it is. */
  lemma CrIsLost(prefix: string, text: string)
    requires '\n' !in prefix && '\n' !in text && text != "" && text[|text| - 1] == '\r'
    ensures var line := ParseLine(prefix + text + CRLF).result; line.Ok? && |line.value| < |prefix + text|
  {
    LineUpToCr(prefix + text, "");
    assert prefix + text + CRLF + "" == prefix + text + CRLF;
    RTrimMeans(prefix + text, CRLF);
  }

  /** A status text comes back unchanged, with nothing left over, exactly when it is line safe. */
  lemma StatusRoundTripExactly(text: string)
    ensures (exists d :: ParseReply(EncodeReply(Status(text))) == Parsed(Ok(d), "") && d.GetStatusCode() == Ok(text))
       <==> LineSafe(text)
  {
    var s := EncodeReply(Status(text));
    if LineSafe(text) {
      ReadGeneric(Status(text), "");
      assert s + "" == s;
      assert DataOf(Status(text)).value.GetStatusCode() == Ok(text);
    } else if '\n' !in text {
      CrIsLost("+", text);
    } else {
      LfLeavesRest("+", text);
    }
  }

  /**
   An error's text can be recovered from what is stored, with nothing left over, exactly when it is
   line safe and starts with `ERR `.
   */
  lemma ErrorRoundTripExactly(text: string)
    ensures (exists d, message :: ParseReply(EncodeReply(Error(text))) == Parsed(Ok(d), "")
                                  && d.GetError() == Ok(message) && "ERR " + message == text)
       <==> LineSafe(text) && "ERR " <= text
  {
    var s := EncodeReply(Error(text));
    if LineSafe(text) {
      ReadGeneric(Error(text), "");
      assert s + "" == s;
      if "ERR " <= text {
        assert DataOf(Error(text)).value.GetError() == Ok(text[4..]);
        assert "ERR " + text[4..] == text;
      }
    } else if '\n' !in text {
      CrIsLost("-", text);
    } else {
      LfLeavesRest("-", text);
    }
  }

  // ------------------------------------------------------------------------------- commands

  /** Receiving an encoded command appends exactly its strings, returns their number and leaves the tail. */
  lemma CommandRoundTrip(lines: Command, t: string, have: Option<nat>)
    ensures ParseMultiBulk(EncodeCommand(lines) + t, have) == Parsed(Ok((|lines|, lines)), t)
  {
    ReadMultiBulk(Bulks(lines), t, have);
    assert TextsOf(Bulks(lines)) == lines;
  }

  lemma {:induction false} TakeFrames<T>(one: string -> Parsed<T>, parts: seq<string>, vs: seq<T>, t: string)
    requires Frames(one, parts, vs)
    requires forall i :: 0 <= i < |parts| ==> parts[i] != ""
    ensures TakeAll(one, Join(parts) + t) == (vs + TakeAll(one, t).0, TakeAll(one, t).1)
  {
    if parts == [] {
      assert Join(parts) + t == t;
      assert vs + TakeAll(one, t).0 == TakeAll(one, t).0;
    } else {
      Associate(parts[0], Join(parts[1..]), t);
      assert one(parts[0] + (Join(parts[1..]) + t)).result == Ok(vs[0]);
      TakeFrames(one, parts[1..], vs[1..], t);
      HeadThenTail(vs, TakeAll(one, t).0);
    }
  }

  lemma CommandIsFrame(c: Command)
    ensures Frame(ParseItems, EncodeCommand(c), c) && EncodeCommand(c) != ""
  {
    forall t: string ensures ParseItems(EncodeCommand(c) + t) == Parsed(Ok(c), t) {
      CommandRoundTrip(c, t, Some(0));
    }
  }

  /** Commands sent in one write are taken apart into exactly the commands that were joined. */
  lemma FramingRoundTrip(cmds: seq<Command>, t: string)
    ensures TakeCommands(EncodeCommands(cmds) + t) == (cmds + TakeCommands(t).0, TakeCommands(t).1)
  {
    forall i | 0 <= i < |cmds|
      ensures Frame(ParseItems, CommandFrames(cmds)[i], cmds[i]) && CommandFrames(cmds)[i] != ""
    {
      CommandIsFrame(cmds[i]);
    }
    TakeFrames(ParseItems, CommandFrames(cmds), cmds, t);
  }

  lemma TakeNone()
    ensures TakeCommands("") == ([], "")
  {
    assert ParseLine("").result.Err?;
  }

  lemma TakesAll(cmds: seq<Command>)
    ensures TakeCommands(EncodeCommands(cmds)) == (cmds, "")
  {
    FramingRoundTrip(cmds, "");
    TakeNone();
    assert EncodeCommands(cmds) + "" == EncodeCommands(cmds);
    assert cmds + [] == cmds;
  }

  /** Two different command sequences never produce the same bytes. */
  lemma FramingIsUnambiguous(a: seq<Command>, b: seq<Command>)
    requires EncodeCommands(a) == EncodeCommands(b)
    ensures a == b
  {
    FramingRoundTrip(a, "");
    FramingRoundTrip(b, "");
    assert EncodeCommands(a) + "" == EncodeCommands(a);
    TakeNone();
    assert a + [] == a && b + [] == b;
  }

  lemma JoinOne(part: string)
    ensures Join([part]) == part
  {
    assert part + Join([]) == part;
  }

  lemma EncodeOne(lines: Command)
    ensures EncodeCommands([lines]) == EncodeCommand(lines)
  {
    assert CommandFrames([lines]) == [EncodeCommand(lines)];
    JoinOne(EncodeCommand(lines));
  }
}
