/**
 What the code does not do as one would expect, each at a concrete input. Runs start with a client
 of two empty servers, where a key of odd length lives on server 1 and one of even length on
 server 0.
 */
module Findings {
  import opened Prelude
  import opened Resp
  import opened RespLaws
  import opened Server
  import opened ServerLaws
  import opened Shards
  import opened ClientLaws
  import opened Pipeline
  import Net = Network
  import Gather
  import D = Door
  import C = Client

  function ByLength(key: string): nat {
    |key|
  }

  const TWO := Router(ByLength, 2)

  function Plain(text: string): Entry {
    Entry(StrVal(text), None)
  }

  // ------------------------------------------------------------------------------- replies

  lemma CrIsCut(text: string)
    requires LineSafe(text)
    ensures ParseReply(EncodeReply(Status(text + "\r"))) == Parsed(Ok(ReplyData(STATUS_CODE_REPLY, Text(text))), "")
  {
    var s, line := EncodeReply(Status(text + "\r")), "+" + text;
    assert s == (line + "\r") + CRLF + "";
    LineUpToCr(line + "\r", "");
    RTrimKeeps(line);
    RTrimMeans(line, CRLF);
    SelectsLine(s, line, "");
    assert line[1..] == text;
  }

  /** A status that ends in CR arrives without it. */
  lemma StatusLosesCr()
    ensures ParseReply(EncodeReply(Status("OK\r"))) == Parsed(Ok(ReplyData(STATUS_CODE_REPLY, Text("OK"))), "")
  {
    assert "OK" + "\r" == "OK\r";
    CrIsCut("OK");
  }

  /** An error with another prefix than `ERR ` loses the beginning of its text. */
  lemma ErrorLosesPrefix()
    ensures ParseReply(EncodeReply(Error("BUSY now"))) == Parsed(Ok(ReplyData(ERROR_REPLY, Text(" now"))), "")
  {
    var r := Error("BUSY now");
    assert LineSafe(r.text);
    ReadGeneric(r, "");
    assert EncodeReply(r) + "" == EncodeReply(r);
  }

  lemma NarrowWraps(n: int)
    requires 0x8000_0000 <= n < 0x1_0000_0000
    ensures Narrow(n) == n - 0x1_0000_0000
  {}

  /** The integers from 2147483648 on do not fit into the variant's `int` and come back negative. */
  lemma IntegerWraps(n: int)
    requires 0x8000_0000 <= n < 0x1_0000_0000
    ensures ParseReply(EncodeReply(Integer(n))) == Parsed(Ok(ReplyData(INT_REPLY, Number(n - 0x1_0000_0000))), "")
  {
    NarrowWraps(n);
    IntegerIsNarrowed(n);
  }

  /** A link that takes one byte and then answers 0: `send_` returns normally after a part. */
  method SendsHalf() returns (net: Net.Sockets, r: Result<()>)
    ensures r.Ok? && |net.links| == 1 && net.links[0].sent == "P"
  {
    net := new Net.Sockets([Net.Link("", 0, Net.Closed, "", Some(1), Net.Closed)], 0);
    r := Net.SendBytes(net, 0, "PING");
  }

  // ------------------------------------------------------------------------------- stores

  /** Across servers `smove` to a key that holds a string loses the member; one server's SMOVE changes nothing. */
  lemma SmoveLosesMember()
    ensures var st := map["a" := Entry(SetVal({"m"}), None), "bb" := Plain("x")];
            && Moved(TWO, st, "a", "bb", "m") == map["bb" := Plain("x")]
            && ExecuteSMove(st, "a", "bb", "m").store == st
  {
    var st := map["a" := Entry(SetVal({"m"}), None), "bb" := Plain("x")];
    assert TWO.Shard("a") == 1 && TWO.Shard("bb") == 0;
    assert {"m"} - {"m"} == {};
    assert st - {"a"} == map["bb" := Plain("x")];
  }

  /** Across servers `rename` drops the time to live, which one server's RENAME keeps. */
  lemma RenameDropsTtl(env: Env)
    ensures var st := map["a" := Entry(StrVal("x"), Some(10))];
            && Renamed(TWO, env, st, "a", "bb") == map["bb" := Entry(StrVal("x"), None)]
            && Execute(env, st, RENAME("a", "bb")).store == map["bb" := Entry(StrVal("x"), Some(10))]
  {
    assert TWO.Shard("a") == 1 && TWO.Shard("bb") == 0;
    var st := map["a" := Entry(StrVal("x"), Some(10))];
    assert st["bb" := Entry(StrVal("x"), None)] - {"a"} == map["bb" := Entry(StrVal("x"), None)];
    assert (st - {"a"})["bb" := st["a"]] == map["bb" := Entry(StrVal("x"), Some(10))];
  }

  // ------------------------------------------------------------------------------- runs

  method TwoEmpty(env: Env) returns (c: C.Client)
    requires ValidEnv(env)
    ensures fresh(c.ch) && fresh(c.ch.net) && c.ch.env == env && c.rt == TWO
    ensures c.Valid() && c.Contents() == map[]
  {
    var door := D.Door("", [map[]]);
    var made := C.Connect(env, ByLength, [door, door], [0, 0], "", 0);
    c := made.value;
    c.EmptyIsValid();
  }

  /** `sinter` throws at the string on server 0 and leaves the answer of server 1 unread. */
  method SinterLosesSync(env: Env) returns (c: C.Client, r: Result<int>)
    requires ValidEnv(env)
    ensures r.Err? && !c.Synced()
  {
    c := TwoEmpty(env);
    var _ := c.Set("bb", "x");
    assert TWO.Shard("a") == 1 && TWO.Shard("bb") == 0;
    assert "bb" in ["bb", "a"] && "a" in ["bb", "a"];
    var out;
    r, out := c.Sinter(["bb", "a"], {});
  }

  /** With the string on server 1 the exception comes last and all is well. */
  method SinterKeepsSync(env: Env) returns (c: C.Client, r: Result<int>)
    requires ValidEnv(env)
    ensures r.Err? && c.Synced()
  {
    c := TwoEmpty(env);
    var _ := c.Set("a", "x");
    assert TWO.Shard("a") == 1 && TWO.Shard("bb") == 0;
    assert "a" in ["bb", "a"];
    var out;
    r, out := c.Sinter(["bb", "a"], {});
  }

  /** Two members added to a string: the second refusal stays unread. */
  method SaddLosesSync(env: Env) returns (c: C.Client, r: Result<int>)
    requires ValidEnv(env)
    ensures r.Err? && !c.Synced()
  {
    c := TwoEmpty(env);
    var _ := c.Set("a", "x");
    r := c.SaddRange("a", ["m", "n"]);
    c.UnreadOn(1, Refusals(1));
  }

  lemma ThreeTimes(x: (string, string), y: (string, string), z: (string, string))
    requires x.0 == y.0 == z.0 == "a"
    ensures !Gather.DistinctKeys([x, y, z]) && !RepeatsLast(TWO, [x, y, z])
  {
    var pairs, route := [x, y, z], PairRoute(TWO);
    assert TWO.Shard("a") == 1;
    assert pairs[..2] == [x, y] && [x, y][..1] == [x] && [x][..0] == [];
    assert Routed(route, [x], 1) == [x];
    assert Routed(route, [x, y], 1) == [x, y];
    assert Routed(route, pairs, 1) == pairs;
    assert pairs[0].0 == pairs[1].0 && [x, y][0].0 == [x, y][1].0;
    assert !LastOn(TWO, pairs, 1);
  }

  /** A repeated key and a time that is not positive: the expiry of the third pair stays unread. */
  method MsetexLosesSync(env: Env) returns (c: C.Client, r: Result<()>)
    requires ValidEnv(env)
    ensures r.Err? && !c.Synced()
  {
    c := TwoEmpty(env);
    ThreeTimes(("a", "x"), ("a", "y"), ("a", "z"));
    r := c.Msetex([("a", "x"), ("a", "y"), ("a", "z")], 0);
  }

  /** A command the server does not know: `exec_transaction` throws, the answer to `EXEC` stays unread. */
  method TransactionLosesSync(env: Env) returns (c: C.Client, r: Result<seq<Job>>)
    requires ValidEnv(env)
    ensures r.Err? && !c.Synced()
  {
    c := TwoEmpty(env);
    r := c.ExecTransaction([ForA(["NOPE"])]);
  }

  /** One set with one member, and a key that is missing. */
  lemma OneMember(st: Store)
    requires st == ExecuteSAdd(map[], "a", "m").store
    ensures AllHoldSets(st, ["a"]) && AllHoldSets(st, ["a", "bb"])
    ensures Union(st, ["a"]) == {"m"} == Union(st, ["a", "bb"])
    ensures OneHome(TWO, ["a"]) && !OneHome(TWO, ["a", "bb"])
  {
    assert {} + {"m"} == {"m"};
    assert Members(st, "a") == {"m"} && Members(st, "bb") == {};
    assert "a" in ["a"] && "a" in ["a", "bb"] && "bb" in ["a", "bb"];
    assert TWO.Shard("a") == 1 && TWO.Shard("bb") == 0;
  }

  function ForA(lines: Command): Job {
    Job(lines, "a", ReplyData(NO_REPLY, Text("")))
  }

  lemma Opens(env: Env, host: Host)
    requires host.queue.None?
    ensures Step(env, host, ["MULTI"]) == Stepped(host.(queue := Some([])), OK)
  {
    Understood(MULTI);
  }

  lemma QueuesSet(env: Env, host: Host, key: string, value: string)
    requires host.queue.Some?
    ensures Step(env, host, ["SET", key, value])
         == Stepped(host.(queue := Some(host.queue.value + [SET(key, value)])), QUEUED)
  {
    Understood(SET(key, value));
  }

  lemma RunsTwo(env: Env, host: Host, x: Request, y: Request)
    requires host.queue == Some([] + [x] + [y]) && x.SET? && y.SET?
    ensures var a := Step(env, host, ["EXEC"]); a.reply == Array([OK, OK]) && a.host.queue.None?
  {
    Understood(EXEC);
    assert [] + [x] + [y] == [x, y] && [x, y][..1] == [x];
    ExecuteOne(env, host.store, x);
    assert ExecuteAll(env, host.store, [x, y]).replies == [OK, OK];
  }

  lemma OneIsLeft()
    ensures LeftBehind(Array([OK, OK])) == [OK] && DataOf(Array([OK, OK])).Err?
  {
    var two := [OK, OK];
    assert !BulkLike(two[0]);
    assert BulksBefore(two) == 0 && two[0..] == two && two[1..] == [OK];
  }

  /** Two SETs between `MULTI` and `EXEC`, all through `exec`: one of the two OKs stays unread. */
  method ExecLosesSync(env: Env) returns (c: C.Client, r: Result<Job>)
    requires ValidEnv(env)
    ensures r.Err? && !c.Synced()
  {
    c := TwoEmpty(env);
    assert TWO.Shard("a") == 1;
    Opens(env, c.ch.hosts[1]);
    r := c.Exec(ForA(["MULTI"]));
    QueuesSet(env, c.ch.hosts[1], "a", "x");
    r := c.Exec(ForA(["SET", "a", "x"]));
    QueuesSet(env, c.ch.hosts[1], "a", "y");
    r := c.Exec(ForA(["SET", "a", "y"]));
    RunsTwo(env, c.ch.hosts[1], SET("a", "x"), SET("a", "y"));
    OneIsLeft();
    r := c.Exec(ForA(["EXEC"]));
    c.UnreadOn(1, [OK]);
  }

  /** `sunion` of the same sets into the same output returns 1 over one server and 2 over two. */
  method SunionCountsDifferently(env: Env) returns (one: Result<int>, two: Result<int>)
    requires ValidEnv(env)
    ensures one == Ok(1) && two == Ok(2)
  {
    var c := TwoEmpty(env);
    var _ := c.Sadd("a", "m");
    OneMember(c.Contents());
    var out;
    one, out := c.Sunion(["a"], {"n"});
    two, out := c.Sunion(["a", "bb"], {"n"});
    assert out == {"n", "m"};
  }

  /** A command routed by another key than the one it writes puts that key on the wrong server. */
  method ForeignKeyIsMisplaced(env: Env) returns (c: C.Client, r: Result<Job>)
    requires ValidEnv(env)
    ensures r.Ok? && !Placed(c.rt, Stores(c.ch.hosts))
  {
    c := TwoEmpty(env);
    Understood(SET("bb", "x"));
    assert TWO.Shard("a") == 1 && TWO.Shard("bb") == 0;
    r := c.Exec(ForA(["SET", "bb", "x"]));
    assert "bb" in Stores(c.ch.hosts)[1];
  }
}
