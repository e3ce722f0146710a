/**
 The far end of a connection: one Redis server. It is the environment of the client, described by
 the command reference of Redis 7: a store, the effect and reply of each command the client sends,
 and the queue of a transaction. Versions differ in two places that matter here. From Redis 7 on,
 `SINTER` checks the kind of every key even when one is missing; from 2.6.5 on, a command refused
 inside a transaction makes `EXEC` discard the transaction. Error texts are shortened.
 */
module Server {
  import opened Prelude
  import opened Decimal
  import opened Resp

  /** `ZSetVal` and `HashVal` stand for the two kinds of value the client cannot move. */
  datatype Value =
    | StrVal(text: string)
    | ListVal(items: seq<string>)
    | SetVal(members: set<string>)
    | ZSetVal(content: string)
    | HashVal(content: string)

  datatype Entry = Entry(value: Value, ttl: Option<int>)

  type Store = map<string, Entry>

  /** What the command reference leaves open: the order of a set's members, and glob matching. */
  datatype Env = Env(order: set<string> -> seq<string>, matches: (string, string) -> bool)

  ghost predicate Enumerates(xs: seq<string>, s: set<string>) {
    |xs| == |s| && (set x | x in xs) == s
  }

  ghost predicate ValidEnv(env: Env) {
    forall s: set<string> :: Enumerates(env.order(s), s)
  }

  datatype Request =
    | SET(key: string, value: string)
    | GET(key: string)
    | MSET(pairs: seq<(string, string)>)
    | MGET(keys: seq<string>)
    | EXPIRE(key: string, seconds: int)
    | DEL(keys: seq<string>)
    | TYPE(key: string)
    | KEYS(pattern: string)
    | DBSIZE
    | RENAME(key: string, dst: string)
    | LRANGE(key: string, start: int, stop: int)
    | RPUSH(key: string, value: string)
    | SADD(key: string, value: string)
    | SREM(key: string, value: string)
    | SMOVE(key: string, dst: string, value: string)
    | SMEMBERS(key: string)
    | SINTER(keys: seq<string>)
    | SINTERSTORE(dst: string, keys: seq<string>)
    | SUNION(keys: seq<string>)
    | SUNIONSTORE(dst: string, keys: seq<string>)
    | MULTI
    | EXEC
    | UNKNOWN(lines: Command)

  // ------------------------------------------------------------------------------- requests

  function Flatten(pairs: seq<(string, string)>): seq<string> {
    if pairs == [] then [] else [pairs[0].0, pairs[0].1] + Flatten(pairs[1..])
  }

  function Pair(flat: seq<string>): seq<(string, string)>
    requires |flat| % 2 == 0
  {
    if flat == [] then [] else [(flat[0], flat[1])] + Pair(flat[2..])
  }

  /** The lines with which the client asks for a request. */
  function LinesOf(req: Request): Command {
    match req
    case SET(key, value) => ["SET", key, value]
    case GET(key) => ["GET", key]
    case MSET(pairs) => ["MSET"] + Flatten(pairs)
    case MGET(keys) => ["MGET"] + keys
    case EXPIRE(key, seconds) => ["EXPIRE", key, PrintInt(seconds)]
    case DEL(keys) => ["DEL"] + keys
    case TYPE(key) => ["TYPE", key]
    case KEYS(pattern) => ["KEYS", pattern]
    case DBSIZE => ["DBSIZE"]
    case RENAME(key, dst) => ["RENAME", key, dst]
    case LRANGE(key, start, stop) => ["LRANGE", key, PrintInt(start), PrintInt(stop)]
    case RPUSH(key, value) => ["RPUSH", key, value]
    case SADD(key, value) => ["SADD", key, value]
    case SREM(key, value) => ["SREM", key, value]
    case SMOVE(key, dst, value) => ["SMOVE", key, dst, value]
    case SMEMBERS(key) => ["SMEMBERS", key]
    case SINTER(keys) => ["SINTER"] + keys
    case SINTERSTORE(dst, keys) => ["SINTERSTORE", dst] + keys
    case SUNION(keys) => ["SUNION"] + keys
    case SUNIONSTORE(dst, keys) => ["SUNIONSTORE", dst] + keys
    case MULTI => ["MULTI"]
    case EXEC => ["EXEC"]
    case UNKNOWN(lines) => lines
  }

  function ExpireRequest(lines: Command, key: string, seconds: string): Request {
    match LexicalCast(seconds)
    case Some(n) => EXPIRE(key, n)
    case None => UNKNOWN(lines)
  }

  function RangeRequest(lines: Command, key: string, start: string, stop: string): Request {
    match (LexicalCast(start), LexicalCast(stop))
    case (Some(lo), Some(hi)) => LRANGE(key, lo, hi)
    case _ => UNKNOWN(lines)
  }

  /** Which request a server sees in a command; a wrong number of arguments makes it unknown. */
  function RequestOf(lines: Command): Request {
    if |lines| == 0 then UNKNOWN(lines)
    else
      var args := lines[1..];
      match lines[0]
      case "MSET" => if |args| > 0 && |args| % 2 == 0 then MSET(Pair(args)) else UNKNOWN(lines)
      case "MGET" => if |args| > 0 then MGET(args) else UNKNOWN(lines)
      case "DEL" => if |args| > 0 then DEL(args) else UNKNOWN(lines)
      case "SINTER" => if |args| > 0 then SINTER(args) else UNKNOWN(lines)
      case "SUNION" => if |args| > 0 then SUNION(args) else UNKNOWN(lines)
      case "SINTERSTORE" => if |args| > 1 then SINTERSTORE(args[0], args[1..]) else UNKNOWN(lines)
      case "SUNIONSTORE" => if |args| > 1 then SUNIONSTORE(args[0], args[1..]) else UNKNOWN(lines)
      case "DBSIZE" => if |args| == 0 then DBSIZE else UNKNOWN(lines)
      case "MULTI" => if |args| == 0 then MULTI else UNKNOWN(lines)
      case "EXEC" => if |args| == 0 then EXEC else UNKNOWN(lines)
      case "GET" => if |args| == 1 then GET(args[0]) else UNKNOWN(lines)
      case "TYPE" => if |args| == 1 then TYPE(args[0]) else UNKNOWN(lines)
      case "KEYS" => if |args| == 1 then KEYS(args[0]) else UNKNOWN(lines)
      case "SMEMBERS" => if |args| == 1 then SMEMBERS(args[0]) else UNKNOWN(lines)
      case "SET" => if |args| == 2 then SET(args[0], args[1]) else UNKNOWN(lines)
      case "RENAME" => if |args| == 2 then RENAME(args[0], args[1]) else UNKNOWN(lines)
      case "RPUSH" => if |args| == 2 then RPUSH(args[0], args[1]) else UNKNOWN(lines)
      case "SADD" => if |args| == 2 then SADD(args[0], args[1]) else UNKNOWN(lines)
      case "SREM" => if |args| == 2 then SREM(args[0], args[1]) else UNKNOWN(lines)
      case "EXPIRE" => if |args| == 2 then ExpireRequest(lines, args[0], args[1]) else UNKNOWN(lines)
      case "SMOVE" => if |args| == 3 then SMOVE(args[0], args[1], args[2]) else UNKNOWN(lines)
      case "LRANGE" => if |args| == 3 then RangeRequest(lines, args[0], args[1], args[2]) else UNKNOWN(lines)
      case _ => UNKNOWN(lines)
  }

  predicate WellFormed(req: Request) {
    match req
    case MSET(pairs) => pairs != []
    case MGET(keys) => keys != []
    case DEL(keys) => keys != []
    case SINTER(keys) => keys != []
    case SUNION(keys) => keys != []
    case SINTERSTORE(_, keys) => keys != []
    case SUNIONSTORE(_, keys) => keys != []
    case UNKNOWN(_) => false
    case _ => true
  }

  lemma {:induction false} PairOfFlatten(pairs: seq<(string, string)>)
    ensures |Flatten(pairs)| == 2 * |pairs|
    ensures Pair(Flatten(pairs)) == pairs
  {
    if pairs != [] {
      PairOfFlatten(pairs[1..]);
      assert Flatten(pairs)[2..] == Flatten(pairs[1..]);
    }
  }

  predicate Variadic(req: Request) {
    req.MSET? || req.MGET? || req.DEL? || req.SINTER? || req.SUNION? || req.SINTERSTORE? || req.SUNIONSTORE?
  }

  lemma UnderstoodVariadic(req: Request)
    requires WellFormed(req) && Variadic(req)
    ensures RequestOf(LinesOf(req)) == req
  {
    var args := LinesOf(req)[1..];
    if req.MSET? {
      PairOfFlatten(req.pairs);
      assert args == Flatten(req.pairs);
    } else if req.SINTERSTORE? || req.SUNIONSTORE? {
      assert args[1..] == req.keys;
    } else {
      assert args == req.keys;
    }
  }

  lemma UnderstoodShort(req: Request)
    requires WellFormed(req) && !Variadic(req) && |LinesOf(req)| < 3
    ensures RequestOf(LinesOf(req)) == req
  {}

  predicate Numeric(req: Request) {
    req.EXPIRE? || req.LRANGE?
  }

  lemma NumericLines(key: string, a: string, b: string)
    ensures LexicalCast(a).Some? ==> RequestOf(["EXPIRE", key, a]) == EXPIRE(key, LexicalCast(a).value)
    ensures LexicalCast(a).Some? && LexicalCast(b).Some? ==>
              RequestOf(["LRANGE", key, a, b]) == LRANGE(key, LexicalCast(a).value, LexicalCast(b).value)
  {}

  lemma UnderstoodExpire(key: string, seconds: int)
    ensures RequestOf(LinesOf(EXPIRE(key, seconds))) == EXPIRE(key, seconds)
  {
    var text := PrintInt(seconds);
    CastOfPrint(seconds);
    NumericLines(key, text, "0");
    assert LinesOf(EXPIRE(key, seconds)) == ["EXPIRE", key, text];
  }

  lemma UnderstoodRange(key: string, start: int, stop: int)
    ensures RequestOf(LinesOf(LRANGE(key, start, stop))) == LRANGE(key, start, stop)
  {
    var lo, hi := PrintInt(start), PrintInt(stop);
    CastOfPrint(start);
    CastOfPrint(stop);
    NumericLines(key, lo, hi);
    assert LinesOf(LRANGE(key, start, stop)) == ["LRANGE", key, lo, hi];
  }

  lemma UnderstoodNumeric(req: Request)
    requires Numeric(req)
    ensures RequestOf(LinesOf(req)) == req
  {
    match req
    case EXPIRE(key, seconds) => UnderstoodExpire(key, seconds);
    case LRANGE(key, start, stop) => UnderstoodRange(key, start, stop);
  }

  lemma UnderstoodLong(req: Request)
    requires WellFormed(req) && !Variadic(req) && !Numeric(req) && |LinesOf(req)| >= 3
    ensures RequestOf(LinesOf(req)) == req
  {}

  /** Every well-formed request is understood as itself when it arrives. */
  lemma Understood(req: Request)
    requires WellFormed(req)
    ensures RequestOf(LinesOf(req)) == req
  {
    if Variadic(req) {
      UnderstoodVariadic(req);
    } else if Numeric(req) {
      UnderstoodNumeric(req);
    } else if |LinesOf(req)| < 3 {
      UnderstoodShort(req);
    } else {
      UnderstoodLong(req);
    }
  }

  // ------------------------------------------------------------------------------- effects

  datatype Outcome = Outcome(store: Store, reply: Reply)

  const OK := Status("OK")
  const WRONG_TYPE := Error("WRONGTYPE other kind")
  const NO_SUCH_KEY := Error("ERR no such key")
  const NO_MULTI := Error("ERR no MULTI")
  const NESTED_MULTI := Error("ERR nested")
  const QUEUED := Status("QUEUED")
  const UNKNOWN_COMMAND := Error("ERR unknown")
  const EXEC_ABORT := Error("EXECABORT discarded")

  function Lookup(st: Store, key: string): Option<Entry> {
    if key in st then Some(st[key]) else None
  }

  function SetOf(xs: seq<string>): set<string> {
    set x | x in xs
  }

  predicate HoldsSet(st: Store, key: string) {
    key in st ==> st[key].value.SetVal?
  }

  predicate AllHoldSets(st: Store, keys: seq<string>) {
    forall k :: k in keys ==> HoldsSet(st, k)
  }

  function Members(st: Store, key: string): set<string> {
    if key in st && st[key].value.SetVal? then st[key].value.members else {}
  }

  function Inter(st: Store, keys: seq<string>): set<string> {
    if keys == [] then {}
    else set x | x in Members(st, keys[0]) && forall k :: k in keys ==> x in Members(st, k)
  }

  function Union(st: Store, keys: seq<string>): set<string> {
    set k, x | k in keys && x in Members(st, k) :: x
  }

  function PutAll(st: Store, pairs: seq<(string, string)>): Store {
    if pairs == [] then st
    else PutAll(st, pairs[..|pairs| - 1])[pairs[|pairs| - 1].0 := Entry(StrVal(pairs[|pairs| - 1].1), None)]
  }

  /** Stores a set under a key, keeping a time to live; an empty set is no key at all. */
  function PutSet(st: Store, key: string, members: set<string>): Store {
    if members == {} then st - {key}
    else st[key := Entry(SetVal(members), if key in st then st[key].ttl else None)]
  }

  function Item(st: Store, key: string): Reply {
    if key in st && st[key].value.StrVal? then Bulk(st[key].value.text) else NullBulk
  }

  function Items(st: Store, keys: seq<string>): seq<Reply> {
    seq(|keys|, i requires 0 <= i < |keys| => Item(st, keys[i]))
  }

  function TypeName(st: Store, key: string): string {
    if key !in st then "none"
    else match st[key].value
         case StrVal(_) => "string"
         case ListVal(_) => "list"
         case SetVal(_) => "set"
         case ZSetVal(_) => "zset"
         case HashVal(_) => "hash"
  }

  /** The elements from `start` through `stop`; a negative position counts from the end. */
  function Range(items: seq<string>, start: int, stop: int): seq<string> {
    var lo := if start >= 0 then start else if |items| + start < 0 then 0 else |items| + start;
    var end := if stop >= 0 then stop else |items| + stop;
    var hi := if end < |items| then end else |items| - 1;
    if lo > hi then [] else items[lo..hi + 1]
  }

  function ExecuteRPush(st: Store, key: string, value: string): Outcome {
    if key !in st then Outcome(st[key := Entry(ListVal([value]), None)], Integer(1))
    else if !st[key].value.ListVal? then Outcome(st, WRONG_TYPE)
    else
      var items := st[key].value.items + [value];
      Outcome(st[key := Entry(ListVal(items), st[key].ttl)], Integer(|items|))
  }

  function ExecuteSAdd(st: Store, key: string, member: string): Outcome {
    if !HoldsSet(st, key) then Outcome(st, WRONG_TYPE)
    else if member in Members(st, key) then Outcome(st, Integer(0))
    else Outcome(PutSet(st, key, Members(st, key) + {member}), Integer(1))
  }

  function ExecuteSRem(st: Store, key: string, member: string): Outcome {
    if !HoldsSet(st, key) then Outcome(st, WRONG_TYPE)
    else if member !in Members(st, key) then Outcome(st, Integer(0))
    else Outcome(PutSet(st, key, Members(st, key) - {member}), Integer(1))
  }

  function ExecuteSMove(st: Store, src: string, dst: string, member: string): Outcome {
    if src !in st then Outcome(st, Integer(0))
    else if !HoldsSet(st, src) || !HoldsSet(st, dst) then Outcome(st, WRONG_TYPE)
    else if member !in Members(st, src) then Outcome(st, Integer(0))
    else if src == dst then Outcome(st, Integer(1))
    else Outcome(ExecuteSAdd(ExecuteSRem(st, src, member).store, dst, member).store, Integer(1))
  }

  function ExecuteStore(st: Store, dst: string, keys: seq<string>, members: set<string>): Outcome {
    if !AllHoldSets(st, keys) then Outcome(st, WRONG_TYPE)
    else Outcome(PutSet(st - {dst}, dst, members), Integer(|members|))
  }

  /** The effect and the reply of one request on one store. */
  function Execute(env: Env, st: Store, req: Request): Outcome {
    match req
    case SET(key, value) => Outcome(st[key := Entry(StrVal(value), None)], OK)
    case GET(key) => Outcome(st, if key in st && !st[key].value.StrVal? then WRONG_TYPE else Item(st, key))
    case MSET(pairs) => Outcome(PutAll(st, pairs), OK)
    case MGET(keys) => Outcome(st, Array(Items(st, keys)))
    case EXPIRE(key, seconds) =>
      if key !in st then Outcome(st, Integer(0))
      else if seconds <= 0 then Outcome(st - {key}, Integer(1))
      else Outcome(st[key := st[key].(ttl := Some(seconds))], Integer(1))
    case DEL(keys) => Outcome(st - SetOf(keys), Integer(|SetOf(keys) * st.Keys|))
    case TYPE(key) => Outcome(st, Status(TypeName(st, key)))
    case KEYS(pattern) => Outcome(st, Array(Bulks(env.order(set k | k in st && env.matches(pattern, k)))))
    case DBSIZE => Outcome(st, Integer(|st|))
    case RENAME(key, dst) =>
      if key !in st then Outcome(st, NO_SUCH_KEY) else Outcome((st - {key})[dst := st[key]], OK)
    case LRANGE(key, start, stop) =>
      if key !in st then Outcome(st, Array([]))
      else if st[key].value.ListVal? then Outcome(st, Array(Bulks(Range(st[key].value.items, start, stop))))
      else Outcome(st, WRONG_TYPE)
    case RPUSH(key, value) => ExecuteRPush(st, key, value)
    case SADD(key, member) => ExecuteSAdd(st, key, member)
    case SREM(key, member) => ExecuteSRem(st, key, member)
    case SMOVE(key, dst, member) => ExecuteSMove(st, key, dst, member)
    case SMEMBERS(key) =>
      if HoldsSet(st, key) then Outcome(st, Array(Bulks(env.order(Members(st, key))))) else Outcome(st, WRONG_TYPE)
    case SINTER(keys) =>
      if AllHoldSets(st, keys) then Outcome(st, Array(Bulks(env.order(Inter(st, keys))))) else Outcome(st, WRONG_TYPE)
    case SUNION(keys) =>
      if AllHoldSets(st, keys) then Outcome(st, Array(Bulks(env.order(Union(st, keys))))) else Outcome(st, WRONG_TYPE)
    case SINTERSTORE(dst, keys) => ExecuteStore(st, dst, keys, Inter(st, keys))
    case SUNIONSTORE(dst, keys) => ExecuteStore(st, dst, keys, Union(st, keys))
    case _ => Outcome(st, UNKNOWN_COMMAND)
  }

  // ------------------------------------------------------------------------------- connections

  /**
   A server as one connection sees it: its store, and the queue of an open transaction. A refused
   command stays in the queue as a sign that the transaction is to be discarded.
   */
  datatype Host = Host(store: Store, queue: Option<seq<Request>>)

  datatype Progress<S> = Progress(state: S, replies: seq<Reply>)

  function ExecuteAll(env: Env, st: Store, reqs: seq<Request>): Progress<Store> {
    if reqs == [] then Progress(st, [])
    else
      var before := ExecuteAll(env, st, reqs[..|reqs| - 1]);
      var last := Execute(env, before.state, reqs[|reqs| - 1]);
      Progress(last.store, before.replies + [last.reply])
  }

  predicate Queueable(req: Request) {
    !req.MULTI? && !req.EXEC? && !req.UNKNOWN?
  }

  datatype Stepped = Stepped(host: Host, reply: Reply)

  /** One command on one connection: exactly one reply. */
  function Step(env: Env, host: Host, lines: Command): Stepped {
    var req := RequestOf(lines);
    match host.queue
    case None =>
      if req.MULTI? then Stepped(host.(queue := Some([])), OK)
      else if req.EXEC? then Stepped(host, NO_MULTI)
      else
        var o := Execute(env, host.store, req);
        Stepped(host.(store := o.store), o.reply)
    case Some(queued) =>
      if req.MULTI? then Stepped(host, NESTED_MULTI)
      else if req.EXEC? then
        if exists i :: 0 <= i < |queued| && queued[i].UNKNOWN? then Stepped(Host(host.store, None), EXEC_ABORT)
        else
          var o := ExecuteAll(env, host.store, queued);
          Stepped(Host(o.state, None), Array(o.replies))
      else if req.UNKNOWN? then Stepped(host.(queue := Some(queued + [req])), UNKNOWN_COMMAND)
      else Stepped(host.(queue := Some(queued + [req])), QUEUED)
  }

  /** Commands arriving one after the other. */
  function Serve(env: Env, host: Host, cmds: seq<Command>): Progress<Host> {
    if cmds == [] then Progress(host, [])
    else
      var before := Serve(env, host, cmds[..|cmds| - 1]);
      var last := Step(env, before.state, cmds[|cmds| - 1]);
      Progress(last.host, before.replies + [last.reply])
  }
}
