/**
 Whole runs: any sequence of client calls over any number of servers behaves like the same calls
 on one map, and it is known after which calls the connections are in sync.
 */
module Session {
  import opened Prelude
  import opened Resp
  import opened RespLaws
  import opened Server
  import opened ServerLaws
  import opened Shards
  import opened Gather
  import opened ClientLaws
  import opened Pipeline
  import opened Transaction
  import C = Client

  datatype Op =
    | DoSet(key: string, value: string)
    | DoGet(key: string)
    | DoMset(pairs: seq<(string, string)>)
    | DoMsetex(pairs: seq<(string, string)>, seconds: int)
    | DoMget(keys: seq<string>)
    | DoDel(key: string)
    | DoDelRange(keys: seq<string>)
    | DoType(key: string)
    | DoDbsize
    | DoKeys(pattern: string, into: seq<string>)
    | DoRename(key: string, dst: string)
    | DoRpush(key: string, value: string)
    | DoLrange(key: string, start: int, stop: int, into: seq<string>)
    | DoSadd(key: string, member: string)
    | DoSaddRange(key: string, members: seq<string>)
    | DoSrem(key: string, member: string)
    | DoSmove(key: string, dst: string, member: string)
    | DoSmembers(key: string, out: set<string>)
    | DoSinter(keys: seq<string>, out: set<string>)
    | DoSunion(keys: seq<string>, out: set<string>)
    | DoSinterstore(dst: string, keys: seq<string>)
    | DoSunionstore(dst: string, keys: seq<string>)
    | DoExec(job: Job)
    | DoExecAll(jobs: seq<Job>)
    | DoTransaction(jobs: seq<Job>)

  /**
   What a call returns, with the output argument it leaves. `keys` appends what it has found in an order
   of the servers' choice, so its answer is what was there, the set found and the count.
   */
  datatype Response =
    | Done
    | Flag(flag: bool)
    | Count(n: int)
    | OneText(text: string)
    | ManyTexts(texts: seq<string>)
    | Appended(texts: seq<string>, n: int)
    | Found(before: seq<string>, names: set<string>, n: int)
    | Gathered(names: set<string>, n: int)
    | Kind(kind: KeyType)
    | Replied(jobs: seq<Job>)

  datatype Effect = Effect(store: Store, response: Option<Response>)

  /**
   What the calls expect: `get_socket(keys)` asserts that there are keys, and a user's own command
   names only keys of the shard it is routed to and is no part of a transaction.
   */
  ghost predicate Allowed(rt: Router, op: Op)
    requires rt.Valid()
  {
    match op
    case DoSunion(keys, _) => keys != []
    case DoSinterstore(_, keys) => keys != []
    case DoSunionstore(_, keys) => keys != []
    case DoExec(job) => Homely(rt, job)
    case DoExecAll(jobs) => AllHomely(rt, jobs)
    case DoTransaction(jobs) => AllHomely(rt, jobs)
    case _ => true
  }

  ghost predicate AllHomely(rt: Router, jobs: seq<Job>)
    requires rt.Valid()
  {
    forall i :: 0 <= i < |jobs| ==> Homely(rt, jobs[i])
  }

  function TextsAt(st: Store, keys: seq<string>): seq<string> {
    seq(|keys|, i requires 0 <= i < |keys| => TextOf(Item(st, keys[i])))
  }

  /** The commands of a list run in order on one map, each with its reply. */
  function ExecOnMap(env: Env, st: Store, jobs: seq<Job>): Effect {
    var o := ExecuteAll(env, st, RequestsOf(LinesIn(jobs)));
    Effect(o.state, if |o.replies| == |jobs| && AllHaveData(o.replies) then Some(Replied(WithReplies(jobs, o.replies)))
                    else None)
  }

  /** They all have replies the client can store. */
  lemma ExecAnswers(env: Env, st: Store, jobs: seq<Job>)
    ensures var o := ExecuteAll(env, st, RequestsOf(LinesIn(jobs)));
            && |o.replies| == |jobs| && AllHaveData(o.replies)
            && ExecOnMap(env, st, jobs).response == Some(Replied(WithReplies(jobs, o.replies)))
  {
    var o := ExecuteAll(env, st, RequestsOf(LinesIn(jobs)));
    ExecuteAllReplies(env, st, RequestsOf(LinesIn(jobs)));
    forall i | 0 <= i < |o.replies| ensures DataOf(o.replies[i]).Ok? {
      GoodReplyHasData(o.replies[i]);
    }
  }

  function GetOnMap(st: Store, key: string): Effect {
    Effect(st, if key in st && !st[key].value.StrVal? then None else Some(OneText(TextOf(Item(st, key)))))
  }

  function DelRangeOnMap(st: Store, keys: seq<string>): Effect {
    Effect(st - SetOf(keys), Some(Flag(exists k :: k in keys && k in st)))
  }

  function RpushOnMap(st: Store, key: string, value: string): Effect {
    Effect(ExecuteRPush(st, key, value).store,
           if key in st && !st[key].value.ListVal? then None else Some(Count(|ListAt(st, key)| + 1)))
  }

  function LrangeOnMap(st: Store, key: string, start: int, stop: int, into: seq<string>): Effect {
    var items := Range(ListAt(st, key), start, stop);
    Effect(st, if key in st && !st[key].value.ListVal? then None else Some(Appended(into + items, |items|)))
  }

  function KeysOnMap(env: Env, st: Store, pattern: string, into: seq<string>): Effect {
    var names := Matching(env, st, pattern);
    Effect(st, Some(Found(into, names, |names|)))
  }

  function SaddOnMap(st: Store, key: string, member: string): Effect {
    Effect(ExecuteSAdd(st, key, member).store,
           if HoldsSet(st, key) then Some(Flag(member !in Members(st, key))) else None)
  }

  function SremOnMap(st: Store, key: string, member: string): Effect {
    Effect(ExecuteSRem(st, key, member).store, if member in Members(st, key) then Some(Done) else None)
  }

  function SmembersOnMap(st: Store, key: string, out: set<string>): Effect {
    var members := Members(st, key);
    Effect(st, if HoldsSet(st, key) then Some(Gathered(out + members, |members|)) else None)
  }

  function SinterOnMap(st: Store, keys: seq<string>, out: set<string>): Effect {
    var inter := if keys == [] then out else Inter(st, keys);
    Effect(st, if AllHoldSets(st, keys) then Some(Gathered(inter, |inter|)) else None)
  }

  function SunionOnMap(rt: Router, st: Store, keys: seq<string>, out: set<string>): Effect
    requires rt.Valid()
  {
    if keys == [] then Effect(st, Some(Gathered(out, 0)))
    else
      var n := SunionCount(rt, st, keys, out);
      Effect(st, if AllHoldSets(st, keys) then Some(Gathered(out + Union(st, keys), n)) else None)
  }

  function MsetexOnMap(env: Env, st: Store, pairs: seq<(string, string)>, seconds: int): Effect {
    Effect(ExecuteAll(env, st, Batch(pairs, seconds)).state,
           if seconds > 0 || DistinctKeys(pairs) then Some(Done) else None)
  }

  function RenameOnMap(rt: Router, env: Env, st: Store, key: string, dst: string): Effect
    requires rt.Valid()
  {
    var throws := if rt.Shard(key) == rt.Shard(dst) then key !in st else key in st && !Movable(st, key);
    Effect(Renamed(rt, env, st, key, dst), if throws then None else Some(Done))
  }

  function SaddRangeOnMap(st: Store, key: string, members: seq<string>): Effect {
    if !HoldsSet(st, key) && members != [] then Effect(st, None)
    else Effect(WithMembers(st, key, SetOf(members)),
                Some(Count(|Members(st, key) + SetOf(members)| - |Members(st, key)|)))
  }

  function SmoveOnMap(rt: Router, st: Store, key: string, dst: string, member: string): Effect
    requires rt.Valid()
  {
    Effect(Moved(rt, st, key, dst, member),
           if ExecuteSMove(st, key, dst, member).reply == Integer(1) then Some(Done) else None)
  }

  function StoreOnMap(st: Store, dst: string, keys: seq<string>, members: set<string>): Effect {
    Effect(ExecuteStore(st, dst, keys, members).store, if AllHoldSets(st, keys) then Some(Count(|members|)) else None)
  }

  function TransactionOnMap(rt: Router, env: Env, st: Store, jobs: seq<Job>): Effect
    requires rt.Valid()
  {
    if jobs == [] || !SameHome(rt, jobs) || !AllQueueable(LinesIn(jobs)) then Effect(st, None)
    else ExecOnMap(env, st, jobs)
  }

  /** A call on one map; no response means that it throws. */
  function OnMap(rt: Router, env: Env, st: Store, op: Op): Effect
    requires rt.Valid()
  {
    match op
    case DoSet(key, value) => Effect(st[key := Entry(StrVal(value), None)], Some(Done))
    case DoGet(key) => GetOnMap(st, key)
    case DoMset(pairs) => Effect(PutAll(st, pairs), Some(Done))
    case DoMsetex(pairs, seconds) => MsetexOnMap(env, st, pairs, seconds)
    case DoMget(keys) => Effect(st, Some(ManyTexts(TextsAt(st, keys))))
    case DoDel(key) => Effect(st - {key}, Some(Flag(key in st)))
    case DoDelRange(keys) => DelRangeOnMap(st, keys)
    case DoType(key) => Effect(st, Some(Kind(KeyTypeOf(st, key))))
    case DoDbsize => Effect(st, Some(Count(|st|)))
    case DoKeys(pattern, into) => KeysOnMap(env, st, pattern, into)
    case DoRename(key, dst) => RenameOnMap(rt, env, st, key, dst)
    case DoRpush(key, value) => RpushOnMap(st, key, value)
    case DoLrange(key, start, stop, into) => LrangeOnMap(st, key, start, stop, into)
    case DoSadd(key, member) => SaddOnMap(st, key, member)
    case DoSaddRange(key, members) => SaddRangeOnMap(st, key, members)
    case DoSrem(key, member) => SremOnMap(st, key, member)
    case DoSmove(key, dst, member) => SmoveOnMap(rt, st, key, dst, member)
    case DoSmembers(key, out) => SmembersOnMap(st, key, out)
    case DoSinter(keys, out) => SinterOnMap(st, keys, out)
    case DoSunion(keys, out) => SunionOnMap(rt, st, keys, out)
    case DoSinterstore(dst, keys) => StoreOnMap(st, dst, keys, Inter(st, keys))
    case DoSunionstore(dst, keys) => StoreOnMap(st, dst, keys, Union(st, keys))
    case DoExec(job) => ExecOnMap(env, st, [job])
    case DoExecAll(jobs) => ExecOnMap(env, st, jobs)
    case DoTransaction(jobs) => TransactionOnMap(rt, env, st, jobs)
  }

  /** If a call throws, whether it has then read every reply. */
  predicate ThrowsInSync(rt: Router, st: Store, op: Op)
    requires rt.Valid()
  {
    match op
    case DoMsetex(pairs, _) => RepeatsLast(rt, pairs)
    case DoSaddRange(_, members) => |members| == 1
    case DoSinter(keys, _) => ThrowsLast(rt, st, keys)
    case DoSunion(keys, _) => ThrowsLast(rt, st, keys)
    case DoSinterstore(_, keys) => ThrowsLast(rt, st, keys)
    case DoSunionstore(_, keys) => ThrowsLast(rt, st, keys)
    case DoTransaction(jobs) => jobs == [] || !SameHome(rt, jobs)
    case _ => true
  }

  /** Whether every connection is in sync after a call. */
  predicate KeepsSync(rt: Router, env: Env, st: Store, op: Op)
    requires rt.Valid()
  {
    OnMap(rt, env, st, op).response.Some? || ThrowsInSync(rt, st, op)
  }

  /** A run on one map, up to the first call that throws. */
  datatype Transcript = Transcript(store: Store, responses: seq<Response>, threw: bool)

  function RunOnMap(rt: Router, env: Env, st: Store, ops: seq<Op>): Transcript
    requires rt.Valid()
  {
    if ops == [] then Transcript(st, [], false)
    else
      var before := RunOnMap(rt, env, st, ops[..|ops| - 1]);
      if before.threw then before
      else
        var e := OnMap(rt, env, before.store, ops[|ops| - 1]);
        if e.response.None? then Transcript(e.store, before.responses, true)
        else Transcript(e.store, before.responses + [e.response.value], false)
  }

  /** Whether every connection is in sync after a run. */
  predicate RunKeepsSync(rt: Router, env: Env, st: Store, ops: seq<Op>)
    requires rt.Valid()
  {
    if ops == [] then true
    else
      var before := RunOnMap(rt, env, st, ops[..|ops| - 1]);
      if before.threw then RunKeepsSync(rt, env, st, ops[..|ops| - 1])
      else KeepsSync(rt, env, before.store, ops[|ops| - 1])
  }

  // ------------------------------------------------------------------------------- calls

  /**
   A call has had effect `e` and returned `a`, or thrown; it is in sync if it has not thrown or if
   `lastly` says that it has thrown at the last reply.
   */
  ghost predicate Agrees(c: C.Client, e: Effect, lastly: bool, a: Option<Response>)
    reads c.ch, c.ch.net
  {
    && c.Settled() && Effect(c.Contents(), a) == e
    && (c.Synced() <==> a.Some? || lastly)
  }

  method CallSet(c: C.Client, key: string, value: string) returns (a: Option<Response>)
    requires c.Valid()
    modifies c.ch, c.ch.net
    ensures Agrees(c, Effect(old(c.Contents())[key := Entry(StrVal(value), None)], Some(Done)), true, a)
  {
    var _ := c.Set(key, value);
    return Some(Done);
  }

  method CallGet(c: C.Client, key: string) returns (a: Option<Response>)
    requires c.Valid()
    modifies c.ch, c.ch.net
    ensures Agrees(c, GetOnMap(old(c.Contents()), key), true, a)
  {
    var r := c.Get(key);
    return if r.Err? then None else Some(OneText(r.value));
  }

  method CallMset(c: C.Client, pairs: seq<(string, string)>) returns (a: Option<Response>)
    requires c.Valid()
    modifies c.ch, c.ch.net
    ensures Agrees(c, Effect(PutAll(old(c.Contents()), pairs), Some(Done)), true, a)
  {
    var _ := c.Mset(pairs);
    return Some(Done);
  }

  method CallMsetex(c: C.Client, pairs: seq<(string, string)>, seconds: int) returns (a: Option<Response>)
    requires c.Valid()
    modifies c.ch, c.ch.net
    ensures Agrees(c, MsetexOnMap(c.ch.env, old(c.Contents()), pairs, seconds), RepeatsLast(c.rt, pairs), a)
  {
    var r := c.Msetex(pairs, seconds);
    return if r.Err? then None else Some(Done);
  }

  method CallMget(c: C.Client, keys: seq<string>) returns (a: Option<Response>)
    requires c.Valid()
    modifies c.ch, c.ch.net
    ensures Agrees(c, Effect(old(c.Contents()), Some(ManyTexts(TextsAt(old(c.Contents()), keys)))), true, a)
  {
    var _, out := c.Mget(keys);
    assert out == TextsAt(old(c.Contents()), keys);
    return Some(ManyTexts(out));
  }

  method CallDel(c: C.Client, key: string) returns (a: Option<Response>)
    requires c.Valid()
    modifies c.ch, c.ch.net
    ensures Agrees(c, Effect(old(c.Contents()) - {key}, Some(Flag(key in old(c.Contents())))), true, a)
  {
    var r := c.Del(key);
    return Some(Flag(r.value));
  }

  method CallDelRange(c: C.Client, keys: seq<string>) returns (a: Option<Response>)
    requires c.Valid()
    modifies c.ch, c.ch.net
    ensures Agrees(c, DelRangeOnMap(old(c.Contents()), keys), true, a)
  {
    var r := c.DelRange(keys);
    return Some(Flag(r.value));
  }

  method CallType(c: C.Client, key: string) returns (a: Option<Response>)
    requires c.Valid()
    modifies c.ch, c.ch.net
    ensures Agrees(c, Effect(old(c.Contents()), Some(Kind(KeyTypeOf(old(c.Contents()), key)))), true, a)
  {
    var r := c.Type(key);
    return Some(Kind(r.value));
  }

  method CallDbsize(c: C.Client) returns (a: Option<Response>)
    requires c.Valid()
    modifies c.ch, c.ch.net
    ensures Agrees(c, Effect(old(c.Contents()), Some(Count(|old(c.Contents())|))), true, a)
  {
    var r := c.Dbsize();
    return Some(Count(r.value));
  }

  lemma FoundBehind(into: seq<string>, grown: seq<string>, names: set<string>)
    requires into <= grown && Enumerates(grown[|into|..], names)
    ensures Found(grown[..|into|], SetOf(grown[|into|..]), |grown| - |into|) == Found(into, names, |names|)
  {
    assert grown[..|into|] == into;
    assert SetOf(grown[|into|..]) == names;
  }

  method CallKeys(c: C.Client, pattern: string, into: seq<string>) returns (a: Option<Response>)
    requires c.Valid()
    modifies c.ch, c.ch.net
    ensures Agrees(c, KeysOnMap(c.ch.env, old(c.Contents()), pattern, into), true, a)
  {
    var n, grown := c.Keys(pattern, into);
    FoundBehind(into, grown, Matching(c.ch.env, old(c.Contents()), pattern));
    return Some(Found(grown[..|into|], SetOf(grown[|into|..]), n.value));
  }

  method CallRename(c: C.Client, key: string, dst: string) returns (a: Option<Response>)
    requires c.Valid()
    modifies c.ch, c.ch.net
    ensures Agrees(c, RenameOnMap(c.rt, c.ch.env, old(c.Contents()), key, dst), true, a)
  {
    var r := c.Rename(key, dst);
    return if r.Err? then None else Some(Done);
  }

  method CallRpush(c: C.Client, key: string, value: string) returns (a: Option<Response>)
    requires c.Valid()
    modifies c.ch, c.ch.net
    ensures Agrees(c, RpushOnMap(old(c.Contents()), key, value), true, a)
  {
    var r := c.Rpush(key, value);
    return if r.Err? then None else Some(Count(r.value));
  }

  method CallLrange(c: C.Client, key: string, start: int, stop: int, into: seq<string>) returns (a: Option<Response>)
    requires c.Valid()
    modifies c.ch, c.ch.net
    ensures Agrees(c, LrangeOnMap(old(c.Contents()), key, start, stop, into), true, a)
  {
    var r, grown := c.Lrange(key, start, stop, into);
    return if r.Err? then None else Some(Appended(grown, r.value));
  }

  method CallSadd(c: C.Client, key: string, member: string) returns (a: Option<Response>)
    requires c.Valid()
    modifies c.ch, c.ch.net
    ensures Agrees(c, SaddOnMap(old(c.Contents()), key, member), true, a)
  {
    var r := c.Sadd(key, member);
    return if r.Err? then None else Some(Flag(r.value));
  }

  method CallSaddRange(c: C.Client, key: string, members: seq<string>) returns (a: Option<Response>)
    requires c.Valid()
    modifies c.ch, c.ch.net
    ensures Agrees(c, SaddRangeOnMap(old(c.Contents()), key, members), |members| == 1, a)
  {
    var r := c.SaddRange(key, members);
    if r.Err? {
      c.UnreadOn(c.rt.Shard(key), Refusals(|members| - 1));
      return None;
    }
    return Some(Count(r.value));
  }

  method CallSrem(c: C.Client, key: string, member: string) returns (a: Option<Response>)
    requires c.Valid()
    modifies c.ch, c.ch.net
    ensures Agrees(c, SremOnMap(old(c.Contents()), key, member), true, a)
  {
    var r := c.Srem(key, member);
    return if r.Err? then None else Some(Done);
  }

  method CallSmove(c: C.Client, key: string, dst: string, member: string) returns (a: Option<Response>)
    requires c.Valid()
    modifies c.ch, c.ch.net
    ensures Agrees(c, SmoveOnMap(c.rt, old(c.Contents()), key, dst, member), true, a)
  {
    var r := c.Smove(key, dst, member);
    return if r.Err? then None else Some(Done);
  }

  method CallSmembers(c: C.Client, key: string, out: set<string>) returns (a: Option<Response>)
    requires c.Valid()
    modifies c.ch, c.ch.net
    ensures Agrees(c, SmembersOnMap(old(c.Contents()), key, out), true, a)
  {
    var r, grown := c.Smembers(key, out);
    return if r.Err? then None else Some(Gathered(grown, r.value));
  }

  method CallSinter(c: C.Client, keys: seq<string>, out: set<string>) returns (a: Option<Response>)
    requires c.Valid()
    modifies c.ch, c.ch.net
    ensures Agrees(c, SinterOnMap(old(c.Contents()), keys, out), ThrowsLast(c.rt, old(c.Contents()), keys), a)
  {
    var r, inter := c.Sinter(keys, out);
    return if r.Err? then None else Some(Gathered(inter, r.value));
  }

  method CallSunion(c: C.Client, keys: seq<string>, out: set<string>) returns (a: Option<Response>)
    requires c.Valid() && keys != []
    modifies c.ch, c.ch.net
    ensures Agrees(c, SunionOnMap(c.rt, old(c.Contents()), keys, out), ThrowsLast(c.rt, old(c.Contents()), keys), a)
  {
    var r, union := c.Sunion(keys, out);
    return if r.Err? then None else Some(Gathered(union, r.value));
  }

  method CallSinterstore(c: C.Client, dst: string, keys: seq<string>) returns (a: Option<Response>)
    requires c.Valid() && keys != []
    modifies c.ch, c.ch.net
    ensures Agrees(c, StoreOnMap(old(c.Contents()), dst, keys, Inter(old(c.Contents()), keys)),
                   ThrowsLast(c.rt, old(c.Contents()), keys), a)
  {
    StoreOutcome(c.ch.env, c.Contents(), dst, keys);
    var r := c.Sinterstore(dst, keys);
    return if r.Err? then None else Some(Count(r.value));
  }

  method CallSunionstore(c: C.Client, dst: string, keys: seq<string>) returns (a: Option<Response>)
    requires c.Valid() && keys != []
    modifies c.ch, c.ch.net
    ensures Agrees(c, StoreOnMap(old(c.Contents()), dst, keys, Union(old(c.Contents()), keys)),
                   ThrowsLast(c.rt, old(c.Contents()), keys), a)
  {
    StoreOutcome(c.ch.env, c.Contents(), dst, keys);
    var r := c.Sunionstore(dst, keys);
    return if r.Err? then None else Some(Count(r.value));
  }

  /** One command on its shard is that command on the whole map. */
  lemma ExecIsLogical(env: Env, rt: Router, hosts: seq<Host>, job: Job)
    requires rt.Valid() && |hosts| == rt.n && Placed(rt, Stores(hosts)) && Homely(rt, job)
    requires forall i :: 0 <= i < rt.n ==> HostProper(hosts[i])
    ensures var s := rt.Shard(job.key);
            var a := Step(env, hosts[s], job.lines);
            var after := Stores(hosts[s := a.host]);
            && HostProper(a.host) && Placed(rt, after) && DataOf(a.reply).Ok?
            && ExecOnMap(env, Logical(rt, Stores(hosts)), [job])
               == Effect(Logical(rt, after), Some(Replied([job.(reply := DataOf(a.reply).value)])))
  {
    var req, st := RequestOf(job.lines), Logical(rt, Stores(hosts));
    StepLogical(env, rt, hosts, job);
    assert HostProper(hosts[rt.Shard(job.key)]);
    ExecuteProper(env, hosts[rt.Shard(job.key)].store, req);
    ExecOne(env, st, job);
  }

  lemma ExecOne(env: Env, st: Store, job: Job)
    ensures var o := Execute(env, st, RequestOf(job.lines));
            && DataOf(o.reply).Ok?
            && ExecOnMap(env, st, [job]) == Effect(o.store, Some(Replied([job.(reply := DataOf(o.reply).value)])))
  {
    var req := RequestOf(job.lines);
    assert RequestsOf(LinesIn([job])) == [req];
    ExecuteOne(env, st, req);
    ExecuteReplies(env, st, req);
    var reply := Execute(env, st, req).reply;
    GoodReplyHasData(reply);
    assert AllHaveData([reply]);
    assert WithReplies([job], [reply]) == [job.(reply := DataOf(reply).value)];
  }

  method CallExec(c: C.Client, job: Job) returns (a: Option<Response>)
    requires c.Valid() && Homely(c.rt, job)
    modifies c.ch, c.ch.net
    ensures Agrees(c, ExecOnMap(c.ch.env, old(c.Contents()), [job]), true, a)
  {
    ExecIsLogical(c.ch.env, c.rt, c.ch.hosts, job);
    var r := c.Exec(job);
    return Some(Replied([r.value]));
  }

  method CallExecAll(c: C.Client, jobs: seq<Job>) returns (a: Option<Response>)
    requires c.Valid() && AllHomely(c.rt, jobs)
    modifies c.ch, c.ch.net
    ensures Agrees(c, ExecOnMap(c.ch.env, old(c.Contents()), jobs), true, a)
  {
    RunIsLogical(c.ch.env, c.rt, c.ch.hosts, jobs);
    RunJobsProper(c.ch.env, c.rt, c.ch.hosts, jobs);
    ExecAnswers(c.ch.env, c.Contents(), jobs);
    var r, _, _ := c.ExecAll(jobs);
    return Some(Replied(r.value));
  }

  lemma TransactionFits(rt: Router, jobs: seq<Job>)
    requires rt.Valid() && AllHomely(rt, jobs) && jobs != [] && SameHome(rt, jobs)
    ensures NoControl(LinesIn(jobs)) && AllOnShard(rt, rt.Shard(jobs[0].key), RequestsOf(LinesIn(jobs)))
  {}

  /** A transaction on one shard is the same list of commands on the whole map. */
  lemma TransactionIsLogical(env: Env, rt: Router, hosts: seq<Host>, jobs: seq<Job>)
    requires rt.Valid() && |hosts| == rt.n && Placed(rt, Stores(hosts))
    requires AllHomely(rt, jobs) && jobs != [] && SameHome(rt, jobs)
    requires Proper(hosts[rt.Shard(jobs[0].key)].store)
    ensures var s := rt.Shard(jobs[0].key);
            var o := ExecuteAll(env, hosts[s].store, RequestsOf(LinesIn(jobs)));
            var after := Stores(hosts[s := Host(o.state, None)]);
            && Proper(o.state) && Placed(rt, after) && |o.replies| == |jobs| && AllHaveData(o.replies)
            && ExecOnMap(env, Logical(rt, Stores(hosts)), jobs)
               == Effect(Logical(rt, after), Some(Replied(WithReplies(jobs, o.replies))))
  {
    var s, reqs := rt.Shard(jobs[0].key), RequestsOf(LinesIn(jobs));
    TransactionFits(rt, jobs);
    AloneIsLogical(env, rt, hosts, s, reqs);
    ExecuteAllProper(env, hosts[s].store, reqs);
    ExecAnswers(env, Logical(rt, Stores(hosts)), jobs);
  }

  /** A transaction with a command the server does not know leaves its server as it was. */
  lemma TransactionAborted(env: Env, rt: Router, hosts: seq<Host>, jobs: seq<Job>)
    requires rt.Valid() && |hosts| == rt.n
    requires AllHomely(rt, jobs) && jobs != [] && SameHome(rt, jobs) && !AllQueueable(LinesIn(jobs))
    requires hosts[rt.Shard(jobs[0].key)].queue.None?
    ensures var s := rt.Shard(jobs[0].key);
            hosts[s := Serve(env, hosts[s], TransactionLines(LinesIn(jobs))).state] == hosts
  {
    TransactionFits(rt, jobs);
    Aborts(env, hosts[rt.Shard(jobs[0].key)], LinesIn(jobs));
  }

  method CallCommitted(c: C.Client, jobs: seq<Job>) returns (a: Option<Response>)
    requires c.Valid() && AllHomely(c.rt, jobs) && jobs != [] && SameHome(c.rt, jobs) && AllQueueable(LinesIn(jobs))
    modifies c.ch, c.ch.net
    ensures Agrees(c, ExecOnMap(c.ch.env, old(c.Contents()), jobs), false, a) && a.Some?
  {
    TransactionIsLogical(c.ch.env, c.rt, c.ch.hosts, jobs);
    var r := c.ExecTransaction(jobs);
    return Some(Replied(r.value));
  }

  method CallAborted(c: C.Client, jobs: seq<Job>)
    requires c.Valid() && AllHomely(c.rt, jobs) && jobs != [] && SameHome(c.rt, jobs) && !AllQueueable(LinesIn(jobs))
    modifies c.ch, c.ch.net
    ensures Agrees(c, Effect(old(c.Contents()), None), false, None)
  {
    TransactionAborted(c.ch.env, c.rt, c.ch.hosts, jobs);
    var _ := c.ExecTransaction(jobs);
  }

  method CallTransaction(c: C.Client, jobs: seq<Job>) returns (a: Option<Response>)
    requires c.Valid() && AllHomely(c.rt, jobs)
    modifies c.ch, c.ch.net
    ensures Agrees(c, TransactionOnMap(c.rt, c.ch.env, old(c.Contents()), jobs), jobs == [] || !SameHome(c.rt, jobs), a)
  {
    if jobs == [] || !SameHome(c.rt, jobs) {
      var _ := c.ExecTransaction(jobs);
      a := None;
    } else if AllQueueable(LinesIn(jobs)) {
      a := CallCommitted(c, jobs);
    } else {
      CallAborted(c, jobs);
      a := None;
    }
  }

  predicate OnStrings(op: Op) {
    op.DoSet? || op.DoGet? || op.DoMset? || op.DoMsetex? || op.DoMget?
  }

  predicate OnKeys(op: Op) {
    || op.DoDel? || op.DoDelRange? || op.DoType? || op.DoDbsize?
    || op.DoKeys? || op.DoRename? || op.DoRpush? || op.DoLrange?
  }

  predicate OnSets(op: Op) {
    || op.DoSadd? || op.DoSaddRange? || op.DoSrem? || op.DoSmove? || op.DoSmembers?
    || op.DoSinter? || op.DoSunion? || op.DoSinterstore? || op.DoSunionstore?
  }

  method CallOnStrings(c: C.Client, op: Op) returns (a: Option<Response>)
    requires c.Valid() && Allowed(c.rt, op) && OnStrings(op)
    modifies c.ch, c.ch.net
    ensures Agrees(c, OnMap(c.rt, c.ch.env, old(c.Contents()), op), ThrowsInSync(c.rt, old(c.Contents()), op), a)
  {
    match op {
      case DoSet(key, value) => a := CallSet(c, key, value);
      case DoGet(key) => a := CallGet(c, key);
      case DoMset(pairs) => a := CallMset(c, pairs);
      case DoMsetex(pairs, seconds) => a := CallMsetex(c, pairs, seconds);
      case DoMget(keys) => a := CallMget(c, keys);
    }
  }

  method CallOnKeys(c: C.Client, op: Op) returns (a: Option<Response>)
    requires c.Valid() && Allowed(c.rt, op) && OnKeys(op)
    modifies c.ch, c.ch.net
    ensures Agrees(c, OnMap(c.rt, c.ch.env, old(c.Contents()), op), ThrowsInSync(c.rt, old(c.Contents()), op), a)
  {
    match op {
      case DoDel(key) => a := CallDel(c, key);
      case DoDelRange(keys) => a := CallDelRange(c, keys);
      case DoType(key) => a := CallType(c, key);
      case DoDbsize => a := CallDbsize(c);
      case DoKeys(pattern, into) => a := CallKeys(c, pattern, into);
      case DoRename(key, dst) => a := CallRename(c, key, dst);
      case DoRpush(key, value) => a := CallRpush(c, key, value);
      case DoLrange(key, start, stop, into) => a := CallLrange(c, key, start, stop, into);
    }
  }

  method CallOnSets(c: C.Client, op: Op) returns (a: Option<Response>)
    requires c.Valid() && Allowed(c.rt, op) && OnSets(op)
    modifies c.ch, c.ch.net
    ensures Agrees(c, OnMap(c.rt, c.ch.env, old(c.Contents()), op), ThrowsInSync(c.rt, old(c.Contents()), op), a)
  {
    match op {
      case DoSadd(key, member) => a := CallSadd(c, key, member);
      case DoSaddRange(key, members) => a := CallSaddRange(c, key, members);
      case DoSrem(key, member) => a := CallSrem(c, key, member);
      case DoSmove(key, dst, member) => a := CallSmove(c, key, dst, member);
      case DoSmembers(key, out) => a := CallSmembers(c, key, out);
      case DoSinter(keys, out) => a := CallSinter(c, keys, out);
      case DoSunion(keys, out) => a := CallSunion(c, keys, out);
      case DoSinterstore(dst, keys) => a := CallSinterstore(c, dst, keys);
      case DoSunionstore(dst, keys) => a := CallSunionstore(c, dst, keys);
    }
  }

  method Call(c: C.Client, op: Op) returns (a: Option<Response>)
    requires c.Valid() && Allowed(c.rt, op)
    modifies c.ch, c.ch.net
    ensures Agrees(c, OnMap(c.rt, c.ch.env, old(c.Contents()), op), ThrowsInSync(c.rt, old(c.Contents()), op), a)
  {
    if OnStrings(op) {
      a := CallOnStrings(c, op);
    } else if OnKeys(op) {
      a := CallOnKeys(c, op);
    } else if OnSets(op) {
      a := CallOnSets(c, op);
    } else {
      match op {
        case DoExec(job) => a := CallExec(c, job);
        case DoExecAll(jobs) => a := CallExecAll(c, jobs);
        case DoTransaction(jobs) => a := CallTransaction(c, jobs);
      }
    }
  }

  // ------------------------------------------------------------------------------- runs

  lemma TranscriptNext(rt: Router, env: Env, st: Store, ops: seq<Op>, i: nat)
    requires rt.Valid() && i < |ops| && !RunOnMap(rt, env, st, ops[..i]).threw
    ensures var before := RunOnMap(rt, env, st, ops[..i]);
            var e := OnMap(rt, env, before.store, ops[i]);
            && (e.response.Some? ==>
                  RunOnMap(rt, env, st, ops[..i + 1])
                  == Transcript(e.store, before.responses + [e.response.value], false))
            && (e.response.None? ==> RunOnMap(rt, env, st, ops[..i + 1]) == Transcript(e.store, before.responses, true))
            && (RunKeepsSync(rt, env, st, ops[..i + 1]) <==> KeepsSync(rt, env, before.store, ops[i]))
  {
    assert ops[..i + 1][..i] == ops[..i];
  }

  lemma {:induction false} RunStops(rt: Router, env: Env, st: Store, ops: seq<Op>, i: nat)
    requires rt.Valid() && i <= |ops| && RunOnMap(rt, env, st, ops[..i]).threw
    ensures RunOnMap(rt, env, st, ops) == RunOnMap(rt, env, st, ops[..i])
    ensures RunKeepsSync(rt, env, st, ops) == RunKeepsSync(rt, env, st, ops[..i])
  {
    if i < |ops| {
      assert ops[..|ops| - 1][..i] == ops[..i];
      RunStops(rt, env, st, ops[..|ops| - 1], i);
    } else {
      assert ops[..i] == ops;
    }
  }

  lemma {:induction false} NormalRunsKeepSync(rt: Router, env: Env, st: Store, ops: seq<Op>)
    requires rt.Valid() && !RunOnMap(rt, env, st, ops).threw
    ensures RunKeepsSync(rt, env, st, ops)
  {
    if ops != [] {
      NormalRunsKeepSync(rt, env, st, ops[..|ops| - 1]);
    }
  }

  /**
   Any sequence of calls over any number of servers gives the responses of the run on one map, throws
   where that throws, and leaves its store. Afterwards every key is on its shard, and the connections
   are in sync exactly when the run on the map says so: always if no call has thrown, and after an
   exception if it came with the last reply. Then the next run can start.
   */
  method RunSession(c: C.Client, ops: seq<Op>) returns (responses: seq<Response>, threw: bool)
    requires c.Valid() && forall i :: 0 <= i < |ops| ==> Allowed(c.rt, ops[i])
    modifies c.ch, c.ch.net
    ensures c.Settled()
    ensures Transcript(c.Contents(), responses, threw) == RunOnMap(c.rt, c.ch.env, old(c.Contents()), ops)
    ensures c.Valid() <==> RunKeepsSync(c.rt, c.ch.env, old(c.Contents()), ops)
    ensures !threw ==> c.Valid()
  {
    ghost var st := c.Contents();
    responses, threw := [], false;
    for i := 0 to |ops|
      invariant c.Valid() && !threw
      invariant Transcript(c.Contents(), responses, false) == RunOnMap(c.rt, c.ch.env, st, ops[..i])
    {
      TranscriptNext(c.rt, c.ch.env, st, ops, i);
      var a := Call(c, ops[i]);
      if a.None? {
        threw := true;
        RunStops(c.rt, c.ch.env, st, ops, i + 1);
        return;
      }
      responses := responses + [a.value];
    }
    assert ops[..|ops|] == ops;
    NormalRunsKeepSync(c.rt, c.ch.env, st, ops);
  }

  // ------------------------------------------------------------------------------- one server

  /** A call whose effect and answer do not depend on how keys are spread over servers. */
  predicate Harmless(rt: Router, st: Store, op: Op)
    requires rt.Valid()
  {
    match op
    case DoRename(key, dst) =>
      rt.Shard(key) == rt.Shard(dst) || (Movable(st, key) && st[key].ttl.None?)
    case DoSmove(key, dst, member) =>
      rt.Shard(key) == rt.Shard(dst) || !(member in Members(st, key) && !HoldsSet(st, dst))
    case DoSunion(keys, out) => keys == [] || OneHome(rt, keys) || !AllHoldSets(st, keys) || out <= Union(st, keys)
    case DoTransaction(jobs) => jobs == [] || SameHome(rt, jobs) || !AllQueueable(LinesIn(jobs))
    case _ => true
  }

  predicate HarmlessRun(rt: Router, env: Env, st: Store, ops: seq<Op>)
    requires rt.Valid()
  {
    ops == [] || (HarmlessRun(rt, env, st, ops[..|ops| - 1])
                  && Harmless(rt, RunOnMap(rt, env, st, ops[..|ops| - 1]).store, ops[|ops| - 1]))
  }

  /** The exact condition under which one call over several servers is the call on one server. */
  lemma CallIsSingle(rt: Router, one: Router, env: Env, st: Store, op: Op)
    requires rt.Valid() && one.n == 1
    ensures OnMap(rt, env, st, op) == OnMap(one, env, st, op) <==> Harmless(rt, st, op)
  {
    if op.DoRename? && rt.Shard(op.key) != rt.Shard(op.dst) {
      RenameAgreesExactly(rt, env, st, op.key, op.dst);
    }
    if op.DoSmove? && rt.Shard(op.key) != rt.Shard(op.dst) {
      SmoveAgreesExactly(rt, st, op.key, op.dst, op.member);
    }
    if op.DoSunion? && op.keys != [] {
      SunionCountAgreesExactly(rt, st, op.keys, op.out);
    }
    if op.DoTransaction? {
      ExecAnswers(env, st, op.jobs);
    }
  }

  /** A run of calls that do not depend on the sharding is the run over a single server. */
  lemma {:induction false} ShardingIsInvisible(rt: Router, one: Router, env: Env, st: Store, ops: seq<Op>)
    requires rt.Valid() && one.n == 1 && HarmlessRun(rt, env, st, ops)
    ensures RunOnMap(rt, env, st, ops) == RunOnMap(one, env, st, ops)
  {
    if ops != [] {
      var front := ops[..|ops| - 1];
      ShardingIsInvisible(rt, one, env, st, front);
      CallIsSingle(rt, one, env, RunOnMap(rt, env, st, front).store, ops[|ops| - 1]);
    }
  }
}
