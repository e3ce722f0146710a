/** What every request keeps, and that a request depends on nothing but the keys it names. */
module ServerLaws {
  import opened Prelude
  import opened Resp
  import opened RespLaws
  import opened Server

  // ------------------------------------------------------------------------------- replies

  predicate FlatReply(r: Reply) {
    r.Array? ==> FlatItems(r.items)
  }

  /** A reply the client can store: it fits on the wire and `recv_generic_reply_` accepts it. */
  predicate GoodReply(r: Reply) {
    WireSafe(r) && FlatReply(r) && (r.Error? ==> |r.text| >= 4)
  }

  lemma GoodReplyHasData(r: Reply)
    requires GoodReply(r)
    ensures DataOf(r).Ok?
  {}

  lemma StatusesAreSafe()
    ensures GoodReply(OK) && GoodReply(QUEUED)
  {}

  lemma ErrorsAreSafe()
    ensures GoodReply(WRONG_TYPE) && GoodReply(NO_SUCH_KEY) && GoodReply(UNKNOWN_COMMAND)
  {
    assert '\n' !in WRONG_TYPE.text;
    assert '\n' !in NO_SUCH_KEY.text;
    assert '\n' !in UNKNOWN_COMMAND.text;
  }

  lemma QueueErrorsAreSafe()
    ensures GoodReply(NO_MULTI) && GoodReply(NESTED_MULTI) && GoodReply(EXEC_ABORT)
  {
    assert '\n' !in NO_MULTI.text;
    assert '\n' !in NESTED_MULTI.text;
    assert '\n' !in EXEC_ABORT.text;
  }

  lemma TypeNameIsSafe(st: Store, key: string)
    ensures LineSafe(TypeName(st, key))
  {}

  lemma FlatIsSafe(items: seq<Reply>)
    requires FlatItems(items)
    ensures GoodReply(Array(items))
  {
    forall i | 0 <= i < |items| ensures WireSafe(items[i]) {
      assert BulkLike(items[i]);
    }
  }

  lemma GetReply(env: Env, st: Store, key: string)
    ensures GoodReply(Execute(env, st, GET(key)).reply)
  {
    ErrorsAreSafe();
  }

  lemma ArrayReply(env: Env, st: Store, req: Request)
    requires Execute(env, st, req).reply.Array?
    ensures FlatItems(Execute(env, st, req).reply.items)
  {}

  lemma OtherReply(env: Env, st: Store, req: Request)
    requires !Execute(env, st, req).reply.Array? && !req.GET? && !req.TYPE?
    ensures var r := Execute(env, st, req).reply;
            r.Integer? || r == OK || r == WRONG_TYPE || r == NO_SUCH_KEY || r == UNKNOWN_COMMAND
  {}

  /** Every request answers with a reply that survives the wire. */
  lemma ExecuteReplies(env: Env, st: Store, req: Request)
    ensures GoodReply(Execute(env, st, req).reply)
  {
    var r := Execute(env, st, req).reply;
    if r.Array? {
      ArrayReply(env, st, req);
      FlatIsSafe(r.items);
    } else if req.GET? {
      GetReply(env, st, req.key);
    } else if req.TYPE? {
      TypeNameIsSafe(st, req.key);
    } else {
      OtherReply(env, st, req);
      StatusesAreSafe();
      ErrorsAreSafe();
    }
  }

  lemma {:induction false} ExecuteAllReplies(env: Env, st: Store, reqs: seq<Request>)
    ensures |ExecuteAll(env, st, reqs).replies| == |reqs|
    ensures forall i :: 0 <= i < |reqs| ==> GoodReply(ExecuteAll(env, st, reqs).replies[i])
  {
    if reqs != [] {
      var front := reqs[..|reqs| - 1];
      ExecuteAllReplies(env, st, front);
      ExecuteReplies(env, ExecuteAll(env, st, front).state, reqs[|reqs| - 1]);
    }
  }

  lemma StepReplies(env: Env, host: Host, lines: Command)
    ensures WireSafe(Step(env, host, lines).reply)
  {
    StatusesAreSafe();
    ErrorsAreSafe();
    QueueErrorsAreSafe();
    ExecuteReplies(env, host.store, RequestOf(lines));
    if host.queue.Some? {
      ExecuteAllReplies(env, host.store, host.queue.value);
    }
  }

  /** Outside a transaction every command has a reply that the client can store. */
  lemma StepHasData(env: Env, host: Host, lines: Command)
    requires host.queue.None?
    ensures DataOf(Step(env, host, lines).reply).Ok?
  {
    StatusesAreSafe();
    QueueErrorsAreSafe();
    ExecuteReplies(env, host.store, RequestOf(lines));
    GoodReplyHasData(Step(env, host, lines).reply);
  }

  /** One reply per command, each of which survives the wire. */
  lemma {:induction false} ServeReplies(env: Env, host: Host, cmds: seq<Command>)
    ensures |Serve(env, host, cmds).replies| == |cmds|
    ensures AllWireSafe(Serve(env, host, cmds).replies)
  {
    if cmds != [] {
      var front := cmds[..|cmds| - 1];
      ServeReplies(env, host, front);
      StepReplies(env, Serve(env, host, front).state, cmds[|cmds| - 1]);
    }
  }

  // ------------------------------------------------------------------------------- runs

  lemma AppendNext<T>(a: seq<T>, b: seq<T>)
    requires b != []
    ensures (a + b)[..|a + b| - 1] == a + b[..|b| - 1] && (a + b)[|a + b| - 1] == b[|b| - 1]
  {}

  lemma AddLast<T>(a: seq<T>, b: seq<T>, x: T)
    ensures a + b + [x] == a + (b + [x])
  {}

  lemma {:induction false} ExecuteAllAppend(env: Env, st: Store, a: seq<Request>, b: seq<Request>)
    ensures var p := ExecuteAll(env, st, a);
            var q := ExecuteAll(env, p.state, b);
            ExecuteAll(env, st, a + b) == Progress(q.state, p.replies + q.replies)
    decreases |b|
  {
    if b == [] {
      assert a + b == a;
    } else {
      var front, last := b[..|b| - 1], b[|b| - 1];
      ExecuteAllAppend(env, st, a, front);
      AppendNext(a, b);
      var p := ExecuteAll(env, st, a);
      var q := ExecuteAll(env, p.state, front);
      AddLast(p.replies, q.replies, Execute(env, q.state, last).reply);
    }
  }

  function LinesOfAll(reqs: seq<Request>): (cmds: seq<Command>)
    ensures |cmds| == |reqs|
  {
    seq(|reqs|, i requires 0 <= i < |reqs| => LinesOf(reqs[i]))
  }

  /** Outside a transaction, serving commands is executing the requests they stand for. */
  lemma {:induction false} ServeRequests(env: Env, host: Host, reqs: seq<Request>)
    requires host.queue.None?
    requires forall i :: 0 <= i < |reqs| ==> WellFormed(reqs[i]) && Queueable(reqs[i])
    ensures var o := ExecuteAll(env, host.store, reqs);
            Serve(env, host, LinesOfAll(reqs)) == Progress(Host(o.state, None), o.replies)
  {
    if reqs != [] {
      var front, last := reqs[..|reqs| - 1], reqs[|reqs| - 1];
      ServeRequests(env, host, front);
      assert LinesOfAll(reqs)[..|reqs| - 1] == LinesOfAll(front);
      Understood(last);
    }
  }

  lemma ExecuteOne(env: Env, st: Store, req: Request)
    ensures ExecuteAll(env, st, [req])
         == Progress(Execute(env, st, req).store, [Execute(env, st, req).reply])
  {
    assert [req][..0] == [];
  }

  // ------------------------------------------------------------------------------- invariant

  /** No key holds an empty list or an empty set. */
  predicate Proper(st: Store) {
    forall k :: k in st ==> st[k].value != ListVal([]) && st[k].value != SetVal({})
  }

  lemma {:induction false} PutAllProper(st: Store, pairs: seq<(string, string)>)
    requires Proper(st)
    ensures Proper(PutAll(st, pairs))
  {
    if pairs != [] {
      PutAllProper(st, pairs[..|pairs| - 1]);
    }
  }

  lemma PutSetProper(st: Store, key: string, members: set<string>)
    requires Proper(st)
    ensures Proper(PutSet(st, key, members))
  {}

  lemma SetWritesProper(st: Store, key: string, dst: string, member: string)
    requires Proper(st)
    ensures Proper(ExecuteSAdd(st, key, member).store) && Proper(ExecuteSRem(st, key, member).store)
    ensures Proper(ExecuteSMove(st, key, dst, member).store)
  {
    PutSetProper(st, key, Members(st, key) + {member});
    PutSetProper(st, key, Members(st, key) - {member});
    var removed := ExecuteSRem(st, key, member).store;
    PutSetProper(removed, dst, Members(removed, dst) + {member});
  }

  lemma ExecuteStoreProper(st: Store, dst: string, keys: seq<string>, members: set<string>)
    requires Proper(st)
    ensures Proper(ExecuteStore(st, dst, keys, members).store)
  {
    PutSetProper(st - {dst}, dst, members);
  }

  lemma RPushProper(st: Store, key: string, value: string)
    requires Proper(st)
    ensures Proper(ExecuteRPush(st, key, value).store)
  {}

  lemma KeyWritesProper(env: Env, st: Store, req: Request)
    requires Proper(st) && (req.SET? || req.EXPIRE? || req.DEL? || req.RENAME?)
    ensures Proper(Execute(env, st, req).store)
  {}

  /** Every request keeps the stores free of empty lists and sets. */
  lemma ExecuteProper(env: Env, st: Store, req: Request)
    requires Proper(st)
    ensures Proper(Execute(env, st, req).store)
  {
    if req.MSET? {
      PutAllProper(st, req.pairs);
    } else if req.SET? || req.EXPIRE? || req.DEL? || req.RENAME? {
      KeyWritesProper(env, st, req);
    } else if req.RPUSH? {
      RPushProper(st, req.key, req.value);
    } else if req.SADD? || req.SREM? {
      SetWritesProper(st, req.key, req.key, req.value);
    } else if req.SMOVE? {
      SetWritesProper(st, req.key, req.dst, req.value);
    } else if req.SINTERSTORE? {
      ExecuteStoreProper(st, req.dst, req.keys, Inter(st, req.keys));
    } else if req.SUNIONSTORE? {
      ExecuteStoreProper(st, req.dst, req.keys, Union(st, req.keys));
    }
  }

  // ------------------------------------------------------------------------------- locality

  /** The keys a request names; `KEYS` and `DBSIZE` concern the whole store. */
  function KeysOf(req: Request): set<string> {
    match req
    case MSET(pairs) => set p | p in pairs :: p.0
    case MGET(keys) => SetOf(keys)
    case DEL(keys) => SetOf(keys)
    case SINTER(keys) => SetOf(keys)
    case SUNION(keys) => SetOf(keys)
    case SINTERSTORE(dst, keys) => {dst} + SetOf(keys)
    case SUNIONSTORE(dst, keys) => {dst} + SetOf(keys)
    case RENAME(key, dst) => {key, dst}
    case SMOVE(key, dst, _) => {key, dst}
    case KEYS(_) => {}
    case DBSIZE => {}
    case MULTI => {}
    case EXEC => {}
    case UNKNOWN(_) => {}
    case _ => {req.key}
  }

  predicate Local(req: Request) {
    !req.KEYS? && !req.DBSIZE?
  }

  ghost predicate Agree(a: Store, b: Store, keys: set<string>) {
    forall k :: k in keys ==> Lookup(a, k) == Lookup(b, k)
  }

  lemma {:induction false} PutAllAt(st: Store, pairs: seq<(string, string)>, k: string)
    ensures (forall i :: 0 <= i < |pairs| ==> pairs[i].0 != k) ==> Lookup(PutAll(st, pairs), k) == Lookup(st, k)
  {
    if pairs != [] {
      PutAllAt(st, pairs[..|pairs| - 1], k);
    }
  }

  lemma {:induction false} PutAllAgree(a: Store, b: Store, pairs: seq<(string, string)>, k: string)
    requires Lookup(a, k) == Lookup(b, k)
    ensures Lookup(PutAll(a, pairs), k) == Lookup(PutAll(b, pairs), k)
  {
    if pairs != [] {
      PutAllAgree(a, b, pairs[..|pairs| - 1], k);
    }
  }

  ghost predicate SameEffect(a: Store, b: Store, keys: set<string>, oa: Outcome, ob: Outcome) {
    && oa.reply == ob.reply
    && Agree(oa.store, ob.store, keys)
    && (forall k :: k !in keys ==> Lookup(oa.store, k) == Lookup(a, k))
    && (forall k :: k !in keys ==> Lookup(ob.store, k) == Lookup(b, k))
  }

  lemma MembersAgree(a: Store, b: Store, keys: seq<string>)
    requires Agree(a, b, SetOf(keys))
    ensures AllHoldSets(a, keys) == AllHoldSets(b, keys)
    ensures Inter(a, keys) == Inter(b, keys) && Union(a, keys) == Union(b, keys)
  {
    forall k | k in keys
      ensures Members(a, k) == Members(b, k) && HoldsSet(a, k) == HoldsSet(b, k)
    {
      assert k in SetOf(keys);
      assert Lookup(a, k) == Lookup(b, k);
    }
    if keys != [] {
      assert keys[0] in keys;
      assert Inter(a, keys) == Inter(b, keys);
    }
    assert Union(a, keys) == Union(b, keys);
  }

  lemma LocalMset(env: Env, a: Store, b: Store, req: Request)
    requires req.MSET? && Agree(a, b, KeysOf(req))
    ensures SameEffect(a, b, KeysOf(req), Execute(env, a, req), Execute(env, b, req))
  {
    forall k | Lookup(a, k) == Lookup(b, k) ensures Lookup(PutAll(a, req.pairs), k) == Lookup(PutAll(b, req.pairs), k) {
      PutAllAgree(a, b, req.pairs, k);
    }
    forall k | k !in KeysOf(req)
      ensures Lookup(PutAll(a, req.pairs), k) == Lookup(a, k)
      ensures Lookup(PutAll(b, req.pairs), k) == Lookup(b, k)
    {
      forall i | 0 <= i < |req.pairs| ensures req.pairs[i].0 != k {
        assert req.pairs[i] in req.pairs;
      }
      PutAllAt(a, req.pairs, k);
      PutAllAt(b, req.pairs, k);
    }
  }

  lemma LocalMget(a: Store, b: Store, keys: seq<string>)
    requires Agree(a, b, SetOf(keys))
    ensures Items(a, keys) == Items(b, keys)
  {
    forall i | 0 <= i < |keys| ensures Item(a, keys[i]) == Item(b, keys[i]) {
      assert keys[i] in SetOf(keys);
      assert Lookup(a, keys[i]) == Lookup(b, keys[i]);
    }
  }

  lemma WithoutKeys(st: Store, keys: set<string>)
    ensures forall k :: Lookup(st - keys, k) == if k in keys then None else Lookup(st, k)
  {}

  lemma SameHits(a: Store, b: Store, keys: set<string>)
    requires Agree(a, b, keys)
    ensures |keys * a.Keys| == |keys * b.Keys|
  {
    forall k | k in keys ensures k in a.Keys <==> k in b.Keys {
      assert Lookup(a, k) == Lookup(b, k);
    }
    assert keys * a.Keys == keys * b.Keys;
  }

  lemma LocalStore(a: Store, b: Store, dst: string, keys: seq<string>, members: set<string>)
    requires AllHoldSets(a, keys) == AllHoldSets(b, keys)
    requires Agree(a, b, {dst} + SetOf(keys))
    ensures SameEffect(a, b, {dst} + SetOf(keys),
                       ExecuteStore(a, dst, keys, members), ExecuteStore(b, dst, keys, members))
  {}

  lemma LocalSets(env: Env, a: Store, b: Store, req: Request)
    requires req.SINTER? || req.SUNION?
    requires Agree(a, b, KeysOf(req))
    ensures SameEffect(a, b, KeysOf(req), Execute(env, a, req), Execute(env, b, req))
  {
    assert Agree(a, b, SetOf(req.keys));
    MembersAgree(a, b, req.keys);
  }

  lemma LocalMove(a: Store, b: Store, src: string, dst: string, member: string)
    requires Agree(a, b, {src, dst})
    ensures SameEffect(a, b, {src, dst}, ExecuteSMove(a, src, dst, member), ExecuteSMove(b, src, dst, member))
  {
    assert Lookup(a, src) == Lookup(b, src) && Lookup(a, dst) == Lookup(b, dst);
  }

  lemma LocalRename(env: Env, a: Store, b: Store, req: Request)
    requires req.RENAME? && Agree(a, b, KeysOf(req))
    ensures SameEffect(a, b, KeysOf(req), Execute(env, a, req), Execute(env, b, req))
  {
    assert Lookup(a, req.key) == Lookup(b, req.key) && Lookup(a, req.dst) == Lookup(b, req.dst);
  }

  predicate OneKeyRead(req: Request) {
    req.GET? || req.TYPE? || req.LRANGE? || req.SMEMBERS?
  }

  predicate OneKeyWrite(req: Request) {
    req.SET? || req.EXPIRE? || req.RPUSH?
  }

  lemma LocalOneKeyRead(env: Env, a: Store, b: Store, req: Request)
    requires OneKeyRead(req) && Agree(a, b, KeysOf(req))
    ensures SameEffect(a, b, KeysOf(req), Execute(env, a, req), Execute(env, b, req))
  {
    assert Lookup(a, req.key) == Lookup(b, req.key);
  }

  lemma LocalOneKeyWrite(env: Env, a: Store, b: Store, req: Request)
    requires OneKeyWrite(req) && Agree(a, b, KeysOf(req))
    ensures SameEffect(a, b, KeysOf(req), Execute(env, a, req), Execute(env, b, req))
  {
    assert Lookup(a, req.key) == Lookup(b, req.key);
  }

  lemma LocalSetWrite(env: Env, a: Store, b: Store, req: Request)
    requires (req.SADD? || req.SREM?) && Agree(a, b, KeysOf(req))
    ensures SameEffect(a, b, KeysOf(req), Execute(env, a, req), Execute(env, b, req))
  {
    assert Lookup(a, req.key) == Lookup(b, req.key);
  }

  lemma LocalMgetRequest(env: Env, a: Store, b: Store, keys: seq<string>)
    requires Agree(a, b, SetOf(keys))
    ensures SameEffect(a, b, SetOf(keys), Execute(env, a, MGET(keys)), Execute(env, b, MGET(keys)))
  {
    LocalMget(a, b, keys);
  }

  lemma LocalDelRequest(env: Env, a: Store, b: Store, keys: seq<string>)
    requires Agree(a, b, SetOf(keys))
    ensures SameEffect(a, b, SetOf(keys), Execute(env, a, DEL(keys)), Execute(env, b, DEL(keys)))
  {
    SameHits(a, b, SetOf(keys));
    WithoutKeys(a, SetOf(keys));
    WithoutKeys(b, SetOf(keys));
  }

  lemma LocalSetMove(env: Env, a: Store, b: Store, req: Request)
    requires req.SMOVE?
    requires Agree(a, b, KeysOf(req))
    ensures SameEffect(a, b, KeysOf(req), Execute(env, a, req), Execute(env, b, req))
  {
    LocalMove(a, b, req.key, req.dst, req.value);
  }

  lemma LocalSetStore(env: Env, a: Store, b: Store, req: Request)
    requires req.SINTERSTORE? || req.SUNIONSTORE?
    requires Agree(a, b, KeysOf(req))
    ensures SameEffect(a, b, KeysOf(req), Execute(env, a, req), Execute(env, b, req))
  {
    assert Agree(a, b, SetOf(req.keys));
    MembersAgree(a, b, req.keys);
    LocalStore(a, b, req.dst, req.keys, if req.SINTERSTORE? then Inter(a, req.keys) else Union(a, req.keys));
  }

  /**
   Two stores that agree on the keys a request names give the same reply, agree on those keys
   afterwards, and keep everything else.
   */
  lemma ExecuteLocal(env: Env, a: Store, b: Store, req: Request)
    requires Local(req) && Agree(a, b, KeysOf(req))
    ensures SameEffect(a, b, KeysOf(req), Execute(env, a, req), Execute(env, b, req))
  {
    if OneKeyRead(req) {
      LocalOneKeyRead(env, a, b, req);
    } else if OneKeyWrite(req) {
      LocalOneKeyWrite(env, a, b, req);
    } else if req.SADD? || req.SREM? {
      LocalSetWrite(env, a, b, req);
    } else if req.MSET? {
      LocalMset(env, a, b, req);
    } else if req.MGET? {
      LocalMgetRequest(env, a, b, req.keys);
    } else if req.DEL? {
      LocalDelRequest(env, a, b, req.keys);
    } else if req.SMOVE? {
      LocalSetMove(env, a, b, req);
    } else if req.RENAME? {
      LocalRename(env, a, b, req);
    } else if req.SINTERSTORE? || req.SUNIONSTORE? {
      LocalSetStore(env, a, b, req);
    } else if req.SINTER? || req.SUNION? {
      LocalSets(env, a, b, req);
    }
  }
}
