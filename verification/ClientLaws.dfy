/**
 What the client's commands rely on: how lists of keys fall into parts, what is left unread, and
 what each command means on one store.
 */
module ClientLaws {
  import opened Prelude
  import opened Resp
  import opened RespLaws
  import opened Server
  import opened ServerLaws
  import opened Shards
  import opened Gather
  import opened Reference

  lemma NothingFirst<T>(xs: seq<T>)
    ensures [] + xs == xs
  {}

  /** `parts` holds, for each socket that gets any, the elements routed to it in their order. */
  ghost predicate PartOf<T(!new)>(route: T -> nat, xs: seq<T>, n: nat, parts: map<nat, seq<T>>) {
    && (forall s :: s in parts ==> s < n && parts[s] == Routed(route, xs, s) && parts[s] != [])
    && (forall s :: 0 <= s < n && s !in parts ==> Routed(route, xs, s) == [])
  }

  lemma PartNext<T>(route: T -> nat, xs: seq<T>, i: nat)
    requires i < |xs|
    ensures forall s: nat ::
              Routed(route, xs[..i + 1], s)
              == if route(xs[i]) == s then Routed(route, xs[..i], s) + [xs[i]] else Routed(route, xs[..i], s)
  {
    forall s: nat
      ensures Routed(route, xs[..i + 1], s)
           == if route(xs[i]) == s then Routed(route, xs[..i], s) + [xs[i]] else Routed(route, xs[..i], s)
    {
      assert xs[..i + 1][..i] == xs[..i];
    }
  }

  predicate AllSendable(reqs: seq<Request>) {
    forall i :: 0 <= i < |reqs| ==> WellFormed(reqs[i]) && Queueable(reqs[i])
  }

  /** A host after its share of the work, and what it has answered. */
  function HostAfter(env: Env, host: Host, work: Work, i: nat): Host {
    if i in work then Host(ExecuteAll(env, host.store, work[i]).state, None) else host
  }

  function RepliesTo(env: Env, st: Store, work: Work, i: nat): seq<Reply> {
    if i in work then ExecuteAll(env, st, work[i]).replies else []
  }

  ghost predicate OnlyUnread(pending: seq<seq<Reply>>, fd: nat, reply: Reply) {
    forall i :: 0 <= i < |pending| ==> pending[i] == if i == fd then [reply] else []
  }

  ghost predicate OnlyUnreads(pending: seq<seq<Reply>>, fd: nat, replies: seq<Reply>) {
    forall i :: 0 <= i < |pending| ==> pending[i] == if i == fd then replies else []
  }

  lemma IntSumAt(replies: seq<Reply>, i: nat)
    requires i < |replies| && replies[i].Integer?
    ensures IntSum(replies[..i + 1]) == IntSum(replies[..i]) + replies[i].n
  {
    assert replies[..i + 1][..i] == replies[..i];
  }

  ghost predicate Unread(env: Env, before: Store, work: Work, s: nat, pending: seq<seq<Reply>>) {
    forall i :: 0 <= i < |pending| ==> pending[i] == if i < s then [] else RepliesTo(env, before, work, i)
  }

  lemma SkipUnread(env: Env, before: Store, work: Work, s: nat, pending: seq<seq<Reply>>)
    requires Unread(env, before, work, s, pending) && s !in work
    ensures Unread(env, before, work, s + 1, pending)
  {}

  lemma ReadUnread(env: Env, before: Store, work: Work, s: nat, pending: seq<seq<Reply>>)
    requires Unread(env, before, work, s, pending) && s < |pending|
    ensures Unread(env, before, work, s + 1, pending[s := []])
  {}

  /** The shards before `s` have been sent their work and have answered it; the others nothing. */
  ghost predicate WorkSent(env: Env, before: seq<Host>, work: Work, s: nat,
                           hosts: seq<Host>, pending: seq<seq<Reply>>) {
    && |before| == |hosts| == |pending|
    && (forall i :: 0 <= i < |hosts| && i < s ==>
          hosts[i] == HostAfter(env, before[i], work, i) && pending[i] == RepliesTo(env, before[i].store, work, i))
    && (forall i :: s <= i < |hosts| ==> hosts[i] == before[i] && pending[i] == [])
  }

  lemma WorkSentNext(env: Env, before: seq<Host>, work: Work, s: nat, hosts: seq<Host>, pending: seq<seq<Reply>>)
    requires WorkSent(env, before, work, s, hosts, pending) && s < |hosts|
    ensures hosts[s] == before[s] && pending[s] == []
    ensures s !in work ==> WorkSent(env, before, work, s + 1, hosts, pending)
    ensures s in work ==>
              var o := ExecuteAll(env, hosts[s].store, work[s]);
              WorkSent(env, before, work, s + 1, hosts[s := Host(o.state, None)], pending[s := o.replies])
  {}

  lemma ScatterHosts(env: Env, before: seq<Host>, after: seq<Host>, work: Work)
    requires |before| == |after|
    requires forall i :: 0 <= i < |before| ==> after[i] == HostAfter(env, before[i], work, i)
    ensures Stores(after) == Scatter(env, Stores(before), work)
  {}

  function MsetWork(parts: map<nat, seq<(string, string)>>): Work {
    map s | s in parts :: [MSET(parts[s])]
  }

  lemma PartRouted<T(!new)>(route: T -> nat, xs: seq<T>, n: nat, parts: map<nat, seq<T>>, s: nat, x: T)
    requires PartOf(route, xs, n, parts) && s in parts && x in parts[s]
    ensures x in xs && route(x) == s
  {
    RoutedHas(route, xs, s, x);
  }

  lemma MsetWorkIsValid(rt: Router, pairs: seq<(string, string)>, parts: map<nat, seq<(string, string)>>)
    requires rt.Valid() && PartOf(PairRoute(rt), pairs, rt.n, parts)
    ensures ValidWork(rt, MsetWork(parts))
  {
    forall s | s in parts ensures OnShard(rt, s, MSET(parts[s])) {
      forall p | p in parts[s] ensures rt.Shard(p.0) == s {
        PartRouted(PairRoute(rt), pairs, rt.n, parts, s, p);
      }
    }
  }

  /** The commands that are split into one command per shard by their keys. */
  datatype KeyVerb = MGets | Dels | SInters | SUnions {
    function Of(keys: seq<string>): Request {
      match this
      case MGets => MGET(keys)
      case Dels => DEL(keys)
      case SInters => SINTER(keys)
      case SUnions => SUNION(keys)
    }
  }

  function KeyWork(verb: KeyVerb, parts: map<nat, seq<string>>): Work {
    map s | s in parts :: [verb.Of(parts[s])]
  }

  lemma DelReply(env: Env, st: Store, keys: seq<string>)
    ensures Execute(env, st, DEL(keys)) == Outcome(st - SetOf(keys), Integer(|SetOf(keys) * st.Keys|))
  {}

  lemma OnlyOthers(st: Store, keys: seq<string>)
    ensures forall k :: k in st - SetOf(keys) <==> k in st && k !in keys
  {}

  lemma ReadsOnly(env: Env, st: Store, verb: KeyVerb, keys: seq<string>)
    requires !verb.Dels?
    ensures Execute(env, st, verb.Of(keys)).store == st
  {}

  lemma KeyWorkIsValid(rt: Router, verb: KeyVerb, keys: seq<string>, parts: map<nat, seq<string>>)
    requires rt.Valid() && PartOf(KeyRoute(rt), keys, rt.n, parts)
    ensures ValidWork(rt, KeyWork(verb, parts))
  {
    forall s | s in parts ensures OnShard(rt, s, verb.Of(parts[s])) {
      forall k | k in parts[s] ensures rt.Shard(k) == s {
        PartRouted(KeyRoute(rt), keys, rt.n, parts, s, k);
      }
    }
  }

  lemma WholeStoreReads(env: Env, host: Host, req: Request)
    requires host.queue.None? && (req.KEYS? || req.DBSIZE?)
    ensures Host(ExecuteAll(env, host.store, [req]).state, None) == host
    ensures ExecuteAll(env, host.store, [req]).replies == [Execute(env, host.store, req).reply]
  {
    ExecuteOne(env, host.store, req);
  }

  ghost predicate UnreadAll(env: Env, stores: seq<Store>, req: Request, s: nat, pending: seq<seq<Reply>>) {
    && |pending| == |stores|
    && forall i :: 0 <= i < |pending| ==> pending[i] == if i < s then [] else [Execute(env, stores[i], req).reply]
  }

  function Matching(env: Env, st: Store, pattern: string): set<string> {
    set k | k in st && env.matches(pattern, k)
  }

  lemma MatchingShare(rt: Router, env: Env, stores: seq<Store>, pattern: string, s: nat)
    requires Placed(rt, stores) && s < rt.n
    ensures Matching(env, stores[s], pattern) == Slice(rt, Matching(env, Logical(rt, stores), pattern), s)
  {
    var all := Matching(env, Logical(rt, stores), pattern);
    forall k ensures k in Matching(env, stores[s], pattern) <==> k in Slice(rt, all, s) {
      LogicalAt(rt, stores, k);
    }
  }

  lemma TextsOfBulks(xs: seq<string>)
    ensures FlatItems(Bulks(xs)) && TextsOf(Bulks(xs)) == xs
  {}

  lemma AfterPrefix<T>(a: seq<T>, b: seq<T>)
    ensures (a + b)[|a|..] == b
  {}

  /** `found` lists every key of `all` on the shards before `s` exactly once. */
  ghost predicate ListsBelow(rt: Router, all: set<string>, s: nat, found: seq<string>)
    requires rt.Valid()
  {
    |found| == SliceSum(rt, all, s) && SetOf(found) == set k | k in all && rt.Shard(k) < s
  }

  lemma ListsNext(rt: Router, all: set<string>, s: nat, out: seq<string>, before: seq<string>, after: seq<string>)
    requires rt.Valid() && out <= before <= after && ListsBelow(rt, all, s, before[|out|..])
    requires Enumerates(after[|before|..], Slice(rt, all, s))
    ensures ListsBelow(rt, all, s + 1, after[|out|..])
  {
    var was, new_ := before[|out|..], after[|before|..];
    assert after[|out|..] == was + new_;
    assert SetOf(was + new_) == SetOf(was) + SetOf(new_);
  }

  lemma ListsAll(rt: Router, all: set<string>, found: seq<string>)
    requires rt.Valid() && ListsBelow(rt, all, rt.n, found)
    ensures Enumerates(found, all)
  {
    SlicesAddUp(rt, all);
    assert all == set k | k in all && rt.Shard(k) < rt.n;
  }

  lemma ListedOnce(out: seq<string>, grown: seq<string>, all: set<string>)
    requires out <= grown && Enumerates(grown[|out|..], all)
    ensures forall k :: k in grown[|out|..] <==> k in all
    ensures forall i, j :: |out| <= i < j < |grown| ==> grown[i] != grown[j]
  {
    var found := grown[|out|..];
    FewerDistinct(found);
    assert forall k :: k in found <==> k in (set x | x in found);
    forall i, j | |out| <= i < j < |grown| ensures grown[i] != grown[j] {
      assert found[i - |out|] != found[j - |out|];
    }
  }

  datatype KeyType = NoKey | StringKey | ListKey | SetKey | ZsetKey | HashKey | UnknownKey

  /** How `type` reads the server's answer. */
  function NamedType(response: string): KeyType {
    if response == "none" then NoKey
    else if response == "string" then StringKey
    else if response == "list" then ListKey
    else if response == "set" then SetKey
    else if response == "zset" then ZsetKey
    else if response == "hash" then HashKey
    else UnknownKey
  }

  lemma NamesOfTypes(response: string)
    ensures NamedType("none") == NoKey && NamedType("string") == StringKey && NamedType("list") == ListKey
    ensures NamedType("set") == SetKey && NamedType("zset") == ZsetKey && NamedType("hash") == HashKey
    ensures response !in {"none", "string", "list", "set", "zset", "hash"} ==> NamedType(response) == UnknownKey
  {}

  function KeyTypeOf(st: Store, key: string): KeyType {
    if key !in st then NoKey
    else match st[key].value
         case StrVal(_) => StringKey
         case ListVal(_) => ListKey
         case SetVal(_) => SetKey
         case ZSetVal(_) => ZsetKey
         case HashVal(_) => HashKey
  }

  lemma TypeNamesAgree(st: Store, key: string)
    ensures NamedType(TypeName(st, key)) == KeyTypeOf(st, key)
  {}

  lemma DelOne(env: Env, st: Store, key: string)
    ensures Execute(env, st, DEL([key])) == Outcome(st - {key}, Integer(if key in st then 1 else 0))
  {
    assert SetOf([key]) == {key};
    assert {key} * st.Keys == if key in st then {key} else {};
  }

  function ListAt(st: Store, key: string): seq<string> {
    if key in st && st[key].value.ListVal? then st[key].value.items else []
  }

  lemma ListReply(env: Env, st: Store, key: string, start: int, stop: int)
    ensures var reply := Execute(env, st, LRANGE(key, start, stop)).reply;
            if key in st && !st[key].value.ListVal? then reply.Error?
            else reply.Array? && FlatItems(reply.items) && TextsOf(reply.items) == Range(ListAt(st, key), start, stop)
  {
    TextsOfBulks(Range(ListAt(st, key), start, stop));
  }

  lemma WholeRange(items: seq<string>)
    ensures [] + Range(items, 0, -1) == items
  {}

  /** A set that arrives as an array in any order is that set. */
  lemma SetReply(env: Env, members: set<string>)
    requires ValidEnv(env)
    ensures FlatItems(Bulks(env.order(members)))
    ensures SetOf(TextsOf(Bulks(env.order(members)))) == members && |env.order(members)| == |members|
  {
    TextsOfBulks(env.order(members));
    assert Enumerates(env.order(members), members);
  }

  lemma SaddEachFits(rt: Router, key: string, vals: seq<string>)
    requires rt.Valid()
    ensures AllSendable(SaddEach(key, vals)) && AllOnShard(rt, rt.Shard(key), SaddEach(key, vals))
  {}

  function Refusals(n: nat): seq<Reply> {
    seq(n, i => WRONG_TYPE)
  }

  lemma SaddReplies(env: Env, st: Store, key: string, vals: seq<string>)
    ensures var o := ExecuteAll(env, st, SaddEach(key, vals));
            && |o.replies| == |vals|
            && (AllIntegers(o.replies) <==> HoldsSet(st, key) || vals == [])
            && (AllIntegers(o.replies) ==> Added(st, key, SetOf(vals), o))
            && (!AllIntegers(o.replies) ==>
                  o.state == st && o.replies[0].Error? && o.replies[1..] == Refusals(|vals| - 1))
  {
    ExecuteAllReplies(env, st, SaddEach(key, vals));
    if HoldsSet(st, key) {
      SaddEachRuns(env, st, key, vals);
    } else {
      SaddEachRefused(env, st, key, vals);
      if vals == [] {
        assert Members(st, key) + SetOf(vals) == Members(st, key);
      } else {
        assert !ExecuteAll(env, st, SaddEach(key, vals)).replies[0].Integer?;
      }
    }
  }

  lemma SetVerbReply(env: Env, st: Store, verb: KeyVerb, keys: seq<string>)
    requires ValidEnv(env) && (verb.SInters? || verb.SUnions?)
    ensures var reply := Execute(env, st, verb.Of(keys)).reply;
            var members := if verb.SInters? then Inter(st, keys) else Union(st, keys);
            if AllHoldSets(st, keys) then
              reply.Array? && FlatItems(reply.items) && SetOf(TextsOf(reply.items)) == members
              && |reply.items| == |members|
            else reply.Error?
  {
    SetReply(env, if verb.SInters? then Inter(st, keys) else Union(st, keys));
  }

  // The keys on the shards before `s`: whether there are any, whether they all hold sets, and
  // whether `inter` is the intersection of their sets.

  ghost predicate AnyBelow(rt: Router, keys: seq<string>, s: nat)
    requires rt.Valid()
  {
    exists k :: k in keys && rt.Shard(k) < s
  }

  ghost predicate SetsBelow(rt: Router, st: Store, keys: seq<string>, s: nat)
    requires rt.Valid()
  {
    forall k :: k in keys && rt.Shard(k) < s ==> HoldsSet(st, k)
  }

  ghost predicate InterBelow(rt: Router, st: Store, keys: seq<string>, s: nat, inter: set<string>)
    requires rt.Valid()
  {
    forall x :: x in inter <==> forall k :: k in keys && rt.Shard(k) < s ==> x in Members(st, k)
  }

  /** The state of `sinter`'s receive loop after the shards before `s`. */
  ghost predicate InterState(rt: Router, st: Store, keys: seq<string>, s: nat, out: set<string>,
                             first: bool, inter: set<string>)
    requires rt.Valid()
  {
    && SetsBelow(rt, st, keys, s)
    && (first <==> !AnyBelow(rt, keys, s))
    && (if first then inter == out else InterBelow(rt, st, keys, s, inter))
  }

  lemma InterStateNext(rt: Router, st: Store, keys: seq<string>, parts: map<nat, seq<string>>, s: nat,
                       out: set<string>, first: bool, inter: set<string>)
    requires rt.Valid() && PartOf(KeyRoute(rt), keys, rt.n, parts) && s in parts
    requires InterState(rt, st, keys, s, out, first, inter)
    ensures AllHoldSets(st, parts[s]) ==>
              InterState(rt, st, keys, s + 1, out, false,
                         if first then Inter(st, parts[s]) else inter * Inter(st, parts[s]))
    ensures !AllHoldSets(st, parts[s]) ==> !AllHoldSets(st, keys)
  {
    BelowNext(rt, keys, parts, s);
    SetsNext(rt, st, keys, parts, s);
    InterNext(rt, st, keys, parts, s, inter, Inter(st, parts[s]));
  }

  lemma InterStateSkip(rt: Router, st: Store, keys: seq<string>, parts: map<nat, seq<string>>, s: nat,
                       out: set<string>, first: bool, inter: set<string>)
    requires rt.Valid() && PartOf(KeyRoute(rt), keys, rt.n, parts) && s < rt.n && s !in parts
    requires InterState(rt, st, keys, s, out, first, inter)
    ensures InterState(rt, st, keys, s + 1, out, first, inter)
  {
    BelowNext(rt, keys, parts, s);
    SetsSkip(rt, st, keys, parts, s, inter);
  }

  lemma InterStateEnd(rt: Router, st: Store, keys: seq<string>, out: set<string>, first: bool, inter: set<string>)
    requires rt.Valid() && InterState(rt, st, keys, rt.n, out, first, inter)
    ensures AllHoldSets(st, keys) && inter == if keys == [] then out else Inter(st, keys)
  {
    AllBelow(rt, st, keys, inter);
  }

  lemma NoneBelow(rt: Router, keys: seq<string>)
    requires rt.Valid()
    ensures !AnyBelow(rt, keys, 0)
  {}

  lemma InPart(rt: Router, keys: seq<string>, parts: map<nat, seq<string>>, s: nat, k: string)
    requires rt.Valid() && PartOf(KeyRoute(rt), keys, rt.n, parts) && s < rt.n
    ensures k in keys && rt.Shard(k) == s <==> s in parts && k in parts[s]
  {
    RoutedHas(KeyRoute(rt), keys, s, k);
  }

  lemma BelowNext(rt: Router, keys: seq<string>, parts: map<nat, seq<string>>, s: nat)
    requires rt.Valid() && PartOf(KeyRoute(rt), keys, rt.n, parts) && s < rt.n
    ensures AnyBelow(rt, keys, s + 1) <==> AnyBelow(rt, keys, s) || s in parts
  {
    forall k ensures k in keys && rt.Shard(k) == s <==> s in parts && k in parts[s] {
      InPart(rt, keys, parts, s, k);
    }
    if s in parts {
      assert parts[s][0] in parts[s];
    }
  }

  lemma SetsNext(rt: Router, st: Store, keys: seq<string>, parts: map<nat, seq<string>>, s: nat)
    requires rt.Valid() && PartOf(KeyRoute(rt), keys, rt.n, parts) && s in parts
    requires SetsBelow(rt, st, keys, s)
    ensures SetsBelow(rt, st, keys, s + 1) <==> AllHoldSets(st, parts[s])
    ensures !AllHoldSets(st, parts[s]) ==> !AllHoldSets(st, keys)
  {
    forall k ensures k in keys && rt.Shard(k) == s <==> k in parts[s] {
      InPart(rt, keys, parts, s, k);
    }
  }

  lemma SetsSkip(rt: Router, st: Store, keys: seq<string>, parts: map<nat, seq<string>>, s: nat, inter: set<string>)
    requires rt.Valid() && PartOf(KeyRoute(rt), keys, rt.n, parts) && s < rt.n && s !in parts
    ensures SetsBelow(rt, st, keys, s) ==> SetsBelow(rt, st, keys, s + 1)
    ensures InterBelow(rt, st, keys, s, inter) ==> InterBelow(rt, st, keys, s + 1, inter)
  {
    forall k ensures !(k in keys && rt.Shard(k) == s) {
      InPart(rt, keys, parts, s, k);
    }
    assert forall k :: k in keys && rt.Shard(k) < s + 1 <==> k in keys && rt.Shard(k) < s;
  }

  lemma InterNext(rt: Router, st: Store, keys: seq<string>, parts: map<nat, seq<string>>, s: nat,
                  inter: set<string>, cur: set<string>)
    requires rt.Valid() && PartOf(KeyRoute(rt), keys, rt.n, parts) && s in parts && cur == Inter(st, parts[s])
    ensures !AnyBelow(rt, keys, s) ==> InterBelow(rt, st, keys, s + 1, cur)
    ensures InterBelow(rt, st, keys, s, inter) ==> InterBelow(rt, st, keys, s + 1, inter * cur)
  {
    forall k ensures k in keys && rt.Shard(k) == s <==> k in parts[s] {
      InPart(rt, keys, parts, s, k);
    }
    forall x ensures x in cur <==> forall k :: k in keys && rt.Shard(k) == s ==> x in Members(st, k) {
      InterHas(st, parts[s], x);
    }
  }

  lemma PartsBelow(rt: Router, keys: seq<string>, parts: map<nat, seq<string>>, at: nat)
    requires rt.Valid() && PartOf(KeyRoute(rt), keys, rt.n, parts)
    ensures (forall s :: s in parts ==> s < at) <==> (forall k :: k in keys ==> rt.Shard(k) < at)
  {
    forall s | s in parts ensures exists k :: k in keys && rt.Shard(k) == s {
      var k := parts[s][0];
      assert k in parts[s];
      InPart(rt, keys, parts, s, k);
    }
    forall k | k in keys ensures rt.Shard(k) in parts {
      InPart(rt, keys, parts, rt.Shard(k), k);
    }
  }

  /**
   A gathering call that throws leaves no reply unread: no key is on a later shard than a key that
   holds no set.
   */
  predicate ThrowsLast(rt: Router, st: Store, keys: seq<string>)
    requires rt.Valid()
  {
    forall b, k :: b in keys && k in keys && !HoldsSet(st, b) ==> rt.Shard(k) <= rt.Shard(b)
  }

  /** Seen from the shard at which the call throws. */
  lemma ThrowsLastAt(rt: Router, st: Store, keys: seq<string>, parts: map<nat, seq<string>>, at: nat)
    requires rt.Valid() && PartOf(KeyRoute(rt), keys, rt.n, parts) && SetsBelow(rt, st, keys, at)
    requires at in parts && !AllHoldSets(st, parts[at])
    ensures ThrowsLast(rt, st, keys) <==> forall k :: k in keys ==> rt.Shard(k) <= at
  {
    var b :| b in parts[at] && !HoldsSet(st, b);
    InPart(rt, keys, parts, at, b);
  }

  /** All keys are routed to one shard. */
  predicate OneHome(rt: Router, keys: seq<string>)
    requires rt.Valid() && keys != []
  {
    forall k :: k in keys ==> rt.Shard(k) == rt.Shard(keys[0])
  }

  /** The keys and the destination are on one server. */
  predicate AtHome(rt: Router, dst: string, keys: seq<string>)
    requires rt.Valid() && keys != []
  {
    OneHome(rt, keys) && rt.Shard(dst) == rt.Shard(keys[0])
  }

  lemma SameModulo(rt: Router, keys: seq<string>)
    requires rt.Valid() && keys != []
    ensures OneHome(rt, keys) <==> forall k :: k in keys ==> rt.hash(k) % rt.n == rt.hash(keys[0]) % rt.n
    ensures rt.Shard(keys[0]) == rt.hash(keys[0]) % rt.n
  {
    forall k ensures rt.Shard(k) == rt.hash(k) % rt.n {
      ShardIsModulo(rt, k);
    }
  }

  ghost predicate UnionBelow(rt: Router, st: Store, keys: seq<string>, s: nat, out: set<string>, union: set<string>)
    requires rt.Valid()
  {
    forall x :: x in union <==> x in out || exists k :: k in keys && rt.Shard(k) < s && x in Members(st, k)
  }

  ghost predicate UnionState(rt: Router, st: Store, keys: seq<string>, s: nat, out: set<string>, union: set<string>)
    requires rt.Valid()
  {
    SetsBelow(rt, st, keys, s) && UnionBelow(rt, st, keys, s, out, union)
  }

  lemma UnionStateNext(rt: Router, st: Store, keys: seq<string>, parts: map<nat, seq<string>>, s: nat,
                       out: set<string>, union: set<string>)
    requires rt.Valid() && PartOf(KeyRoute(rt), keys, rt.n, parts) && s in parts
    requires UnionState(rt, st, keys, s, out, union)
    ensures AllHoldSets(st, parts[s]) ==> UnionState(rt, st, keys, s + 1, out, union + Union(st, parts[s]))
    ensures !AllHoldSets(st, parts[s]) ==> !AllHoldSets(st, keys)
  {
    SetsNext(rt, st, keys, parts, s);
    UnionNext(rt, st, keys, parts, s, out, union);
  }

  lemma UnionNext(rt: Router, st: Store, keys: seq<string>, parts: map<nat, seq<string>>, s: nat,
                  out: set<string>, union: set<string>)
    requires rt.Valid() && PartOf(KeyRoute(rt), keys, rt.n, parts) && s in parts
    requires UnionBelow(rt, st, keys, s, out, union)
    ensures UnionBelow(rt, st, keys, s + 1, out, union + Union(st, parts[s]))
  {
    forall k ensures k in keys && rt.Shard(k) == s <==> k in parts[s] {
      InPart(rt, keys, parts, s, k);
    }
    forall x
      ensures x in union + Union(st, parts[s]) <==>
                x in out || exists k :: k in keys && rt.Shard(k) < s + 1 && x in Members(st, k)
    {
      UnionHas(st, parts[s], x);
      if k :| k in keys && rt.Shard(k) < s + 1 && x in Members(st, k) {
        assert rt.Shard(k) < s || k in parts[s];
      }
    }
  }

  lemma UnionStateSkip(rt: Router, st: Store, keys: seq<string>, parts: map<nat, seq<string>>, s: nat,
                       out: set<string>, union: set<string>)
    requires rt.Valid() && PartOf(KeyRoute(rt), keys, rt.n, parts) && s < rt.n && s !in parts
    requires UnionState(rt, st, keys, s, out, union)
    ensures UnionState(rt, st, keys, s + 1, out, union)
  {
    forall k ensures !(k in keys && rt.Shard(k) == s) {
      InPart(rt, keys, parts, s, k);
    }
    assert forall k :: k in keys && rt.Shard(k) < s + 1 <==> k in keys && rt.Shard(k) < s;
  }

  lemma UnionStateEnd(rt: Router, st: Store, keys: seq<string>, out: set<string>, union: set<string>)
    requires rt.Valid() && UnionState(rt, st, keys, rt.n, out, union)
    ensures AllHoldSets(st, keys) && union == out + Union(st, keys)
  {
    forall x ensures x in union <==> x in out + Union(st, keys) {
      UnionHas(st, keys, x);
    }
  }

  lemma AllBelow(rt: Router, st: Store, keys: seq<string>, inter: set<string>)
    requires rt.Valid()
    ensures SetsBelow(rt, st, keys, rt.n) <==> AllHoldSets(st, keys)
    ensures AnyBelow(rt, keys, rt.n) <==> keys != []
    ensures AnyBelow(rt, keys, rt.n) && InterBelow(rt, st, keys, rt.n, inter) ==> inter == Inter(st, keys)
  {
    if keys != [] {
      assert keys[0] in keys && rt.Shard(keys[0]) < rt.n;
      forall x ensures x in Inter(st, keys) <==> forall k :: k in keys ==> x in Members(st, k) {
        InterHas(st, keys, x);
      }
      if InterBelow(rt, st, keys, rt.n, inter) {
        assert forall x :: x in inter <==> x in Inter(st, keys);
      }
    }
  }

  lemma OneFewer<T>(content: set<T>, rest: set<T>, x: T)
    requires rest <= content && x in rest
    ensures content - (rest - {x}) == content - rest + {x}
  {}

  lemma NothingUnion<T>(xs: set<T>)
    ensures {} + xs == xs
  {}

  /** What `sunion` returns: the size of the union on one server, that of the output set on several. */
  function SunionCount(rt: Router, st: Store, keys: seq<string>, out: set<string>): nat
    requires rt.Valid() && keys != []
  {
    if OneHome(rt, keys) then |Union(st, keys)| else |out + Union(st, keys)|
  }

  lemma SameSizeUnion<T>(a: set<T>, b: set<T>)
    ensures |a + b| == |b| <==> a <= b
  {
    assert a + b == (a - b) + b;
    assert a - b == {} <==> a <= b;
  }

  /**
   The count is the size of the union, as one server gives it, exactly when the keys are on one server
   or the output set has nothing that is not in the union.
   */
  lemma SunionCountAgreesExactly(rt: Router, st: Store, keys: seq<string>, out: set<string>)
    requires rt.Valid() && keys != []
    ensures SunionCount(rt, st, keys, out) == |Union(st, keys)| <==> OneHome(rt, keys) || out <= Union(st, keys)
  {
    SameSizeUnion(out, Union(st, keys));
  }

  /** Deleting a key and adding members one by one stores exactly those members under it. */
  lemma StoreByAdding(st: Store, dst: string, members: set<string>)
    ensures HoldsSet(st - {dst}, dst) && Members(st - {dst}, dst) == {}
    ensures WithMembers(st - {dst}, dst, members) == PutSet(st - {dst}, dst, members)
    ensures {} + members == members
  {
    assert {} + members == members;
    assert members <= {} ==> members == {};
    assert (st - {dst}) - {dst} == st - {dst};
  }

  lemma StoreOutcome(env: Env, st: Store, dst: string, keys: seq<string>)
    ensures Execute(env, st, SINTERSTORE(dst, keys)) == ExecuteStore(st, dst, keys, Inter(st, keys))
    ensures Execute(env, st, SUNIONSTORE(dst, keys)) == ExecuteStore(st, dst, keys, Union(st, keys))
  {}

  lemma StoreAtHome(rt: Router, dst: string, keys: seq<string>)
    requires rt.Valid() && keys != [] && OneHome(rt, keys) && rt.Shard(dst) == rt.Shard(keys[0])
    ensures OnShard(rt, rt.Shard(dst), SINTERSTORE(dst, keys)) && OnShard(rt, rt.Shard(dst), SUNIONSTORE(dst, keys))
  {}

  lemma SetOfPlus(vals: seq<string>, val: string)
    ensures SetOf(vals + [val]) == SetOf(vals) + {val}
  {}

  /** What `smove` leaves behind: `SMOVE` on one server; across two, `SREM`, and `SADD` if that answered 1. */
  function Moved(rt: Router, st: Store, src: string, dst: string, member: string): Store
    requires rt.Valid()
  {
    var removed := ExecuteSRem(st, src, member);
    if rt.Shard(src) == rt.Shard(dst) then ExecuteSMove(st, src, dst, member).store
    else if removed.reply == Integer(1) then ExecuteSAdd(removed.store, dst, member).store
    else removed.store
  }

  lemma MoveAcross(st: Store, src: string, dst: string, member: string)
    requires src != dst
    ensures var removed := ExecuteSRem(st, src, member);
            && HoldsSet(removed.store, dst) == HoldsSet(st, dst)
            && (removed.reply == Integer(1) <==> member in Members(st, src))
            && (member !in Members(st, src) ==> removed.store == st && ExecuteSMove(st, src, dst, member).store == st)
            && (member in Members(st, src) && HoldsSet(st, dst) ==>
                  ExecuteSAdd(removed.store, dst, member).store == ExecuteSMove(st, src, dst, member).store)
            && (!HoldsSet(st, dst) ==> ExecuteSAdd(removed.store, dst, member).store == removed.store)
            && (ExecuteSMove(st, src, dst, member).reply == Integer(1) <==>
                  member in Members(st, src) && HoldsSet(st, dst))
  {}

  /**
   Across servers `smove` ends in the same store as one server's `SMOVE` exactly when it is not the
   case that the member is there and the destination is of another kind.
   */
  lemma SmoveAgreesExactly(rt: Router, st: Store, src: string, dst: string, member: string)
    requires rt.Valid() && rt.Shard(src) != rt.Shard(dst)
    ensures Moved(rt, st, src, dst, member) == ExecuteSMove(st, src, dst, member).store
       <==> !(member in Members(st, src) && !HoldsSet(st, dst))
  {
    MoveAcross(st, src, dst, member);
    if member in Members(st, src) && !HoldsSet(st, dst) {
      assert member !in Members(ExecuteSRem(st, src, member).store, src);
    }
  }

  /** When source and destination hold sets, moving conserves the union of the two; onto itself nothing changes. */
  lemma SmoveConserves(rt: Router, st: Store, src: string, dst: string, member: string)
    requires rt.Valid() && HoldsSet(st, src) && HoldsSet(st, dst)
    ensures var after := Moved(rt, st, src, dst, member);
            && Members(after, src) + Members(after, dst) == Members(st, src) + Members(st, dst)
            && (member in Members(st, src) ==> member in Members(after, dst))
            && (member in Members(st, src) && src != dst ==> member !in Members(after, src))
            && (member !in Members(st, src) || src == dst ==> after == st)
            && forall k :: k != src && k != dst ==> Lookup(after, k) == Lookup(st, k)
  {
    if src != dst {
      MoveAcross(st, src, dst, member);
    }
    assert Moved(rt, st, src, dst, member) == ExecuteSMove(st, src, dst, member).store;
  }

  // ------------------------------------------------------------------------------- rename

  predicate Movable(st: Store, key: string) {
    key in st && (st[key].value.StrVal? || st[key].value.ListVal? || st[key].value.SetVal?)
  }

  /** What `rename` leaves behind: a server's RENAME on one server, a copy and a deletion across two. */
  function Renamed(rt: Router, env: Env, st: Store, from: string, to: string): Store
    requires rt.Valid()
  {
    if rt.Shard(from) == rt.Shard(to) then Execute(env, st, RENAME(from, to)).store
    else if Movable(st, from) then st[to := Entry(st[from].value, None)] - {from}
    else st
  }

  /**
   Across servers, `rename` ends in the same store as one server's RENAME exactly when the old
   name is missing, or holds a string, list or set without a time to live.
   */
  lemma RenameAgreesExactly(rt: Router, env: Env, st: Store, from: string, to: string)
    requires rt.Valid() && rt.Shard(from) != rt.Shard(to)
    ensures Renamed(rt, env, st, from, to) == Execute(env, st, RENAME(from, to)).store
       <==> (from in st ==> Movable(st, from) && st[from].ttl.None?)
  {
    var got, want := Renamed(rt, env, st, from, to), Execute(env, st, RENAME(from, to)).store;
    if from in st {
      assert want[to] == st[from] && from !in want;
      if Movable(st, from) {
        assert got[to] == Entry(st[from].value, None);
        if st[from].ttl.None? {
          assert got == want;
        }
      }
    }
  }

  /** The new name holds the old value, the old name is gone, and nothing else has changed. */
  lemma RenameMoves(rt: Router, env: Env, st: Store, from: string, to: string)
    requires rt.Valid() && from != to && Movable(st, from)
    ensures var after := Renamed(rt, env, st, from, to);
            && to in after && after[to].value == st[from].value
            && from !in after
            && forall k :: k != from && k != to ==> Lookup(after, k) == Lookup(st, k)
  {}

  /** A list under a key; an empty list is no key at all. */
  function PutList(st: Store, key: string, items: seq<string>): Store {
    if items == [] then st else st[key := Entry(ListVal(items), None)]
  }

  lemma RpushNext(st: Store, key: string, content: seq<string>, i: nat)
    requires key !in st && i < |content|
    ensures ExecuteRPush(PutList(st, key, content[..i]), key, content[i]).store == PutList(st, key, content[..i + 1])
  {
    assert content[..i + 1] == content[..i] + [content[i]];
    if i == 0 {
      assert content[..1] == [content[0]] && content[..0] == [];
    } else {
      var had := PutList(st, key, content[..i]);
      var e := Entry(ListVal(content[..i + 1]), None);
      assert had[key := e] == st[key := e];
    }
  }

  /** Storing a copied value afresh is putting it there without a time to live. */
  lemma CopyIsPut(st: Store, from: string, to: string)
    requires from in st && from != to && Proper(st)
    ensures st[from].value.ListVal? ==>
              PutList(st - {to}, to, ListAt(st, from)) == st[to := Entry(st[from].value, None)]
    ensures st[from].value.SetVal? ==>
              PutSet(st - {to}, to, Members(st, from)) == st[to := Entry(st[from].value, None)]
  {
    var e := Entry(st[from].value, None);
    assert (st - {to})[to := e] == st[to := e];
  }

  // ------------------------------------------------------------------------------- msetex

  function BatchWork(parts: map<nat, seq<(string, string)>>, seconds: int): Work {
    map s | s in parts :: Batch(parts[s], seconds)
  }

  lemma EmptyBatch(env: Env, st: Store, seconds: int)
    ensures ExecuteAll(env, st, Batch([], seconds)).state == st
  {
    BatchRuns(env, st, [], seconds);
  }

  lemma BatchFits(rt: Router, s: nat, pairs: seq<(string, string)>, seconds: int)
    requires rt.Valid() && pairs != [] && forall p :: p in pairs ==> rt.Shard(p.0) == s
    ensures AllOnShard(rt, s, Batch(pairs, seconds)) && AllSendable(Batch(pairs, seconds))
  {
    forall i | 0 <= i < |Batch(pairs, seconds)|
      ensures var req := Batch(pairs, seconds)[i]; OnShard(rt, s, req) && WellFormed(req) && Queueable(req)
    {
      if i > 0 {
        assert pairs[i - 1] in pairs;
        assert Batch(pairs, seconds)[i] == EXPIRE(pairs[i - 1].0, seconds);
      }
    }
  }

  lemma BatchWorkIsValid(rt: Router, pairs: seq<(string, string)>, seconds: int, parts: map<nat, seq<(string, string)>>)
    requires rt.Valid() && PartOf(PairRoute(rt), pairs, rt.n, parts)
    ensures ValidWork(rt, BatchWork(parts, seconds))
    ensures forall s :: s in parts ==> AllSendable(BatchWork(parts, seconds)[s])
  {
    forall s | s in parts
      ensures AllOnShard(rt, s, Batch(parts[s], seconds)) && AllSendable(Batch(parts[s], seconds))
    {
      forall p | p in parts[s] ensures rt.Shard(p.0) == s {
        PartRouted(PairRoute(rt), pairs, rt.n, parts, s, p);
      }
      BatchFits(rt, s, parts[s], seconds);
    }
  }

  /** The replies to a batch: OK and one integer per pair, 1 unless the key has been expired away before. */
  lemma BatchReplies(env: Env, st: Store, pairs: seq<(string, string)>, seconds: int)
    ensures var replies := ExecuteAll(env, st, Batch(pairs, seconds)).replies;
            && |replies| == 1 + |pairs| && replies[0] == OK
            && (forall i :: 0 <= i < |pairs| ==>
                  replies[1..][i] == Integer(if seconds > 0 || !Names(pairs[..i], pairs[i].0) then 1 else 0))
  {
    BatchRuns(env, st, pairs, seconds);
    var put := PutAll(st, pairs);
    var replies := ExecuteAll(env, put, ExpireEach(pairs, seconds)).replies;
    assert ([OK] + replies)[1..] == replies;
    ExecuteAllReplies(env, put, ExpireEach(pairs, seconds));
    forall i | 0 <= i < |pairs|
      ensures replies[i] == Integer(if seconds > 0 || !Names(pairs[..i], pairs[i].0) then 1 else 0)
    {
      forall j | 0 <= j < |pairs| ensures pairs[j].0 in put {
        PutAllHas(st, pairs, pairs[j].0);
      }
      ExpireReplies(env, put, pairs, seconds, i);
    }
  }

  /** `j` is the first position whose key has come before. */
  predicate RepeatsFirstAt(pairs: seq<(string, string)>, j: nat) {
    && j < |pairs| && Names(pairs[..j], pairs[j].0)
    && forall i :: 0 <= i < j ==> !Names(pairs[..i], pairs[i].0)
  }

  lemma RepeatsFirst(pairs: seq<(string, string)>, j: nat)
    requires RepeatsFirstAt(pairs, j)
    ensures !DistinctKeys(pairs) && (DistinctKeys(pairs[..|pairs| - 1]) <==> j == |pairs| - 1)
  {
    var front := pairs[..|pairs| - 1];
    DistinctByPrefix(pairs);
    DistinctByPrefix(front);
    assert forall i :: 0 <= i < |front| ==> front[..i] == pairs[..i] && front[i] == pairs[i];
  }

  lemma DistinctByPrefix(pairs: seq<(string, string)>)
    ensures DistinctKeys(pairs) <==> forall i :: 0 <= i < |pairs| ==> !Names(pairs[..i], pairs[i].0)
  {
    if DistinctKeys(pairs) {
      forall i | 0 <= i < |pairs| ensures !Names(pairs[..i], pairs[i].0) {
        assert forall j :: 0 <= j < i ==> pairs[..i][j] == pairs[j];
      }
    } else {
      var i, j :| 0 <= i < j < |pairs| && pairs[i].0 == pairs[j].0;
      assert pairs[..j][i].0 == pairs[j].0;
    }
  }

  ghost predicate DistinctBelow(rt: Router, pairs: seq<(string, string)>, s: nat)
    requires rt.Valid()
  {
    forall i: nat :: i < s ==> DistinctKeys(Routed(PairRoute(rt), pairs, i))
  }

  lemma DistinctBelowNext(rt: Router, pairs: seq<(string, string)>, s: nat)
    requires rt.Valid() && s < rt.n
    ensures DistinctBelow(rt, pairs, s + 1) <==>
              DistinctBelow(rt, pairs, s) && DistinctKeys(Routed(PairRoute(rt), pairs, s))
    ensures !DistinctKeys(Routed(PairRoute(rt), pairs, s)) ==> !DistinctOnShards(rt, pairs)
  {}

  lemma DistinctBelowAll(rt: Router, pairs: seq<(string, string)>)
    requires rt.Valid()
    ensures DistinctBelow(rt, pairs, rt.n) <==> DistinctOnShards(rt, pairs)
  {}

  /** Only the last pair of shard `s` can repeat a key there, and no later shard has pairs. */
  predicate LastOn(rt: Router, pairs: seq<(string, string)>, s: nat)
    requires rt.Valid() && Routed(PairRoute(rt), pairs, s) != []
  {
    var mine := Routed(PairRoute(rt), pairs, s);
    DistinctKeys(mine[..|mine| - 1]) && NoneAfter(rt, pairs, s)
  }

  predicate NoneAfter(rt: Router, pairs: seq<(string, string)>, s: nat)
    requires rt.Valid()
  {
    forall t :: s < t < rt.n ==> Routed(PairRoute(rt), pairs, t) == []
  }

  lemma OnlyThere(rt: Router, pairs: seq<(string, string)>, at: nat, s: nat)
    requires rt.Valid() && s < rt.n && DistinctBelow(rt, pairs, at) && NoneAfter(rt, pairs, at)
    requires !DistinctKeys(Routed(PairRoute(rt), pairs, s))
    ensures s == at
  {}

  /** `msetex` that throws leaves no reply unread: it throws at the last reply there is. */
  predicate RepeatsLast(rt: Router, pairs: seq<(string, string)>)
    requires rt.Valid()
  {
    forall s: nat :: s < rt.n && !DistinctKeys(Routed(PairRoute(rt), pairs, s)) ==> LastOn(rt, pairs, s)
  }

  lemma LastOnAt(rt: Router, pairs: seq<(string, string)>, at: nat, mine: seq<(string, string)>, j: nat)
    requires rt.Valid() && mine == Routed(PairRoute(rt), pairs, at) && RepeatsFirstAt(mine, j)
    ensures LastOn(rt, pairs, at) <==> j == |mine| - 1 && NoneAfter(rt, pairs, at)
  {
    RepeatsFirst(mine, j);
  }

  lemma LastOnOnly(rt: Router, pairs: seq<(string, string)>, at: nat)
    requires rt.Valid() && at < rt.n && DistinctBelow(rt, pairs, at) && Routed(PairRoute(rt), pairs, at) != []
    requires LastOn(rt, pairs, at)
    ensures RepeatsLast(rt, pairs)
  {
    forall s: nat | s < rt.n && !DistinctKeys(Routed(PairRoute(rt), pairs, s)) ensures s == at {
      OnlyThere(rt, pairs, at, s);
    }
  }

  /** Seen from the shard at which the call throws, and the position on it. */
  lemma RepeatsLastAt(rt: Router, pairs: seq<(string, string)>, at: nat, mine: seq<(string, string)>, j: nat)
    requires rt.Valid() && at < rt.n && DistinctBelow(rt, pairs, at)
    requires mine == Routed(PairRoute(rt), pairs, at) && RepeatsFirstAt(mine, j)
    ensures RepeatsLast(rt, pairs) <==> j == |mine| - 1 && NoneAfter(rt, pairs, at)
  {
    RepeatsFirst(mine, j);
    LastOnAt(rt, pairs, at, mine, j);
    if LastOn(rt, pairs, at) {
      LastOnOnly(rt, pairs, at);
    }
  }

  /** `msetex_data` */
  datatype MsetexData = MsetexData(msetCmd: Option<Command>, expireCmds: string, count: nat)

  function MsetexFor(mine: seq<(string, string)>, seconds: int): MsetexData {
    MsetexData(Some(LinesOf(MSET(mine))), EncodeCommands(LinesOfAll(ExpireEach(mine, seconds))), |mine|)
  }

  /** Each socket that has pairs has its three fields, and no other socket has an entry. */
  ghost predicate MsetexFilled(rt: Router, pairs: seq<(string, string)>, seconds: int, data: map<nat, MsetexData>)
    requires rt.Valid()
  {
    && (forall s :: s in data ==>
          var mine := Routed(PairRoute(rt), pairs, s);
          s < rt.n && mine != [] && data[s] == MsetexFor(mine, seconds))
    && (forall s :: 0 <= s < rt.n && s !in data ==> Routed(PairRoute(rt), pairs, s) == [])
  }

  lemma {:induction false} FlattenNext(pairs: seq<(string, string)>, p: (string, string))
    ensures Flatten(pairs + [p]) == Flatten(pairs) + [p.0, p.1]
  {
    if pairs == [] {
      assert [p][1..] == [];
    } else {
      assert (pairs + [p])[1..] == pairs[1..] + [p];
      FlattenNext(pairs[1..], p);
    }
  }

  lemma ExpiresNext(mine: seq<(string, string)>, p: (string, string), seconds: int)
    ensures EncodeCommands(LinesOfAll(ExpireEach(mine + [p], seconds)))
         == EncodeCommands(LinesOfAll(ExpireEach(mine, seconds))) + EncodeCommand(LinesOf(EXPIRE(p.0, seconds)))
  {
    var last := LinesOf(EXPIRE(p.0, seconds));
    assert LinesOfAll(ExpireEach(mine + [p], seconds)) == LinesOfAll(ExpireEach(mine, seconds)) + [last];
    EncodeCommandsAppend(LinesOfAll(ExpireEach(mine, seconds)), [last]);
    EncodeOne(last);
  }

  /** A new entry holds nothing but the name of the command. */
  lemma MsetexNone(seconds: int)
    ensures MsetexFor([], seconds) == MsetexData(Some(["MSET"]), "", 0)
  {
    assert LinesOfAll(ExpireEach([], seconds)) == [];
    assert CommandFrames([]) == [];
    assert LinesOf(MSET([])) == ["MSET"];
  }

  lemma MsetexNext(mine: seq<(string, string)>, p: (string, string), seconds: int)
    ensures var was := MsetexFor(mine, seconds);
            MsetexFor(mine + [p], seconds)
            == MsetexData(Some(was.msetCmd.value + [p.0, p.1]),
                          was.expireCmds + EncodeCommand(LinesOf(EXPIRE(p.0, seconds))), was.count + 1)
  {
    FlattenNext(mine, p);
    ExpiresNext(mine, p, seconds);
    assert LinesOf(MSET(mine + [p])) == LinesOf(MSET(mine)) + [p.0, p.1];
  }

  ghost predicate EntryIs(rt: Router, pairs: seq<(string, string)>, seconds: int, data: map<nat, MsetexData>, s: nat)
    requires rt.Valid()
  {
    var mine := Routed(PairRoute(rt), pairs, s);
    if s in data then s < rt.n && mine != [] && data[s] == MsetexFor(mine, seconds) else mine == []
  }

  lemma FilledByEntries(rt: Router, pairs: seq<(string, string)>, seconds: int, data: map<nat, MsetexData>)
    requires rt.Valid()
    ensures MsetexFilled(rt, pairs, seconds, data) <==>
              forall s: nat :: s in data || s < rt.n ==> EntryIs(rt, pairs, seconds, data, s)
  {}

  lemma MsetexFilledNext(rt: Router, pairs: seq<(string, string)>, seconds: int, i: nat, data: map<nat, MsetexData>)
    requires rt.Valid() && i < |pairs| && MsetexFilled(rt, pairs[..i], seconds, data)
    ensures var socket := rt.Shard(pairs[i].0);
            var mine := Routed(PairRoute(rt), pairs[..i], socket);
            && (socket in data ==> data[socket] == MsetexFor(mine, seconds))
            && (socket !in data ==> mine == [])
            && MsetexFilled(rt, pairs[..i + 1], seconds, data[socket := MsetexFor(mine + [pairs[i]], seconds)])
  {
    var socket := rt.Shard(pairs[i].0);
    var mine := Routed(PairRoute(rt), pairs[..i], socket);
    var after := data[socket := MsetexFor(mine + [pairs[i]], seconds)];
    PartNext(PairRoute(rt), pairs, i);
    FilledByEntries(rt, pairs[..i], seconds, data);
    FilledByEntries(rt, pairs[..i + 1], seconds, after);
    forall s: nat | s in after || s < rt.n ensures EntryIs(rt, pairs[..i + 1], seconds, after, s) {
      assert EntryIs(rt, pairs[..i], seconds, data, socket);
      assert s != socket ==> EntryIs(rt, pairs[..i], seconds, data, s);
    }
  }

  /** The parts of the pair vector that the entries stand for. */
  ghost function PartsOf(rt: Router, pairs: seq<(string, string)>, data: map<nat, MsetexData>)
    : map<nat, seq<(string, string)>>
    requires rt.Valid()
  {
    map s | s in data :: Routed(PairRoute(rt), pairs, s)
  }

  lemma PartsOfFilled(rt: Router, pairs: seq<(string, string)>, seconds: int, data: map<nat, MsetexData>)
    requires rt.Valid() && MsetexFilled(rt, pairs, seconds, data)
    ensures PartOf(PairRoute(rt), pairs, rt.n, PartsOf(rt, pairs, data))
  {}

  function CountSum(data: map<nat, MsetexData>, n: nat): nat {
    if n == 0 then 0 else CountSum(data, n - 1) + if n - 1 in data then data[n - 1].count else 0
  }

  lemma {:induction false} CountsAreRouted(rt: Router, pairs: seq<(string, string)>, seconds: int,
                                           data: map<nat, MsetexData>, n: nat)
    requires rt.Valid() && n <= rt.n && MsetexFilled(rt, pairs, seconds, data)
    ensures CountSum(data, n) == RoutedSum(PairRoute(rt), pairs, n)
  {
    if n > 0 {
      CountsAreRouted(rt, pairs, seconds, data, n - 1);
    }
  }

  /**
   The books of `msetex`: on every socket `count` is the number of commands that a server takes out
   of `expire_cmds`, and the counts add up to the number of pairs.
   */
  lemma MsetexCounts(rt: Router, pairs: seq<(string, string)>, seconds: int, data: map<nat, MsetexData>)
    requires rt.Valid() && MsetexFilled(rt, pairs, seconds, data)
    ensures forall s :: s in data ==>
              && |TakeCommands(data[s].expireCmds).0| == data[s].count && TakeCommands(data[s].expireCmds).1 == ""
    ensures CountSum(data, rt.n) == |pairs|
  {
    forall s | s in data
      ensures |TakeCommands(data[s].expireCmds).0| == data[s].count && TakeCommands(data[s].expireCmds).1 == ""
    {
      var cmds := LinesOfAll(ExpireEach(Routed(PairRoute(rt), pairs, s), seconds));
      TakesAll(cmds);
    }
    CountsAreRouted(rt, pairs, seconds, data, rt.n);
    RoutedAddUp(PairRoute(rt), pairs, rt.n);
  }

  /** The message to one socket is its batch. */
  lemma MsetexMessage(mine: seq<(string, string)>, seconds: int)
    ensures var dat := MsetexFor(mine, seconds);
            EncodeCommand(dat.msetCmd.value) + dat.expireCmds == EncodeCommands(LinesOfAll(Batch(mine, seconds)))
  {
    var mset := LinesOf(MSET(mine));
    assert LinesOfAll(Batch(mine, seconds)) == [mset] + LinesOfAll(ExpireEach(mine, seconds));
    EncodeCommandsAppend([mset], LinesOfAll(ExpireEach(mine, seconds)));
    EncodeOne(mset);
  }

  // What `msetex` has left unread on connection `i` when it throws on shard `at` at its pair `j`.

  function MsetexUnread(rt: Router, env: Env, before: Store, pairs: seq<(string, string)>, seconds: int,
                        at: nat, j: nat, i: nat): seq<Reply>
    requires rt.Valid()
  {
    var mine := Routed(PairRoute(rt), pairs, i);
    var replies := ExecuteAll(env, before, Batch(mine, seconds)).replies;
    if i < at || mine == [] then []
    else if i > at then replies
    else if j + 2 <= |replies| then replies[j + 2..]
    else []
  }

  predicate MsetexQuiet(rt: Router, pairs: seq<(string, string)>, at: nat, j: nat, i: nat)
    requires rt.Valid()
  {
    || i < at
    || (i == at && j == |Routed(PairRoute(rt), pairs, at)| - 1)
    || (i > at && Routed(PairRoute(rt), pairs, i) == [])
  }

  lemma UnreadIsQuiet(rt: Router, env: Env, before: Store, pairs: seq<(string, string)>, seconds: int,
                      at: nat, j: nat, i: nat)
    requires rt.Valid() && j < |Routed(PairRoute(rt), pairs, at)|
    ensures MsetexUnread(rt, env, before, pairs, seconds, at, j, i) == [] <==> MsetexQuiet(rt, pairs, at, j, i)
  {
    BatchReplies(env, before, Routed(PairRoute(rt), pairs, i), seconds);
  }

  lemma QuietEverywhere(rt: Router, pairs: seq<(string, string)>, at: nat, j: nat)
    requires rt.Valid() && at < rt.n
    ensures (forall i :: 0 <= i < rt.n ==> MsetexQuiet(rt, pairs, at, j, i)) <==>
              j == |Routed(PairRoute(rt), pairs, at)| - 1 && NoneAfter(rt, pairs, at)
  {
    if forall i :: 0 <= i < rt.n ==> MsetexQuiet(rt, pairs, at, j, i) {
      assert MsetexQuiet(rt, pairs, at, j, at);
      forall t | at < t < rt.n ensures Routed(PairRoute(rt), pairs, t) == [] {
        assert MsetexQuiet(rt, pairs, at, j, t);
      }
    }
  }

  ghost predicate MsetexLeft(rt: Router, env: Env, before: Store, pairs: seq<(string, string)>, seconds: int,
                             at: nat, j: nat, pending: seq<seq<Reply>>)
    requires rt.Valid()
  {
    && |pending| == rt.n
    && forall i :: 0 <= i < rt.n ==> pending[i] == MsetexUnread(rt, env, before, pairs, seconds, at, j, i)
  }

  /** What is unread on shard `s` while its replies are next. */
  lemma NextBatch(rt: Router, env: Env, before: Store, pairs: seq<(string, string)>, seconds: int,
                  data: map<nat, MsetexData>, s: nat, pending: seq<seq<Reply>>)
    requires rt.Valid() && MsetexFilled(rt, pairs, seconds, data) && s < rt.n == |pending|
    requires Unread(env, before, BatchWork(PartsOf(rt, pairs, data), seconds), s, pending)
    ensures s in data ==> pending[s] == ExecuteAll(env, before, Batch(Routed(PairRoute(rt), pairs, s), seconds)).replies
    ensures s !in data ==> DistinctKeys(Routed(PairRoute(rt), pairs, s))
  {}

  lemma LeftInBatch(rt: Router, env: Env, before: Store, pairs: seq<(string, string)>, seconds: int,
                    data: map<nat, MsetexData>, s: nat, pending: seq<seq<Reply>>, j: nat)
    requires rt.Valid() && MsetexFilled(rt, pairs, seconds, data) && s < rt.n == |pending| && s in data
    requires Unread(env, before, BatchWork(PartsOf(rt, pairs, data), seconds), s, pending)
    requires j + 2 <= |pending[s]|
    ensures MsetexLeft(rt, env, before, pairs, seconds, s, j, pending[s := pending[s][j + 2..]])
  {
    var left := pending[s := pending[s][j + 2..]];
    forall i | 0 <= i < rt.n ensures left[i] == MsetexUnread(rt, env, before, pairs, seconds, s, j, i) {
      BatchWorkAt(rt, pairs, seconds, data);
      if i !in data {
        assert Routed(PairRoute(rt), pairs, i) == [];
      }
    }
  }

  lemma BatchIsOnes(env: Env, st: Store, pairs: seq<(string, string)>, seconds: int)
    ensures var replies := ExecuteAll(env, st, Batch(pairs, seconds)).replies;
            && |replies| == |pairs| + 1 && replies[0] == OK
            && AllIntegers(replies[1..]) && replies == [OK] + replies[1..]
  {
    BatchReplies(env, st, pairs, seconds);
  }

  /** Where the replies to a batch stop to be 1. */
  lemma BatchStops(env: Env, st: Store, pairs: seq<(string, string)>, seconds: int, j: nat)
    requires j <= |pairs|
    ensures var ones := ExecuteAll(env, st, Batch(pairs, seconds)).replies[1..];
            && |ones| == |pairs| && AllIntegers(ones)
            && ((forall i :: 0 <= i < j ==> ones[i] == Integer(1)) && j == |pairs| ==>
                  seconds > 0 || DistinctKeys(pairs))
            && ((forall i :: 0 <= i < j ==> ones[i] == Integer(1)) && j < |pairs| && ones[j] != Integer(1) ==>
                  seconds <= 0 && !DistinctKeys(pairs) && RepeatsFirstAt(pairs, j))
  {
    BatchReplies(env, st, pairs, seconds);
    DistinctByPrefix(pairs);
  }

  lemma DropNext<T>(xs: seq<T>, i: nat)
    requires i < |xs|
    ensures xs[i..][0] == xs[i] && xs[i..][1..] == xs[i + 1..]
  {}

  lemma DropAgain<T>(xs: seq<T>, j: nat)
    requires j + 1 < |xs|
    ensures xs[1..][j + 1..] == xs[j + 2..]
  {}

  /** A message for each socket that has work: the printed requests, joined. */
  ghost predicate Prints(messages: map<nat, string>, work: Work) {
    && messages.Keys == work.Keys
    && forall s :: s in work ==> messages[s] == EncodeCommands(LinesOfAll(work[s]))
  }

  ghost predicate PrintsBelow(messages: map<nat, string>, work: Work, s: nat) {
    && (forall i :: i in messages <==> i in work && i < s)
    && (forall i :: i in messages ==> messages[i] == EncodeCommands(LinesOfAll(work[i])))
  }

  lemma PrintsNext(messages: map<nat, string>, work: Work, s: nat)
    requires PrintsBelow(messages, work, s)
    ensures if s in work then PrintsBelow(messages[s := EncodeCommands(LinesOfAll(work[s]))], work, s + 1)
            else PrintsBelow(messages, work, s + 1)
  {}

  lemma PrintsAll(messages: map<nat, string>, work: Work, n: nat)
    requires PrintsBelow(messages, work, n) && forall s :: s in work ==> s < n
    ensures Prints(messages, work)
  {}

  lemma BatchWorkAt(rt: Router, pairs: seq<(string, string)>, seconds: int, data: map<nat, MsetexData>)
    requires rt.Valid() && MsetexFilled(rt, pairs, seconds, data)
    ensures var work := BatchWork(PartsOf(rt, pairs, data), seconds);
            && work.Keys == data.Keys
            && forall s :: s in data ==>
                 s < rt.n && work[s] == Batch(Routed(PairRoute(rt), pairs, s), seconds)
                 && data[s] == MsetexFor(Routed(PairRoute(rt), pairs, s), seconds)
  {}

  /** For a positive time, every key of the vector ends up with its last text and that time to live. */
  lemma MsetexMeans(env: Env, st: Store, pairs: seq<(string, string)>, seconds: int, k: string)
    ensures var after := ExecuteAll(env, st, Batch(pairs, seconds)).state;
            if !Names(pairs, k) then Lookup(after, k) == Lookup(st, k)
            else if seconds <= 0 then k !in after
            else k in after && k in PutAll(st, pairs) && after[k] == PutAll(st, pairs)[k].(ttl := Some(seconds))
  {
    BatchRuns(env, st, pairs, seconds);
    ExpireEachAt(env, PutAll(st, pairs), pairs, seconds, k);
    if Names(pairs, k) {
      PutAllHas(st, pairs, k);
    } else {
      PutAllAt(st, pairs, k);
    }
  }
}
