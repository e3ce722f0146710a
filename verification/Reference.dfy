/**
 What each command does and answers, as the command reference describes it: entry by entry, in
 terms of maps, sets and sequences only.
 */
module Reference {
  import opened Prelude
  import opened Decimal
  import opened Resp
  import opened Server

  predicate SameAt(a: Store, b: Store, k: string) {
    (k in a <==> k in b) && (k in a ==> a[k] == b[k])
  }

  /** A key that is missing counts as an empty set. */
  predicate SetLike(st: Store, k: string) {
    k !in st || st[k].value.SetVal?
  }

  predicate IsMember(st: Store, k: string, x: string) {
    k in st && st[k].value.SetVal? && x in st[k].value.members
  }

  /** The reply lists exactly the texts with a property, each once. */
  ghost predicate ListsOnce(reply: Reply, has: string -> bool) {
    && reply.Array?
    && (forall i :: 0 <= i < |reply.items| ==> reply.items[i].Bulk? && has(reply.items[i].data))
    && (forall x {:trigger has(x)} :: has(x) ==> Bulk(x) in reply.items)
    && (forall i, j :: 0 <= i < j < |reply.items| ==> reply.items[i] != reply.items[j])
  }

  // ------------------------------------------------------------------------------- strings

  lemma SetMeans(env: Env, st: Store, key: string, value: string, k: string)
    ensures var o := Execute(env, st, SET(key, value));
            && o.reply == Status("OK")
            && (if k == key then k in o.store && o.store[k] == Entry(StrVal(value), None) else SameAt(o.store, st, k))
  {}

  /** The text under a key, null for a missing key, an error for another kind of value. */
  lemma GetMeans(env: Env, st: Store, key: string)
    ensures var o := Execute(env, st, GET(key));
            && o.store == st
            && (key !in st ==> o.reply == NullBulk)
            && (key in st && st[key].value.StrVal? ==> o.reply == Bulk(st[key].value.text))
            && (key in st && !st[key].value.StrVal? ==> o.reply.Error?)
  {}

  /** A key of the list gets the value of its last pair, without a time to live; other keys stay. */
  lemma {:induction false} MsetMeans(st: Store, pairs: seq<(string, string)>, i: nat, k: string)
    ensures i < |pairs| && pairs[i].0 == k && (forall j :: i < j < |pairs| ==> pairs[j].0 != k) ==>
              k in PutAll(st, pairs) && PutAll(st, pairs)[k] == Entry(StrVal(pairs[i].1), None)
    ensures (forall j :: 0 <= j < |pairs| ==> pairs[j].0 != k) ==> SameAt(PutAll(st, pairs), st, k)
  {
    if pairs != [] {
      var front, last := pairs[..|pairs| - 1], pairs[|pairs| - 1];
      assert pairs[|pairs| - 1].0 == last.0;
      MsetMeans(st, front, i, k);
    }
  }

  /** The texts in the order of the keys; null for every key that is missing or of another kind. */
  lemma MgetMeans(env: Env, st: Store, keys: seq<string>, i: nat)
    requires i < |keys|
    ensures var o := Execute(env, st, MGET(keys));
            && o.store == st && o.reply.Array? && |o.reply.items| == |keys|
            && o.reply.items[i] == if keys[i] in st && st[keys[i]].value.StrVal? then Bulk(st[keys[i]].value.text)
                                   else NullBulk
  {}

  // ------------------------------------------------------------------------------- keys

  lemma ExpireMeans(env: Env, st: Store, key: string, seconds: int, k: string)
    ensures var o := Execute(env, st, EXPIRE(key, seconds));
            && o.reply == Integer(if key in st then 1 else 0)
            && (k != key || key !in st ==> SameAt(o.store, st, k))
            && (key in st && seconds <= 0 ==> key !in o.store)
            && (key in st && seconds > 0 ==> key in o.store && o.store[key] == Entry(st[key].value, Some(seconds)))
  {}

  lemma DelMeans(env: Env, st: Store, keys: seq<string>, k: string)
    ensures var o := Execute(env, st, DEL(keys));
            && o.reply == Integer(|set x | x in keys && x in st|)
            && (if k in keys then k !in o.store else SameAt(o.store, st, k))
  {
    assert SetOf(keys) * st.Keys == set x | x in keys && x in st;
  }

  lemma TypeMeans(env: Env, st: Store, key: string)
    ensures var o := Execute(env, st, TYPE(key));
            && o.store == st
            && o.reply == Status(if key !in st then "none"
                                 else if st[key].value.StrVal? then "string"
                                 else if st[key].value.ListVal? then "list"
                                 else if st[key].value.SetVal? then "set"
                                 else if st[key].value.ZSetVal? then "zset"
                                 else "hash")
  {}

  lemma KeysMeans(env: Env, st: Store, pattern: string)
    requires ValidEnv(env)
    ensures Execute(env, st, KEYS(pattern)).store == st
    ensures ListsOnce(Execute(env, st, KEYS(pattern)).reply, k => k in st && env.matches(pattern, k))
  {
    var found := set k | k in st && env.matches(pattern, k);
    Enumerated(env, found, k => k in st && env.matches(pattern, k));
  }

  lemma DbsizeMeans(env: Env, st: Store)
    ensures Execute(env, st, DBSIZE) == Outcome(st, Integer(|st.Keys|))
  {}

  /** The value moves with its time to live; onto itself nothing changes. */
  lemma RenameMeans(env: Env, st: Store, key: string, dst: string, k: string)
    ensures var o := Execute(env, st, RENAME(key, dst));
            && (key !in st ==> o.store == st && o.reply.Error?)
            && (key in st ==> o.reply == Status("OK") && dst in o.store && o.store[dst] == st[key])
            && (key in st && key != dst ==> key !in o.store)
            && (k != key && k != dst ==> SameAt(o.store, st, k))
  {}

  // ------------------------------------------------------------------------------- lists

  /** Inside the list the elements from start through stop, in order. */
  lemma RangeInside(items: seq<string>, start: nat, stop: nat)
    requires start <= stop < |items|
    ensures |Range(items, start, stop)| == stop - start + 1
    ensures forall i :: 0 <= i <= stop - start ==> Range(items, start, stop)[i] == items[start + i]
  {}

  /** Positions from the end, and positions outside the list. */
  lemma RangeOutside(items: seq<string>, start: int, stop: int)
    ensures -|items| <= start < 0 ==> Range(items, start, stop) == Range(items, |items| + start, stop)
    ensures -|items| <= stop < 0 ==> Range(items, start, stop) == Range(items, start, |items| + stop)
    ensures start < -|items| ==> Range(items, start, stop) == Range(items, 0, stop)
    ensures stop < -|items| ==> Range(items, start, stop) == []
    ensures stop >= |items| > 0 ==> Range(items, start, stop) == Range(items, start, |items| - 1)
    ensures start >= |items| ==> Range(items, start, stop) == []
    ensures 0 <= stop < start ==> Range(items, start, stop) == []
  {}

  lemma LrangeMeans(env: Env, st: Store, key: string, start: int, stop: int)
    ensures var o := Execute(env, st, LRANGE(key, start, stop));
            && o.store == st
            && (key !in st ==> o.reply == Array([]))
            && (key in st && st[key].value.ListVal? ==>
                  o.reply == Array(Bulks(Range(st[key].value.items, start, stop))))
            && (key in st && !st[key].value.ListVal? ==> o.reply.Error?)
  {}

  lemma RpushMeans(env: Env, st: Store, key: string, value: string, k: string)
    ensures var o := Execute(env, st, RPUSH(key, value));
            && (k != key ==> SameAt(o.store, st, k))
            && (key !in st ==> key in o.store && o.store[key] == Entry(ListVal([value]), None) && o.reply == Integer(1))
            && (key in st && !st[key].value.ListVal? ==> o.store == st && o.reply.Error?)
            && (key in st && st[key].value.ListVal? ==>
                  && key in o.store && o.store[key] == Entry(ListVal(st[key].value.items + [value]), st[key].ttl)
                  && o.reply == Integer(|st[key].value.items| + 1))
  {}

  // ------------------------------------------------------------------------------- one set

  lemma SaddMeans(env: Env, st: Store, key: string, x: string, k: string)
    ensures var o := Execute(env, st, SADD(key, x));
            && (k != key ==> SameAt(o.store, st, k))
            && (key !in st ==> key in o.store && o.store[key] == Entry(SetVal({x}), None) && o.reply == Integer(1))
            && (key in st && !st[key].value.SetVal? ==> o.store == st && o.reply.Error?)
            && (key in st && st[key].value.SetVal? ==>
                  && key in o.store && o.store[key] == Entry(SetVal(st[key].value.members + {x}), st[key].ttl)
                  && o.reply == Integer(if x in st[key].value.members then 0 else 1))
  {
    if key in st && st[key].value.SetVal? && x in st[key].value.members {
      assert st[key].value.members + {x} == st[key].value.members;
    }
    assert {} + {x} == {x};
  }

  /** The last member takes the key with it. */
  lemma SremMeans(env: Env, st: Store, key: string, x: string, k: string)
    ensures var o := Execute(env, st, SREM(key, x));
            && (k != key ==> SameAt(o.store, st, k))
            && (key !in st ==> o.store == st && o.reply == Integer(0))
            && (key in st && !st[key].value.SetVal? ==> o.store == st && o.reply.Error?)
            && (key in st && st[key].value.SetVal? && x !in st[key].value.members ==>
                  o.store == st && o.reply == Integer(0))
            && (key in st && st[key].value.SetVal? && x in st[key].value.members ==>
                  && o.reply == Integer(1)
                  && (if st[key].value.members == {x} then key !in o.store
                      else key in o.store && o.store[key] == Entry(SetVal(st[key].value.members - {x}), st[key].ttl)))
  {
    if key in st && st[key].value.SetVal? && x in st[key].value.members {
      assert st[key].value.members - {x} == {} <==> st[key].value.members == {x};
    }
  }

  lemma SmembersMeans(env: Env, st: Store, key: string)
    requires ValidEnv(env)
    ensures var o := Execute(env, st, SMEMBERS(key));
            && o.store == st
            && (SetLike(st, key) ==> ListsOnce(o.reply, x => IsMember(st, key, x)))
            && (!SetLike(st, key) ==> o.reply.Error?)
  {
    Enumerated(env, Members(st, key), x => IsMember(st, key, x));
  }

  // ------------------------------------------------------------------------------- several sets

  /** When a member moves, and that onto its own set, with other kinds and when absent nothing changes. */
  lemma SmoveMeans(env: Env, st: Store, src: string, dst: string, x: string, k: string)
    ensures var o := Execute(env, st, SMOVE(src, dst, x));
            && (o.reply == Integer(1) <==> IsMember(st, src, x) && SetLike(st, dst))
            && (o.reply.Error? <==> src in st && (!SetLike(st, src) || !SetLike(st, dst)))
            && (o.reply == Integer(1) || o.reply == Integer(0) || o.reply.Error?)
            && (o.reply != Integer(1) || src == dst ==> o.store == st)
            && (k != src && k != dst ==> SameAt(o.store, st, k))
  {
  }

  lemma SmoveMoves(env: Env, st: Store, src: string, dst: string, x: string)
    requires src != dst && IsMember(st, src, x) && SetLike(st, dst)
    ensures var after := Execute(env, st, SMOVE(src, dst, x)).store;
            && (if st[src].value.members == {x} then src !in after
                else src in after && after[src] == Entry(SetVal(st[src].value.members - {x}), st[src].ttl))
            && dst in after
            && after[dst] == (if dst in st then Entry(SetVal(st[dst].value.members + {x}), st[dst].ttl)
                              else Entry(SetVal({x}), None))
  {
    var removed := Execute(env, st, SREM(src, x)).store;
    SremMeans(env, st, src, x, dst);
    SremMeans(env, st, src, x, src);
    SaddMeans(env, removed, dst, x, src);
    SaddMeans(env, removed, dst, x, dst);
  }

  predicate AllSetLike(st: Store, keys: seq<string>) {
    forall k :: k in keys ==> SetLike(st, k)
  }

  lemma SetLikesAgree(st: Store, keys: seq<string>)
    ensures AllSetLike(st, keys) <==> AllHoldSets(st, keys)
  {
    assert forall k :: SetLike(st, k) <==> HoldsSet(st, k);
  }

  predicate InAll(st: Store, keys: seq<string>, x: string) {
    forall k :: k in keys ==> IsMember(st, k, x)
  }

  predicate InSome(st: Store, keys: seq<string>, x: string) {
    exists k :: k in keys && IsMember(st, k, x)
  }

  lemma InterMeans(st: Store, keys: seq<string>, x: string)
    requires keys != []
    ensures x in Inter(st, keys) <==> InAll(st, keys, x)
  {
    assert keys[0] in keys;
    assert forall k :: x in Members(st, k) <==> IsMember(st, k, x);
  }

  lemma UnionMeans(st: Store, keys: seq<string>, x: string)
    ensures x in Union(st, keys) <==> InSome(st, keys, x)
  {
    assert forall k :: x in Members(st, k) <==> IsMember(st, k, x);
  }

  /** Every member that all sets have, once each; an error if a key holds something else. */
  lemma SinterMeans(env: Env, st: Store, keys: seq<string>)
    requires ValidEnv(env) && keys != []
    ensures var o := Execute(env, st, SINTER(keys));
            && o.store == st && (!AllSetLike(st, keys) ==> o.reply.Error?)
            && (AllSetLike(st, keys) ==> ListsOnce(o.reply, x => InAll(st, keys, x)))
  {
    SetLikesAgree(st, keys);
    forall x ensures x in Inter(st, keys) <==> InAll(st, keys, x) {
      InterMeans(st, keys, x);
    }
    Enumerated(env, Inter(st, keys), x => InAll(st, keys, x));
  }

  /** Every member that some set has, once each; an error if a key holds something else. */
  lemma SunionMeans(env: Env, st: Store, keys: seq<string>)
    requires ValidEnv(env)
    ensures var o := Execute(env, st, SUNION(keys));
            && o.store == st && (!AllSetLike(st, keys) ==> o.reply.Error?)
            && (AllSetLike(st, keys) ==> ListsOnce(o.reply, x => InSome(st, keys, x)))
  {
    SetLikesAgree(st, keys);
    forall x ensures x in Union(st, keys) <==> InSome(st, keys, x) {
      UnionMeans(st, keys, x);
    }
    Enumerated(env, Union(st, keys), x => InSome(st, keys, x));
  }

  /** `SINTERSTORE` and `SUNIONSTORE` put what `SINTER` and `SUNION` list under the destination. */
  lemma StoreMeans(env: Env, st: Store, dst: string, keys: seq<string>, members: set<string>, req: Request, k: string)
    requires (req == SINTERSTORE(dst, keys) && members == Inter(st, keys))
          || (req == SUNIONSTORE(dst, keys) && members == Union(st, keys))
    ensures var o := Execute(env, st, req);
            && (!AllSetLike(st, keys) ==> o.store == st && o.reply.Error?)
            && (AllSetLike(st, keys) ==>
                  && o.reply == Integer(|members|)
                  && (if members == {} then dst !in o.store
                      else dst in o.store && o.store[dst] == Entry(SetVal(members), None)))
            && (k != dst ==> SameAt(o.store, st, k))
  {
    SetLikesAgree(st, keys);
  }

  // ------------------------------------------------------------------------------- enumerations

  lemma {:induction false} FewerDistinct(xs: seq<string>)
    ensures |set x | x in xs| <= |xs|
    ensures |set x | x in xs| == |xs| ==> forall i, j :: 0 <= i < j < |xs| ==> xs[i] != xs[j]
  {
    if xs != [] {
      var front, last := xs[..|xs| - 1], xs[|xs| - 1];
      FewerDistinct(front);
      assert xs == front + [last];
      assert (set x | x in xs) == (set x | x in front) + {last};
      if last in front {
        assert (set x | x in front) + {last} == set x | x in front;
      }
    }
  }

  /** The order of a set lists it, each element once. */
  lemma Enumerated(env: Env, s: set<string>, has: string -> bool)
    requires ValidEnv(env) && forall x :: has(x) <==> x in s
    ensures ListsOnce(Array(Bulks(env.order(s))), has)
  {
    var xs := env.order(s);
    assert Enumerates(xs, s);
    FewerDistinct(xs);
    forall x | x in s ensures Bulk(x) in Bulks(xs) {
      var i :| 0 <= i < |xs| && xs[i] == x;
      assert Bulks(xs)[i] == Bulk(x);
    }
    assert forall i :: 0 <= i < |xs| ==> xs[i] in (set x | x in xs);
  }

  // ------------------------------------------------------------------------------- commands and transactions

  /** A number may be written in another way than it is printed. */
  predicate Numerals(lines: Command, req: Request) {
    match req
    case EXPIRE(key, seconds) =>
      |lines| == 3 && lines[..2] == ["EXPIRE", key] && LexicalCast(lines[2]) == Some(seconds)
    case LRANGE(key, start, stop) =>
      && |lines| == 4 && lines[..2] == ["LRANGE", key]
      && LexicalCast(lines[2]) == Some(start) && LexicalCast(lines[3]) == Some(stop)
    case _ => false
  }

  /** A command is known exactly if it is what the client sends for some well-formed request, numbers aside. */
  lemma KnownCommands(lines: Command)
    ensures var req := RequestOf(lines);
            if req.UNKNOWN? then req.lines == lines
            else WellFormed(req) && (LinesOf(req) == lines || Numerals(lines, req))
  {
    if |lines| > 0 {
      KnownArguments(lines, RequestOf(lines));
    }
  }

  lemma {:induction false} FlattenOfPair(flat: seq<string>)
    requires |flat| % 2 == 0
    ensures Flatten(Pair(flat)) == flat && (flat != [] ==> Pair(flat) != [])
  {
    if flat != [] {
      FlattenOfPair(flat[2..]);
      assert Pair(flat)[1..] == Pair(flat[2..]);
      assert [flat[0], flat[1]] + flat[2..] == flat;
    }
  }

  lemma KnownArguments(lines: Command, req: Request)
    requires |lines| > 0 && req == RequestOf(lines)
    ensures req.UNKNOWN? ==> req.lines == lines
    ensures !req.UNKNOWN? ==> WellFormed(req) && (LinesOf(req) == lines || Numerals(lines, req))
  {
    var args := lines[1..];
    assert lines == [lines[0]] + args;
    if req.MSET? {
      FlattenOfPair(args);
    } else if req.SINTERSTORE? || req.SUNIONSTORE? {
      assert args == [args[0]] + args[1..];
    }
  }

  /** With a transaction open, every command is answered without being run, until `EXEC` runs or discards them all. */
  lemma QueueMeans(env: Env, st: Store, queued: seq<Request>, lines: Command)
    ensures var host := Host(st, Some(queued));
            var a := Step(env, host, lines);
            match RequestOf(lines)
            case MULTI => a.host == host && a.reply.Error?
            case EXEC =>
              if exists q :: q in queued && q.UNKNOWN? then a.host == Host(st, None) && a.reply.Error?
              else a.host == Host(ExecuteAll(env, st, queued).state, None)
                   && a.reply == Array(ExecuteAll(env, st, queued).replies)
            case UNKNOWN(_) => a.host.store == st && a.host.queue == Some(queued + [UNKNOWN(lines)]) && a.reply.Error?
            case req => a.host == Host(st, Some(queued + [req])) && a.reply == Status("QUEUED")
  {
    KnownCommands(lines);
  }

  /** Without one, `MULTI` opens it, `EXEC` is refused, and every other command is run at once. */
  lemma NoQueueMeans(env: Env, st: Store, lines: Command)
    ensures var a := Step(env, Host(st, None), lines);
            match RequestOf(lines)
            case MULTI => a == Stepped(Host(st, Some([])), Status("OK"))
            case EXEC => a.host == Host(st, None) && a.reply.Error?
            case UNKNOWN(_) => a.host == Host(st, None) && a.reply.Error?
            case req => a == Stepped(Host(Execute(env, st, req).store, None), Execute(env, st, req).reply)
  {}
}
