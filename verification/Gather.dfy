/**
 How the parts of a request that was split by shard add up to the whole request, on one store.
 These are the laws behind `mset`, `msetex`, `mget`, `del`, `keys`, `dbsize`, `sinter`, `sunion`.
 */
module Gather {
  import opened Prelude
  import opened Resp
  import opened Server
  import opened ServerLaws
  import opened Shards

  // ------------------------------------------------------------------------------- partition

  /** The part of a set of keys that is routed to `s`. */
  function Slice(rt: Router, keys: set<string>, s: nat): set<string>
    requires rt.Valid()
  {
    set k | k in keys && rt.Shard(k) == s
  }

  function SliceSum(rt: Router, keys: set<string>, n: nat): nat
    requires rt.Valid()
  {
    if n == 0 then 0 else SliceSum(rt, keys, n - 1) + |Slice(rt, keys, n - 1)|
  }

  lemma {:induction false} SliceSumUpTo(rt: Router, keys: set<string>, n: nat)
    requires rt.Valid()
    ensures SliceSum(rt, keys, n) == |set k | k in keys && rt.Shard(k) < n|
  {
    var below := set k | k in keys && rt.Shard(k) < n;
    if n == 0 {
      assert below == {};
    } else {
      SliceSumUpTo(rt, keys, n - 1);
      var less := set k | k in keys && rt.Shard(k) < n - 1;
      assert below == less + Slice(rt, keys, n - 1);
    }
  }

  /** The slices of a set partition it: their sizes add up to its size. */
  lemma SlicesAddUp(rt: Router, keys: set<string>)
    requires rt.Valid()
    ensures SliceSum(rt, keys, rt.n) == |keys|
  {
    SliceSumUpTo(rt, keys, rt.n);
    assert keys == set k | k in keys && rt.Shard(k) < rt.n;
  }

  lemma RoutedKeys(rt: Router, keys: seq<string>, s: nat)
    requires rt.Valid()
    ensures SetOf(Routed(KeyRoute(rt), keys, s)) == Slice(rt, SetOf(keys), s)
  {
    forall k ensures k in Routed(KeyRoute(rt), keys, s) <==> k in keys && rt.Shard(k) == s {
      RoutedHas(KeyRoute(rt), keys, s, k);
    }
  }

  /** A store's own keys on shard `s` are that shard's share. */
  lemma ShardShare(rt: Router, stores: seq<Store>, s: nat)
    requires Placed(rt, stores) && s < rt.n
    ensures Slice(rt, Logical(rt, stores).Keys, s) == stores[s].Keys
  {
    forall k ensures k in Slice(rt, Logical(rt, stores).Keys, s) <==> k in stores[s].Keys {
      LogicalAt(rt, stores, k);
    }
  }

  // ------------------------------------------------------------------------------- mset

  /** On the keys of one shard, only the pairs of that shard matter, and their order is kept. */
  lemma {:induction false} MsetSplits(rt: Router, st: Store, pairs: seq<(string, string)>, k: string)
    requires rt.Valid()
    ensures Lookup(PutAll(st, Routed(PairRoute(rt), pairs, rt.Shard(k))), k) == Lookup(PutAll(st, pairs), k)
  {
    if pairs != [] {
      var front, last := pairs[..|pairs| - 1], pairs[|pairs| - 1];
      MsetSplits(rt, st, front, k);
      var mine := Routed(PairRoute(rt), pairs, rt.Shard(k));
      if rt.Shard(last.0) == rt.Shard(k) {
        assert mine[..|mine| - 1] == Routed(PairRoute(rt), front, rt.Shard(k));
      }
    }
  }

  function SetEach(pairs: seq<(string, string)>): seq<Request> {
    seq(|pairs|, i requires 0 <= i < |pairs| => SET(pairs[i].0, pairs[i].1))
  }

  /** Setting many pairs is setting them one by one from left to right; a later pair wins. */
  lemma {:induction false} MsetIsFold(env: Env, st: Store, pairs: seq<(string, string)>)
    ensures PutAll(st, pairs) == ExecuteAll(env, st, SetEach(pairs)).state
  {
    if pairs != [] {
      MsetIsFold(env, st, pairs[..|pairs| - 1]);
      assert SetEach(pairs)[..|pairs| - 1] == SetEach(pairs[..|pairs| - 1]);
    }
  }

  // ------------------------------------------------------------------------------- msetex

  function ExpireEach(pairs: seq<(string, string)>, seconds: int): seq<Request> {
    seq(|pairs|, i requires 0 <= i < |pairs| => EXPIRE(pairs[i].0, seconds))
  }

  predicate Names(pairs: seq<(string, string)>, k: string) {
    exists i :: 0 <= i < |pairs| && pairs[i].0 == k
  }

  predicate DistinctKeys(pairs: seq<(string, string)>) {
    forall i, j :: 0 <= i < j < |pairs| ==> pairs[i].0 != pairs[j].0
  }

  /** What setting the pairs and expiring each of their keys leaves under `k`. */
  function Expired(st: Store, pairs: seq<(string, string)>, seconds: int, k: string): Option<Entry> {
    match Lookup(st, k)
    case None => None
    case Some(e) =>
      if !Names(pairs, k) then Some(e)
      else if seconds > 0 then Some(e.(ttl := Some(seconds)))
      else None
  }

  lemma {:induction false} ExpireEachAt(env: Env, st: Store, pairs: seq<(string, string)>, seconds: int, k: string)
    ensures Lookup(ExecuteAll(env, st, ExpireEach(pairs, seconds)).state, k) == Expired(st, pairs, seconds, k)
  {
    if pairs != [] {
      var front, last := pairs[..|pairs| - 1], pairs[|pairs| - 1];
      ExpireEachAt(env, st, front, seconds, k);
      ExpireEachAt(env, st, front, seconds, last.0);
      assert ExpireEach(pairs, seconds)[..|pairs| - 1] == ExpireEach(front, seconds);
      assert Names(pairs, k) <==> Names(front, k) || last.0 == k by {
        assert forall i :: 0 <= i < |front| ==> pairs[i] == front[i];
        assert pairs[|pairs| - 1].0 == last.0;
      }
    }
  }

  /** The reply to the i-th expiry: it fails exactly when the key has been expired away before. */
  lemma {:induction false} ExpireReplies(env: Env, st: Store, pairs: seq<(string, string)>, seconds: int, i: nat)
    requires i < |pairs| && forall j :: 0 <= j < |pairs| ==> pairs[j].0 in st
    ensures |ExecuteAll(env, st, ExpireEach(pairs, seconds)).replies| == |pairs|
    ensures ExecuteAll(env, st, ExpireEach(pairs, seconds)).replies[i]
         == Integer(if seconds > 0 || !Names(pairs[..i], pairs[i].0) then 1 else 0)
  {
    var front, last := pairs[..|pairs| - 1], pairs[|pairs| - 1];
    assert ExpireEach(pairs, seconds)[..|pairs| - 1] == ExpireEach(front, seconds);
    ExecuteAllReplies(env, st, ExpireEach(pairs, seconds));
    ExecuteAllReplies(env, st, ExpireEach(front, seconds));
    if i < |front| {
      ExpireReplies(env, st, front, seconds, i);
      assert front[..i] == pairs[..i];
    } else {
      ExpireEachAt(env, st, front, seconds, last.0);
      assert front == pairs[..i];
    }
  }

  lemma {:induction false} PutAllHas(st: Store, pairs: seq<(string, string)>, k: string)
    requires Names(pairs, k)
    ensures k in PutAll(st, pairs) && PutAll(st, pairs)[k].ttl == None && PutAll(st, pairs)[k].value.StrVal?
  {
    var front, last := pairs[..|pairs| - 1], pairs[|pairs| - 1];
    if last.0 != k {
      var i :| 0 <= i < |pairs| && pairs[i].0 == k;
      assert front[i].0 == k;
      PutAllHas(st, front, k);
    }
  }

  /** The batch one connection gets in `msetex`. */
  function Batch(pairs: seq<(string, string)>, seconds: int): seq<Request> {
    [MSET(pairs)] + ExpireEach(pairs, seconds)
  }

  lemma BatchRuns(env: Env, st: Store, pairs: seq<(string, string)>, seconds: int)
    ensures var o := ExecuteAll(env, PutAll(st, pairs), ExpireEach(pairs, seconds));
            ExecuteAll(env, st, Batch(pairs, seconds)) == Progress(o.state, [OK] + o.replies)
  {
    ExecuteAllAppend(env, st, [MSET(pairs)], ExpireEach(pairs, seconds));
    ExecuteOne(env, st, MSET(pairs));
  }

  lemma RoutedNames(rt: Router, pairs: seq<(string, string)>, k: string)
    requires rt.Valid()
    ensures Names(Routed(PairRoute(rt), pairs, rt.Shard(k)), k) <==> Names(pairs, k)
  {
    var mine := Routed(PairRoute(rt), pairs, rt.Shard(k));
    if Names(pairs, k) {
      var i :| 0 <= i < |pairs| && pairs[i].0 == k;
      RoutedHas(PairRoute(rt), pairs, rt.Shard(k), pairs[i]);
      assert pairs[i] in mine;
    }
    if Names(mine, k) {
      var i :| 0 <= i < |mine| && mine[i].0 == k;
      RoutedHas(PairRoute(rt), pairs, rt.Shard(k), mine[i]);
      assert mine[i] in pairs;
    }
  }

  /** On the keys of one shard, the shard's batch does what the whole batch does. */
  lemma BatchSplits(rt: Router, env: Env, st: Store, pairs: seq<(string, string)>, seconds: int, k: string)
    requires rt.Valid()
    ensures Lookup(ExecuteAll(env, st, Batch(Routed(PairRoute(rt), pairs, rt.Shard(k)), seconds)).state, k)
         == Lookup(ExecuteAll(env, st, Batch(pairs, seconds)).state, k)
  {
    var mine := Routed(PairRoute(rt), pairs, rt.Shard(k));
    BatchRuns(env, st, mine, seconds);
    BatchRuns(env, st, pairs, seconds);
    ExpireEachAt(env, PutAll(st, mine), mine, seconds, k);
    ExpireEachAt(env, PutAll(st, pairs), pairs, seconds, k);
    MsetSplits(rt, st, pairs, k);
    RoutedNames(rt, pairs, k);
  }

  // ------------------------------------------------------------------------------- sinter, sunion

  /** The intersection of all sets is what is in the intersection of every shard's sets. */
  lemma InterHas(st: Store, keys: seq<string>, x: string)
    requires keys != []
    ensures x in Inter(st, keys) <==> forall k :: k in keys ==> x in Members(st, k)
  {
    assert keys[0] in keys;
  }

  lemma UnionHas(st: Store, keys: seq<string>, x: string)
    ensures x in Union(st, keys) <==> exists k :: k in keys && x in Members(st, k)
  {}

  // ------------------------------------------------------------------------------- mget

  /** The positions of the keys routed to `s`, in increasing order. */
  function Positions(rt: Router, keys: seq<string>, s: nat): seq<nat>
    requires rt.Valid()
  {
    if keys == [] then []
    else
      var front := Positions(rt, keys[..|keys| - 1], s);
      if rt.Shard(keys[|keys| - 1]) == s then front + [|keys| - 1] else front
  }

  /** The position lists partition the key vector, and line up with the keys sent. */
  lemma {:induction false} PositionsPartition(rt: Router, keys: seq<string>, s: nat)
    requires rt.Valid()
    ensures |Positions(rt, keys, s)| == |Routed(KeyRoute(rt), keys, s)|
    ensures forall j :: 0 <= j < |Positions(rt, keys, s)| ==>
              Positions(rt, keys, s)[j] < |keys| && keys[Positions(rt, keys, s)[j]] == Routed(KeyRoute(rt), keys, s)[j]
    ensures forall i, j :: 0 <= i < j < |Positions(rt, keys, s)| ==>
              Positions(rt, keys, s)[i] < Positions(rt, keys, s)[j]
    ensures forall i :: 0 <= i < |keys| ==> (i in Positions(rt, keys, s) <==> rt.Shard(keys[i]) == s)
  {
    if keys != [] {
      PositionsPartition(rt, keys[..|keys| - 1], s);
    }
  }

  // ------------------------------------------------------------------------------- distinct keys

  lemma DistinctNext(pairs: seq<(string, string)>, last: (string, string))
    ensures DistinctKeys(pairs + [last]) <==> DistinctKeys(pairs) && !Names(pairs, last.0)
  {
    var all := pairs + [last];
    assert all[|pairs|] == last && forall i :: 0 <= i < |pairs| ==> all[i] == pairs[i];
    if DistinctKeys(all) {
      forall i | 0 <= i < |pairs| ensures pairs[i].0 != last.0 {
        assert all[i].0 != all[|pairs|].0;
      }
      forall i, j | 0 <= i < j < |pairs| ensures pairs[i].0 != pairs[j].0 {
        assert all[i].0 != all[j].0;
      }
    }
  }

  ghost predicate DistinctOnShards(rt: Router, pairs: seq<(string, string)>)
    requires rt.Valid()
  {
    forall s: nat :: s < rt.n ==> DistinctKeys(Routed(PairRoute(rt), pairs, s))
  }

  /** A key is repeated in a pair vector exactly when it is repeated on some shard. */
  lemma {:induction false} DistinctSplits(rt: Router, pairs: seq<(string, string)>)
    requires rt.Valid()
    ensures DistinctKeys(pairs) <==> DistinctOnShards(rt, pairs)
  {
    if pairs != [] {
      var front, last := pairs[..|pairs| - 1], pairs[|pairs| - 1];
      var home := rt.Shard(last.0);
      DistinctSplits(rt, front);
      assert pairs == front + [last];
      DistinctNext(front, last);
      DistinctNext(Routed(PairRoute(rt), front, home), last);
      RoutedNames(rt, front, last.0);
      DistinctShardsNext(rt, front, last);
    }
  }

  lemma DistinctShardsNext(rt: Router, front: seq<(string, string)>, last: (string, string))
    requires rt.Valid()
    ensures DistinctOnShards(rt, front + [last]) <==>
              && DistinctOnShards(rt, front)
              && DistinctKeys(Routed(PairRoute(rt), front, rt.Shard(last.0)) + [last])
  {
    var home, pairs := rt.Shard(last.0), front + [last];
    assert pairs[..|pairs| - 1] == front;
    assert Routed(PairRoute(rt), pairs, home) == Routed(PairRoute(rt), front, home) + [last];
    DistinctNext(Routed(PairRoute(rt), front, home), last);
    forall s: nat | s < rt.n && s != home
      ensures Routed(PairRoute(rt), pairs, s) == Routed(PairRoute(rt), front, s)
    {}
  }

  // ------------------------------------------------------------------------------- pipelined sadd

  function SaddEach(key: string, vals: seq<string>): seq<Request> {
    seq(|vals|, i requires 0 <= i < |vals| => SADD(key, vals[i]))
  }

  function IntSum(replies: seq<Reply>): int {
    if replies == [] then 0
    else IntSum(replies[..|replies| - 1])
         + if replies[|replies| - 1].Integer? then replies[|replies| - 1].n else 0
  }

  /** `st` after `added` have been added to the set under `key`. */
  function WithMembers(st: Store, key: string, added: set<string>): Store {
    if added <= Members(st, key) then st else PutSet(st, key, Members(st, key) + added)
  }

  lemma PutSetTwice(st: Store, key: string, a: set<string>, b: set<string>)
    requires a != {}
    ensures PutSet(PutSet(st, key, a), key, b) == PutSet(st, key, b)
  {}

  lemma WithMembersHas(st: Store, key: string, added: set<string>)
    requires HoldsSet(st, key)
    ensures HoldsSet(WithMembers(st, key, added), key)
    ensures Members(WithMembers(st, key, added), key) == Members(st, key) + added
  {}

  lemma SaddNext(st: Store, key: string, added: set<string>, x: string)
    requires HoldsSet(st, key)
    ensures var o := ExecuteSAdd(WithMembers(st, key, added), key, x);
            && o.store == WithMembers(st, key, added + {x})
            && o.reply == Integer(if x in Members(st, key) + added then 0 else 1)
  {
    var had := Members(st, key) + added;
    WithMembersHas(st, key, added);
    assert Members(st, key) + (added + {x}) == had + {x};
    if x in had {
      assert had + {x} == had;
    } else if !(added <= Members(st, key)) {
      PutSetTwice(st, key, had, had + {x});
    } else {
      assert had == Members(st, key);
    }
  }

  lemma IntSumNext(replies: seq<Reply>, n: int)
    ensures IntSum(replies + [Integer(n)]) == IntSum(replies) + n
  {
    assert (replies + [Integer(n)])[..|replies|] == replies;
  }

  lemma SetOfNext(vals: seq<string>)
    requires vals != []
    ensures SetOf(vals) == SetOf(vals[..|vals| - 1]) + {vals[|vals| - 1]}
  {
    assert vals == vals[..|vals| - 1] + [vals[|vals| - 1]];
  }

  lemma SaddEachNext(env: Env, st: Store, key: string, vals: seq<string>)
    requires vals != []
    ensures var before := ExecuteAll(env, st, SaddEach(key, vals[..|vals| - 1]));
            var last := ExecuteSAdd(before.state, key, vals[|vals| - 1]);
            ExecuteAll(env, st, SaddEach(key, vals)) == Progress(last.store, before.replies + [last.reply])
  {
    assert SaddEach(key, vals)[..|vals| - 1] == SaddEach(key, vals[..|vals| - 1]);
  }

  predicate AllIntegers(replies: seq<Reply>) {
    forall i :: 0 <= i < |replies| ==> replies[i].Integer?
  }

  /** `o` is a run on `st` that has added `added` under `key` and counted the new members. */
  ghost predicate Added(st: Store, key: string, added: set<string>, o: Progress<Store>) {
    && o.state == WithMembers(st, key, added)
    && AllIntegers(o.replies)
    && IntSum(o.replies) == |Members(st, key) + added| - |Members(st, key)|
  }

  lemma SizeNext(members: set<string>, added: set<string>, x: string)
    ensures |members + (added + {x})| == |members + added| + if x in members + added then 0 else 1
  {
    assert members + (added + {x}) == members + added + {x};
    assert x in members + added ==> members + added + {x} == members + added;
  }

  lemma AddedNext(st: Store, key: string, added: set<string>, x: string, o: Progress<Store>)
    requires HoldsSet(st, key) && Added(st, key, added, o)
    ensures var last := ExecuteSAdd(o.state, key, x);
            Added(st, key, added + {x}, Progress(last.store, o.replies + [last.reply]))
  {
    SaddNext(st, key, added, x);
    SizeNext(Members(st, key), added, x);
    IntSumNext(o.replies, if x in Members(st, key) + added then 0 else 1);
  }

  /** Adding members one by one adds them all, and the replies count the new ones. */
  lemma {:induction false} SaddEachRuns(env: Env, st: Store, key: string, vals: seq<string>)
    requires HoldsSet(st, key)
    ensures Added(st, key, SetOf(vals), ExecuteAll(env, st, SaddEach(key, vals)))
  {
    if vals == [] {
      assert Members(st, key) + SetOf(vals) == Members(st, key);
    } else {
      var front, last := vals[..|vals| - 1], vals[|vals| - 1];
      SaddEachRuns(env, st, key, front);
      AddedNext(st, key, SetOf(front), last, ExecuteAll(env, st, SaddEach(key, front)));
      SaddEachNext(env, st, key, vals);
      SetOfNext(vals);
    }
  }

  /** On a key of another kind every single addition is refused. */
  lemma {:induction false} SaddEachRefused(env: Env, st: Store, key: string, vals: seq<string>)
    requires !HoldsSet(st, key)
    ensures ExecuteAll(env, st, SaddEach(key, vals)) == Progress(st, seq(|vals|, i => WRONG_TYPE))
  {
    if vals != [] {
      var front, last := vals[..|vals| - 1], vals[|vals| - 1];
      SaddEachRefused(env, st, key, front);
      assert SaddEach(key, vals)[..|vals| - 1] == SaddEach(key, front);
    }
  }
}
