/**
 Sharding: which connection a key belongs to, the logical store that several servers hold
 together, and how work done on the shards adds up on the logical store.
 */
module Shards {
  import opened Server
  import opened ServerLaws

  /** `get_socket` for one key, with `default_hasher`; a socket is named by its connection's index. */
  datatype Router = Router(hash: string -> nat, n: nat) {
    predicate Valid() {
      n >= 1
    }

    function Shard(key: string): (s: nat)
      requires Valid()
      ensures s < n
    {
      if n == 1 then 0 else hash(key) % n
    }
  }

  /** The key's hash modulo the number of connections. */
  lemma ShardIsModulo(rt: Router, key: string)
    requires rt.Valid()
    ensures rt.Shard(key) == rt.hash(key) % rt.n
  {}

  // ------------------------------------------------------------------------------- logical store

  function Stores(hosts: seq<Host>): (stores: seq<Store>)
    ensures |stores| == |hosts|
    ensures forall i :: 0 <= i < |hosts| ==> stores[i] == hosts[i].store
  {
    seq(|hosts|, i requires 0 <= i < |hosts| => hosts[i].store)
  }

  /** Every key lives on the shard it is routed to, and nowhere else. */
  ghost predicate Placed(rt: Router, stores: seq<Store>) {
    && rt.Valid() && |stores| == rt.n
    && forall i, k :: 0 <= i < |stores| && k in stores[i] ==> rt.Shard(k) == i
  }

  function AllKeys(stores: seq<Store>): set<string> {
    set i, k | 0 <= i < |stores| && k in stores[i] :: k
  }

  /** The one map that all shards hold together. */
  function Logical(rt: Router, stores: seq<Store>): Store
    requires rt.Valid() && |stores| == rt.n
  {
    map k | k in AllKeys(stores) && k in stores[rt.Shard(k)] :: stores[rt.Shard(k)][k]
  }

  lemma LogicalAt(rt: Router, stores: seq<Store>, k: string)
    requires rt.Valid() && |stores| == rt.n
    ensures Lookup(Logical(rt, stores), k) == Lookup(stores[rt.Shard(k)], k)
  {
    if k in stores[rt.Shard(k)] {
      assert k in AllKeys(stores);
    }
  }

  lemma SameStore(a: Store, b: Store)
    requires forall k :: Lookup(a, k) == Lookup(b, k)
    ensures a == b
  {
    forall k ensures (k in a <==> k in b) && (k in a ==> a[k] == b[k]) {
      assert Lookup(a, k) == Lookup(b, k);
    }
  }

  // ------------------------------------------------------------------------------- locality

  ghost predicate OnShard(rt: Router, s: nat, req: Request)
    requires rt.Valid()
  {
    Local(req) && forall k :: k in KeysOf(req) ==> rt.Shard(k) == s
  }

  ghost predicate AllOnShard(rt: Router, s: nat, reqs: seq<Request>)
    requires rt.Valid()
  {
    forall i :: 0 <= i < |reqs| ==> OnShard(rt, s, reqs[i])
  }

  ghost predicate AgreeOn(rt: Router, s: nat, a: Store, b: Store)
    requires rt.Valid()
  {
    forall k :: rt.Shard(k) == s ==> Lookup(a, k) == Lookup(b, k)
  }

  /** `after` differs from `before` at most in keys of shard `s`. */
  ghost predicate KeepsOthers(rt: Router, s: nat, before: Store, after: Store)
    requires rt.Valid()
  {
    forall k :: rt.Shard(k) != s ==> Lookup(after, k) == Lookup(before, k)
  }

  lemma ExecuteOnShard(rt: Router, s: nat, env: Env, a: Store, b: Store, req: Request)
    requires rt.Valid() && OnShard(rt, s, req) && AgreeOn(rt, s, a, b)
    ensures Execute(env, a, req).reply == Execute(env, b, req).reply
    ensures AgreeOn(rt, s, Execute(env, a, req).store, Execute(env, b, req).store)
    ensures KeepsOthers(rt, s, a, Execute(env, a, req).store)
    ensures KeepsOthers(rt, s, b, Execute(env, b, req).store)
  {
    var oa, ob := Execute(env, a, req), Execute(env, b, req);
    ExecuteLocal(env, a, b, req);
    forall k | rt.Shard(k) == s ensures Lookup(oa.store, k) == Lookup(ob.store, k) {
      assert Lookup(a, k) == Lookup(b, k);
      if k !in KeysOf(req) {
        assert Lookup(oa.store, k) == Lookup(a, k);
      }
    }
  }

  /** The same requests of one shard, run on two stores that agree on that shard. */
  lemma {:induction false} ExecuteAllOnShard(rt: Router, s: nat, env: Env, a: Store, b: Store, reqs: seq<Request>)
    requires rt.Valid() && AllOnShard(rt, s, reqs) && AgreeOn(rt, s, a, b)
    ensures ExecuteAll(env, a, reqs).replies == ExecuteAll(env, b, reqs).replies
    ensures AgreeOn(rt, s, ExecuteAll(env, a, reqs).state, ExecuteAll(env, b, reqs).state)
    ensures KeepsOthers(rt, s, a, ExecuteAll(env, a, reqs).state)
    ensures KeepsOthers(rt, s, b, ExecuteAll(env, b, reqs).state)
  {
    if reqs != [] {
      var front, last := reqs[..|reqs| - 1], reqs[|reqs| - 1];
      ExecuteAllOnShard(rt, s, env, a, b, front);
      ExecuteOnShard(rt, s, env, ExecuteAll(env, a, front).state, ExecuteAll(env, b, front).state, last);
    }
  }

  lemma {:induction false} ExecuteAllProper(env: Env, st: Store, reqs: seq<Request>)
    requires Proper(st)
    ensures Proper(ExecuteAll(env, st, reqs).state)
  {
    if reqs != [] {
      var front := reqs[..|reqs| - 1];
      ExecuteAllProper(env, st, front);
      ExecuteProper(env, ExecuteAll(env, st, front).state, reqs[|reqs| - 1]);
    }
  }

  // ------------------------------------------------------------------------------- scatter

  /** Requests for each of some shards. */
  type Work = map<nat, seq<Request>>

  ghost predicate ValidWork(rt: Router, work: Work)
    requires rt.Valid()
  {
    forall s :: s in work ==> s < rt.n && AllOnShard(rt, s, work[s])
  }

  function Scatter(env: Env, stores: seq<Store>, work: Work): (after: seq<Store>)
    ensures |after| == |stores|
  {
    seq(|stores|, i requires 0 <= i < |stores| =>
      if i in work then ExecuteAll(env, stores[i], work[i]).state else stores[i])
  }

  /** `after` is `before` with each shard's keys as that shard's work leaves them. */
  ghost predicate Scattered(rt: Router, env: Env, before: Store, work: Work, after: Store)
    requires rt.Valid()
  {
    forall k :: Lookup(after, k) ==
                if rt.Shard(k) in work then Lookup(ExecuteAll(env, before, work[rt.Shard(k)]).state, k)
                else Lookup(before, k)
  }

  lemma ShardAgrees(rt: Router, stores: seq<Store>, s: nat)
    requires Placed(rt, stores) && s < rt.n
    ensures AgreeOn(rt, s, stores[s], Logical(rt, stores))
  {
    forall k | rt.Shard(k) == s ensures Lookup(stores[s], k) == Lookup(Logical(rt, stores), k) {
      LogicalAt(rt, stores, k);
    }
  }

  lemma ScatterStaysPlaced(rt: Router, env: Env, stores: seq<Store>, work: Work)
    requires Placed(rt, stores) && ValidWork(rt, work)
    ensures Placed(rt, Scatter(env, stores, work))
  {
    var after := Scatter(env, stores, work);
    forall i, k | 0 <= i < |after| && k in after[i] ensures rt.Shard(k) == i {
      if i in work {
        ExecuteAllOnShard(rt, i, env, stores[i], stores[i], work[i]);
        assert rt.Shard(k) != i ==> Lookup(after[i], k) == Lookup(stores[i], k);
      }
    }
  }

  /**
   Scatter and gather: each shard answers as the logical store would, and the shards together
   hold what the logical store becomes when each shard's work is done on it.
   */
  lemma ScatterLifts(rt: Router, env: Env, stores: seq<Store>, work: Work)
    requires Placed(rt, stores) && ValidWork(rt, work)
    ensures Scattered(rt, env, Logical(rt, stores), work, Logical(rt, Scatter(env, stores, work)))
    ensures forall s :: s in work ==>
              ExecuteAll(env, stores[s], work[s]).replies == ExecuteAll(env, Logical(rt, stores), work[s]).replies
  {
    var all, after := Logical(rt, stores), Scatter(env, stores, work);
    forall s | s in work
      ensures ExecuteAll(env, stores[s], work[s]).replies == ExecuteAll(env, all, work[s]).replies
      ensures AgreeOn(rt, s, after[s], ExecuteAll(env, all, work[s]).state)
    {
      ShardAgrees(rt, stores, s);
      ExecuteAllOnShard(rt, s, env, stores[s], all, work[s]);
    }
    forall k
      ensures Lookup(Logical(rt, after), k) ==
              if rt.Shard(k) in work then Lookup(ExecuteAll(env, all, work[rt.Shard(k)]).state, k)
              else Lookup(all, k)
    {
      LogicalAt(rt, stores, k);
      LogicalAt(rt, after, k);
    }
  }

  lemma ScatterProper(env: Env, stores: seq<Store>, work: Work)
    requires forall i :: 0 <= i < |stores| ==> Proper(stores[i])
    ensures forall i :: 0 <= i < |stores| ==> Proper(Scatter(env, stores, work)[i])
  {
    forall i | 0 <= i < |stores| ensures Proper(Scatter(env, stores, work)[i]) {
      if i in work {
        ExecuteAllProper(env, stores[i], work[i]);
      }
    }
  }

  /** Work of a single shard is that work on the logical store. */
  lemma OneShard(rt: Router, env: Env, before: Store, s: nat, reqs: seq<Request>, after: Store)
    requires rt.Valid() && AllOnShard(rt, s, reqs)
    requires Scattered(rt, env, before, map[s := reqs], after)
    ensures after == ExecuteAll(env, before, reqs).state
  {
    ExecuteAllOnShard(rt, s, env, before, before, reqs);
    forall k ensures Lookup(after, k) == Lookup(ExecuteAll(env, before, reqs).state, k) {
      assert rt.Shard(k) in map[s := reqs] <==> rt.Shard(k) == s;
    }
    SameStore(after, ExecuteAll(env, before, reqs).state);
  }

  // ------------------------------------------------------------------------------- routing lists

  /** The elements routed to `s`, in their order. */
  function Routed<T>(route: T -> nat, xs: seq<T>, s: nat): seq<T> {
    if xs == [] then []
    else
      var front, last := Routed(route, xs[..|xs| - 1], s), xs[|xs| - 1];
      if route(last) == s then front + [last] else front
  }

  lemma {:induction false} RoutedHas<T>(route: T -> nat, xs: seq<T>, s: nat, x: T)
    ensures x in Routed(route, xs, s) <==> x in xs && route(x) == s
  {
    if xs != [] {
      var front, last := xs[..|xs| - 1], xs[|xs| - 1];
      RoutedHas(route, front, s, x);
      assert xs == front + [last];
    }
  }

  /** How many elements are routed to the shards before `n`. */
  function RoutedSum<T>(route: T -> nat, xs: seq<T>, n: nat): nat {
    if n == 0 then 0 else RoutedSum(route, xs, n - 1) + |Routed(route, xs, n - 1)|
  }

  lemma {:induction false} RoutedSumNext<T>(route: T -> nat, xs: seq<T>, n: nat)
    requires xs != []
    ensures RoutedSum(route, xs, n)
         == RoutedSum(route, xs[..|xs| - 1], n) + if route(xs[|xs| - 1]) < n then 1 else 0
  {
    if n > 0 {
      RoutedSumNext(route, xs, n - 1);
    }
  }

  /** Every element goes to exactly one shard: the numbers of elements routed add up to all. */
  lemma {:induction false} RoutedAddUp<T>(route: T -> nat, xs: seq<T>, n: nat)
    requires forall i :: 0 <= i < |xs| ==> route(xs[i]) < n
    ensures RoutedSum(route, xs, n) == |xs|
  {
    if xs == [] {
      NothingRouted(route, n);
    } else {
      RoutedAddUp(route, xs[..|xs| - 1], n);
      RoutedSumNext(route, xs, n);
    }
  }

  lemma {:induction false} NothingRouted<T>(route: T -> nat, n: nat)
    ensures RoutedSum(route, [], n) == 0
  {
    if n > 0 {
      NothingRouted(route, n - 1);
    }
  }

  /** A router's function on keys, and on pairs by their key. */
  function KeyRoute(rt: Router): string -> nat
    requires rt.Valid()
  {
    k => rt.Shard(k)
  }

  function PairRoute(rt: Router): ((string, string)) -> nat
    requires rt.Valid()
  {
    (p: (string, string)) => rt.Shard(p.0)
  }
}
