/** `base_client`: the commands of the sharded client, over byte streams to several servers. */
module Client {
  import opened Prelude
  import opened Resp
  import opened RespLaws
  import opened Decimal
  import opened Server
  import opened ServerLaws
  import opened Shards
  import opened Gather
  import opened ClientLaws
  import opened Pipeline
  import opened Transaction
  import I = Interleaving
  import Rc = Receive
  import D = Door
  import Ch = Channel
  import Net = Network

  /** The loop that sorts elements by socket: `per_server[get_socket(key)].push_back(key)`. */
  method Partition<T(!new)>(route: T -> nat, xs: seq<T>, n: nat) returns (parts: map<nat, seq<T>>)
    requires forall x :: route(x) < n
    ensures PartOf(route, xs, n, parts)
  {
    parts := map[];
    for i := 0 to |xs|
      invariant PartOf(route, xs[..i], n, parts)
    {
      var socket := route(xs[i]);
      var sofar := if socket in parts then parts[socket] else [];
      parts := parts[socket := sofar + [xs[i]]];
      PartNext(route, xs, i);
    }
    assert xs[..|xs|] == xs;
  }

  /** The loop that remembers, for each socket, the positions of its keys. */
  method Indices(rt: Router, keys: seq<string>) returns (indices: seq<seq<nat>>)
    requires rt.Valid()
    ensures |indices| == rt.n && forall s :: 0 <= s < rt.n ==> indices[s] == Positions(rt, keys, s)
  {
    indices := seq(rt.n, s => []);
    for i := 0 to |keys|
      invariant |indices| == rt.n && forall s :: 0 <= s < rt.n ==> indices[s] == Positions(rt, keys[..i], s)
    {
      var socket := rt.Shard(keys[i]);
      indices := indices[socket := indices[socket] + [i]];
      assert keys[..i + 1][..i] == keys[..i];
    }
    assert keys[..|keys|] == keys;
  }

  /**
   The first loop of `msetex`: for each socket its `MSET`, its joined `EXPIRE`s, and their number.
   `junk` is what `count` holds in a new entry before it is set.
   */
  method MsetexFill(rt: Router, pairs: seq<(string, string)>, seconds: int, junk: nat)
    returns (data: map<nat, MsetexData>)
    requires rt.Valid()
    ensures MsetexFilled(rt, pairs, seconds, data) && CountSum(data, rt.n) == |pairs|
  {
    data := map[];
    for i := 0 to |pairs|
      invariant MsetexFilled(rt, pairs[..i], seconds, data)
    {
      var (key, value) := pairs[i];
      var socket := rt.Shard(key);
      ghost var mine := Routed(PairRoute(rt), pairs[..i], socket);
      MsetexFilledNext(rt, pairs, seconds, i, data);
      MsetexNone(seconds);
      MsetexNext(mine, pairs[i], seconds);
      var dat := if socket in data then data[socket] else MsetexData(None, "", junk);
      if dat.msetCmd.None? {
        dat := dat.(msetCmd := Some(["MSET"]), count := 0);
      }
      var expire := Rc.MakeRequest(["EXPIRE", key, PrintInt(seconds)]);
      var mset := Some(dat.msetCmd.value + [key, value]);
      data := data[socket := MsetexData(mset, dat.expireCmds + expire, dat.count + 1)];
    }
    assert pairs[..|pairs|] == pairs;
    MsetexCounts(rt, pairs, seconds, data);
  }

  /** The loop `out[con_keys.indices[i]] = cur_out[i]`. */
  method Place(out: seq<string>, indices: seq<nat>, curOut: seq<string>) returns (placed: seq<string>)
    requires |indices| == |curOut| && forall j :: 0 <= j < |indices| ==> indices[j] < |out|
    requires forall i, j :: 0 <= i < j < |indices| ==> indices[i] < indices[j]
    ensures |placed| == |out|
    ensures forall j :: 0 <= j < |indices| ==> placed[indices[j]] == curOut[j]
    ensures forall i :: 0 <= i < |out| && i !in indices ==> placed[i] == out[i]
  {
    placed := out;
    for j := 0 to |curOut|
      invariant |placed| == |out|
      invariant forall i :: 0 <= i < j ==> placed[indices[i]] == curOut[i]
      invariant forall i :: 0 <= i < |out| && i !in indices ==> placed[i] == out[i]
    {
      placed := placed[indices[j] := curOut[j]];
    }
  }

  /** A set's members in some order. */
  method Elements(content: set<string>) returns (vals: seq<string>)
    ensures SetOf(vals) == content
  {
    vals := [];
    var rest := content;
    while rest != {}
      invariant rest <= content && SetOf(vals) == content - rest
      decreases rest
    {
      var val :| val in rest;
      SetOfPlus(vals, val);
      vals := vals + [val];
      rest := rest - {val};
    }
  }

  /** Every server has this password and the database asked for. */
  predicate AllOpen(doors: seq<D.Door>, indices: seq<int>, password: string)
    requires |doors| == |indices|
  {
    forall i :: 0 <= i < |doors| ==> doors[i].password == password && doors[i].Has(indices[i])
  }

  /** The connections of the constructors, one after the other, each with its `AUTH` and `SELECT`. */
  method EnterAll(net: Net.Sockets, doors: seq<D.Door>, indices: seq<int>, password: string)
    returns (r: Result<seq<Host>>)
    requires |doors| == |indices| == |net.links| && forall i :: 0 <= i < |doors| ==> D.Idle(net.links[i])
    modifies net
    ensures |net.links| == |doors| && forall i :: 0 <= i < |doors| ==> D.Idle(net.links[i])
    ensures r.Ok? <==> AllOpen(doors, indices, password)
    ensures r.Ok? ==>
              && |r.value| == |doors|
              && forall i :: 0 <= i < |doors| ==> r.value[i] == Host(doors[i].databases[indices[i]], None)
  {
    var hosts: seq<Host> := [];
    for i := 0 to |doors|
      invariant |net.links| == |doors| && forall k :: 0 <= k < |doors| ==> D.Idle(net.links[k])
      invariant AllOpen(doors[..i], indices[..i], password) && |hosts| == i
      invariant forall k :: 0 <= k < i ==> hosts[k] == Host(doors[k].databases[indices[k]], None)
    {
      var _ :- D.Enter(net, i, doors[i], indices[i], password);
      hosts := hosts + [Host(doors[i].databases[indices[i]], None)];
    }
    return Ok(hosts);
  }

  /** The client's constructors: one connection with a password, or several without. */
  method Connect(env: Env, hash: string -> nat, doors: seq<D.Door>, indices: seq<int>, password: string,
                 interrupts: nat)
    returns (r: Result<Client>)
    requires ValidEnv(env) && |doors| == |indices|
    ensures doors == [] ==> r == Err(RuntimeError)
    ensures r.Ok? <==> doors != [] && AllOpen(doors, indices, password)
    ensures r.Ok? ==>
              var c := r.value;
              && fresh(c.ch) && fresh(c.ch.net) && c.ch.env == env && c.rt == Router(hash, |doors|) && c.Synced()
              && forall i :: 0 <= i < |doors| ==> c.ch.hosts[i] == Host(doors[i].databases[indices[i]], None)
  {
    var links := seq(|doors|, i => Net.Link("", 0, Net.Closed, "", None, Net.Closed));
    var net := new Net.Sockets(links, interrupts);
    var hosts :- EnterAll(net, doors, indices, password);
    if hosts == [] {
      return Err(RuntimeError);
    }
    var ch := new Ch.Channel(net, env, hosts);
    var c := new Client(ch, Router(hash, |doors|));
    return Ok(c);
  }

  class Client {
    const ch: Ch.Channel
    const rt: Router

    constructor (ch: Ch.Channel, rt: Router)
      ensures this.ch == ch && this.rt == rt
    {
      this.ch, this.rt := ch, rt;
    }

    /** Every connection is in sync: no unread reply, no byte left over, no open transaction. */
    ghost predicate Synced()
      reads ch, ch.net
    {
      && ch.Valid() && rt.Valid() && |ch.hosts| == rt.n
      && forall i :: 0 <= i < rt.n ==> ch.pending[i] == [] && ch.hosts[i].queue.None?
    }

    /** Over databases that hold nothing the client is valid, and so is its logical store empty. */
    lemma EmptyIsValid()
      requires Synced() && forall i :: 0 <= i < rt.n ==> ch.hosts[i].store == map[]
      ensures Valid() && Contents() == map[]
    {
      forall k ensures Lookup(Contents(), k) == None {
        LogicalAt(rt, Stores(ch.hosts), k);
      }
    }

    ghost predicate Valid()
      reads ch, ch.net
    {
      && Synced()
      && Placed(rt, Stores(ch.hosts))
      && forall i :: 0 <= i < rt.n ==> Proper(ch.hosts[i].store)
    }

    /** The logical store: what one server would hold. */
    ghost function Contents(): Store
      requires rt.Valid() && |ch.hosts| == rt.n
      reads ch
    {
      Logical(rt, Stores(ch.hosts))
    }

    /** The servers' part of `Valid`, whatever is still unread. */
    ghost predicate Settled()
      reads ch, ch.net
    {
      && ch.Valid() && rt.Valid() && |ch.hosts| == rt.n
      && Placed(rt, Stores(ch.hosts))
      && forall i :: 0 <= i < rt.n ==> Proper(ch.hosts[i].store) && ch.hosts[i].queue.None?
    }

    /**
     Requests of `work` have been sent to otherwise quiet connections, and the replies on the
     connections before `s` have been read.
     */
    ghost predicate Awaiting(work: Work, before: Store, s: nat)
      reads ch, ch.net
    {
      Settled() && Unread(ch.env, before, work, s, ch.pending)
    }

    /** With replies unread on one connection only, all are in sync exactly if there are none. */
    lemma UnreadOn(fd: nat, replies: seq<Reply>)
      requires ch.Valid() && rt.Valid() && |ch.hosts| == rt.n && fd < rt.n && OnlyUnreads(ch.pending, fd, replies)
      ensures Synced() <==> replies == [] && forall i :: 0 <= i < rt.n ==> ch.hosts[i].queue.None?
    {
      assert ch.pending[fd] == replies;
    }

    // ----------------------------------------------------------------------------- sending

    /** Joined requests to one quiet connection. */
    method TransmitOne(fd: nat, message: string, ghost reqs: seq<Request>)
      requires ch.Valid() && fd < |ch.hosts| && ch.pending[fd] == [] && ch.hosts[fd].queue.None?
      requires AllSendable(reqs) && message == EncodeCommands(LinesOfAll(reqs))
      modifies ch, ch.net
      ensures ch.Valid()
      ensures ch.hosts == old(ch.hosts)[fd := Host(ExecuteAll(ch.env, old(ch.hosts)[fd].store, reqs).state, None)]
      ensures ch.pending == old(ch.pending)[fd := ExecuteAll(ch.env, old(ch.hosts)[fd].store, reqs).replies]
    {
      ServeRequests(ch.env, ch.hosts[fd], reqs);
      var _ := ch.Send(fd, message, LinesOfAll(reqs));
      NothingFirst(ExecuteAll(ch.env, old(ch.hosts)[fd].store, reqs).replies);
    }

    /** The loop that sends one joined message to every socket in a map. */
    method Transmit(messages: map<nat, string>, ghost work: Work)
      requires Synced() && Prints(messages, work) && forall s :: s in work ==> s < rt.n && AllSendable(work[s])
      modifies ch, ch.net
      ensures ch.Valid() && |ch.hosts| == rt.n
      ensures Stores(ch.hosts) == Scatter(ch.env, Stores(old(ch.hosts)), work)
      ensures forall i :: 0 <= i < rt.n ==> ch.hosts[i].queue.None?
      ensures forall i :: 0 <= i < rt.n ==> ch.pending[i] == RepliesTo(ch.env, old(ch.hosts)[i].store, work, i)
    {
      ghost var hosts := ch.hosts;
      for s := 0 to rt.n
        invariant ch.Valid() && WorkSent(ch.env, hosts, work, s, ch.hosts, ch.pending)
      {
        WorkSentNext(ch.env, hosts, work, s, ch.hosts, ch.pending);
        assert s in messages <==> s in work;
        if s in messages {
          TransmitOne(s, messages[s], work[s]);
        }
      }
      ScatterHosts(ch.env, hosts, ch.hosts, work);
    }

    /** Sends every shard its message, before any reply is read. */
    method SendMessages(messages: map<nat, string>, ghost work: Work)
      requires Valid() && Prints(messages, work) && ValidWork(rt, work)
      requires forall s :: s in work ==> AllSendable(work[s])
      modifies ch, ch.net
      ensures Awaiting(work, old(Contents()), 0)
      ensures Scattered(rt, ch.env, old(Contents()), work, Contents())
    {
      ghost var stores := Stores(ch.hosts);
      Transmit(messages, work);
      ScatterLifts(rt, ch.env, stores, work);
      ScatterStaysPlaced(rt, ch.env, stores, work);
      ScatterProper(ch.env, stores, work);
    }

    /** The requests of each shard, printed by `makecmd` and joined. */
    method PrintEach(work: Work) returns (messages: map<nat, string>)
      requires forall s :: s in work ==> s < rt.n
      ensures Prints(messages, work)
    {
      messages := map[];
      for s := 0 to rt.n
        invariant PrintsBelow(messages, work, s)
      {
        PrintsNext(messages, work, s);
        if s in work {
          var message := Ch.JoinRequests(LinesOfAll(work[s]));
          messages := messages[s := message];
        }
      }
      PrintsAll(messages, work, rt.n);
    }

    /** Sends to every shard its share of the work, before any reply is read. */
    method SendEach(work: Work)
      requires Valid() && ValidWork(rt, work) && forall s :: s in work ==> AllSendable(work[s])
      modifies ch, ch.net
      ensures Awaiting(work, old(Contents()), 0)
      ensures Scattered(rt, ch.env, old(Contents()), work, Contents())
    {
      var messages := PrintEach(work);
      SendMessages(messages, work);
    }

    /** `send_(socket, makecmd(...))`: one request to one connection. */
    method Call(fd: nat, req: Request)
      requires Valid() && fd < rt.n
      requires WellFormed(req) && Queueable(req) && OnShard(rt, fd, req)
      modifies ch, ch.net
      ensures Settled() && OnlyUnread(ch.pending, fd, Execute(ch.env, old(Contents()), req).reply)
      ensures Contents() == Execute(ch.env, old(Contents()), req).store
    {
      ghost var before := Contents();
      SendEach(map[fd := [req]]);
      OneShard(rt, ch.env, before, fd, [req], Contents());
      ExecuteOne(ch.env, before, req);
    }

    // ----------------------------------------------------------------------------- gathering

    lemma OneReply(work: Work, before: Store, s: nat)
      requires Awaiting(work, before, s) && s < rt.n && s in work && |work[s]| == 1
      ensures ch.pending[s] == [Execute(ch.env, before, work[s][0]).reply]
    {
      ExecuteOne(ch.env, before, work[s][0]);
      assert work[s] == [work[s][0]];
    }

    lemma Skip(work: Work, before: Store, s: nat)
      requires Awaiting(work, before, s) && s < rt.n && s !in work
      ensures Awaiting(work, before, s + 1)
    {
      SkipUnread(ch.env, before, work, s, ch.pending);
    }

    method GatherOk(ghost work: Work, ghost before: Store, s: nat) returns (r: Result<()>)
      requires Awaiting(work, before, s) && s < rt.n && s in work && |work[s]| == 1
      requires Execute(ch.env, before, work[s][0]).reply == OK
      modifies ch`pending, ch.net
      ensures Awaiting(work, before, s + 1) && r.Ok?
    {
      OneReply(work, before, s);
      ReadUnread(ch.env, before, work, s, ch.pending);
      r := ch.RecvOk(s);
    }

    method GatherInt(ghost work: Work, ghost before: Store, s: nat) returns (r: Result<int>)
      requires Awaiting(work, before, s) && s < rt.n && s in work && |work[s]| == 1
      requires Execute(ch.env, before, work[s][0]).reply.Integer?
      modifies ch`pending, ch.net
      ensures Awaiting(work, before, s + 1)
      ensures r == Ok(Execute(ch.env, before, work[s][0]).reply.n)
    {
      OneReply(work, before, s);
      ReadUnread(ch.env, before, work, s, ch.pending);
      r := ch.RecvInt(s);
    }

    method GatherItems(ghost work: Work, ghost before: Store, s: nat) returns (r: Result<int>, items: seq<string>)
      requires Awaiting(work, before, s) && s < rt.n && s in work && |work[s]| == 1
      requires var reply := Execute(ch.env, before, work[s][0]).reply; reply.Array? && FlatItems(reply.items)
      modifies ch`pending, ch.net
      ensures Awaiting(work, before, s + 1)
      ensures r == Ok(|items|) && items == TextsOf(Execute(ch.env, before, work[s][0]).reply.items)
    {
      OneReply(work, before, s);
      ReadUnread(ch.env, before, work, s, ch.pending);
      r, items := ch.RecvMultiBulk(s, []);
      NothingFirst(TextsOf(Execute(ch.env, before, work[s][0]).reply.items));
    }

    /** A reply that is an array or an error, read into a set. */
    method GatherSet(ghost work: Work, ghost before: Store, s: nat, out: set<string>)
      returns (r: Result<int>, grown: set<string>)
      requires Awaiting(work, before, s) && s < rt.n && s in work && |work[s]| == 1
      requires var reply := Execute(ch.env, before, work[s][0]).reply;
               (reply.Array? && FlatItems(reply.items)) || reply.Error?
      modifies ch`pending, ch.net
      ensures Awaiting(work, before, s + 1)
      ensures if Execute(ch.env, before, work[s][0]).reply.Array? then r.Ok? else r == Err(NOT_A_BULK)
      ensures r.Ok? ==>
                var texts := TextsOf(Execute(ch.env, before, work[s][0]).reply.items);
                r.value == |texts| && grown == out + SetOf(texts)
    {
      OneReply(work, before, s);
      ReadUnread(ch.env, before, work, s, ch.pending);
      r, grown := ch.RecvMultiBulkSet(s, out);
    }

    // ----------------------------------------------------------------------------- strings

    lemma MsetScattered(pairs: seq<(string, string)>, parts: map<nat, seq<(string, string)>>,
                        before: Store, after: Store)
      requires rt.Valid() && PartOf(PairRoute(rt), pairs, rt.n, parts)
      requires Scattered(rt, ch.env, before, MsetWork(parts), after)
      ensures after == PutAll(before, pairs)
    {
      forall k ensures Lookup(after, k) == Lookup(PutAll(before, pairs), k) {
        var s := rt.Shard(k);
        MsetSplits(rt, before, pairs, k);
        if s in parts {
          ExecuteOne(ch.env, before, MSET(parts[s]));
        }
      }
      SameStore(after, PutAll(before, pairs));
    }

    method MsetSend(pairs: seq<(string, string)>) returns (parts: map<nat, seq<(string, string)>>)
      requires Valid()
      modifies ch, ch.net
      ensures Awaiting(MsetWork(parts), old(Contents()), 0)
      ensures Contents() == PutAll(old(Contents()), pairs)
    {
      ghost var before := Contents();
      parts := Partition(PairRoute(rt), pairs, rt.n);
      MsetWorkIsValid(rt, pairs, parts);
      SendEach(MsetWork(parts));
      MsetScattered(pairs, parts, before, Contents());
    }

    /** `mset(pairs)`: the pairs are set from left to right on the logical store. */
    method Mset(pairs: seq<(string, string)>) returns (r: Result<()>)
      requires Valid()
      modifies ch, ch.net
      ensures Valid() && r.Ok?
      ensures Contents() == PutAll(old(Contents()), pairs)
    {
      ghost var before := Contents();
      var parts := MsetSend(pairs);
      ghost var hosts := ch.hosts;
      r := Ok(());
      for s := 0 to rt.n
        invariant ch.hosts == hosts && Awaiting(MsetWork(parts), before, s) && r.Ok?
      {
        if s in parts {
          r := GatherOk(MsetWork(parts), before, s);
        } else {
          Skip(MsetWork(parts), before, s);
        }
      }
    }

    // ----------------------------------------------------------------------------- split by key

    lemma KeysScattered(verb: KeyVerb, keys: seq<string>, parts: map<nat, seq<string>>, before: Store, after: Store)
      requires rt.Valid() && PartOf(KeyRoute(rt), keys, rt.n, parts)
      requires Scattered(rt, ch.env, before, KeyWork(verb, parts), after)
      ensures after == if verb.Dels? then before - SetOf(keys) else before
    {
      var want := if verb.Dels? then before - SetOf(keys) else before;
      forall k ensures Lookup(after, k) == Lookup(want, k) {
        var s := rt.Shard(k);
        RoutedHas(KeyRoute(rt), keys, s, k);
        if s in parts {
          ExecuteOne(ch.env, before, verb.Of(parts[s]));
          if verb.Dels? {
            DelReply(ch.env, before, parts[s]);
          } else {
            ReadsOnly(ch.env, before, verb, parts[s]);
          }
        }
      }
      SameStore(after, want);
    }

    method SendByKey(verb: KeyVerb, keys: seq<string>) returns (parts: map<nat, seq<string>>)
      requires Valid()
      modifies ch, ch.net
      ensures PartOf(KeyRoute(rt), keys, rt.n, parts)
      ensures Awaiting(KeyWork(verb, parts), old(Contents()), 0)
      ensures Contents() == if verb.Dels? then old(Contents()) - SetOf(keys) else old(Contents())
    {
      ghost var before := Contents();
      parts := Partition(KeyRoute(rt), keys, rt.n);
      KeyWorkIsValid(rt, verb, keys, parts);
      SendEach(KeyWork(verb, parts));
      KeysScattered(verb, keys, parts, before, Contents());
    }

    lemma DelCount(keys: seq<string>, parts: map<nat, seq<string>>, before: Store, s: nat)
      requires rt.Valid() && PartOf(KeyRoute(rt), keys, rt.n, parts) && s < rt.n
      ensures |Slice(rt, SetOf(keys) * before.Keys, s)| == if s in parts then |SetOf(parts[s]) * before.Keys| else 0
    {
      RoutedKeys(rt, keys, s);
      var mine := Slice(rt, SetOf(keys), s);
      assert Slice(rt, SetOf(keys) * before.Keys, s) == mine * before.Keys;
      if s !in parts {
        assert mine == {};
      }
    }

    lemma AnyHit(keys: seq<string>, before: Store)
      requires rt.Valid()
      ensures SliceSum(rt, SetOf(keys) * before.Keys, rt.n) != 0 <==> exists k :: k in keys && k in before
    {
      var hit := SetOf(keys) * before.Keys;
      SlicesAddUp(rt, hit);
      if k :| k in keys && k in before {
        assert k in hit;
      } else {
        assert hit == {};
      }
    }

    method DelShard(keys: seq<string>, parts: map<nat, seq<string>>, ghost before: Store, s: nat) returns (n: int)
      requires s < rt.n && PartOf(KeyRoute(rt), keys, rt.n, parts) && Awaiting(KeyWork(Dels, parts), before, s)
      modifies ch`pending, ch.net
      ensures Awaiting(KeyWork(Dels, parts), before, s + 1)
      ensures n == |Slice(rt, SetOf(keys) * before.Keys, s)|
    {
      DelCount(keys, parts, before, s);
      if s in parts {
        DelReply(ch.env, before, parts[s]);
        var count := GatherInt(KeyWork(Dels, parts), before, s);
        n := count.value;
      } else {
        Skip(KeyWork(Dels, parts), before, s);
        n := 0;
      }
    }

    /** The receive loop of `del(begin, end)`. */
    method DelGather(keys: seq<string>, parts: map<nat, seq<string>>, ghost before: Store) returns (res: int)
      requires rt.Valid() && PartOf(KeyRoute(rt), keys, rt.n, parts) && Awaiting(KeyWork(Dels, parts), before, 0)
      modifies ch`pending, ch.net
      ensures Awaiting(KeyWork(Dels, parts), before, rt.n)
      ensures res == SliceSum(rt, SetOf(keys) * before.Keys, rt.n)
    {
      res := 0;
      for s := 0 to rt.n
        invariant Awaiting(KeyWork(Dels, parts), before, s)
        invariant res == SliceSum(rt, SetOf(keys) * before.Keys, s)
      {
        var n := DelShard(keys, parts, before, s);
        res := res + n;
      }
    }

    /** `del(begin, end)`: exactly the given keys are removed; the answer is whether one existed. */
    method DelRange(keys: seq<string>) returns (r: Result<bool>)
      requires Valid()
      modifies ch, ch.net
      ensures Valid() && Contents() == old(Contents()) - SetOf(keys)
      ensures forall k :: k in Contents() <==> k in old(Contents()) && k !in keys
      ensures r == Ok(exists k :: k in keys && k in old(Contents()))
    {
      ghost var before := Contents();
      var parts := SendByKey(Dels, keys);
      var res := DelGather(keys, parts, before);
      AnyHit(keys, before);
      OnlyOthers(before, keys);
      return Ok(res != 0);
    }

    method MgetShard(keys: seq<string>, parts: map<nat, seq<string>>, indices: seq<nat>, ghost before: Store,
                     s: nat, out: seq<string>)
      returns (placed: seq<string>)
      requires s < rt.n && Awaiting(KeyWork(MGets, parts), before, s)
      requires PartOf(KeyRoute(rt), keys, rt.n, parts) && indices == Positions(rt, keys, s) && |out| == |keys|
      modifies ch`pending, ch.net
      ensures Awaiting(KeyWork(MGets, parts), before, s + 1)
      ensures |placed| == |keys|
      ensures forall i :: 0 <= i < |keys| ==>
                placed[i] == if rt.Shard(keys[i]) == s then TextOf(Item(before, keys[i])) else out[i]
    {
      PositionsPartition(rt, keys, s);
      if s in parts {
        var n, curOut := GatherItems(KeyWork(MGets, parts), before, s);
        placed := Place(out, indices, curOut);
      } else {
        Skip(KeyWork(MGets, parts), before, s);
        placed := out;
      }
    }

    /**
     `mget`: position i of the result is the text the logical store has for key i; a missing key and one
     of another kind give the sentinel.
     */
    method Mget(keys: seq<string>) returns (r: Result<()>, out: seq<string>)
      requires Valid()
      modifies ch, ch.net
      ensures Valid() && Contents() == old(Contents()) && r.Ok? && |out| == |keys|
      ensures forall i :: 0 <= i < |keys| ==>
                out[i] == if keys[i] in old(Contents()) && old(Contents())[keys[i]].value.StrVal?
                          then old(Contents())[keys[i]].value.text else "**nonexistent-key**"
    {
      ghost var before := Contents();
      var indices := Indices(rt, keys);
      var parts := SendByKey(MGets, keys);
      ghost var hosts := ch.hosts;
      out := seq(|keys|, i => "");
      for s := 0 to rt.n
        invariant ch.hosts == hosts && Awaiting(KeyWork(MGets, parts), before, s)
        invariant |out| == |keys|
        invariant forall i :: 0 <= i < |keys| && rt.Shard(keys[i]) < s ==> out[i] == TextOf(Item(before, keys[i]))
      {
        out := MgetShard(keys, parts, indices[s], before, s, out);
      }
      r := Ok(());
    }

    // ----------------------------------------------------------------------------- all shards

    method SendWholeStore(fd: nat, req: Request)
      requires ch.Valid() && fd < |ch.hosts| && ch.pending[fd] == [] && ch.hosts[fd].queue.None?
      requires req.KEYS? || req.DBSIZE?
      modifies ch, ch.net
      ensures ch.Valid() && ch.hosts == old(ch.hosts)
      ensures ch.pending == old(ch.pending)[fd := [Execute(ch.env, ch.hosts[fd].store, req).reply]]
    {
      WholeStoreReads(ch.env, ch.hosts[fd], req);
      var message := Ch.JoinRequests(LinesOfAll([req]));
      TransmitOne(fd, message, [req]);
    }

    /** The loop that sends the same request over every connection. */
    method SendToAll(req: Request)
      requires Valid() && (req.KEYS? || req.DBSIZE?)
      modifies ch, ch.net
      ensures Settled() && ch.hosts == old(ch.hosts)
      ensures UnreadAll(ch.env, Stores(ch.hosts), req, 0, ch.pending)
    {
      for s := 0 to rt.n
        invariant ch.Valid() && ch.hosts == old(ch.hosts)
        invariant forall i :: s <= i < rt.n ==> ch.pending[i] == []
        invariant forall i :: 0 <= i < s ==> ch.pending[i] == [Execute(ch.env, ch.hosts[i].store, req).reply]
      {
        SendWholeStore(s, req);
      }
    }

    method DbsizeShard(ghost stores: seq<Store>, s: nat) returns (n: int)
      requires Settled() && Stores(ch.hosts) == stores && s < rt.n
      requires UnreadAll(ch.env, stores, DBSIZE, s, ch.pending)
      modifies ch`pending, ch.net
      ensures Settled() && UnreadAll(ch.env, stores, DBSIZE, s + 1, ch.pending)
      ensures n == |Slice(rt, Logical(rt, stores).Keys, s)|
    {
      ShardShare(rt, stores, s);
      var count := ch.RecvInt(s);
      n := count.value;
    }

    /** `dbsize`: the number of keys of the logical store. */
    method Dbsize() returns (r: Result<int>)
      requires Valid()
      modifies ch, ch.net
      ensures Valid() && Contents() == old(Contents()) && r == Ok(|old(Contents())|)
    {
      SendToAll(DBSIZE);
      ghost var stores, hosts := Stores(ch.hosts), ch.hosts;
      var val := 0;
      for s := 0 to rt.n
        invariant ch.hosts == hosts && Settled() && UnreadAll(ch.env, stores, DBSIZE, s, ch.pending)
        invariant val == SliceSum(rt, Contents().Keys, s)
      {
        var n := DbsizeShard(stores, s);
        val := val + n;
      }
      SlicesAddUp(rt, Contents().Keys);
      return Ok(val);
    }

    method KeysShard(pattern: string, ghost stores: seq<Store>, s: nat, out: seq<string>)
      returns (n: int, grown: seq<string>)
      requires Settled() && Stores(ch.hosts) == stores && s < rt.n
      requires UnreadAll(ch.env, stores, KEYS(pattern), s, ch.pending)
      modifies ch`pending, ch.net
      ensures Settled() && UnreadAll(ch.env, stores, KEYS(pattern), s + 1, ch.pending)
      ensures out <= grown && n == |grown| - |out|
      ensures Enumerates(grown[|out|..], Slice(rt, Matching(ch.env, Logical(rt, stores), pattern), s))
    {
      var matches := Matching(ch.env, stores[s], pattern);
      MatchingShare(rt, ch.env, stores, pattern, s);
      TextsOfBulks(ch.env.order(matches));
      var count;
      count, grown := ch.RecvMultiBulk(s, out);
      n := count.value;
      AfterPrefix(out, ch.env.order(matches));
    }

    /** `keys`: every matching key of the logical store is appended exactly once. */
    method Keys(pattern: string, out: seq<string>) returns (r: Result<int>, grown: seq<string>)
      requires Valid()
      modifies ch, ch.net
      ensures Valid() && Contents() == old(Contents())
      ensures out <= grown && r == Ok(|grown| - |out|)
      ensures Enumerates(grown[|out|..], Matching(ch.env, old(Contents()), pattern))
      ensures forall k :: k in grown[|out|..] <==> k in old(Contents()) && ch.env.matches(pattern, k)
      ensures forall i, j :: |out| <= i < j < |grown| ==> grown[i] != grown[j]
    {
      SendToAll(KEYS(pattern));
      ghost var stores, hosts := Stores(ch.hosts), ch.hosts;
      ghost var all := Matching(ch.env, Contents(), pattern);
      var res := 0;
      grown := out;
      for s := 0 to rt.n
        invariant ch.hosts == hosts && Settled() && UnreadAll(ch.env, stores, KEYS(pattern), s, ch.pending)
        invariant out <= grown && res == |grown| - |out|
        invariant ListsBelow(rt, all, s, grown[|out|..])
      {
        ghost var before := grown;
        var n;
        n, grown := KeysShard(pattern, stores, s, grown);
        res := res + n;
        ListsNext(rt, all, s, out, before, grown);
      }
      ListsAll(rt, all, grown[|out|..]);
      ListedOnce(out, grown, all);
      return Ok(res), grown;
    }

    // ----------------------------------------------------------------------------- single keys

    method AskOk(fd: nat, req: Request) returns (r: Result<()>)
      requires Valid() && fd < rt.n && WellFormed(req) && Queueable(req) && OnShard(rt, fd, req)
      requires var reply := Execute(ch.env, Contents(), req).reply; reply.Status? || reply.Error?
      modifies ch, ch.net
      ensures Valid() && Contents() == Execute(ch.env, old(Contents()), req).store
      ensures r == OkOf(Execute(ch.env, old(Contents()), req).reply)
      ensures r.Ok? <==> Execute(ch.env, old(Contents()), req).reply == OK
    {
      Call(fd, req);
      r := ch.RecvOk(fd);
    }

    method AskStatus(fd: nat, req: Request) returns (r: Result<string>)
      requires Valid() && fd < rt.n && WellFormed(req) && Queueable(req) && OnShard(rt, fd, req)
      requires var reply := Execute(ch.env, Contents(), req).reply; reply.Status? || reply.Error?
      modifies ch, ch.net
      ensures Valid() && Contents() == Execute(ch.env, old(Contents()), req).store
      ensures r == StatusOf(Execute(ch.env, old(Contents()), req).reply)
    {
      Call(fd, req);
      r := ch.RecvStatus(fd);
    }

    method AskInt(fd: nat, req: Request) returns (r: Result<int>)
      requires Valid() && fd < rt.n && WellFormed(req) && Queueable(req) && OnShard(rt, fd, req)
      requires var reply := Execute(ch.env, Contents(), req).reply; reply.Integer? || reply.Error?
      modifies ch, ch.net
      ensures Valid() && Contents() == Execute(ch.env, old(Contents()), req).store
      ensures r == IntOf(Execute(ch.env, old(Contents()), req).reply)
    {
      Call(fd, req);
      r := ch.RecvInt(fd);
    }

    method AskIntOk(fd: nat, req: Request) returns (r: Result<()>)
      requires Valid() && fd < rt.n && WellFormed(req) && Queueable(req) && OnShard(rt, fd, req)
      requires var reply := Execute(ch.env, Contents(), req).reply; reply.Integer? || reply.Error?
      modifies ch, ch.net
      ensures Valid() && Contents() == Execute(ch.env, old(Contents()), req).store
      ensures r == IntOkOf(Execute(ch.env, old(Contents()), req).reply)
      ensures r.Ok? <==> Execute(ch.env, old(Contents()), req).reply == Integer(1)
    {
      Call(fd, req);
      r := ch.RecvIntOk(fd);
    }

    method AskBulk(fd: nat, req: Request) returns (r: Result<string>)
      requires Valid() && fd < rt.n && WellFormed(req) && Queueable(req) && OnShard(rt, fd, req)
      requires var reply := Execute(ch.env, Contents(), req).reply; BulkLike(reply) || reply.Error?
      modifies ch, ch.net
      ensures Valid() && Contents() == Execute(ch.env, old(Contents()), req).store
      ensures r == BulkOf(Execute(ch.env, old(Contents()), req).reply)
    {
      Call(fd, req);
      r := ch.RecvBulk(fd);
    }

    method AskItems(fd: nat, req: Request, out: seq<string>) returns (r: Result<int>, grown: seq<string>)
      requires Valid() && fd < rt.n && WellFormed(req) && Queueable(req) && OnShard(rt, fd, req)
      requires var reply := Execute(ch.env, Contents(), req).reply;
               (reply.Array? && FlatItems(reply.items)) || reply.Error?
      modifies ch, ch.net
      ensures Valid() && Contents() == Execute(ch.env, old(Contents()), req).store
      ensures var reply := Execute(ch.env, old(Contents()), req).reply;
              && (if reply.Array? then r.Ok? else r == Err(NOT_A_BULK))
              && (r.Ok? ==> r.value == |reply.items| && grown == out + TextsOf(reply.items))
    {
      Call(fd, req);
      r, grown := ch.RecvMultiBulk(fd, out);
    }

    method AskSet(fd: nat, req: Request, out: set<string>) returns (r: Result<int>, grown: set<string>)
      requires Valid() && fd < rt.n && WellFormed(req) && Queueable(req) && OnShard(rt, fd, req)
      requires var reply := Execute(ch.env, Contents(), req).reply;
               (reply.Array? && FlatItems(reply.items)) || reply.Error?
      modifies ch, ch.net
      ensures Valid() && Contents() == Execute(ch.env, old(Contents()), req).store
      ensures var reply := Execute(ch.env, old(Contents()), req).reply;
              && (if reply.Array? then r.Ok? else r == Err(NOT_A_BULK))
              && (r.Ok? ==> r.value == |reply.items| && grown == out + SetOf(TextsOf(reply.items)))
    {
      Call(fd, req);
      r, grown := ch.RecvMultiBulkSet(fd, out);
    }

    method Set(key: string, value: string) returns (r: Result<()>)
      requires Valid()
      modifies ch, ch.net
      ensures Valid() && r.Ok?
      ensures Contents() == old(Contents())[key := Entry(StrVal(value), None)]
    {
      r := AskOk(rt.Shard(key), SET(key, value));
    }

    /** `get`: the sentinel for a missing key, an exception for a value of another kind. */
    method Get(key: string) returns (r: Result<string>)
      requires Valid()
      modifies ch, ch.net
      ensures Valid() && Contents() == old(Contents())
      ensures key !in old(Contents()) ==> r == Ok("**nonexistent-key**")
      ensures key in old(Contents()) && old(Contents())[key].value.StrVal? ==> r == Ok(old(Contents())[key].value.text)
      ensures key in old(Contents()) && !old(Contents())[key].value.StrVal? ==> r == Err(NOT_A_BULK)
    {
      r := AskBulk(rt.Shard(key), GET(key));
    }

    method Del(key: string) returns (r: Result<bool>)
      requires Valid()
      modifies ch, ch.net
      ensures Valid() && Contents() == old(Contents()) - {key} && r == Ok(key in old(Contents()))
    {
      DelOne(ch.env, Contents(), key);
      var n := AskInt(rt.Shard(key), DEL([key]));
      return Ok(n.value != 0);
    }

    /** `type` */
    method Type(key: string) returns (r: Result<KeyType>)
      requires Valid()
      modifies ch, ch.net
      ensures Valid() && Contents() == old(Contents()) && r == Ok(KeyTypeOf(old(Contents()), key))
      ensures key !in old(Contents()) ==> r == Ok(NoKey)
      ensures key in old(Contents()) ==>
                r == match old(Contents())[key].value
                     case StrVal(_) => Ok(StringKey)
                     case ListVal(_) => Ok(ListKey)
                     case SetVal(_) => Ok(SetKey)
                     case ZSetVal(_) => Ok(ZsetKey)
                     case HashVal(_) => Ok(HashKey)
    {
      TypeNamesAgree(Contents(), key);
      var response := AskStatus(rt.Shard(key), TYPE(key));
      return Ok(NamedType(response.value));
    }

    method Rpush(key: string, value: string) returns (r: Result<int>)
      requires Valid()
      modifies ch, ch.net
      ensures Valid() && Contents() == ExecuteRPush(old(Contents()), key, value).store
      ensures r == IntOf(ExecuteRPush(old(Contents()), key, value).reply)
    {
      r := AskInt(rt.Shard(key), RPUSH(key, value));
    }

    /** `lrange`: the elements from `start` through `stop` are appended in their order. */
    method Lrange(key: string, start: int, stop: int, out: seq<string>) returns (r: Result<int>, grown: seq<string>)
      requires Valid()
      modifies ch, ch.net
      ensures Valid() && Contents() == old(Contents())
      ensures r.Ok? <==> (key in old(Contents()) ==> old(Contents())[key].value.ListVal?)
      ensures r.Ok? ==> grown == out + Range(ListAt(old(Contents()), key), start, stop) && r.value == |grown| - |out|
      ensures r.Err? ==> r == Err(NOT_A_BULK)
    {
      ListReply(ch.env, Contents(), key, start, stop);
      r, grown := AskItems(rt.Shard(key), LRANGE(key, start, stop), out);
    }

    method Sadd(key: string, member: string) returns (r: Result<bool>)
      requires Valid()
      modifies ch, ch.net
      ensures Valid() && Contents() == ExecuteSAdd(old(Contents()), key, member).store
      ensures r.Ok? <==> HoldsSet(old(Contents()), key)
      ensures r.Ok? ==> r.value == (member !in Members(old(Contents()), key))
      ensures r.Err? ==> r == Err(NOT_AN_INT)
    {
      var n :- AskInt(rt.Shard(key), SADD(key, member));
      return Ok(n == 1);
    }

    /** `srem`: throws unless the member was there. */
    method Srem(key: string, member: string) returns (r: Result<()>)
      requires Valid()
      modifies ch, ch.net
      ensures Valid() && Contents() == ExecuteSRem(old(Contents()), key, member).store
      ensures r.Ok? <==> member in Members(old(Contents()), key)
      ensures r == IntOkOf(ExecuteSRem(old(Contents()), key, member).reply)
    {
      r := AskIntOk(rt.Shard(key), SREM(key, member));
    }

    /** `smembers`: the members are inserted into the output set; their number is returned. */
    method Smembers(key: string, out: set<string>) returns (r: Result<int>, grown: set<string>)
      requires Valid()
      modifies ch, ch.net
      ensures Valid() && Contents() == old(Contents())
      ensures r.Ok? <==> HoldsSet(old(Contents()), key)
      ensures r.Ok? ==> grown == out + Members(old(Contents()), key) && r.value == |Members(old(Contents()), key)|
      ensures r.Err? ==> r == Err(NOT_A_BULK)
    {
      SetReply(ch.env, Members(Contents(), key));
      r, grown := AskSet(rt.Shard(key), SMEMBERS(key), out);
    }

    // ----------------------------------------------------------------------------- sets

    /** Several requests to one connection in one message. */
    method CallAll(fd: nat, reqs: seq<Request>)
      requires Valid() && fd < rt.n && AllSendable(reqs) && AllOnShard(rt, fd, reqs)
      modifies ch, ch.net
      ensures Settled() && OnlyUnreads(ch.pending, fd, ExecuteAll(ch.env, old(Contents()), reqs).replies)
      ensures Contents() == ExecuteAll(ch.env, old(Contents()), reqs).state
    {
      ghost var before := Contents();
      SendEach(map[fd := reqs]);
      OneShard(rt, ch.env, before, fd, reqs, Contents());
    }

    /** One turn of the loop below. */
    method RecvTerm(fd: nat, ghost i: nat, ghost replies: seq<Reply>) returns (r: Result<int>)
      requires Settled() && fd < rt.n && i < |replies| && ch.pending[fd] == replies[i..]
      requires replies[i].Integer? || replies[i].Error?
      modifies ch`pending, ch.net
      ensures Settled() && ch.pending == old(ch.pending)[fd := replies[i + 1..]]
      ensures if replies[i].Integer? then r.Ok? else r == Err(NOT_AN_INT)
      ensures r.Ok? ==> IntSum(replies[..i + 1]) == IntSum(replies[..i]) + r.value
    {
      if replies[i].Integer? {
        IntSumAt(replies, i);
      }
      DropNext(replies, i);
      r := ch.RecvInt(fd);
    }

    /** The loop `res += recv_int_reply_(socket)`; an error reply ends it. */
    method RecvSum(fd: nat, count: nat) returns (r: Result<int>)
      requires Settled() && fd < rt.n && |ch.pending[fd]| == count
      requires AllIntegers(ch.pending[fd]) || ch.pending[fd][0].Error?
      modifies ch`pending, ch.net
      ensures Settled()
      ensures AllIntegers(old(ch.pending)[fd]) ==>
                r == Ok(IntSum(old(ch.pending)[fd])) && ch.pending == old(ch.pending)[fd := []]
      ensures !AllIntegers(old(ch.pending)[fd]) ==>
                r == Err(NOT_AN_INT) && ch.pending == old(ch.pending)[fd := old(ch.pending)[fd][1..]]
    {
      ghost var replies := ch.pending[fd];
      var res := 0;
      for i := 0 to count
        invariant Settled() && ch.pending == old(ch.pending)[fd := replies[i..]]
        invariant AllIntegers(replies) || i == 0
        invariant res == IntSum(replies[..i])
      {
        var n :- RecvTerm(fd, i, replies);
        res := res + n;
      }
      assert replies[..count] == replies;
      return Ok(res);
    }

    method SaddSend(key: string, vals: seq<string>)
      requires Valid()
      modifies ch, ch.net
      ensures Settled()
      ensures var o := ExecuteAll(ch.env, old(Contents()), SaddEach(key, vals));
              Contents() == o.state && OnlyUnreads(ch.pending, rt.Shard(key), o.replies)
    {
      SaddEachFits(rt, key, vals);
      CallAll(rt.Shard(key), SaddEach(key, vals));
    }

    /**
     `sadd(key, begin, end)`: all members in one message, then all replies. It counts the members
     that were new. On a key of another kind it throws at the first reply, and the replies to the
     other members stay unread.
     */
    method SaddRange(key: string, vals: seq<string>) returns (r: Result<int>)
      requires Valid()
      modifies ch, ch.net
      ensures r.Ok? <==> HoldsSet(old(Contents()), key) || vals == []
      ensures r.Ok? ==> Valid() && Contents() == WithMembers(old(Contents()), key, SetOf(vals))
      ensures r.Ok? ==> r.value == |Members(old(Contents()), key) + SetOf(vals)| - |Members(old(Contents()), key)|
      ensures r.Err? ==> Settled() && Contents() == old(Contents())
      ensures r.Err? ==> r == Err(NOT_AN_INT) && OnlyUnreads(ch.pending, rt.Shard(key), Refusals(|vals| - 1))
    {
      SaddReplies(ch.env, Contents(), key, vals);
      SaddSend(key, vals);
      r := RecvSum(rt.Shard(key), |vals|);
    }

    /** One shard's answer to `SINTER` or `SUNION`, inserted into a set. */
    method SetShard(verb: KeyVerb, keys: seq<string>, parts: map<nat, seq<string>>, ghost before: Store,
                    s: nat, out: set<string>)
      returns (r: Result<int>, grown: set<string>)
      requires verb.SInters? || verb.SUnions?
      requires s < rt.n && s in parts && Awaiting(KeyWork(verb, parts), before, s)
      modifies ch`pending, ch.net
      ensures Awaiting(KeyWork(verb, parts), before, s + 1)
      ensures if AllHoldSets(before, parts[s]) then r.Ok? else r == Err(NOT_A_BULK)
      ensures r.Ok? ==> grown == out + (if verb.SInters? then Inter(before, parts[s]) else Union(before, parts[s]))
    {
      SetVerbReply(ch.env, before, verb, parts[s]);
      r, grown := GatherSet(KeyWork(verb, parts), before, s, out);
    }

    /** One turn of the receive loop of `sinter`. */
    method SinterShard(keys: seq<string>, parts: map<nat, seq<string>>, ghost before: Store, s: nat,
                       ghost out: set<string>, first: bool, prev: set<string>)
      returns (r: Result<int>, inter: set<string>)
      requires rt.Valid() && PartOf(KeyRoute(rt), keys, rt.n, parts) && s < rt.n && s in parts
      requires Awaiting(KeyWork(SInters, parts), before, s) && InterState(rt, before, keys, s, out, first, prev)
      modifies ch`pending, ch.net
      ensures Awaiting(KeyWork(SInters, parts), before, s + 1)
      ensures r.Err? ==> r == Err(NOT_A_BULK) && !AllHoldSets(before, parts[s]) && !AllHoldSets(before, keys)
      ensures r.Ok? ==> InterState(rt, before, keys, s + 1, out, false, inter)
    {
      InterStateNext(rt, before, keys, parts, s, out, first, prev);
      NothingUnion(Inter(before, parts[s]));
      var cur;
      r, cur := SetShard(SInters, keys, parts, before, s, {});
      inter := if first then cur else prev * cur;
    }

    /**
     The receive loop of `sinter`. It stops at the first shard that answers with an error; the
     answers of the shards after it are then still unread.
     */
    method SinterGather(keys: seq<string>, parts: map<nat, seq<string>>, ghost before: Store, out: set<string>)
      returns (r: Result<int>, inter: set<string>, ghost at: nat)
      requires rt.Valid() && PartOf(KeyRoute(rt), keys, rt.n, parts) && Awaiting(KeyWork(SInters, parts), before, 0)
      modifies ch`pending, ch.net
      ensures r.Ok? <==> AllHoldSets(before, keys)
      ensures r.Ok? ==> at == rt.n && r.value == |inter| && inter == if keys == [] then out else Inter(before, keys)
      ensures r.Err? ==> r == Err(NOT_A_BULK) && StoppedAt(SInters, keys, before, at, parts)
      ensures Awaiting(KeyWork(SInters, parts), before, at)
    {
      inter, at := out, 0;
      var first := true;
      NoneBelow(rt, keys);
      for s := 0 to rt.n
        invariant at == s && Awaiting(KeyWork(SInters, parts), before, s)
        invariant InterState(rt, before, keys, s, out, first, inter)
      {
        at := s + 1;
        if s in parts {
          var n;
          n, inter := SinterShard(keys, parts, before, s, out, first, inter);
          if n.Err? {
            return Err(n.error), inter, at;
          }
          first := false;
        } else {
          Skip(KeyWork(SInters, parts), before, s);
          InterStateSkip(rt, before, keys, parts, s, out, first, inter);
        }
      }
      InterStateEnd(rt, before, keys, out, first, inter);
      r := Ok(|inter|);
    }

    /**
     A gathering call has thrown at the shard before `at`, which is the first with a key that holds
     no set; the answers of that shard and of those before it have been read.
     */
    ghost predicate StoppedAt(verb: KeyVerb, keys: seq<string>, before: Store, at: nat, parts: map<nat, seq<string>>)
      reads ch, ch.net
    {
      && rt.Valid() && 0 < at <= rt.n && PartOf(KeyRoute(rt), keys, rt.n, parts)
      && SetsBelow(rt, before, keys, at - 1) && at - 1 in parts && !AllHoldSets(before, parts[at - 1])
      && Awaiting(KeyWork(verb, parts), before, at)
    }

    /**
     After such an exception the connections are in sync exactly when no key is on a later shard than
     a key that holds no set.
     */
    lemma StoppedInSync(verb: KeyVerb, keys: seq<string>, before: Store, at: nat, parts: map<nat, seq<string>>)
      requires StoppedAt(verb, keys, before, at, parts)
      ensures Synced() <==> ThrowsLast(rt, before, keys)
    {
      PartsBelow(rt, keys, parts, at);
      ThrowsLastAt(rt, before, keys, parts, at - 1);
      forall i | 0 <= i < rt.n ensures ch.pending[i] == [] <==> !(at <= i && i in parts) {
        if i in parts {
          ExecuteOne(ch.env, before, verb.Of(parts[i]));
        }
      }
    }

    /**
     `sinter`: the intersection of all the sets, over any placement of the keys; without keys the
     output set stays as it is.
     */
    method Sinter(keys: seq<string>, out: set<string>) returns (r: Result<int>, inter: set<string>)
      requires Valid()
      modifies ch, ch.net
      ensures Settled() && Contents() == old(Contents())
      ensures r.Ok? <==> AllHoldSets(old(Contents()), keys)
      ensures r.Ok? ==> Valid() && r.value == |inter|
      ensures r.Ok? ==> inter == if keys == [] then out else Inter(old(Contents()), keys)
      ensures r.Err? ==> r == Err(NOT_A_BULK)
      ensures r.Err? ==> exists at, parts :: StoppedAt(SInters, keys, old(Contents()), at, parts)
      ensures r.Err? ==> (Synced() <==> ThrowsLast(rt, old(Contents()), keys))
    {
      ghost var before := Contents();
      var parts := SendByKey(SInters, keys);
      ghost var at;
      r, inter, at := SinterGather(keys, parts, before, out);
      if r.Err? {
        StoppedInSync(SInters, keys, before, at, parts);
      }
    }

    /** One turn of the receive loop of `sunion`. */
    method SunionShard(keys: seq<string>, parts: map<nat, seq<string>>, ghost before: Store, s: nat,
                       ghost out: set<string>, prev: set<string>)
      returns (r: Result<int>, union: set<string>)
      requires rt.Valid() && PartOf(KeyRoute(rt), keys, rt.n, parts) && s < rt.n && s in parts
      requires Awaiting(KeyWork(SUnions, parts), before, s) && UnionState(rt, before, keys, s, out, prev)
      modifies ch`pending, ch.net
      ensures Awaiting(KeyWork(SUnions, parts), before, s + 1)
      ensures r.Err? ==> r == Err(NOT_A_BULK) && !AllHoldSets(before, parts[s]) && !AllHoldSets(before, keys)
      ensures r.Ok? ==> UnionState(rt, before, keys, s + 1, out, union)
    {
      UnionStateNext(rt, before, keys, parts, s, out, prev);
      r, union := SetShard(SUnions, keys, parts, before, s, prev);
    }

    /** The receive loop of `sunion` over several shards. */
    method SunionGather(keys: seq<string>, parts: map<nat, seq<string>>, ghost before: Store, out: set<string>)
      returns (r: Result<int>, union: set<string>, ghost at: nat)
      requires rt.Valid() && PartOf(KeyRoute(rt), keys, rt.n, parts) && Awaiting(KeyWork(SUnions, parts), before, 0)
      modifies ch`pending, ch.net
      ensures r.Ok? <==> AllHoldSets(before, keys)
      ensures r.Ok? ==> at == rt.n && r.value == |union| && union == out + Union(before, keys)
      ensures r.Err? ==> r == Err(NOT_A_BULK) && StoppedAt(SUnions, keys, before, at, parts)
      ensures Awaiting(KeyWork(SUnions, parts), before, at)
    {
      union, at := out, 0;
      for s := 0 to rt.n
        invariant at == s && Awaiting(KeyWork(SUnions, parts), before, s)
        invariant UnionState(rt, before, keys, s, out, union)
      {
        at := s + 1;
        if s in parts {
          var n;
          n, union := SunionShard(keys, parts, before, s, out, union);
          if n.Err? {
            return Err(n.error), out, at;
          }
        } else {
          Skip(KeyWork(SUnions, parts), before, s);
          UnionStateSkip(rt, before, keys, parts, s, out, union);
        }
      }
      UnionStateEnd(rt, before, keys, out, union);
      r := Ok(|union|);
    }

    /** `get_socket(keys)`: the common socket of the keys, or -1. */
    method GetSocket(keys: seq<string>) returns (socket: int)
      requires rt.Valid() && keys != []
      ensures -1 <= socket < rt.n
      ensures socket == if OneHome(rt, keys) then rt.Shard(keys[0]) else -1
      ensures socket == if forall k :: k in keys ==> rt.hash(k) % rt.n == rt.hash(keys[0]) % rt.n
                        then rt.hash(keys[0]) % rt.n else -1
    {
      SameModulo(rt, keys);
      if rt.n == 1 {
        return 0;
      }
      socket := -1;
      for i := 0 to |keys|
        invariant i == 0 ==> socket == -1
        invariant i > 0 ==> 0 <= socket < rt.n && forall j :: 0 <= j < i ==> rt.Shard(keys[j]) == socket
      {
        var curSocket := rt.Shard(keys[i]);
        if i > 0 && socket != curSocket {
          assert keys[0] in keys && keys[i] in keys;
          return -1;
        }
        socket := curSocket;
      }
    }

    /** The branch of `sunion` over several servers. */
    method SunionAcross(keys: seq<string>, out: set<string>) returns (r: Result<int>, union: set<string>)
      requires Valid()
      modifies ch, ch.net
      ensures Settled() && Contents() == old(Contents())
      ensures r.Ok? <==> AllHoldSets(old(Contents()), keys)
      ensures r.Ok? ==> Valid() && union == out + Union(old(Contents()), keys) && r.value == |union|
      ensures r.Err? ==> r == Err(NOT_A_BULK)
      ensures r.Err? ==> exists at, parts :: StoppedAt(SUnions, keys, old(Contents()), at, parts)
      ensures r.Err? ==> (Synced() <==> ThrowsLast(rt, old(Contents()), keys))
    {
      ghost var before := Contents();
      var parts := SendByKey(SUnions, keys);
      ghost var at;
      r, union, at := SunionGather(keys, parts, before, out);
      if r.Err? {
        StoppedInSync(SUnions, keys, before, at, parts);
      }
    }

    /** The branch of `sunion` over one server. */
    method SunionAtHome(socket: nat, keys: seq<string>, out: set<string>) returns (r: Result<int>, union: set<string>)
      requires Valid() && keys != [] && OneHome(rt, keys) && socket == rt.Shard(keys[0])
      modifies ch, ch.net
      ensures Valid() && Contents() == old(Contents())
      ensures r.Ok? <==> AllHoldSets(old(Contents()), keys)
      ensures r.Ok? ==> union == out + Union(old(Contents()), keys) && r.value == |Union(old(Contents()), keys)|
      ensures r.Err? ==> r == Err(NOT_A_BULK)
    {
      SetVerbReply(ch.env, Contents(), SUnions, keys);
      r, union := AskSet(socket, SUNION(keys), out);
    }

    /**
     `sunion`: the output set united with all the sets. Over one server it returns the size of the
     union of the sets, over several the size of the output set.
     */
    method Sunion(keys: seq<string>, out: set<string>) returns (r: Result<int>, union: set<string>)
      requires Valid() && keys != []
      modifies ch, ch.net
      ensures Settled() && Contents() == old(Contents())
      ensures r.Ok? <==> AllHoldSets(old(Contents()), keys)
      ensures r.Ok? ==> Valid() && union == out + Union(old(Contents()), keys)
      ensures r.Ok? ==> r.value == SunionCount(rt, old(Contents()), keys, out)
      ensures r.Err? ==> r == Err(NOT_A_BULK) && (OneHome(rt, keys) ==> Valid())
      ensures r.Err? && !OneHome(rt, keys) ==> exists at, parts :: StoppedAt(SUnions, keys, old(Contents()), at, parts)
      ensures r.Err? ==> (Synced() <==> ThrowsLast(rt, old(Contents()), keys))
    {
      var socket := GetSocket(keys);
      if socket == -1 {
        r, union := SunionAcross(keys, out);
      } else {
        r, union := SunionAtHome(socket, keys, out);
      }
    }

    /** `BOOST_FOREACH(val, content) sadd(key, val)`, for any order of a set's members. */
    method SaddAllOf(key: string, content: set<string>) returns (r: Result<()>)
      requires Valid() && HoldsSet(Contents(), key)
      modifies ch, ch.net
      ensures Valid() && r.Ok? && Contents() == WithMembers(old(Contents()), key, content)
    {
      ghost var before := Contents();
      var rest := content;
      while rest != {}
        invariant Valid() && rest <= content && Contents() == WithMembers(before, key, content - rest)
        decreases rest
      {
        var val :| val in rest;
        OneFewer(content, rest, val);
        SaddNext(before, key, content - rest, val);
        var _ := Sadd(key, val);
        rest := rest - {val};
      }
      assert content - rest == content;
      r := Ok(());
    }

    /** `del(dstkey)` followed by single additions. */
    method StoreEach(dst: string, content: set<string>)
      requires Valid()
      modifies ch, ch.net
      ensures Valid() && Contents() == PutSet(old(Contents()) - {dst}, dst, content)
    {
      StoreByAdding(Contents(), dst, content);
      var _ := Del(dst);
      var _ := SaddAllOf(dst, content);
    }

    /** `del(dstkey)` followed by a pipelined addition. */
    method StorePiped(dst: string, content: set<string>) returns (r: Result<int>)
      requires Valid()
      modifies ch, ch.net
      ensures Valid() && Contents() == PutSet(old(Contents()) - {dst}, dst, content) && r == Ok(|content|)
    {
      StoreByAdding(Contents(), dst, content);
      var _ := Del(dst);
      var vals := Elements(content);
      r := SaddRange(dst, vals);
    }

    /**
     `sinterstore`: in both branches the destination becomes the intersection, taken before the
     destination is touched, and the result is its size; nothing changes if a key holds no set.
     */
    method Sinterstore(dst: string, keys: seq<string>) returns (r: Result<int>)
      requires Valid() && keys != []
      modifies ch, ch.net
      ensures r.Ok? <==> AllHoldSets(old(Contents()), keys)
      ensures r.Ok? ==> Valid() && r.value == |Inter(old(Contents()), keys)|
      ensures Settled() && Contents() == Execute(ch.env, old(Contents()), SINTERSTORE(dst, keys)).store
      ensures r.Err? ==> Valid() || exists at, parts :: StoppedAt(SInters, keys, old(Contents()), at, parts)
      ensures r.Err? ==> r == Err(if AtHome(rt, dst, keys) then NOT_AN_INT else NOT_A_BULK)
      ensures r.Err? ==> (Synced() <==> ThrowsLast(rt, old(Contents()), keys))
    {
      StoreOutcome(ch.env, Contents(), dst, keys);
      var socket := rt.Shard(dst);
      var sourceSockets := GetSocket(keys);
      if socket != sourceSockets {
        var n, content := Sinter(keys, {});
        if n.Err? {
          return Err(n.error);
        }
        StoreEach(dst, content);
        return Ok(|content|);
      }
      StoreAtHome(rt, dst, keys);
      r := AskInt(socket, SINTERSTORE(dst, keys));
    }

    /** `sunionstore`: gather, delete and add all in one message; agrees with the single-server branch. */
    method Sunionstore(dst: string, keys: seq<string>) returns (r: Result<int>)
      requires Valid() && keys != []
      modifies ch, ch.net
      ensures r.Ok? <==> AllHoldSets(old(Contents()), keys)
      ensures r.Ok? ==> Valid() && r.value == |Union(old(Contents()), keys)|
      ensures Settled() && Contents() == Execute(ch.env, old(Contents()), SUNIONSTORE(dst, keys)).store
      ensures r.Err? ==> Valid() || exists at, parts :: StoppedAt(SUnions, keys, old(Contents()), at, parts)
      ensures r.Err? ==> r == Err(if AtHome(rt, dst, keys) then NOT_AN_INT else NOT_A_BULK)
      ensures r.Err? ==> (Synced() <==> ThrowsLast(rt, old(Contents()), keys))
    {
      StoreOutcome(ch.env, Contents(), dst, keys);
      NothingUnion(Union(Contents(), keys));
      var socket := rt.Shard(dst);
      var sourceSockets := GetSocket(keys);
      if socket != sourceSockets {
        var n, content := Sunion(keys, {});
        if n.Err? {
          return Err(n.error);
        }
        r := StorePiped(dst, content);
        return;
      }
      StoreAtHome(rt, dst, keys);
      r := AskInt(socket, SUNIONSTORE(dst, keys));
    }

    /**
     `smove`. Across servers it removes first and adds then, so when the destination is of another
     kind it throws after the member has been removed.
     */
    method Smove(src: string, dst: string, member: string) returns (r: Result<()>)
      requires Valid()
      modifies ch, ch.net
      ensures Valid() && Contents() == Moved(rt, old(Contents()), src, dst, member)
      ensures r.Ok? <==> ExecuteSMove(old(Contents()), src, dst, member).reply == Integer(1)
      ensures r.Err? ==> r.error.ProtocolError?
      ensures rt.Shard(src) == rt.Shard(dst) ==> r == IntOkOf(ExecuteSMove(old(Contents()), src, dst, member).reply)
    {
      var srcSocket := rt.Shard(src);
      var dstSocket := rt.Shard(dst);
      if dstSocket != srcSocket {
        MoveAcross(Contents(), src, dst, member);
        var _ :- Srem(src, member);
        var _ :- Sadd(dst, member);
        return Ok(());
      }
      r := AskIntOk(srcSocket, SMOVE(src, dst, member));
    }

    // ----------------------------------------------------------------------------- rename

    /** `BOOST_FOREACH(val, content) rpush(key, val)` on a key that does not exist */
    method RpushAll(key: string, content: seq<string>)
      requires Valid() && key !in Contents()
      modifies ch, ch.net
      ensures Valid() && Contents() == PutList(old(Contents()), key, content)
    {
      ghost var before := Contents();
      for i := 0 to |content|
        invariant Valid() && Contents() == PutList(before, key, content[..i])
      {
        RpushNext(before, key, content, i);
        var _ := Rpush(key, content[i]);
      }
      assert content[..|content|] == content;
    }

    /** Copies the value of `from`, which lives on another server, over `to`. */
    method CopyAcross(from: string, to: string, kind: KeyType) returns (r: Result<()>)
      requires Valid() && rt.Shard(from) != rt.Shard(to)
      requires from in Contents() && kind == KeyTypeOf(Contents(), from)
      modifies ch, ch.net
      ensures Valid() && r == if Movable(old(Contents()), from) then Ok(()) else Err(RuntimeError)
      ensures Contents() == if Movable(old(Contents()), from)
                            then old(Contents())[to := Entry(old(Contents())[from].value, None)]
                            else old(Contents())
    {
      CopyIsPut(Contents(), from, to);
      match kind {
        case StringKey =>
          var text := Get(from);
          var _ := Set(to, text.value);
          return Ok(());
        case ListKey =>
          WholeRange(ListAt(Contents(), from));
          var _, content := Lrange(from, 0, -1, []);
          var _ := Del(to);
          RpushAll(to, content);
          return Ok(());
        case SetKey =>
          NothingUnion(Members(Contents(), from));
          var _, content := Smembers(from, {});
          StoreEach(to, content);
          return Ok(());
        case _ =>
          return Err(RuntimeError);
      }
    }

    /** `rename` */
    method Rename(from: string, to: string) returns (r: Result<()>)
      requires Valid()
      modifies ch, ch.net
      ensures Valid() && Contents() == Renamed(rt, ch.env, old(Contents()), from, to)
      ensures rt.Shard(from) == rt.Shard(to) ==>
                r == if from in old(Contents()) then Ok(()) else OkOf(NO_SUCH_KEY)
      ensures rt.Shard(from) != rt.Shard(to) ==>
                r == if from in old(Contents()) && !Movable(old(Contents()), from) then Err(RuntimeError) else Ok(())
    {
      var sourceSocket := rt.Shard(from);
      var destinSocket := rt.Shard(to);
      if sourceSocket != destinSocket {
        var kind := Type(from);
        if kind.value == NoKey {
          return Ok(());
        }
        var _ :- CopyAcross(from, to, kind.value);
        var _ := Del(from);
        return Ok(());
      }
      r := AskOk(sourceSocket, RENAME(from, to));
    }

    // ----------------------------------------------------------------------------- msetex

    lemma BatchScattered(pairs: seq<(string, string)>, seconds: int, parts: map<nat, seq<(string, string)>>,
                         before: Store, after: Store)
      requires rt.Valid() && PartOf(PairRoute(rt), pairs, rt.n, parts)
      requires Scattered(rt, ch.env, before, BatchWork(parts, seconds), after)
      ensures after == ExecuteAll(ch.env, before, Batch(pairs, seconds)).state
    {
      var want := ExecuteAll(ch.env, before, Batch(pairs, seconds)).state;
      forall k ensures Lookup(after, k) == Lookup(want, k) {
        BatchSplits(rt, ch.env, before, pairs, seconds, k);
        if rt.Shard(k) !in parts {
          EmptyBatch(ch.env, before, seconds);
        }
      }
      SameStore(after, want);
    }

    method MsetexJoin(ghost mine: seq<(string, string)>, ghost seconds: int, dat: MsetexData) returns (message: string)
      requires dat == MsetexFor(mine, seconds)
      ensures message == EncodeCommands(LinesOfAll(Batch(mine, seconds)))
    {
      MsetexMessage(mine, seconds);
      var cmds := Rc.MakeRequest(dat.msetCmd.value);
      message := cmds + dat.expireCmds;
    }

    /** The loop that puts each socket's `MSET` and `EXPIRE`s together. */
    method MsetexMessages(ghost pairs: seq<(string, string)>, ghost seconds: int, data: map<nat, MsetexData>)
      returns (messages: map<nat, string>)
      requires rt.Valid() && MsetexFilled(rt, pairs, seconds, data)
      ensures Prints(messages, BatchWork(PartsOf(rt, pairs, data), seconds))
    {
      ghost var work := BatchWork(PartsOf(rt, pairs, data), seconds);
      BatchWorkAt(rt, pairs, seconds, data);
      messages := map[];
      for s := 0 to rt.n
        invariant PrintsBelow(messages, work, s)
      {
        PrintsNext(messages, work, s);
        if s in data {
          var message := MsetexJoin(Routed(PairRoute(rt), pairs, s), seconds, data[s]);
          messages := messages[s := message];
        }
      }
      PrintsAll(messages, work, rt.n);
    }

    method MsetexSend(pairs: seq<(string, string)>, seconds: int, data: map<nat, MsetexData>)
      requires Valid() && MsetexFilled(rt, pairs, seconds, data)
      modifies ch, ch.net
      ensures Awaiting(BatchWork(PartsOf(rt, pairs, data), seconds), old(Contents()), 0)
      ensures Contents() == ExecuteAll(ch.env, old(Contents()), Batch(pairs, seconds)).state
    {
      ghost var before, parts := Contents(), PartsOf(rt, pairs, data);
      PartsOfFilled(rt, pairs, seconds, data);
      BatchWorkIsValid(rt, pairs, seconds, parts);
      var messages := MsetexMessages(pairs, seconds, data);
      SendMessages(messages, BatchWork(parts, seconds));
      BatchScattered(pairs, seconds, parts, before, Contents());
    }

    /** The loop of `recv_int_ok_reply_`: it stops at the first reply that is not 1. */
    method RecvOnes(fd: nat, count: nat) returns (r: Result<()>, ghost j: nat)
      requires Settled() && fd < rt.n && |ch.pending[fd]| == count && AllIntegers(ch.pending[fd])
      modifies ch`pending, ch.net
      ensures Settled() && j <= count && (r.Ok? <==> j == count)
      ensures forall i :: 0 <= i < j ==> old(ch.pending)[fd][i] == Integer(1)
      ensures r.Ok? ==> ch.pending == old(ch.pending)[fd := []]
      ensures r.Err? ==> old(ch.pending)[fd][j] != Integer(1) && r == Err(ProtocolError("expecting int reply of 1"))
      ensures r.Err? ==> ch.pending == old(ch.pending)[fd := old(ch.pending)[fd][j + 1..]]
    {
      ghost var replies := ch.pending[fd];
      j := 0;
      for i := 0 to count
        invariant j == i && Settled() && ch.pending == old(ch.pending)[fd := replies[i..]]
        invariant forall k :: 0 <= k < i ==> replies[k] == Integer(1)
      {
        DropNext(replies, i);
        var ok := ch.RecvIntOk(fd);
        if ok.Err? {
          return ok, j;
        }
        j := i + 1;
      }
      r := Ok(());
    }

    /** The integers of one connection in `msetex`. */
    method MsetexOnes(ghost mine: seq<(string, string)>, seconds: int, ghost before: Store, s: nat, count: nat)
      returns (r: Result<()>, ghost j: nat)
      requires Settled() && s < rt.n && count == |mine| == |ch.pending[s]| && AllIntegers(ch.pending[s])
      requires [OK] + ch.pending[s] == ExecuteAll(ch.env, before, Batch(mine, seconds)).replies
      modifies ch`pending, ch.net
      ensures Settled() && (r.Ok? <==> seconds > 0 || DistinctKeys(mine))
      ensures r.Ok? ==> ch.pending == old(ch.pending)[s := []]
      ensures r.Err? ==> RepeatsFirstAt(mine, j) && ch.pending == old(ch.pending)[s := old(ch.pending)[s][j + 1..]]
      ensures r.Err? ==> r == Err(ProtocolError("expecting int reply of 1"))
    {
      ghost var ones := ch.pending[s];
      assert ([OK] + ones)[1..] == ones;
      r, j := RecvOnes(s, count);
      BatchStops(ch.env, before, mine, seconds, j);
    }

    /** One connection's replies in `msetex`: OK, then one integer for each of its pairs. */
    method MsetexShard(ghost mine: seq<(string, string)>, seconds: int, ghost before: Store, s: nat, count: nat)
      returns (r: Result<()>, ghost j: nat)
      requires Settled() && s < rt.n && count == |mine|
      requires ch.pending[s] == ExecuteAll(ch.env, before, Batch(mine, seconds)).replies
      modifies ch`pending, ch.net
      ensures Settled() && (r.Ok? <==> seconds > 0 || DistinctKeys(mine))
      ensures r.Ok? ==> ch.pending == old(ch.pending)[s := []]
      ensures r.Err? ==>
                && RepeatsFirstAt(mine, j) && j + 2 <= |old(ch.pending)[s]|
                && ch.pending == old(ch.pending)[s := old(ch.pending)[s][j + 2..]]
                && r == Err(ProtocolError("expecting int reply of 1"))
    {
      ghost var replies := ch.pending[s];
      BatchIsOnes(ch.env, before, mine, seconds);
      var _ := ch.RecvOk(s);
      r, j := MsetexOnes(mine, seconds, before, s, count);
      if r.Err? {
        DropAgain(replies, j);
      }
    }

    /**
     `msetex` has thrown on shard `at` at its pair `j`, the first there to repeat a key: the replies
     to the shard's pairs after it, and those of all later shards, are unread.
     */
    ghost predicate ExpiryStoppedAt(pairs: seq<(string, string)>, seconds: int, before: Store, at: nat, j: nat)
      reads ch, ch.net
    {
      && Settled() && at < rt.n && DistinctBelow(rt, pairs, at)
      && RepeatsFirstAt(Routed(PairRoute(rt), pairs, at), j)
      && MsetexLeft(rt, ch.env, before, pairs, seconds, at, j, ch.pending)
    }

    /** After such an exception the connections are in sync exactly when it happened at the last reply. */
    lemma ExpiryStoppedInSync(pairs: seq<(string, string)>, seconds: int, before: Store, at: nat, j: nat)
      requires ExpiryStoppedAt(pairs, seconds, before, at, j)
      ensures Synced() <==> RepeatsLast(rt, pairs)
    {
      RepeatsLastAt(rt, pairs, at, Routed(PairRoute(rt), pairs, at), j);
      forall i | 0 <= i < rt.n
        ensures ch.pending[i] == [] <==> MsetexQuiet(rt, pairs, at, j, i)
      {
        UnreadIsQuiet(rt, ch.env, before, pairs, seconds, at, j, i);
      }
      QuietEverywhere(rt, pairs, at, j);
    }

    /** One turn of the receive loop of `msetex`. */
    method MsetexTurn(ghost pairs: seq<(string, string)>, data: map<nat, MsetexData>, seconds: int,
                      ghost before: Store, s: nat)
      returns (r: Result<()>, ghost j: nat)
      requires s < rt.n && Settled() && MsetexFilled(rt, pairs, seconds, data)
      requires Awaiting(BatchWork(PartsOf(rt, pairs, data), seconds), before, s)
      modifies ch`pending, ch.net
      ensures Settled() && (r.Ok? <==> seconds > 0 || DistinctKeys(Routed(PairRoute(rt), pairs, s)))
      ensures r.Ok? ==> Awaiting(BatchWork(PartsOf(rt, pairs, data), seconds), before, s + 1)
      ensures r.Err? ==> RepeatsFirstAt(Routed(PairRoute(rt), pairs, s), j)
      ensures r.Err? ==> MsetexLeft(rt, ch.env, before, pairs, seconds, s, j, ch.pending)
      ensures r.Err? ==> r == Err(ProtocolError("expecting int reply of 1"))
    {
      ghost var work, mine := BatchWork(PartsOf(rt, pairs, data), seconds), Routed(PairRoute(rt), pairs, s);
      ghost var pending := ch.pending;
      NextBatch(rt, ch.env, before, pairs, seconds, data, s, pending);
      if s in data {
        ReadUnread(ch.env, before, work, s, pending);
        r, j := MsetexShard(mine, seconds, before, s, data[s].count);
        if r.Err? {
          LeftInBatch(rt, ch.env, before, pairs, seconds, data, s, pending, j);
        }
      } else {
        Skip(work, before, s);
        r, j := Ok(()), 0;
      }
    }

    /** The receive loop of `msetex`. */
    method MsetexGather(ghost pairs: seq<(string, string)>, data: map<nat, MsetexData>, seconds: int,
                        ghost before: Store)
      returns (r: Result<()>, ghost at: nat, ghost j: nat)
      requires rt.Valid() && MsetexFilled(rt, pairs, seconds, data)
      requires Awaiting(BatchWork(PartsOf(rt, pairs, data), seconds), before, 0)
      modifies ch`pending, ch.net
      ensures Settled() && (r.Ok? <==> seconds > 0 || DistinctOnShards(rt, pairs))
      ensures r.Ok? ==> Awaiting(BatchWork(PartsOf(rt, pairs, data), seconds), before, rt.n)
      ensures r.Err? ==> ExpiryStoppedAt(pairs, seconds, before, at, j)
      ensures r.Err? ==> r == Err(ProtocolError("expecting int reply of 1"))
    {
      at, j := 0, 0;
      for s := 0 to rt.n
        invariant Awaiting(BatchWork(PartsOf(rt, pairs, data), seconds), before, s)
        invariant seconds > 0 || DistinctBelow(rt, pairs, s)
      {
        DistinctBelowNext(rt, pairs, s);
        var turn;
        turn, j := MsetexTurn(pairs, data, seconds, before, s);
        if turn.Err? {
          return turn, s, j;
        }
      }
      DistinctBelowAll(rt, pairs);
      r := Ok(());
    }

    /**
     `msetex`: on the logical store, all pairs are set from left to right and then every key gets
     its expiry. It throws exactly when the time is not positive and a key is repeated.
     */
    method Msetex(pairs: seq<(string, string)>, seconds: int) returns (r: Result<()>)
      requires Valid()
      modifies ch, ch.net
      ensures Settled() && Contents() == ExecuteAll(ch.env, old(Contents()), Batch(pairs, seconds)).state
      ensures r.Ok? <==> seconds > 0 || DistinctKeys(pairs)
      ensures r.Ok? ==> Valid()
      ensures r.Err? ==> exists at, j :: ExpiryStoppedAt(pairs, seconds, old(Contents()), at, j)
      ensures r.Err? ==> r == Err(ProtocolError("expecting int reply of 1"))
      ensures r.Err? ==> (Synced() <==> RepeatsLast(rt, pairs))
    {
      ghost var before := Contents();
      var data := MsetexFill(rt, pairs, seconds, 0);
      MsetexSend(pairs, seconds, data);
      DistinctSplits(rt, pairs);
      ghost var at, j;
      r, at, j := MsetexGather(pairs, data, seconds, before);
      if r.Err? {
        ExpiryStoppedInSync(pairs, seconds, before, at, j);
      }
    }

    // ----------------------------------------------------------------------------- pipelines

    /** Nothing is unread on any connection. */
    ghost predicate Quiet()
      reads ch, ch.net
    {
      && ch.Valid() && rt.Valid() && |ch.hosts| == rt.n
      && forall i :: 0 <= i < rt.n ==> ch.pending[i] == []
    }

    /**
     `exec(command)`. It can throw only on the answer to `EXEC`, and then leaves what follows the first
     element that is no bulk string.
     */
    method Exec(job: Job) returns (r: Result<Job>)
      requires Quiet()
      modifies ch, ch.net
      ensures var s := rt.Shard(job.key);
              var a := Step(ch.env, old(ch.hosts)[s], job.lines);
              && ch.Valid() && ch.hosts == old(ch.hosts)[s := a.host]
              && OnlyUnreads(ch.pending, s, LeftBehind(a.reply))
              && (r.Ok? <==> DataOf(a.reply).Ok?)
              && (r.Ok? ==> Quiet() && r.value == job.(reply := DataOf(a.reply).value))
              && (r.Err? ==> r.error == DataOf(a.reply).error)
              && (old(ch.hosts)[s].queue.None? ==> r.Ok?)
    {
      var socket := rt.Shard(job.key);
      ghost var reply := Step(ch.env, ch.hosts[socket], job.lines).reply;
      if ch.hosts[socket].queue.None? {
        StepHasData(ch.env, ch.hosts[socket], job.lines);
      }
      SendOne(socket, job.lines);
      var data :- RecvAnswer(socket, reply);
      return Ok(job.(reply := data));
    }

    method RecvAnswer(fd: nat, ghost reply: Reply) returns (r: Result<ReplyData>)
      requires ch.Valid() && rt.Valid() && |ch.hosts| == rt.n && fd < rt.n && OnlyUnread(ch.pending, fd, reply)
      modifies ch`pending, ch.net
      ensures ch.Valid() && r == DataOf(reply) && OnlyUnreads(ch.pending, fd, LeftBehind(reply))
      ensures r.Ok? ==> Quiet()
    {
      assert LeftBehind(reply) + [] == LeftBehind(reply);
      r := ch.RecvGeneric(fd);
    }

    method SendOne(fd: nat, lines: Command)
      requires Quiet() && fd < rt.n
      modifies ch, ch.net
      ensures ch.Valid() && |ch.hosts| == rt.n
      ensures ch.hosts == old(ch.hosts)[fd := Step(ch.env, old(ch.hosts)[fd], lines).host]
      ensures OnlyUnread(ch.pending, fd, Step(ch.env, old(ch.hosts)[fd], lines).reply)
    {
      ServeOne(ch.env, ch.hosts[fd], lines);
      NothingFirst([Step(ch.env, ch.hosts[fd], lines).reply]);
      var _ := ch.SendCommands(fd, [lines]);
    }

    /** The list run one command at a time, each reply read before the next command is sent. */
    method ExecOneByOne(jobs: seq<Job>) returns (r: Result<seq<Job>>, ghost at: nat)
      requires Quiet()
      modifies ch, ch.net
      ensures var p := RunJobs(ch.env, rt, old(ch.hosts), jobs);
              && (r.Ok? <==> AllHaveData(p.replies))
              && (r.Ok? ==> Quiet() && ch.hosts == p.state && r.value == WithReplies(jobs, p.replies))
              && (r.Err? ==>
                    && ch.Valid() && ThrowsFirstAt(p.replies, at) && r.error == DataOf(p.replies[at]).error
                    && ch.hosts == RunJobs(ch.env, rt, old(ch.hosts), jobs[..at + 1]).state
                    && OnlyUnreads(ch.pending, rt.Shard(jobs[at].key), LeftBehind(p.replies[at])))
    {
      var done: seq<Job> := [];
      ghost var hosts := ch.hosts;
      ghost var replies := RunJobs(ch.env, rt, hosts, jobs).replies;
      at := 0;
      for i := 0 to |jobs|
        invariant at == i && Quiet() && ch.hosts == RunJobs(ch.env, rt, hosts, jobs[..i]).state
        invariant Filled(jobs, replies, i, done)
      {
        RunNext(ch.env, rt, hosts, jobs, i);
        FilledNext(jobs, replies, i, done);
        var job := Exec(jobs[i]);
        if job.Err? {
          return Err(job.error), i;
        }
        done := done + [job.value];
        at := i + 1;
      }
      FilledEnd(jobs, replies, done);
      assert jobs[..|jobs|] == jobs;
      return Ok(done), at;
    }

    /** The first two loops of `exec(vector)`: requests are joined by socket, then sent. */
    method JobsSend(jobs: seq<Job>) returns (ghost trace: seq<I.Event>)
      requires Quiet()
      modifies ch, ch.net
      ensures ch.Valid() && |ch.hosts| == rt.n
      ensures SentByShard(ch.env, rt, old(ch.hosts), jobs, rt.n, ch.hosts, ch.pending)
      ensures I.TraceOf(ch.env, rt, old(ch.hosts), jobs, trace, ch.hosts, ch.pending)
    {
      ghost var hosts := ch.hosts;
      trace := [];
      var parts := Partition(JobRoute(rt), jobs, rt.n);
      NothingSent(ch.env, rt, hosts, jobs, ch.pending);
      I.TraceStarts(ch.env, rt, hosts, jobs, ch.pending);
      for s := 0 to rt.n
        invariant ch.Valid() && |ch.hosts| == rt.n
        invariant SentByShard(ch.env, rt, hosts, jobs, s, ch.hosts, ch.pending)
        invariant I.TraceUpTo(ch.env, rt, hosts, jobs, s, trace, ch.hosts, ch.pending)
      {
        SentNext(ch.env, rt, hosts, jobs, s, ch.hosts, ch.pending);
        I.TraceDelivers(ch.env, rt, hosts, jobs, s, trace, ch.hosts, ch.pending);
        if s in parts {
          var _ := ch.SendCommands(s, LinesIn(parts[s]));
          trace := trace + I.Delivery(s, LinesFor(rt, jobs, s));
        }
      }
    }

    /**
     `exec(vector)`: all requests are sent, then the replies are read in list order. Every command
     gets the reply it would get if the list were run one command at a time, and every server ends
     in the same state. What the call does is a trace of the client-and-servers state machine. If no
     transaction is open and none begins it cannot throw.
     */
    method ExecAll(jobs: seq<Job>) returns (r: Result<seq<Job>>, ghost trace: seq<I.Event>, ghost at: nat)
      requires Quiet()
      modifies ch, ch.net
      ensures var p := RunJobs(ch.env, rt, old(ch.hosts), jobs);
              && ch.Valid() && ch.hosts == p.state
              && (r.Ok? <==> AllHaveData(p.replies))
              && (r.Ok? ==> Quiet() && r.value == WithReplies(jobs, p.replies))
              && (r.Err? ==>
                    && ThrowsFirstAt(p.replies, at) && r.error == DataOf(p.replies[at]).error
                    && LeftByThrow(ch.env, rt, old(ch.hosts), jobs, at, ch.pending))
      ensures r.Ok? ==> I.TraceOf(ch.env, rt, old(ch.hosts), jobs, trace, ch.hosts, ch.pending)
      ensures NoneOpen(old(ch.hosts)) && NoMulti(jobs) ==> r.Ok?
    {
      ghost var hosts := ch.hosts;
      if NoneOpen(hosts) && NoMulti(jobs) {
        RunHasData(ch.env, rt, hosts, jobs);
      }
      trace := JobsSend(jobs);
      AllSent(ch.env, rt, hosts, jobs, ch.hosts, ch.pending);
      r, trace, at := JobsRead(jobs, hosts, trace);
    }

    /** One turn of the loop below. */
    method JobRead(jobs: seq<Job>, i: nat, ghost hosts: seq<Host>, ghost before: seq<I.Event>)
      returns (r: Result<ReplyData>, ghost trace: seq<I.Event>)
      requires ch.Valid() && rt.Valid() && |ch.hosts| == |hosts| == rt.n && i < |jobs|
      requires LeftByShard(ch.env, rt, hosts, jobs, i, ch.pending)
      requires I.TraceOf(ch.env, rt, hosts, jobs, before, ch.hosts, ch.pending)
      modifies ch`pending, ch.net
      ensures ch.Valid() && r == DataOf(RunJobs(ch.env, rt, hosts, jobs).replies[i])
      ensures r.Ok? ==> LeftByShard(ch.env, rt, hosts, jobs, i + 1, ch.pending)
      ensures r.Ok? ==> I.TraceOf(ch.env, rt, hosts, jobs, trace, ch.hosts, ch.pending)
      ensures r.Err? ==> LeftByThrow(ch.env, rt, hosts, jobs, i, ch.pending)
    {
      var socket := rt.Shard(jobs[i].key);
      ghost var was := ch.pending;
      LeftNext(ch.env, rt, hosts, jobs, i, was);
      I.TraceReads(ch.env, rt, hosts, jobs, socket, before, ch.hosts, was);
      r := ch.RecvGeneric(socket);
      trace := before + [I.Read(socket)];
      LeftThrown(ch.env, rt, hosts, jobs, i, was);
    }

    /** The last loop of `exec(vector)`. */
    method JobsRead(jobs: seq<Job>, ghost hosts: seq<Host>, ghost sent: seq<I.Event>)
      returns (r: Result<seq<Job>>, ghost trace: seq<I.Event>, ghost at: nat)
      requires ch.Valid() && rt.Valid() && |ch.hosts| == |hosts| == rt.n
      requires LeftByShard(ch.env, rt, hosts, jobs, 0, ch.pending)
      requires I.TraceOf(ch.env, rt, hosts, jobs, sent, ch.hosts, ch.pending)
      modifies ch`pending, ch.net
      ensures var replies := RunJobs(ch.env, rt, hosts, jobs).replies;
              && ch.Valid() && (r.Ok? <==> AllHaveData(replies))
              && (r.Ok? ==> Quiet() && r.value == WithReplies(jobs, replies))
              && (r.Err? ==>
                    && ThrowsFirstAt(replies, at) && r.error == DataOf(replies[at]).error
                    && LeftByThrow(ch.env, rt, hosts, jobs, at, ch.pending))
      ensures r.Ok? ==> I.TraceOf(ch.env, rt, hosts, jobs, trace, ch.hosts, ch.pending)
    {
      ghost var replies := RunJobs(ch.env, rt, hosts, jobs).replies;
      var done: seq<Job> := [];
      trace, at := sent, 0;
      for i := 0 to |jobs|
        invariant at == i && ch.Valid() && LeftByShard(ch.env, rt, hosts, jobs, i, ch.pending)
        invariant I.TraceOf(ch.env, rt, hosts, jobs, trace, ch.hosts, ch.pending)
        invariant Filled(jobs, replies, i, done)
      {
        FilledNext(jobs, replies, i, done);
        var data;
        data, trace := JobRead(jobs, i, hosts, trace);
        if data.Err? {
          return Err(data.error), trace, i;
        }
        done := done + [jobs[i].(reply := data.value)];
        at := i + 1;
      }
      FilledEnd(jobs, replies, done);
      NothingLeft(ch.env, rt, hosts, jobs, ch.pending);
      return Ok(done), trace, at;
    }

    // ----------------------------------------------------------------------------- transactions

    /** The first loop of `exec_transaction`: the common socket, -1 for no commands, or an exception. */
    method TransactionSocket(jobs: seq<Job>) returns (r: Result<int>)
      requires rt.Valid()
      ensures jobs == [] ==> r == Ok(-1)
      ensures jobs != [] ==> r == if SameHome(rt, jobs) then Ok(rt.Shard(jobs[0].key)) else Err(RuntimeError)
    {
      var cmdSocket: int := -1;
      for i := 0 to |jobs|
        invariant i == 0 ==> cmdSocket == -1
        invariant i > 0 ==> cmdSocket == rt.Shard(jobs[0].key)
        invariant forall k :: 0 <= k < i ==> rt.Shard(jobs[k].key) == cmdSocket
      {
        var socket := rt.Shard(jobs[i].key);
        if cmdSocket == -1 {
          cmdSocket := socket;
        } else if cmdSocket != socket {
          return Err(RuntimeError);
        }
      }
      return Ok(cmdSocket);
    }

    /** One turn of the loop that expects `QUEUED`. */
    method RecvOneQueued(fd: nat) returns (r: Result<()>)
      requires ch.Valid() && fd < |ch.hosts| && ch.pending[fd] != []
      requires var reply := ch.pending[fd][0]; reply == QUEUED || reply.Error? || reply.Array?
      modifies ch`pending, ch.net
      ensures ch.Valid() && r == QueuedOf(old(ch.pending)[fd][0]) && (r.Ok? <==> old(ch.pending)[fd][0] == QUEUED)
      ensures ch.pending == old(ch.pending)[fd := AfterHead(old(ch.pending)[fd])]
    {
      var resp :- ch.RecvStatusLine(fd);
      return if resp == "QUEUED" then Ok(()) else Err(RuntimeError);
    }

    /** The loop that expects `QUEUED`; `j` is where something else comes. */
    method RecvQueued(fd: nat, count: nat, ghost j: nat) returns (r: Result<()>)
      requires ch.Valid() && fd < |ch.hosts| && j <= count <= |ch.pending[fd]|
      requires forall i :: 0 <= i < j ==> ch.pending[fd][i] == QUEUED
      requires j < count ==> ch.pending[fd][j].Error? || ch.pending[fd][j].Array?
      modifies ch`pending, ch.net
      ensures ch.Valid() && (r.Ok? <==> j == count)
      ensures r.Ok? ==> ch.pending == old(ch.pending)[fd := old(ch.pending)[fd][count..]]
      ensures r.Err? ==> ch.pending == old(ch.pending)[fd := AfterHead(old(ch.pending)[fd][j..])]
      ensures r.Err? ==> r == QueuedOf(old(ch.pending)[fd][j])
    {
      ghost var replies := ch.pending[fd];
      for i := 0 to count
        invariant i <= j && ch.Valid() && ch.pending == old(ch.pending)[fd := replies[i..]]
      {
        NextHead(replies, i);
        var _ :- RecvOneQueued(fd);
      }
      r := Ok(());
    }

    /** The loop that reads one generic reply for every command. */
    method RecvEach(fd: nat, jobs: seq<Job>) returns (r: Result<seq<Job>>)
      requires ch.Valid() && fd < |ch.hosts| && |ch.pending[fd]| == |jobs| && AllHaveData(ch.pending[fd])
      modifies ch`pending, ch.net
      ensures ch.Valid() && ch.pending == old(ch.pending)[fd := []]
      ensures r == Ok(WithReplies(jobs, old(ch.pending)[fd]))
    {
      ghost var replies := ch.pending[fd];
      var done: seq<Job> := [];
      for i := 0 to |jobs|
        invariant ch.Valid() && ch.pending == old(ch.pending)[fd := replies[i..]]
        invariant Filled(jobs, replies, i, done)
      {
        FilledNext(jobs, replies, i, done);
        var data := ch.RecvGeneric(fd);
        done := done + [jobs[i].(reply := data.value)];
      }
      FilledEnd(jobs, replies, done);
      r := Ok(done);
    }

    method TransactionSend(fd: nat, cmds: seq<Command>)
      requires Synced() && fd < rt.n
      modifies ch, ch.net
      ensures ch.Valid() && |ch.hosts| == rt.n
      ensures var p := Serve(ch.env, old(ch.hosts)[fd], TransactionLines(cmds));
              ch.hosts == old(ch.hosts)[fd := p.state] && OnlyUnreads(ch.pending, fd, p.replies)
    {
      NothingFirst(Serve(ch.env, ch.hosts[fd], TransactionLines(cmds)).replies);
      var _ := ch.SendCommands(fd, TransactionLines(cmds));
    }

    /** The answers to `MULTI` and to the commands: `OK`, and `QUEUED` up to position `j`. */
    method RecvAcknowledged(fd: nat, count: nat, ghost j: nat, ghost replies: seq<Reply>) returns (r: Result<()>)
      requires ch.Valid() && fd < |ch.hosts| && OnlyUnreads(ch.pending, fd, replies)
      requires |replies| == count + 2 && replies[0] == OK && j <= count
      requires forall i :: 0 <= i < j ==> replies[1..][i] == QUEUED
      requires j < count ==> replies[1..][j].Error? || replies[1..][j].Array?
      modifies ch`pending, ch.net
      ensures ch.Valid() && (r.Ok? <==> j == count)
      ensures r.Ok? ==> OnlyUnreads(ch.pending, fd, replies[1..][count..])
      ensures r.Err? ==> OnlyUnreads(ch.pending, fd, AfterHead(replies[1..][j..])) && r == QueuedOf(replies[1..][j])
    {
      var _ := ch.RecvOk(fd);
      r := RecvQueued(fd, count, j);
    }

    /** What `exec_transaction` reads after it has sent its message. */
    method TransactionRead(fd: nat, jobs: seq<Job>, ghost host: Host) returns (r: Result<seq<Job>>)
      requires ch.Valid() && rt.Valid() && |ch.hosts| == rt.n && fd < rt.n && host.queue.None?
      requires OnlyUnreads(ch.pending, fd, Serve(ch.env, host, TransactionLines(LinesIn(jobs))).replies)
      modifies ch`pending, ch.net
      ensures ch.Valid() && (r.Ok? <==> AllQueueable(LinesIn(jobs)))
      ensures r.Err? ==> OnlyUnreads(ch.pending, fd, Abandoned(ch.env, host, LinesIn(jobs)))
      ensures r.Err? ==> Err(r.error) == Refusal(ch.env, host, LinesIn(jobs))
      ensures r.Ok? ==>
                var replies := ExecuteAll(ch.env, host.store, RequestsOf(LinesIn(jobs))).replies;
                && |replies| == |jobs| && AllHaveData(replies) && r.value == WithReplies(jobs, replies)
                && Quiet()
    {
      ghost var cmds := LinesIn(jobs);
      ghost var replies := Serve(ch.env, host, TransactionLines(cmds)).replies;
      Answers(ch.env, host, cmds);
      var queued := RecvAcknowledged(fd, |jobs|, FirstUnqueueable(cmds), replies);
      if queued.Err? {
        AbandonedThere(ch.env, host, cmds);
        return Err(queued.error);
      }
      CommittedReplies(ch.env, host, cmds);
      r := RecvCommit(fd, jobs, ExecuteAll(ch.env, host.store, RequestsOf(cmds)).replies);
    }

    /** The header of the array that answers `EXEC`, and one reply for every command. */
    method RecvCommit(fd: nat, jobs: seq<Job>, ghost replies: seq<Reply>) returns (r: Result<seq<Job>>)
      requires ch.Valid() && fd < |ch.hosts| && ch.pending[fd] == [Array(replies)]
      requires |replies| == |jobs| && AllHaveData(replies)
      modifies ch`pending, ch.net
      ensures ch.Valid() && ch.pending == old(ch.pending)[fd := []]
      ensures r == Ok(WithReplies(jobs, replies))
    {
      var line := ch.RecvHead(fd);
      assert ch.pending[fd] == replies;
      if line.value[0] != '*' {
        return Err(RuntimeError);
      }
      r := RecvEach(fd, jobs);
    }

    /**
     `exec_transaction`. Without commands it fails on the socket -1; if two commands belong to
     different servers it throws before anything is sent; otherwise it returns normally exactly when
     the server can queue every command, and then each command has its own reply and the server is
     where running the commands in order takes it. If it throws after sending, the server has still
     worked through the whole message and its answers from there on are unread.
     */
    method ExecTransaction(jobs: seq<Job>) returns (r: Result<seq<Job>>)
      requires Synced()
      modifies ch, ch.net
      ensures ch.Valid()
      ensures jobs == [] || !SameHome(rt, jobs) ==>
                && ch.hosts == old(ch.hosts) && ch.pending == old(ch.pending) && ch.net.links == old(ch.net.links)
                && r == Err(if jobs == [] then ConnectionError else RuntimeError)
      ensures jobs != [] && SameHome(rt, jobs) ==>
                var s, cmds := rt.Shard(jobs[0].key), LinesIn(jobs);
                var o := ExecuteAll(ch.env, old(ch.hosts)[s].store, RequestsOf(cmds));
                && (r.Ok? <==> AllQueueable(cmds))
                && ch.hosts == old(ch.hosts)[s := Serve(ch.env, old(ch.hosts)[s], TransactionLines(cmds)).state]
                && (r.Err? ==> OnlyUnreads(ch.pending, s, Abandoned(ch.env, old(ch.hosts)[s], cmds)) && !Synced())
                && (r.Err? ==> Err(r.error) == Refusal(ch.env, old(ch.hosts)[s], cmds))
                && (r.Ok? ==>
                      && Synced() && ch.hosts == old(ch.hosts)[s := Host(o.state, None)]
                      && |o.replies| == |jobs| && AllHaveData(o.replies) && r.value == WithReplies(jobs, o.replies))
    {
      var socket :- TransactionSocket(jobs);
      var cmds := LinesIn(jobs);
      if socket == -1 {
        var message := Ch.JoinRequests(TransactionLines(cmds));
        MessageNotEmpty(TransactionLines(cmds));
        var sent := ch.Send(socket, message, TransactionLines(cmds));
        return Err(sent.error);
      }
      ghost var host := ch.hosts[socket];
      TransactionSend(socket, cmds);
      CommitsIf(ch.env, host, cmds);
      r := TransactionRead(socket, jobs, host);
      if r.Err? {
        AbandonedThere(ch.env, host, cmds);
        UnreadOn(socket, Abandoned(ch.env, host, cmds));
      }
    }
  }
}
