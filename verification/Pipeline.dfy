/**
 Pipelining: many commands are sent over several connections before any reply is read. The
 sequential meaning of a list of commands, its form shard by shard, and the client's loops.
 */
module Pipeline {
  import opened Prelude
  import opened Resp
  import opened RespLaws
  import opened Server
  import opened ServerLaws
  import opened Shards

  /** `command`: a request, the key that routes it, and the reply it has received. */
  datatype Job = Job(lines: Command, key: string, reply: ReplyData)

  function JobRoute(rt: Router): Job -> nat
    requires rt.Valid()
  {
    (j: Job) => rt.Shard(j.key)
  }

  function LinesIn(jobs: seq<Job>): (cmds: seq<Command>)
    ensures |cmds| == |jobs|
  {
    seq(|jobs|, i requires 0 <= i < |jobs| => jobs[i].lines)
  }

  /** The commands of a list that go to shard `s`, in their order. */
  function LinesFor(rt: Router, jobs: seq<Job>, s: nat): seq<Command>
    requires rt.Valid()
  {
    LinesIn(Routed(JobRoute(rt), jobs, s))
  }

  /** Running the commands one at a time, in list order: `exec(command)` on each. */
  function RunJobs(env: Env, rt: Router, hosts: seq<Host>, jobs: seq<Job>): (p: Progress<seq<Host>>)
    requires rt.Valid() && |hosts| == rt.n
    ensures |p.state| == rt.n && |p.replies| == |jobs|
  {
    if jobs == [] then Progress(hosts, [])
    else
      var last := jobs[|jobs| - 1];
      var before := RunJobs(env, rt, hosts, jobs[..|jobs| - 1]);
      var s := rt.Shard(last.key);
      var a := Step(env, before.state[s], last.lines);
      Progress(before.state[s := a.host], before.replies + [a.reply])
  }

  // ------------------------------------------------------------------------------- shard by shard

  lemma LinesForNext(rt: Router, jobs: seq<Job>, s: nat)
    requires rt.Valid() && jobs != []
    ensures LinesFor(rt, jobs, s)
         == LinesFor(rt, jobs[..|jobs| - 1], s)
            + (if rt.Shard(jobs[|jobs| - 1].key) == s then [jobs[|jobs| - 1].lines] else [])
  {}

  lemma ServeNext(env: Env, host: Host, cmds: seq<Command>, c: Command)
    ensures var p := Serve(env, host, cmds);
            var a := Step(env, p.state, c);
            Serve(env, host, cmds + [c]) == Progress(a.host, p.replies + [a.reply])
  {
    assert (cmds + [c])[..|cmds|] == cmds;
  }

  lemma {:induction false} ServePrefix(env: Env, host: Host, cmds: seq<Command>, k: nat)
    requires k <= |cmds|
    ensures |Serve(env, host, cmds).replies| == |cmds|
    ensures Serve(env, host, cmds).replies[..k] == Serve(env, host, cmds[..k]).replies
  {
    ServeReplies(env, host, cmds);
    if k < |cmds| {
      var front := cmds[..|cmds| - 1];
      ServePrefix(env, host, front, k);
      assert front[..k] == cmds[..k];
    } else {
      assert cmds[..k] == cmds;
    }
  }

  /** Each server ends as if it had been given its own commands alone. */
  lemma {:induction false} RunByShard(env: Env, rt: Router, hosts: seq<Host>, jobs: seq<Job>, s: nat)
    requires rt.Valid() && |hosts| == rt.n && s < rt.n
    ensures RunJobs(env, rt, hosts, jobs).state[s] == Serve(env, hosts[s], LinesFor(rt, jobs, s)).state
  {
    if jobs != [] {
      var front, last := jobs[..|jobs| - 1], jobs[|jobs| - 1];
      RunByShard(env, rt, hosts, front, s);
      LinesForNext(rt, jobs, s);
      if rt.Shard(last.key) == s {
        ServeNext(env, hosts[s], LinesFor(rt, front, s), last.lines);
      } else {
        assert LinesFor(rt, jobs, s) == LinesFor(rt, front, s);
      }
    }
  }

  lemma {:induction false} LinesForPrefix(rt: Router, jobs: seq<Job>, i: nat, s: nat)
    requires rt.Valid() && i <= |jobs|
    ensures |LinesFor(rt, jobs[..i], s)| <= |LinesFor(rt, jobs, s)|
    ensures LinesFor(rt, jobs, s)[..|LinesFor(rt, jobs[..i], s)|] == LinesFor(rt, jobs[..i], s)
  {
    if i < |jobs| {
      var front := jobs[..|jobs| - 1];
      LinesForPrefix(rt, front, i, s);
      assert front[..i] == jobs[..i];
      LinesForNext(rt, jobs, s);
    } else {
      assert jobs[..i] == jobs;
    }
  }

  lemma {:induction false} RunPrefix(env: Env, rt: Router, hosts: seq<Host>, jobs: seq<Job>, i: nat)
    requires rt.Valid() && |hosts| == rt.n && i <= |jobs|
    ensures RunJobs(env, rt, hosts, jobs).replies[..i] == RunJobs(env, rt, hosts, jobs[..i]).replies
  {
    if i < |jobs| {
      var front := jobs[..|jobs| - 1];
      RunPrefix(env, rt, hosts, front, i);
      assert front[..i] == jobs[..i];
    } else {
      assert jobs[..i] == jobs;
    }
  }

  /**
   The i-th reply of the sequential run is the reply its server gives at the position the command
   has among that server's own commands.
   */
  lemma ReplyByShard(env: Env, rt: Router, hosts: seq<Host>, jobs: seq<Job>, i: nat)
    requires rt.Valid() && |hosts| == rt.n && i < |jobs|
    ensures var s := rt.Shard(jobs[i].key);
            var k := |LinesFor(rt, jobs[..i], s)|;
            && k < |LinesFor(rt, jobs, s)| == |Serve(env, hosts[s], LinesFor(rt, jobs, s)).replies|
            && RunJobs(env, rt, hosts, jobs).replies[i] == Serve(env, hosts[s], LinesFor(rt, jobs, s)).replies[k]
  {
    var s := rt.Shard(jobs[i].key);
    var mine, upTo, next := LinesFor(rt, jobs, s), LinesFor(rt, jobs[..i], s), LinesFor(rt, jobs[..i + 1], s);
    assert jobs[..i + 1][..i] == jobs[..i];
    LinesForNext(rt, jobs[..i + 1], s);
    LinesForPrefix(rt, jobs, i + 1, s);
    ServePrefix(env, hosts[s], mine, |next|);
    ServeReplies(env, hosts[s], upTo);
    ServeNext(env, hosts[s], upTo, jobs[i].lines);
    RunPrefix(env, rt, hosts, jobs, i + 1);
    RunByShard(env, rt, hosts, jobs[..i], s);
    var all := Serve(env, hosts[s], mine).replies;
    assert all[|upTo|] == all[..|next|][|upTo|];
    var run := RunJobs(env, rt, hosts, jobs).replies;
    assert run[i] == run[..i + 1][i];
  }

  // ------------------------------------------------------------------------------- one store

  /** A command that only concerns keys of the shard it is sent to, and is no part of a transaction. */
  ghost predicate Homely(rt: Router, j: Job)
    requires rt.Valid()
  {
    var req := RequestOf(j.lines);
    !req.MULTI? && !req.EXEC? && OnShard(rt, rt.Shard(j.key), req)
  }

  function RequestsOf(cmds: seq<Command>): (reqs: seq<Request>)
    ensures |reqs| == |cmds|
  {
    seq(|cmds|, i requires 0 <= i < |cmds| => RequestOf(cmds[i]))
  }

  lemma StepLogical(env: Env, rt: Router, hosts: seq<Host>, j: Job)
    requires rt.Valid() && |hosts| == rt.n && Placed(rt, Stores(hosts)) && Homely(rt, j)
    requires forall i :: 0 <= i < rt.n ==> hosts[i].queue.None?
    ensures var s := rt.Shard(j.key);
            var a := Step(env, hosts[s], j.lines);
            var o := Execute(env, Logical(rt, Stores(hosts)), RequestOf(j.lines));
            && a.reply == o.reply && a.host.queue.None?
            && Placed(rt, Stores(hosts[s := a.host]))
            && Logical(rt, Stores(hosts[s := a.host])) == o.store
  {
    var s, req, stores := rt.Shard(j.key), RequestOf(j.lines), Stores(hosts);
    var a := Step(env, hosts[s], j.lines);
    var work := map[s := [req]];
    ExecuteOne(env, stores[s], req);
    ExecuteOne(env, Logical(rt, stores), req);
    assert Stores(hosts[s := a.host]) == Scatter(env, stores, work);
    ScatterLifts(rt, env, stores, work);
    ScatterStaysPlaced(rt, env, stores, work);
    OneShard(rt, env, Logical(rt, stores), s, [req], Logical(rt, Stores(hosts[s := a.host])));
  }

  lemma ExecuteJobsNext(env: Env, st: Store, jobs: seq<Job>)
    requires jobs != []
    ensures var before := ExecuteAll(env, st, RequestsOf(LinesIn(jobs[..|jobs| - 1])));
            var last := Execute(env, before.state, RequestOf(jobs[|jobs| - 1].lines));
            ExecuteAll(env, st, RequestsOf(LinesIn(jobs))) == Progress(last.store, before.replies + [last.reply])
  {
    assert RequestsOf(LinesIn(jobs))[..|jobs| - 1] == RequestsOf(LinesIn(jobs[..|jobs| - 1]));
  }

  /** On commands that stay at home, a pipeline over any number of servers is one server's run. */
  lemma {:induction false} RunIsLogical(env: Env, rt: Router, hosts: seq<Host>, jobs: seq<Job>)
    requires rt.Valid() && |hosts| == rt.n && Placed(rt, Stores(hosts))
    requires forall i :: 0 <= i < rt.n ==> hosts[i].queue.None?
    requires forall i :: 0 <= i < |jobs| ==> Homely(rt, jobs[i])
    ensures var p := RunJobs(env, rt, hosts, jobs);
            var o := ExecuteAll(env, Logical(rt, Stores(hosts)), RequestsOf(LinesIn(jobs)));
            && p.replies == o.replies
            && Placed(rt, Stores(p.state)) && Logical(rt, Stores(p.state)) == o.state
            && forall i :: 0 <= i < rt.n ==> p.state[i].queue.None?
  {
    if jobs != [] {
      var front := jobs[..|jobs| - 1];
      RunIsLogical(env, rt, hosts, front);
      ExecuteJobsNext(env, Logical(rt, Stores(hosts)), jobs);
      StepLogical(env, rt, RunJobs(env, rt, hosts, front).state, jobs[|jobs| - 1]);
    }
  }

  /** Work done on one server alone, seen on the logical store. */
  lemma AloneIsLogical(env: Env, rt: Router, hosts: seq<Host>, s: nat, reqs: seq<Request>)
    requires rt.Valid() && |hosts| == rt.n && Placed(rt, Stores(hosts)) && s < rt.n && AllOnShard(rt, s, reqs)
    ensures var mine := ExecuteAll(env, hosts[s].store, reqs);
            var o := ExecuteAll(env, Logical(rt, Stores(hosts)), reqs);
            var after := Stores(hosts[s := Host(mine.state, None)]);
            && mine.replies == o.replies && Placed(rt, after) && Logical(rt, after) == o.state
  {
    var stores, work := Stores(hosts), map[s := reqs];
    var after := Stores(hosts[s := Host(ExecuteAll(env, hosts[s].store, reqs).state, None)]);
    assert after == Scatter(env, stores, work);
    ScatterLifts(rt, env, stores, work);
    ScatterStaysPlaced(rt, env, stores, work);
    OneShard(rt, env, Logical(rt, stores), s, reqs, Logical(rt, after));
  }

  predicate HostProper(host: Host) {
    host.queue.None? && Proper(host.store)
  }

  lemma {:induction false} RunJobsProper(env: Env, rt: Router, hosts: seq<Host>, jobs: seq<Job>)
    requires rt.Valid() && |hosts| == rt.n
    requires forall i :: 0 <= i < rt.n ==> HostProper(hosts[i])
    requires forall i :: 0 <= i < |jobs| ==> Homely(rt, jobs[i])
    ensures forall i :: 0 <= i < rt.n ==> HostProper(RunJobs(env, rt, hosts, jobs).state[i])
  {
    if jobs != [] {
      var front, last := jobs[..|jobs| - 1], jobs[|jobs| - 1];
      RunJobsProper(env, rt, hosts, front);
      var before := RunJobs(env, rt, hosts, front).state;
      var s := rt.Shard(last.key);
      assert HostProper(before[s]);
      ExecuteProper(env, before[s].store, RequestOf(last.lines));
    }
  }

  // ------------------------------------------------------------------------------- the client's loops

  predicate AllHaveData(replies: seq<Reply>) {
    forall i :: 0 <= i < |replies| ==> DataOf(replies[i]).Ok?
  }

  /** The i-th reply is the first on which `recv_generic_reply_` throws. */
  predicate ThrowsFirstAt(replies: seq<Reply>, i: nat) {
    i < |replies| && AllHaveData(replies[..i]) && DataOf(replies[i]).Err?
  }

  /** No server has an open transaction. */
  predicate NoneOpen(hosts: seq<Host>) {
    forall s :: 0 <= s < |hosts| ==> hosts[s].queue.None?
  }

  predicate NoMulti(jobs: seq<Job>) {
    forall i :: 0 <= i < |jobs| ==> !RequestOf(jobs[i].lines).MULTI?
  }

  /** Outside transactions, a list of commands has replies that the client can store, whatever the commands are. */
  lemma {:induction false} RunHasData(env: Env, rt: Router, hosts: seq<Host>, jobs: seq<Job>)
    requires rt.Valid() && |hosts| == rt.n && NoneOpen(hosts) && NoMulti(jobs)
    ensures AllHaveData(RunJobs(env, rt, hosts, jobs).replies) && NoneOpen(RunJobs(env, rt, hosts, jobs).state)
  {
    if jobs != [] {
      var front, last := jobs[..|jobs| - 1], jobs[|jobs| - 1];
      RunHasData(env, rt, hosts, front);
      StepHasData(env, RunJobs(env, rt, hosts, front).state[rt.Shard(last.key)], last.lines);
    }
  }

  /** `commands[i].set_reply(...)` for every i. */
  function WithReplies(jobs: seq<Job>, replies: seq<Reply>): seq<Job>
    requires |jobs| == |replies|
    requires AllHaveData(replies)
  {
    seq(|jobs|, i requires 0 <= i < |jobs| => jobs[i].(reply := DataOf(replies[i]).value))
  }

  /** The replies of the first `i` commands have been stored. */
  ghost predicate Filled(jobs: seq<Job>, replies: seq<Reply>, i: nat, done: seq<Job>) {
    && i <= |jobs| == |replies|
    && AllHaveData(replies[..i])
    && done == WithReplies(jobs[..i], replies[..i])
  }

  lemma FilledNext(jobs: seq<Job>, replies: seq<Reply>, i: nat, done: seq<Job>)
    requires Filled(jobs, replies, i, done) && i < |jobs|
    ensures DataOf(replies[i]).Ok? ==>
              Filled(jobs, replies, i + 1, done + [jobs[i].(reply := DataOf(replies[i]).value)])
    ensures DataOf(replies[i]).Err? ==> !AllHaveData(replies)
  {
    if DataOf(replies[i]).Ok? {
      assert replies[..i + 1] == replies[..i] + [replies[i]];
      assert jobs[..i + 1] == jobs[..i] + [jobs[i]];
    }
  }

  lemma FilledEnd(jobs: seq<Job>, replies: seq<Reply>, done: seq<Job>)
    requires Filled(jobs, replies, |jobs|, done)
    ensures AllHaveData(replies) && done == WithReplies(jobs, replies)
  {
    assert replies[..|jobs|] == replies && jobs[..|jobs|] == jobs;
  }

  lemma ServeOne(env: Env, host: Host, c: Command)
    ensures Serve(env, host, [c]) == Progress(Step(env, host, c).host, [Step(env, host, c).reply])
  {
    assert [c][..0] == [];
  }

  lemma RunNext(env: Env, rt: Router, hosts: seq<Host>, jobs: seq<Job>, i: nat)
    requires rt.Valid() && |hosts| == rt.n && i < |jobs|
    ensures var p := RunJobs(env, rt, hosts, jobs[..i]);
            var s := rt.Shard(jobs[i].key);
            var a := Step(env, p.state[s], jobs[i].lines);
            && RunJobs(env, rt, hosts, jobs[..i + 1]) == Progress(p.state[s := a.host], p.replies + [a.reply])
            && RunJobs(env, rt, hosts, jobs).replies[i] == a.reply
  {
    assert jobs[..i + 1][..i] == jobs[..i];
    RunPrefix(env, rt, hosts, jobs, i + 1);
    var run := RunJobs(env, rt, hosts, jobs).replies;
    assert run[i] == run[..i + 1][i];
  }

  /** The shards before `s` have been sent and have answered their commands; the others nothing. */
  ghost predicate SentByShard(env: Env, rt: Router, before: seq<Host>, jobs: seq<Job>, s: nat,
                              hosts: seq<Host>, pending: seq<seq<Reply>>)
    requires rt.Valid() && |before| == rt.n
  {
    && |hosts| == |pending| == rt.n
    && (forall i :: 0 <= i < rt.n && i < s ==>
          hosts[i] == Serve(env, before[i], LinesFor(rt, jobs, i)).state
          && pending[i] == Serve(env, before[i], LinesFor(rt, jobs, i)).replies)
    && (forall i :: s <= i < rt.n ==> hosts[i] == before[i] && pending[i] == [])
  }

  lemma NothingSent(env: Env, rt: Router, before: seq<Host>, jobs: seq<Job>, pending: seq<seq<Reply>>)
    requires rt.Valid() && |before| == |pending| == rt.n && forall i :: 0 <= i < rt.n ==> pending[i] == []
    ensures SentByShard(env, rt, before, jobs, 0, before, pending)
  {}

  lemma SentNext(env: Env, rt: Router, before: seq<Host>, jobs: seq<Job>, s: nat,
                 hosts: seq<Host>, pending: seq<seq<Reply>>)
    requires rt.Valid() && |before| == rt.n && s < rt.n && SentByShard(env, rt, before, jobs, s, hosts, pending)
    ensures var p := Serve(env, hosts[s], LinesFor(rt, jobs, s));
            SentByShard(env, rt, before, jobs, s + 1, hosts[s := p.state], pending[s := pending[s] + p.replies])
    ensures Routed(JobRoute(rt), jobs, s) == [] ==> SentByShard(env, rt, before, jobs, s + 1, hosts, pending)
  {
    var p := Serve(env, hosts[s], LinesFor(rt, jobs, s));
    assert [] + p.replies == p.replies;
    if Routed(JobRoute(rt), jobs, s) == [] {
      assert LinesFor(rt, jobs, s) == [];
      assert p == Progress(hosts[s], []);
    }
  }

  /** After the first `i` commands' replies have been read, each connection has the others' left. */
  ghost predicate LeftByShard(env: Env, rt: Router, before: seq<Host>, jobs: seq<Job>, i: nat, pending: seq<seq<Reply>>)
    requires rt.Valid() && |before| == rt.n && i <= |jobs|
  {
    && |pending| == rt.n
    && forall s :: 0 <= s < rt.n ==>
         && |LinesFor(rt, jobs[..i], s)| <= |Serve(env, before[s], LinesFor(rt, jobs, s)).replies|
         && pending[s] == Serve(env, before[s], LinesFor(rt, jobs, s)).replies[|LinesFor(rt, jobs[..i], s)|..]
  }

  lemma AllSent(env: Env, rt: Router, before: seq<Host>, jobs: seq<Job>, hosts: seq<Host>, pending: seq<seq<Reply>>)
    requires rt.Valid() && |before| == rt.n && SentByShard(env, rt, before, jobs, rt.n, hosts, pending)
    ensures hosts == RunJobs(env, rt, before, jobs).state
    ensures LeftByShard(env, rt, before, jobs, 0, pending)
  {
    forall s | 0 <= s < rt.n
      ensures hosts[s] == RunJobs(env, rt, before, jobs).state[s]
      ensures LinesFor(rt, jobs[..0], s) == []
    {
      RunByShard(env, rt, before, jobs, s);
    }
  }

  lemma LeftNext(env: Env, rt: Router, before: seq<Host>, jobs: seq<Job>, i: nat, pending: seq<seq<Reply>>)
    requires rt.Valid() && |before| == rt.n && i < |jobs| && LeftByShard(env, rt, before, jobs, i, pending)
    ensures var s := rt.Shard(jobs[i].key);
            && pending[s] != [] && pending[s][0] == RunJobs(env, rt, before, jobs).replies[i]
            && LeftByShard(env, rt, before, jobs, i + 1, pending[s := pending[s][1..]])
  {
    var home := rt.Shard(jobs[i].key);
    ReplyByShard(env, rt, before, jobs, i);
    assert jobs[..i + 1][..i] == jobs[..i];
    forall s | 0 <= s < rt.n
      ensures |LinesFor(rt, jobs[..i + 1], s)| == |LinesFor(rt, jobs[..i], s)| + if s == home then 1 else 0
    {
      LinesForNext(rt, jobs[..i + 1], s);
    }
  }

  /**
   The pipeline has thrown on the reply to command `i`: the replies before it have been read, and of
   this one there is left what `recv_generic_reply_` leaves.
   */
  ghost predicate LeftByThrow(env: Env, rt: Router, before: seq<Host>, jobs: seq<Job>, i: nat, pending: seq<seq<Reply>>)
    requires rt.Valid() && |before| == rt.n && i < |jobs|
  {
    var s, reply := rt.Shard(jobs[i].key), RunJobs(env, rt, before, jobs).replies[i];
    exists next :: LeftByShard(env, rt, before, jobs, i + 1, next) && pending == next[s := LeftBehind(reply) + next[s]]
  }

  lemma LeftThrown(env: Env, rt: Router, before: seq<Host>, jobs: seq<Job>, i: nat, was: seq<seq<Reply>>)
    requires rt.Valid() && |before| == rt.n && i < |jobs| && LeftByShard(env, rt, before, jobs, i, was)
    ensures var s := rt.Shard(jobs[i].key);
            && was[s] != []
            && LeftByThrow(env, rt, before, jobs, i, was[s := LeftBehind(was[s][0]) + was[s][1..]])
  {
    var s := rt.Shard(jobs[i].key);
    LeftNext(env, rt, before, jobs, i, was);
    var next := was[s := was[s][1..]];
    assert was[s := LeftBehind(was[s][0]) + was[s][1..]] == next[s := LeftBehind(was[s][0]) + next[s]];
  }

  lemma NothingLeft(env: Env, rt: Router, before: seq<Host>, jobs: seq<Job>, pending: seq<seq<Reply>>)
    requires rt.Valid() && |before| == rt.n && LeftByShard(env, rt, before, jobs, |jobs|, pending)
    ensures forall s :: 0 <= s < rt.n ==> pending[s] == []
  {
    assert jobs[..|jobs|] == jobs;
    forall s | 0 <= s < rt.n ensures pending[s] == [] {
      ServeReplies(env, before[s], LinesFor(rt, jobs, s));
    }
  }
}
