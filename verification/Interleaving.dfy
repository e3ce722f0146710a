/**
 A client and its servers as a state machine. Sending, answering and reading are separate steps,
 and a trace may take them in any order that is possible at all.
 */
module Interleaving {
  import opened Resp
  import opened RespLaws
  import opened Server
  import opened ServerLaws
  import opened Shards
  import opened Pipeline

  /**
   One connection: the server, the commands sent and not yet answered, the replies given and not
   yet read, the replies the client has read, and the commands sent so far.
   */
  datatype Wire = Wire(host: Host, inbox: seq<Command>, outbox: seq<Reply>, got: seq<Reply>, sent: seq<Command>)

  datatype Event =
    | Send(s: nat, cmd: Command)
    | Answer(s: nat)
    | Read(s: nat)

  predicate Enabled(wires: seq<Wire>, e: Event) {
    && e.s < |wires|
    && (e.Answer? ==> wires[e.s].inbox != [])
    && (e.Read? ==> wires[e.s].outbox != [])
  }

  function Advance(env: Env, w: Wire, e: Event): Wire
    requires (e.Answer? ==> w.inbox != []) && (e.Read? ==> w.outbox != [])
  {
    match e
    case Send(_, cmd) => w.(inbox := w.inbox + [cmd], sent := w.sent + [cmd])
    case Answer(_) =>
      var a := Step(env, w.host, w.inbox[0]);
      w.(host := a.host, inbox := w.inbox[1..], outbox := w.outbox + [a.reply])
    case Read(_) => w.(outbox := w.outbox[1..], got := w.got + [w.outbox[0]])
  }

  /** The state after a trace; a step that is not possible does nothing. */
  function Run(env: Env, wires: seq<Wire>, trace: seq<Event>): (after: seq<Wire>)
    ensures |after| == |wires|
  {
    if trace == [] then wires
    else
      var before, e := Run(env, wires, trace[..|trace| - 1]), trace[|trace| - 1];
      if Enabled(before, e) then before[e.s := Advance(env, before[e.s], e)] else before
  }

  function Fresh(hosts: seq<Host>): (wires: seq<Wire>)
    ensures |wires| == |hosts|
  {
    seq(|hosts|, i requires 0 <= i < |hosts| => Wire(hosts[i], [], [], [], []))
  }

  /** What has been answered on a connection is exactly the beginning of what was sent. */
  ghost predicate InSync(env: Env, host: Host, w: Wire) {
    var done := |w.sent| - |w.inbox|;
    && 0 <= done && w.inbox == w.sent[done..]
    && Serve(env, host, w.sent[..done]) == Progress(w.host, w.got + w.outbox)
  }

  lemma SendInSync(env: Env, host: Host, w: Wire, e: Event)
    requires InSync(env, host, w) && e.Send?
    ensures InSync(env, host, Advance(env, w, e))
  {
    var done := |w.sent| - |w.inbox|;
    assert (w.sent + [e.cmd])[..done] == w.sent[..done];
  }

  lemma AnswerInSync(env: Env, host: Host, w: Wire, e: Event)
    requires InSync(env, host, w) && e.Answer? && w.inbox != []
    ensures InSync(env, host, Advance(env, w, e))
  {
    var done := |w.sent| - |w.inbox|;
    assert w.sent[..done + 1] == w.sent[..done] + [w.inbox[0]];
    ServeNext(env, host, w.sent[..done], w.inbox[0]);
    assert w.got + w.outbox + [Step(env, w.host, w.inbox[0]).reply]
        == w.got + (w.outbox + [Step(env, w.host, w.inbox[0]).reply]);
  }

  lemma ReadInSync(env: Env, host: Host, w: Wire, e: Event)
    requires InSync(env, host, w) && e.Read? && w.outbox != []
    ensures InSync(env, host, Advance(env, w, e))
  {
    assert w.got + [w.outbox[0]] + w.outbox[1..] == w.got + w.outbox;
  }

  lemma AdvanceInSync(env: Env, host: Host, w: Wire, e: Event)
    requires InSync(env, host, w) && (e.Answer? ==> w.inbox != []) && (e.Read? ==> w.outbox != [])
    ensures InSync(env, host, Advance(env, w, e))
  {
    match e
    case Send(_, _) => SendInSync(env, host, w, e);
    case Answer(_) => AnswerInSync(env, host, w, e);
    case Read(_) => ReadInSync(env, host, w, e);
  }

  /** Every step of every trace keeps every connection in sync. */
  lemma {:induction false} AlwaysInSync(env: Env, hosts: seq<Host>, trace: seq<Event>, s: nat)
    requires s < |hosts|
    ensures InSync(env, hosts[s], Run(env, Fresh(hosts), trace)[s])
  {
    if trace != [] {
      var front, e := trace[..|trace| - 1], trace[|trace| - 1];
      var before := Run(env, Fresh(hosts), front);
      AlwaysInSync(env, hosts, front, s);
      if Enabled(before, e) && e.s == s {
        AdvanceInSync(env, hosts[s], before[s], e);
      }
    }
  }

  /** In every reachable state the j-th reply read from a connection answers the j-th command sent. */
  lemma RepliesMatchCommands(env: Env, hosts: seq<Host>, trace: seq<Event>, s: nat)
    requires s < |hosts|
    ensures var w := Run(env, Fresh(hosts), trace)[s];
            w.got <= Serve(env, hosts[s], w.sent).replies
  {
    var w := Run(env, Fresh(hosts), trace)[s];
    var done := |w.sent| - |w.inbox|;
    AlwaysInSync(env, hosts, trace, s);
    ServeReplies(env, hosts[s], w.sent[..done]);
    ServePrefix(env, hosts[s], w.sent, done);
    var all := Serve(env, hosts[s], w.sent).replies;
    assert all[..done][..|w.got|] == all[..|w.got|];
    assert (w.got + w.outbox)[..|w.got|] == w.got;
  }

  /**
   A server that answers later only delays bytes: in every reachable state, the bytes it has given and
   nobody has read are a prefix of those that would be unread had it answered everything at once. So
   the state of the connection is that of a link with this longer stream, of which so much has arrived.
   */
  lemma DelayIsArrival(env: Env, hosts: seq<Host>, trace: seq<Event>, s: nat)
    requires s < |hosts|
    ensures var w := Run(env, Fresh(hosts), trace)[s];
            var all := Serve(env, hosts[s], w.sent).replies;
            && w.got <= all
            && EncodeReplies(w.outbox) <= EncodeReplies(all[|w.got|..])
            && (w.inbox == [] ==> w.outbox == all[|w.got|..] && w.host == Serve(env, hosts[s], w.sent).state)
  {
    var w := Run(env, Fresh(hosts), trace)[s];
    var all, done := Serve(env, hosts[s], w.sent).replies, |w.sent| - |w.inbox|;
    AlwaysInSync(env, hosts, trace, s);
    RepliesMatchCommands(env, hosts, trace, s);
    ServeReplies(env, hosts[s], w.sent[..done]);
    ServePrefix(env, hosts[s], w.sent, done);
    TailOfPrefix(all, w.got, w.outbox, done);
    EncodeRepliesAppend(w.outbox, all[done..]);
    if w.inbox == [] {
      assert w.sent[..done] == w.sent && all[done..] == [];
    }
  }

  lemma TailOfPrefix(all: seq<Reply>, got: seq<Reply>, outbox: seq<Reply>, done: nat)
    requires done <= |all| && all[..done] == got + outbox
    ensures |got| <= |all| && all[|got|..] == outbox + all[done..]
  {
    assert all == all[..done] + all[done..];
  }

  function SentTo(trace: seq<Event>, s: nat): seq<Command> {
    if trace == [] then []
    else
      var before, e := SentTo(trace[..|trace| - 1], s), trace[|trace| - 1];
      if e.Send? && e.s == s then before + [e.cmd] else before
  }

  lemma {:induction false} SentIsSent(env: Env, wires: seq<Wire>, trace: seq<Event>, s: nat)
    requires s < |wires| && wires[s].sent == []
    ensures Run(env, wires, trace)[s].sent == SentTo(trace, s)
  {
    if trace != [] {
      SentIsSent(env, wires, trace[..|trace| - 1], s);
    }
  }

  predicate AllRead(wires: seq<Wire>) {
    forall s :: 0 <= s < |wires| ==> wires[s].inbox == [] && wires[s].outbox == []
  }

  /**
   Pipelining refines sequential execution: take any trace that sends to each connection that
   connection's commands in list order and in the end has read everything. Whatever the order of
   its steps, every server ends as after running the list one command at a time, and the client has
   for each command, at its place on its connection, the reply of that sequential run.
   */
  lemma AnyInterleaving(env: Env, rt: Router, hosts: seq<Host>, jobs: seq<Job>, trace: seq<Event>)
    requires rt.Valid() && |hosts| == rt.n
    requires forall s :: 0 <= s < rt.n ==> SentTo(trace, s) == LinesFor(rt, jobs, s)
    requires AllRead(Run(env, Fresh(hosts), trace))
    ensures forall s :: 0 <= s < rt.n ==>
              Run(env, Fresh(hosts), trace)[s].host == RunJobs(env, rt, hosts, jobs).state[s]
    ensures forall i :: 0 <= i < |jobs| ==>
              var got := Run(env, Fresh(hosts), trace)[rt.Shard(jobs[i].key)].got;
              var k := |LinesFor(rt, jobs[..i], rt.Shard(jobs[i].key))|;
              k < |got| && got[k] == RunJobs(env, rt, hosts, jobs).replies[i]
  {
    var after := Run(env, Fresh(hosts), trace);
    forall s | 0 <= s < rt.n
      ensures after[s].host == RunJobs(env, rt, hosts, jobs).state[s]
      ensures after[s].got == Serve(env, hosts[s], LinesFor(rt, jobs, s)).replies
    {
      AlwaysInSync(env, hosts, trace, s);
      SentIsSent(env, Fresh(hosts), trace, s);
      RunByShard(env, rt, hosts, jobs, s);
      var w := after[s];
      assert w.sent[..|w.sent|] == w.sent && w.got + [] == w.got;
    }
    forall i | 0 <= i < |jobs|
      ensures var got := after[rt.Shard(jobs[i].key)].got;
              var k := |LinesFor(rt, jobs[..i], rt.Shard(jobs[i].key))|;
              k < |got| && got[k] == RunJobs(env, rt, hosts, jobs).replies[i]
    {
      ReplyByShard(env, rt, hosts, jobs, i);
    }
  }

  // ------------------------------------------------------------------------------- the client's own trace

  /** The servers have answered everything, and what is unread is `pending`. */
  ghost predicate Mirrors(wires: seq<Wire>, hosts: seq<Host>, pending: seq<seq<Reply>>) {
    && |wires| == |hosts| == |pending|
    && forall s :: 0 <= s < |wires| ==>
         wires[s].host == hosts[s] && wires[s].inbox == [] && wires[s].outbox == pending[s]
  }

  /**
   `trace` takes the servers from `before` to `after` and leaves `pending` unread, and it sends to
   each connection before `n` that connection's commands of the list.
   */
  ghost predicate TraceUpTo(env: Env, rt: Router, before: seq<Host>, jobs: seq<Job>, n: nat, trace: seq<Event>,
                            after: seq<Host>, pending: seq<seq<Reply>>)
    requires rt.Valid()
  {
    && |before| == rt.n && Mirrors(Run(env, Fresh(before), trace), after, pending)
    && forall s :: 0 <= s < rt.n ==> SentTo(trace, s) == if s < n then LinesFor(rt, jobs, s) else []
  }

  ghost predicate TraceOf(env: Env, rt: Router, before: seq<Host>, jobs: seq<Job>, trace: seq<Event>,
                          after: seq<Host>, pending: seq<seq<Reply>>)
    requires rt.Valid()
  {
    TraceUpTo(env, rt, before, jobs, rt.n, trace, after, pending)
  }

  lemma EventNext(env: Env, wires: seq<Wire>, trace: seq<Event>, e: Event)
    ensures var before := Run(env, wires, trace);
            Run(env, wires, trace + [e])
            == if Enabled(before, e) then before[e.s := Advance(env, before[e.s], e)] else before
  {
    assert (trace + [e])[..|trace|] == trace;
  }

  lemma SentToNext(trace: seq<Event>, e: Event, s: nat)
    ensures SentTo(trace + [e], s) == if e.Send? && e.s == s then SentTo(trace, s) + [e.cmd] else SentTo(trace, s)
  {
    assert (trace + [e])[..|trace|] == trace;
  }

  /** One message arrives, is answered command by command, and nothing else happens. */
  function Delivery(s: nat, cmds: seq<Command>): seq<Event> {
    if cmds == [] then [] else Delivery(s, cmds[..|cmds| - 1]) + [Send(s, cmds[|cmds| - 1]), Answer(s)]
  }

  lemma TwoMore<T>(xs: seq<T>, ys: seq<T>, a: T, b: T)
    ensures xs + (ys + [a, b]) == xs + ys + [a] + [b]
  {}

  lemma DeliveryUnfolds(trace: seq<Event>, s: nat, cmds: seq<Command>)
    requires cmds != []
    ensures trace + Delivery(s, cmds)
         == trace + Delivery(s, cmds[..|cmds| - 1]) + [Send(s, cmds[|cmds| - 1])] + [Answer(s)]
  {
    TwoMore(trace, Delivery(s, cmds[..|cmds| - 1]), Send(s, cmds[|cmds| - 1]), Answer(s));
  }

  lemma {:induction false} DeliverySends(trace: seq<Event>, s: nat, cmds: seq<Command>, i: nat)
    ensures SentTo(trace + Delivery(s, cmds), i) == SentTo(trace, i) + if i == s then cmds else []
    decreases |cmds|
  {
    if cmds == [] {
      assert trace + Delivery(s, cmds) == trace;
    } else {
      var front, last := cmds[..|cmds| - 1], cmds[|cmds| - 1];
      DeliverySends(trace, s, front, i);
      DeliveryUnfolds(trace, s, cmds);
      SentToNext(trace + Delivery(s, front), Send(s, last), i);
      SentToNext(trace + Delivery(s, front) + [Send(s, last)], Answer(s), i);
    }
  }

  /** One command sent and answered at once. */
  lemma OneMirrors(env: Env, wires: seq<Wire>, trace: seq<Event>, s: nat, cmd: Command,
                   hosts: seq<Host>, pending: seq<seq<Reply>>)
    requires Mirrors(Run(env, wires, trace), hosts, pending) && s < |hosts|
    ensures var a := Step(env, hosts[s], cmd);
            Mirrors(Run(env, wires, trace + [Send(s, cmd)] + [Answer(s)]),
                    hosts[s := a.host], pending[s := pending[s] + [a.reply]])
  {
    EventNext(env, wires, trace, Send(s, cmd));
    EventNext(env, wires, trace + [Send(s, cmd)], Answer(s));
    assert ([] + [cmd])[1..] == [];
  }

  lemma {:induction false} DeliveryMirrors(env: Env, wires: seq<Wire>, trace: seq<Event>, s: nat, cmds: seq<Command>,
                                           hosts: seq<Host>, pending: seq<seq<Reply>>)
    requires Mirrors(Run(env, wires, trace), hosts, pending) && s < |hosts|
    ensures var p := Serve(env, hosts[s], cmds);
            Mirrors(Run(env, wires, trace + Delivery(s, cmds)),
                    hosts[s := p.state], pending[s := pending[s] + p.replies])
    decreases |cmds|
  {
    if cmds == [] {
      assert trace + Delivery(s, cmds) == trace;
    } else {
      var front, last := cmds[..|cmds| - 1], cmds[|cmds| - 1];
      var p := Serve(env, hosts[s], front);
      DeliveryMirrors(env, wires, trace, s, front, hosts, pending);
      DeliveryUnfolds(trace, s, cmds);
      OneMirrors(env, wires, trace + Delivery(s, front), s, last,
                 hosts[s := p.state], pending[s := pending[s] + p.replies]);
      var a := Step(env, p.state, last);
      assert pending[s] + p.replies + [a.reply] == pending[s] + (p.replies + [a.reply]);
    }
  }

  lemma ReadMirrors(env: Env, wires: seq<Wire>, trace: seq<Event>, s: nat, hosts: seq<Host>, pending: seq<seq<Reply>>)
    requires Mirrors(Run(env, wires, trace), hosts, pending) && s < |hosts| && pending[s] != []
    ensures Mirrors(Run(env, wires, trace + [Read(s)]), hosts, pending[s := pending[s][1..]])
  {
    EventNext(env, wires, trace, Read(s));
  }

  lemma TraceStarts(env: Env, rt: Router, hosts: seq<Host>, jobs: seq<Job>, pending: seq<seq<Reply>>)
    requires rt.Valid() && |hosts| == |pending| == rt.n && forall s :: 0 <= s < rt.n ==> pending[s] == []
    ensures TraceUpTo(env, rt, hosts, jobs, 0, [], hosts, pending)
  {}

  /** The message to connection `s`, sent and answered. */
  lemma TraceDelivers(env: Env, rt: Router, before: seq<Host>, jobs: seq<Job>, s: nat, trace: seq<Event>,
                      hosts: seq<Host>, pending: seq<seq<Reply>>)
    requires rt.Valid() && s < rt.n && TraceUpTo(env, rt, before, jobs, s, trace, hosts, pending)
    ensures var cmds := LinesFor(rt, jobs, s);
            var p := Serve(env, hosts[s], cmds);
            TraceUpTo(env, rt, before, jobs, s + 1, trace + Delivery(s, cmds),
                      hosts[s := p.state], pending[s := pending[s] + p.replies])
    ensures LinesFor(rt, jobs, s) == [] ==> TraceUpTo(env, rt, before, jobs, s + 1, trace, hosts, pending)
  {
    var cmds := LinesFor(rt, jobs, s);
    DeliveryMirrors(env, Fresh(before), trace, s, cmds, hosts, pending);
    forall i | 0 <= i < rt.n
      ensures SentTo(trace + Delivery(s, cmds), i) == if i < s + 1 then LinesFor(rt, jobs, i) else []
    {
      DeliverySends(trace, s, cmds, i);
    }
  }

  /** The first unread reply of connection `s`, read. */
  lemma TraceReads(env: Env, rt: Router, before: seq<Host>, jobs: seq<Job>, s: nat, trace: seq<Event>,
                   hosts: seq<Host>, pending: seq<seq<Reply>>)
    requires rt.Valid() && TraceOf(env, rt, before, jobs, trace, hosts, pending)
    requires s < |pending| && pending[s] != []
    ensures TraceOf(env, rt, before, jobs, trace + [Read(s)], hosts, pending[s := pending[s][1..]])
  {
    ReadMirrors(env, Fresh(before), trace, s, hosts, pending);
    forall i | 0 <= i < rt.n ensures SentTo(trace + [Read(s)], i) == SentTo(trace, i) {
      SentToNext(trace, Read(s), i);
    }
  }
}
