/** What a server answers to `MULTI`, some commands and `EXEC` sent as one message. */
module Transaction {
  import opened Prelude
  import opened Resp
  import opened RespLaws
  import opened Server
  import opened ServerLaws
  import opened Shards
  import opened Pipeline

  const MULTI_LINES: Command := ["MULTI"]
  const EXEC_LINES: Command := ["EXEC"]

  function TransactionLines(cmds: seq<Command>): seq<Command> {
    [MULTI_LINES] + cmds + [EXEC_LINES]
  }

  predicate AllQueueable(cmds: seq<Command>) {
    forall i :: 0 <= i < |cmds| ==> Queueable(RequestOf(cmds[i]))
  }

  function Queueds(n: nat): seq<Reply> {
    seq(n, i => QUEUED)
  }

  lemma ControlLines()
    ensures RequestOf(MULTI_LINES) == MULTI && RequestOf(EXEC_LINES) == EXEC
  {
    Understood(MULTI);
    Understood(EXEC);
  }

  /** No command is itself part of the transaction protocol. */
  predicate NoControl(cmds: seq<Command>) {
    forall i :: 0 <= i < |cmds| ==> !RequestOf(cmds[i]).MULTI? && !RequestOf(cmds[i]).EXEC?
  }

  /** The answers inside a transaction: QUEUED, or a refusal. */
  function Acknowledged(cmds: seq<Command>): seq<Reply> {
    seq(|cmds|, i requires 0 <= i < |cmds| => if RequestOf(cmds[i]).UNKNOWN? then UNKNOWN_COMMAND else QUEUED)
  }

  lemma NoneQueued()
    ensures [MULTI_LINES] + [] == [MULTI_LINES] && RequestsOf([]) == [] && [OK] + Acknowledged([]) == [OK]
  {}

  lemma OneMoreQueued(cmds: seq<Command>)
    requires cmds != []
    ensures var front, last := cmds[..|cmds| - 1], cmds[|cmds| - 1];
            && [MULTI_LINES] + cmds == [MULTI_LINES] + front + [last]
            && RequestsOf(cmds) == RequestsOf(front) + [RequestOf(last)]
            && [OK] + Acknowledged(cmds)
               == [OK] + Acknowledged(front) + [if RequestOf(last).UNKNOWN? then UNKNOWN_COMMAND else QUEUED]
  {}

  /** After MULTI, commands are collected; those the server knows are answered with QUEUED. */
  lemma {:induction false} Collects(env: Env, host: Host, cmds: seq<Command>)
    requires host.queue.None? && NoControl(cmds)
    ensures Serve(env, host, [MULTI_LINES] + cmds)
         == Progress(Host(host.store, Some(RequestsOf(cmds))), [OK] + Acknowledged(cmds))
  {
    ControlLines();
    if cmds == [] {
      ServeOne(env, host, MULTI_LINES);
      NoneQueued();
    } else {
      var front, last := cmds[..|cmds| - 1], cmds[|cmds| - 1];
      Collects(env, host, front);
      OneMoreQueued(cmds);
      ServeNext(env, host, [MULTI_LINES] + front, last);
    }
  }

  lemma Queues(env: Env, host: Host, cmds: seq<Command>)
    requires host.queue.None? && AllQueueable(cmds)
    ensures Serve(env, host, [MULTI_LINES] + cmds)
         == Progress(Host(host.store, Some(RequestsOf(cmds))), [OK] + Queueds(|cmds|))
  {
    Collects(env, host, cmds);
    assert Acknowledged(cmds) == Queueds(|cmds|);
  }

  /** A transaction of known commands: OK, one QUEUED each, and one array with all their replies. */
  lemma Commits(env: Env, host: Host, cmds: seq<Command>)
    requires host.queue.None? && AllQueueable(cmds)
    ensures var o := ExecuteAll(env, host.store, RequestsOf(cmds));
            var committed := Progress(Host(o.state, None), [OK] + Queueds(|cmds|) + [Array(o.replies)]);
            Serve(env, host, TransactionLines(cmds)) == committed
  {
    ControlLines();
    Queues(env, host, cmds);
    ServeNext(env, host, [MULTI_LINES] + cmds, EXEC_LINES);
  }

  /** One command that the server does not know, and nothing of the transaction happens. */
  lemma Aborts(env: Env, host: Host, cmds: seq<Command>)
    requires host.queue.None? && NoControl(cmds) && !AllQueueable(cmds)
    ensures Serve(env, host, TransactionLines(cmds))
         == Progress(Host(host.store, None), [OK] + Acknowledged(cmds) + [EXEC_ABORT])
  {
    ControlLines();
    Collects(env, host, cmds);
    var i :| 0 <= i < |cmds| && !Queueable(RequestOf(cmds[i]));
    assert RequestsOf(cmds)[i].UNKNOWN?;
    ServeNext(env, host, [MULTI_LINES] + cmds, EXEC_LINES);
  }

  lemma UpToCommand(cmds: seq<Command>, j: nat)
    requires j < |cmds|
    ensures var all := TransactionLines(cmds);
            && |all| == |cmds| + 2 && all[..j + 1] == [MULTI_LINES] + cmds[..j]
            && all[..j + 2] == [MULTI_LINES] + cmds[..j] + [cmds[j]]
  {}

  lemma NotQueued(env: Env, host: Host, lines: Command)
    requires host.queue.Some? && !Queueable(RequestOf(lines))
    ensures var reply := Step(env, host, lines).reply; reply.Error? || reply.Array?
  {}

  lemma BreaksAt(env: Env, host: Host, cmds: seq<Command>, j: nat)
    requires host.queue.None? && j < |cmds| && AllQueueable(cmds[..j]) && !Queueable(RequestOf(cmds[j]))
    ensures var replies := Serve(env, host, [MULTI_LINES] + cmds[..j] + [cmds[j]]).replies;
            && |replies| == j + 2 && (replies[j + 1].Error? || replies[j + 1].Array?)
  {
    Queues(env, host, cmds[..j]);
    ServeNext(env, host, [MULTI_LINES] + cmds[..j], cmds[j]);
    NotQueued(env, Serve(env, host, [MULTI_LINES] + cmds[..j]).state, cmds[j]);
  }

  /** The first command that cannot be queued is answered with something else than QUEUED. */
  lemma Breaks(env: Env, host: Host, cmds: seq<Command>, j: nat)
    requires host.queue.None? && j < |cmds| && AllQueueable(cmds[..j]) && !Queueable(RequestOf(cmds[j]))
    ensures var replies := Serve(env, host, TransactionLines(cmds)).replies;
            && |replies| == |cmds| + 2 && replies[..j + 1] == [OK] + Queueds(j)
            && (replies[j + 1].Error? || replies[j + 1].Array?)
  {
    var all := TransactionLines(cmds);
    Queues(env, host, cmds[..j]);
    BreaksAt(env, host, cmds, j);
    UpToCommand(cmds, j);
    ServeReplies(env, host, all);
    ServePrefix(env, host, all, j + 1);
    ServePrefix(env, host, all, j + 2);
    var replies := Serve(env, host, all).replies;
    assert replies[j + 1] == replies[..j + 2][j + 1];
  }

  function FirstUnqueueable(cmds: seq<Command>): (j: nat)
    ensures j <= |cmds| && AllQueueable(cmds[..j]) && (j < |cmds| ==> !Queueable(RequestOf(cmds[j])))
    ensures j == |cmds| <==> AllQueueable(cmds)
  {
    if cmds == [] then 0
    else
      var front := FirstUnqueueable(cmds[..|cmds| - 1]);
      assert cmds[..|cmds| - 1][..front] == cmds[..front];
      if front < |cmds| - 1 then front
      else if Queueable(RequestOf(cmds[front])) then assert cmds[..|cmds|] == cmds; |cmds|
      else front
  }

  /** The replies to a transaction, up to the point where the client stops reading lines. */
  lemma Answers(env: Env, host: Host, cmds: seq<Command>)
    requires host.queue.None?
    ensures var replies := Serve(env, host, TransactionLines(cmds)).replies;
            var j := FirstUnqueueable(cmds);
            && |replies| == |cmds| + 2 && replies[0] == OK
            && (forall i :: 0 <= i < j ==> replies[1..][i] == QUEUED)
            && (j < |cmds| ==> replies[1..][j].Error? || replies[1..][j].Array?)
  {
    var j := FirstUnqueueable(cmds);
    var replies := Serve(env, host, TransactionLines(cmds)).replies;
    if j < |cmds| {
      Breaks(env, host, cmds, j);
      assert forall i :: 0 <= i <= j ==> replies[i] == replies[..j + 1][i];
    } else {
      Commits(env, host, cmds);
    }
  }

  /** All commands are routed to one server. */
  predicate SameHome(rt: Router, jobs: seq<Job>)
    requires rt.Valid() && jobs != []
  {
    forall i :: 0 <= i < |jobs| ==> rt.Shard(jobs[i].key) == rt.Shard(jobs[0].key)
  }

  lemma MessageNotEmpty(cmds: seq<Command>)
    requires cmds != []
    ensures EncodeCommands(cmds) != ""
  {
    if EncodeCommands(cmds) == "" {
      FramingIsUnambiguous(cmds, []);
      assert false;
    }
  }

  lemma CommittedReplies(env: Env, host: Host, cmds: seq<Command>)
    requires host.queue.None? && AllQueueable(cmds)
    ensures var o := ExecuteAll(env, host.store, RequestsOf(cmds));
            var replies := Serve(env, host, TransactionLines(cmds)).replies;
            && |replies| == |cmds| + 2 && replies[1..][|cmds|..] == [Array(o.replies)]
            && |o.replies| == |cmds| && AllHaveData(o.replies)
  {
    Commits(env, host, cmds);
    var o := ExecuteAll(env, host.store, RequestsOf(cmds));
    ExecuteAllReplies(env, host.store, RequestsOf(cmds));
    forall i | 0 <= i < |o.replies| ensures DataOf(o.replies[i]).Ok? {
      GoodReplyHasData(o.replies[i]);
    }
  }

  lemma CommitsIf(env: Env, host: Host, cmds: seq<Command>)
    requires host.queue.None?
    ensures var after := Host(ExecuteAll(env, host.store, RequestsOf(cmds)).state, None);
            AllQueueable(cmds) ==> Serve(env, host, TransactionLines(cmds)).state == after
  {
    if AllQueueable(cmds) {
      Commits(env, host, cmds);
    }
  }

  /** What the client makes of a reply where it expects `QUEUED`. */
  function QueuedOf(r: Reply): Result<()> {
    match StatusOf(r)
    case Err(e) => Err(e)
    case Ok(text) => if text == "QUEUED" then Ok(()) else Err(RuntimeError)
  }

  /** The exception for the first command that is not queued. */
  function Refusal(env: Env, host: Host, cmds: seq<Command>): Result<()> {
    var replies, j := Serve(env, host, TransactionLines(cmds)).replies, FirstUnqueueable(cmds) + 1;
    if j < |replies| then QueuedOf(replies[j]) else Ok(())
  }

  /** The replies left unread when the client stops at the first command that is not queued. */
  function Abandoned(env: Env, host: Host, cmds: seq<Command>): seq<Reply> {
    var replies, j := Serve(env, host, TransactionLines(cmds)).replies, FirstUnqueueable(cmds) + 1;
    if j < |replies| then AfterHead(replies[j..]) else []
  }

  lemma AbandonedThere(env: Env, host: Host, cmds: seq<Command>)
    requires host.queue.None? && !AllQueueable(cmds)
    ensures var replies, j := Serve(env, host, TransactionLines(cmds)).replies, FirstUnqueueable(cmds);
            && j + 1 < |replies| && Abandoned(env, host, cmds) == AfterHead(replies[1..][j..])
            && Abandoned(env, host, cmds) != [] && Refusal(env, host, cmds) == QueuedOf(replies[1..][j])
  {
    Answers(env, host, cmds);
    var replies, j := Serve(env, host, TransactionLines(cmds)).replies, FirstUnqueueable(cmds);
    assert replies[1..][j..] == replies[j + 1..];
  }
}
