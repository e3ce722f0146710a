/**
 The client's connections together with the servers at their far ends. What travels is bytes;
 `pending` is the reading of the unread bytes as replies, which every method keeps.
 */
module Channel {
  import opened Prelude
  import opened Resp
  import opened RespLaws
  import opened Network
  import opened Receive
  import opened Server
  import opened ServerLaws

  ghost predicate Carries(link: Link, pending: seq<Reply>) {
    && link.Valid()
    && link.incoming == EncodeReplies(pending)
    && AllWireSafe(pending)
    && link.sent == ""
    && link.room.None?
  }

  lemma FirstUnread(pending: seq<Reply>)
    requires pending != []
    ensures EncodeReplies(pending) == EncodeReply(pending[0]) + EncodeReplies(pending[1..])
  {
    assert EncodeEach(pending)[1..] == EncodeEach(pending[1..]);
  }

  /** The loop `commands += makecmd(...)`. */
  method JoinRequests(cmds: seq<Command>) returns (message: string)
    ensures message == EncodeCommands(cmds)
  {
    message := "";
    for i := 0 to |cmds|
      invariant message == EncodeCommands(cmds[..i])
    {
      var request := MakeRequest(cmds[i]);
      message := message + request;
      EncodeCommandsAppend(cmds[..i], [cmds[i]]);
      EncodeOne(cmds[i]);
      assert cmds[..i] + [cmds[i]] == cmds[..i + 1];
    }
    assert cmds[..|cmds|] == cmds;
  }

  class Channel {
    const net: Sockets
    const env: Env
    /** The servers at the far ends, one for each socket. */
    var hosts: seq<Host>
    /** The replies that have been sent to the client and not yet been read. */
    ghost var pending: seq<seq<Reply>>

    ghost predicate Valid()
      reads this, net
    {
      && |net.links| == |hosts| == |pending|
      && ValidEnv(env)
      && forall i :: 0 <= i < |hosts| ==> Carries(net.links[i], pending[i])
    }

    constructor (net: Sockets, env: Env, hosts: seq<Host>)
      requires |net.links| == |hosts| && ValidEnv(env)
      requires forall i :: 0 <= i < |hosts| ==> Carries(net.links[i], [])
      ensures Valid() && this.net == net && this.env == env && this.hosts == hosts
      ensures forall i :: 0 <= i < |hosts| ==> pending[i] == []
    {
      this.net, this.env, this.hosts := net, env, hosts;
      this.pending := seq(|hosts|, i => []);
    }

    /**
     `send_` on links that take everything: the server takes the bytes apart again and answers
     every command, in order.
     */
    method Send(fd: int, msg: string, ghost cmds: seq<Command>) returns (r: Result<()>)
      requires Valid() && msg == EncodeCommands(cmds)
      modifies this, net
      ensures Valid()
      ensures 0 <= fd < |old(hosts)| ==>
                && r.Ok?
                && hosts == old(hosts)[fd := Serve(env, old(hosts)[fd], cmds).state]
                && pending == old(pending)[fd := old(pending)[fd] + Serve(env, old(hosts)[fd], cmds).replies]
      ensures !(0 <= fd < |old(hosts)|) ==>
                && hosts == old(hosts) && pending == old(pending) && net.links == old(net.links)
                && r == if msg == "" then Ok(()) else Err(ConnectionError)
    {
      r := SendBytes(net, fd, msg);
      if 0 <= fd < |hosts| {
        assert msg[..|msg|] == msg;
        Answer(fd, cmds);
      }
    }

    /** Commands printed by `makecmd`, joined, and sent as one message. */
    method SendCommands(fd: int, cmds: seq<Command>) returns (r: Result<()>)
      requires Valid() && 0 <= fd < |hosts|
      modifies this, net
      ensures Valid() && r.Ok?
      ensures hosts == old(hosts)[fd := Serve(env, old(hosts)[fd], cmds).state]
      ensures pending == old(pending)[fd := old(pending)[fd] + Serve(env, old(hosts)[fd], cmds).replies]
    {
      var message := JoinRequests(cmds);
      r := Send(fd, message, cmds);
    }

    /** The server on `fd` takes every complete command off its input and answers it. */
    method Answer(fd: int, ghost cmds: seq<Command>)
      requires 0 <= fd < |hosts| == |net.links| == |pending| && ValidEnv(env)
      requires net.links[fd].sent == EncodeCommands(cmds)
      requires Carries(net.links[fd].(sent := ""), pending[fd])
      requires forall i :: 0 <= i < |hosts| && i != fd ==> Carries(net.links[i], pending[i])
      modifies this, net
      ensures Valid()
      ensures hosts == old(hosts)[fd := Serve(env, old(hosts)[fd], cmds).state]
      ensures pending == old(pending)[fd := old(pending)[fd] + Serve(env, old(hosts)[fd], cmds).replies]
    {
      var link := net.links[fd];
      var (taken, rest) := TakeCommands(link.sent);
      assert taken == cmds && rest == "" by {
        TakesAll(cmds);
      }
      var served := Serve(env, hosts[fd], taken);
      ServeReplies(env, hosts[fd], cmds);
      EncodeRepliesAppend(pending[fd], served.replies);
      hosts := hosts[fd := served.state];
      pending := pending[fd := pending[fd] + served.replies];
      net.links := net.links[fd := link.(sent := rest, incoming := link.incoming + EncodeReplies(served.replies))];
    }

    /** `recv_single_line_reply_` */
    method RecvStatus(fd: nat) returns (r: Result<string>)
      requires Valid() && fd < |hosts| && pending[fd] != []
      requires pending[fd][0].Status? || pending[fd][0].Error?
      modifies this`pending, net
      ensures Valid() && pending == old(pending)[fd := old(pending)[fd][1..]]
      ensures r == StatusOf(old(pending)[fd][0])
    {
      FirstUnread(pending[fd]);
      ReadStatus(pending[fd][0], EncodeReplies(pending[fd][1..]));
      r := RecvSingleLine(net, fd);
      pending := pending[fd := pending[fd][1..]];
    }

    /** `recv_single_line_reply_` where an array may come: it is refused, after its header is consumed. */
    method RecvStatusLine(fd: nat) returns (r: Result<string>)
      requires Valid() && fd < |hosts| && pending[fd] != []
      requires pending[fd][0].Status? || pending[fd][0].Error? || pending[fd][0].Array?
      modifies this`pending, net
      ensures Valid()
      ensures r == StatusOf(old(pending)[fd][0])
      ensures pending == old(pending)[fd := AfterHead(old(pending)[fd])]
    {
      FirstUnread(pending[fd]);
      ghost var first, others := pending[fd][0], pending[fd][1..];
      ReadHead(first, EncodeReplies(others));
      BodyIsNext(pending[fd]);
      StatusOfHead(first);
      r := RecvSingleLine(net, fd);
      pending := pending[fd := AfterHead(pending[fd])];
    }

    /** `recv_ok_reply_` */
    method RecvOk(fd: nat) returns (r: Result<()>)
      requires Valid() && fd < |hosts| && pending[fd] != []
      requires pending[fd][0].Status? || pending[fd][0].Error?
      modifies this`pending, net
      ensures Valid() && pending == old(pending)[fd := old(pending)[fd][1..]]
      ensures r == OkOf(old(pending)[fd][0]) && (r.Ok? <==> old(pending)[fd][0] == OK)
    {
      var text :- RecvStatus(fd);
      return if text == "OK" then Ok(()) else Err(ProtocolError("expected OK response"));
    }

    /** `recv_int_reply_` */
    method RecvInt(fd: nat) returns (r: Result<int>)
      requires Valid() && fd < |hosts| && pending[fd] != []
      requires pending[fd][0].Integer? || pending[fd][0].Error?
      modifies this`pending, net
      ensures Valid() && pending == old(pending)[fd := old(pending)[fd][1..]]
      ensures r == IntOf(old(pending)[fd][0])
    {
      FirstUnread(pending[fd]);
      ReadInt(pending[fd][0], EncodeReplies(pending[fd][1..]));
      r := Receive.RecvInt(net, fd);
      pending := pending[fd := pending[fd][1..]];
    }

    /** `recv_int_ok_reply_` */
    method RecvIntOk(fd: nat) returns (r: Result<()>)
      requires Valid() && fd < |hosts| && pending[fd] != []
      requires pending[fd][0].Integer? || pending[fd][0].Error?
      modifies this`pending, net
      ensures Valid() && pending == old(pending)[fd := old(pending)[fd][1..]]
      ensures r == IntOkOf(old(pending)[fd][0]) && (r.Ok? <==> old(pending)[fd][0] == Integer(1))
    {
      var n :- RecvInt(fd);
      return if n == 1 then Ok(()) else Err(ProtocolError("expecting int reply of 1"));
    }

    /** `recv_bulk_reply_` */
    method RecvBulk(fd: nat) returns (r: Result<string>)
      requires Valid() && fd < |hosts| && pending[fd] != []
      requires BulkLike(pending[fd][0]) || pending[fd][0].Error?
      modifies this`pending, net
      ensures Valid() && pending == old(pending)[fd := old(pending)[fd][1..]]
      ensures r == BulkOf(old(pending)[fd][0])
    {
      FirstUnread(pending[fd]);
      var rest := EncodeReplies(pending[fd][1..]);
      if BulkLike(pending[fd][0]) {
        ReadBulk(pending[fd][0], rest);
      } else {
        RefuseBulk(pending[fd][0], rest);
        assert Body(pending[fd][0]) + rest == rest;
      }
      r := Receive.RecvBulk(net, fd);
      pending := pending[fd := pending[fd][1..]];
    }

    lemma ReadsItems(fd: nat, have: Option<nat>)
      requires Valid() && fd < |hosts| && pending[fd] != []
      requires (pending[fd][0].Array? && FlatItems(pending[fd][0].items)) || pending[fd][0].Error?
      ensures var p := ParseMultiBulk(net.links[fd].incoming, have);
              && p.rest == EncodeReplies(pending[fd][1..])
              && (match ItemsOf(pending[fd][0])
                  case Ok(items) => p.result == Ok((|items|, items))
                  case Err(e) => p.result == Err(e))
    {
      FirstUnread(pending[fd]);
      var rest := EncodeReplies(pending[fd][1..]);
      if pending[fd][0].Array? {
        ReadMultiBulk(pending[fd][0].items, rest, have);
      } else {
        RefuseErrorAsArray(pending[fd][0].text, rest, have);
      }
    }

    /** `recv_multi_bulk_reply_` into a vector */
    method RecvMultiBulk(fd: nat, out: seq<string>) returns (r: Result<int>, grown: seq<string>)
      requires Valid() && fd < |hosts| && pending[fd] != []
      requires (pending[fd][0].Array? && FlatItems(pending[fd][0].items)) || pending[fd][0].Error?
      modifies this`pending, net
      ensures Valid() && pending == old(pending)[fd := old(pending)[fd][1..]]
      ensures if old(pending)[fd][0].Array? then r.Ok? else r == Err(NOT_A_BULK)
      ensures old(pending)[fd][0].Array? ==>
                r == Ok(|old(pending)[fd][0].items|) && grown == out + TextsOf(old(pending)[fd][0].items)
    {
      ReadsItems(fd, Some(|out|));
      r, grown := Receive.RecvMultiBulk(net, fd, out);
      pending := pending[fd := pending[fd][1..]];
    }

    /** `recv_multi_bulk_reply_` into a set */
    method RecvMultiBulkSet(fd: nat, out: set<string>) returns (r: Result<int>, grown: set<string>)
      requires Valid() && fd < |hosts| && pending[fd] != []
      requires (pending[fd][0].Array? && FlatItems(pending[fd][0].items)) || pending[fd][0].Error?
      modifies this`pending, net
      ensures Valid() && pending == old(pending)[fd := old(pending)[fd][1..]]
      ensures if old(pending)[fd][0].Array? then r.Ok? else r == Err(NOT_A_BULK)
      ensures old(pending)[fd][0].Array? ==>
                r == Ok(|old(pending)[fd][0].items|) && grown == out + SetOf(TextsOf(old(pending)[fd][0].items))
    {
      ReadsItems(fd, None);
      r, grown := Receive.RecvMultiBulkSet(net, fd, out);
      pending := pending[fd := pending[fd][1..]];
    }

    /**
     `recv_generic_reply_`. It consumes the first reply, except that after an element that is no bulk
     string it throws with the rest of the array unread.
     */
    method RecvGeneric(fd: nat) returns (r: Result<ReplyData>)
      requires Valid() && fd < |hosts| && pending[fd] != []
      modifies this`pending, net
      ensures Valid() && r == DataOf(old(pending)[fd][0])
      ensures pending == old(pending)[fd := LeftBehind(old(pending)[fd][0]) + old(pending)[fd][1..]]
      ensures r.Ok? ==> pending == old(pending)[fd := old(pending)[fd][1..]]
    {
      FirstUnread(pending[fd]);
      ghost var first, others := pending[fd][0], pending[fd][1..];
      ReadGeneric(first, EncodeReplies(others));
      LeftBehindIsSafe(first);
      EncodeRepliesAppend(LeftBehind(first), others);
      r := Receive.RecvGeneric(net, fd);
      pending := pending[fd := LeftBehind(first) + others];
      assert r.Ok? ==> [] + others == others;
    }

    /** `read_line` at a reply: an array's header is consumed and its elements become next. */
    method RecvHead(fd: nat) returns (r: Result<string>)
      requires Valid() && fd < |hosts| && pending[fd] != []
      requires pending[fd][0].Array? || pending[fd][0].Error?
      modifies this`pending, net
      ensures r == Ok(Head(old(pending)[fd][0]))
      ensures Valid()
      ensures pending == old(pending)[fd := AfterHead(old(pending)[fd])]
    {
      FirstUnread(pending[fd]);
      ghost var first, others := pending[fd][0], pending[fd][1..];
      ReadHead(first, EncodeReplies(others));
      BodyIsNext(pending[fd]);
      r := ReadLine(net, fd, MAX_LINE);
      pending := pending[fd := AfterHead(pending[fd])];
    }
  }
}
