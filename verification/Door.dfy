/**
 What happens on a connection before the client's commands: `init` sends `AUTH` if there is a
 password, then `SELECT`, and expects `OK` each time.
 */
module Door {
  import opened Prelude
  import opened Decimal
  import opened Resp
  import opened RespLaws
  import opened Network
  import opened Receive
  import opened Server
  import opened ServerLaws

  /** A server that has just been connected to; the empty password stands for none. */
  datatype Door = Door(password: string, databases: seq<Store>) {
    predicate Has(index: int) {
      0 <= index < |databases|
    }
  }

  const NO_AUTH := Error("NOAUTH")
  const WRONG_PASS := Error("WRONGPASS")
  const NO_PASSWORD := Error("ERR AUTH")
  const NO_DATABASE := Error("ERR index")

  /** The answers to `AUTH` and to `SELECT`. */
  function AuthReply(d: Door, password: string): Reply {
    if d.password == "" then NO_PASSWORD else if d.password == password then OK else WRONG_PASS
  }

  function SelectReply(d: Door, known: bool, index: int): Reply {
    if d.password != "" && !known then NO_AUTH else if d.Has(index) then OK else NO_DATABASE
  }

  /** The reply to a command before a database has been chosen; `known` says that `AUTH` has succeeded. */
  function Knock(d: Door, known: bool, lines: Command): Reply {
    if |lines| == 2 && lines[0] == "AUTH" then AuthReply(d, lines[1])
    else if |lines| == 2 && lines[0] == "SELECT" && LexicalCast(lines[1]).Some?
    then SelectReply(d, known, LexicalCast(lines[1]).value)
    else UNKNOWN_COMMAND
  }

  /** The password opens the door, and a database is given out only behind it. */
  lemma KnockMeans(d: Door, known: bool, password: string, index: int)
    ensures Knock(d, known, ["AUTH", password]) == Status("OK") <==> password == d.password != ""
    ensures Knock(d, known, ["SELECT", PrintInt(index)]) == Status("OK") <==>
              (d.password == "" || known) && 0 <= index < |d.databases|
  {
    CastOfPrint(index);
  }

  lemma KnocksAreSafe(d: Door, known: bool, lines: Command)
    ensures var r := Knock(d, known, lines); WireSafe(r) && (r.Status? || r.Error?)
  {
    ErrorsAreSafe();
    assert LineSafe(NO_AUTH.text) && LineSafe(WRONG_PASS.text);
    assert LineSafe(NO_PASSWORD.text) && LineSafe(NO_DATABASE.text);
  }

  /** Nothing is on its way in either direction. */
  predicate Idle(link: Link) {
    link.Valid() && link.incoming == "" && link.sent == "" && link.room.None?
  }

  /** The server takes the command off the wire and answers. */
  method Answer(net: Sockets, fd: nat, d: Door, known: bool, ghost lines: Command)
    requires fd < |net.links| && net.links[fd].sent == EncodeCommand(lines)
    modifies net`links
    ensures net.links == old(net.links)[fd := old(net.links[fd]).(
                           sent := "", incoming := old(net.links[fd].incoming) + EncodeReply(Knock(d, known, lines)))]
  {
    var link := net.links[fd];
    var (taken, rest) := TakeCommands(link.sent);
    assert taken == [lines] && rest == "" by {
      EncodeOne(lines);
      TakesAll([lines]);
    }
    var reply := EncodeReply(Knock(d, known, taken[0]));
    net.links := net.links[fd := link.(sent := rest, incoming := link.incoming + reply)];
  }

  /** `send_(socket, makecmd(...))` and `recv_ok_reply_(socket)`. */
  method Ask(net: Sockets, fd: nat, d: Door, known: bool, lines: Command) returns (r: Result<()>)
    requires fd < |net.links| && Idle(net.links[fd])
    modifies net
    ensures |net.links| == |old(net.links)| && Idle(net.links[fd])
    ensures forall i :: 0 <= i < |net.links| && i != fd ==> net.links[i] == old(net.links[i])
    ensures r.Ok? <==> Knock(d, known, lines) == OK
  {
    var request := MakeRequest(lines);
    var _ := SendBytes(net, fd, request);
    assert request[..|request|] == request && "" + request == request;
    Answer(net, fd, d, known, lines);
    ghost var reply := Knock(d, known, lines);
    KnocksAreSafe(d, known, lines);
    ReadStatus(reply, "");
    assert "" + EncodeReply(reply) == EncodeReply(reply) + "";
    var text :- RecvSingleLine(net, fd);
    return if text == "OK" then Ok(()) else Err(ProtocolError("expected OK response"));
  }

  /** `init` after the socket is connected: it returns normally exactly with the right password and a database. */
  method Enter(net: Sockets, fd: nat, d: Door, index: int, password: string) returns (r: Result<()>)
    requires fd < |net.links| && Idle(net.links[fd])
    modifies net
    ensures |net.links| == |old(net.links)| && Idle(net.links[fd])
    ensures forall i :: 0 <= i < |net.links| && i != fd ==> net.links[i] == old(net.links[i])
    ensures r.Ok? <==> d.password == password && d.Has(index)
  {
    CastOfPrint(index);
    if password != "" {
      var _ :- Ask(net, fd, d, false, ["AUTH", password]);
    }
    r := Ask(net, fd, d, password != "", ["SELECT", PrintInt(index)]);
  }
}
