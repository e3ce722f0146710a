/**
 Sockets with partial reads and writes, and the loops that hide them: `anetRead`, `anetWrite`,
 `recv_or_throw`, `read_n` and `read_line`.
 */
module Network {
  import opened Prelude
  import opened Resp

  datatype Ending = Closed | Failed {
    /** What the system call returns once nothing more can move. */
    function Code(): int {
      if Closed? then 0 else -1
    }
  }

  /**
   One socket. `incoming` is everything the peer has sent and nobody has read, of which the first
   `arrived` bytes are in the kernel's buffer; after it the stream ends as `readEnd` says.
   `sent` is what has been written and the peer has not taken; the link accepts `room` more bytes
   (`None`: any number) and then answers as `writeEnd` says.
   */
  datatype Link = Link(incoming: string, arrived: nat, readEnd: Ending,
                       sent: string, room: Option<nat>, writeEnd: Ending) {
    predicate Valid() {
      arrived <= |incoming|
    }

    /** How many of `count` bytes this link accepts in the end. */
    function Accepts(count: nat): nat {
      if room.None? || count <= room.value then count else room.value
    }

    function AfterWrite(data: string): Link
      requires room.Some? ==> |data| <= room.value
    {
      this.(sent := sent + data, room := if room.None? then None else Some(room.value - |data|))
    }
  }

  /** `after` is `before` except that socket `fd` has been read up to `rest`. */
  ghost predicate ReadUpTo(before: seq<Link>, after: seq<Link>, fd: int, rest: string) {
    && 0 <= fd < |before| == |after|
    && after == before[fd := before[fd].(incoming := rest, arrived := after[fd].arrived)]
    && after[fd].Valid()
  }

  class Sockets {
    var links: seq<Link>
    /** How many system calls a signal will still interrupt. */
    var interrupts: nat

    constructor (links: seq<Link>, interrupts: nat)
      ensures this.links == links && this.interrupts == interrupts
    {
      this.links, this.interrupts := links, interrupts;
    }

    /** `write`: takes any non-empty part of the data that the link has room for. */
    method Write(fd: int, data: string) returns (n: int)
      modifies this`links
      ensures !(0 <= fd < |old(links)|) ==> n == -1 && links == old(links)
      ensures 0 <= fd < |old(links)| ==>
                var link := old(links[fd]);
                if data == "" then n == 0 && links == old(links)
                else if link.room == Some(0) then n == link.writeEnd.Code() && links == old(links)
                else 1 <= n <= |data| && (link.room.Some? ==> n <= link.room.value)
                     && links == old(links)[fd := link.AfterWrite(data[..n])]
    {
      if !(0 <= fd < |links|) {
        return -1;
      }
      var link := links[fd];
      if data == "" {
        return 0;
      }
      if link.room == Some(0) {
        return link.writeEnd.Code();
      }
      n :| 1 <= n <= |data| && (link.room.Some? ==> n <= link.room.value);
      links := links[fd := link.AfterWrite(data[..n])];
    }

    /**
     `recv`: waits for at least one byte, then gives all that has arrived, up to `n` bytes. With
     `peek` the bytes stay. It may be interrupted instead.
     */
    method Recv(fd: int, n: nat, peek: bool) returns (count: int, data: string, interrupted: bool)
      requires 0 <= fd < |links| && links[fd].Valid()
      modifies this
      ensures interrupted ==> count == -1 && links == old(links) && interrupts < old(interrupts)
      ensures !interrupted ==> interrupts == old(interrupts)
      ensures !interrupted && (n == 0 || old(links[fd].incoming) == "") ==>
                links == old(links) && count == if n == 0 then 0 else links[fd].readEnd.Code()
      ensures !interrupted && n > 0 && old(links[fd].incoming) != "" ==>
                && 1 <= count <= n && count <= |old(links[fd].incoming)|
                && data == old(links[fd].incoming)[..count]
                && (n <= old(links[fd].arrived) ==> count == n)
                && ReadUpTo(old(links), links, fd, old(links[fd].incoming)[if peek then 0 else count..])
                && (peek ==> count <= links[fd].arrived)
    {
      count, data, interrupted := -1, "", false;
      if interrupts > 0 {
        interrupted := *;
      }
      if interrupted {
        interrupts := interrupts - 1;
        return;
      }
      var link := links[fd];
      if n == 0 {
        count := 0;
      } else if link.incoming == "" {
        count := link.readEnd.Code();
      } else {
        var now: nat :| link.arrived <= now <= |link.incoming| && 1 <= now;
        count := if n <= now then n else now;
        data := link.incoming[..count];
        var left := if peek then 0 else count;
        links := links[fd := link.(incoming := link.incoming[left..], arrived := now - left)];
      }
    }
  }

  // ------------------------------------------------------------------------------- anet

  lemma WriteTwice(link: Link, a: string, b: string)
    requires link.room.Some? ==> |a| + |b| <= link.room.value
    ensures link.AfterWrite(a).AfterWrite(b) == link.AfterWrite(a + b)
  {
    assert link.sent + a + b == link.sent + (a + b);
  }

  /**
   `anetWrite` (both platforms): it emits exactly the bytes the link accepts, in order, however the
   single writes are cut; it reports the count, or the error that stopped it.
   */
  method AnetWrite(net: Sockets, fd: int, buf: string) returns (ret: int)
    modifies net`links
    ensures !(0 <= fd < |old(net.links)|) ==> net.links == old(net.links) && ret == if buf == "" then 0 else -1
    ensures 0 <= fd < |old(net.links)| ==>
              var link := old(net.links[fd]);
              var k := link.Accepts(|buf|);
              && net.links == old(net.links)[fd := link.AfterWrite(buf[..k])]
              && ret == if k == |buf| || link.writeEnd.Closed? then k else -1
  {
    var totlen := 0;
    assert 0 <= fd < |net.links| ==> net.links[fd].AfterWrite(buf[..0]) == net.links[fd];
    while totlen != |buf|
      invariant 0 <= totlen <= |buf|
      invariant !(0 <= fd < |old(net.links)|) ==> totlen == 0 && net.links == old(net.links)
      invariant 0 <= fd < |old(net.links)| ==>
                  && totlen <= old(net.links[fd]).Accepts(|buf|)
                  && net.links == old(net.links)[fd := old(net.links[fd]).AfterWrite(buf[..totlen])]
      decreases |buf| - totlen
    {
      var nwritten := net.Write(fd, buf[totlen..]);
      if nwritten == 0 {
        return totlen;
      }
      if nwritten == -1 {
        return -1;
      }
      assert buf[..totlen] + buf[totlen..][..nwritten] == buf[..totlen + nwritten];
      WriteTwice(old(net.links[fd]), buf[..totlen], buf[totlen..][..nwritten]);
      totlen := totlen + nwritten;
    }
    return totlen;
  }

  /**
   `send_`: only -1 is an exception. It returns normally exactly when the link accepts everything,
   or when it stops accepting with a plain 0, which goes unnoticed; in both cases what has been
   sent is exactly what the link accepts.
   */
  method SendBytes(net: Sockets, fd: int, message: string) returns (r: Result<()>)
    modifies net`links
    ensures !(0 <= fd < |old(net.links)|) ==>
              net.links == old(net.links) && r == if message == "" then Ok(()) else Err(ConnectionError)
    ensures 0 <= fd < |old(net.links)| ==>
              var link := old(net.links[fd]);
              var k := link.Accepts(|message|);
              && net.links == old(net.links)[fd := link.AfterWrite(message[..k])]
              && r == if k == |message| || link.writeEnd.Closed? then Ok(()) else Err(ConnectionError)
  {
    var written := AnetWrite(net, fd, message);
    return if written == -1 then Err(ConnectionError) else Ok(());
  }

  /**
   `anetRead`: whatever way the stream arrives in pieces, it takes a prefix of it, in order. If no
   call is interrupted it takes `count` bytes, or all there are when the stream ends before that.
   */
  method AnetRead(net: Sockets, fd: int, count: nat) returns (ret: int, buf: string)
    requires 0 <= fd < |net.links| && net.links[fd].Valid()
    modifies net
    ensures buf <= old(net.links[fd].incoming) && |buf| <= count
    ensures ReadUpTo(old(net.links), net.links, fd, old(net.links[fd].incoming)[|buf|..])
    ensures ret == -1 || ret == |buf|
    ensures 0 <= ret < count ==> buf == old(net.links[fd].incoming)
    ensures old(net.interrupts) == 0 ==>
              var available := |old(net.links[fd].incoming)|;
              if count <= available then ret == count
              else |buf| == available && ret == if old(net.links[fd]).readEnd.Closed? then available else -1
  {
    var totlen := 0;
    buf := "";
    while totlen != count
      invariant totlen <= count && totlen <= |old(net.links[fd].incoming)|
      invariant buf == old(net.links[fd].incoming)[..totlen] && |buf| == totlen
      invariant ReadUpTo(old(net.links), net.links, fd, old(net.links[fd].incoming)[totlen..])
      invariant net.interrupts == old(net.interrupts)
      decreases count - totlen
    {
      var nread, data, interrupted := net.Recv(fd, count - totlen, false);
      if nread == 0 {
        return totlen, buf;
      }
      if nread == -1 {
        return -1, buf;
      }
      totlen := totlen + nread;
      buf := buf + data;
    }
    return totlen, buf;
  }

  // ------------------------------------------------------------------------------- receiving

  /** `recv_or_throw`: interrupted calls are repeated; an ended stream is an exception. */
  method RecvOrThrow(net: Sockets, fd: int, n: nat, peek: bool) returns (r: Result<string>)
    requires 0 <= fd < |net.links| && net.links[fd].Valid() && n > 0
    modifies net
    ensures var stream := old(net.links[fd].incoming);
            if stream == "" then r == Err(ConnectionError) && net.links == old(net.links)
            else
              && r.Ok? && 1 <= |r.value| <= n && r.value <= stream
              && (n <= old(net.links[fd].arrived) ==> |r.value| == n)
              && ReadUpTo(old(net.links), net.links, fd, stream[if peek then 0 else |r.value|..])
              && (peek ==> |r.value| <= net.links[fd].arrived)
  {
    var count, data, interrupted := net.Recv(fd, n, peek);
    while interrupted
      invariant interrupted ==> net.links == old(net.links)
      invariant !interrupted && old(net.links[fd].incoming) == "" ==>
                  net.links == old(net.links) && count == net.links[fd].readEnd.Code()
      invariant !interrupted && old(net.links[fd].incoming) != "" ==>
                  && 1 <= count <= n && count <= |old(net.links[fd].incoming)|
                  && data == old(net.links[fd].incoming)[..count]
                  && (n <= old(net.links[fd].arrived) ==> count == n)
                  && ReadUpTo(old(net.links), net.links, fd,
                              old(net.links[fd].incoming)[if peek then 0 else count..])
                  && (peek ==> count <= net.links[fd].arrived)
      decreases net.interrupts, interrupted
    {
      count, data, interrupted := net.Recv(fd, n, peek);
    }
    if count == 0 || count == -1 {
      return Err(ConnectionError);
    }
    return Ok(data);
  }

  /** `read_n`: exactly the next `n` bytes of the stream, for every way it arrives in pieces. */
  method ReadN(net: Sockets, fd: int, n: nat) returns (r: Result<string>)
    requires 0 <= fd < |net.links| && net.links[fd].Valid()
    modifies net
    ensures r == ParseN(old(net.links[fd].incoming), n).result
    ensures ReadUpTo(old(net.links), net.links, fd, ParseN(old(net.links[fd].incoming), n).rest)
  {
    var bytesRead := 0;
    var buffer := "";
    while bytesRead != n
      invariant bytesRead == |buffer| <= n
      invariant buffer <= old(net.links[fd].incoming)
      invariant ReadUpTo(old(net.links), net.links, fd, old(net.links[fd].incoming)[bytesRead..])
      decreases n - bytesRead
    {
      var data := RecvOrThrow(net, fd, n - bytesRead, false);
      if data.Err? {
        return Err(data.error);
      }
      buffer := buffer + data.value;
      bytesRead := bytesRead + |data.value|;
    }
    assert buffer == old(net.links[fd].incoming)[..n];
    return Ok(buffer);
  }

  lemma IndexOfPrefix(s: string, k: nat, c: char)
    requires k <= |s| && c !in s[..k]
    ensures IndexOf(s, c) == k + IndexOf(s[k..], c)
  {
    var j := IndexOf(s[k..], c);
    assert forall i :: 0 <= i < k ==> s[i] == s[..k][i];
    assert forall i :: k <= i < |s| ==> s[i] == s[k..][i - k];
  }

  /**
   The body of `read_line`'s loop: peek at up to 64 bytes, then consume them, but not past an LF.
   The bytes consumed were just peeked at, so the second `recv` returns all of them.
   */
  method ReadChunk(net: Sockets, fd: int) returns (r: Result<string>, foundDelimiter: bool)
    requires 0 <= fd < |net.links| && net.links[fd].Valid()
    modifies net
    ensures var stream := old(net.links[fd].incoming);
            if stream == "" then r == Err(ConnectionError) && net.links == old(net.links)
            else
              && r.Ok? && r.value != "" && r.value <= stream
              && ReadUpTo(old(net.links), net.links, fd, stream[|r.value|..])
              && (foundDelimiter ==> |r.value| == IndexOf(stream, '\n') + 1)
              && (!foundDelimiter ==> '\n' !in r.value)
  {
    foundDelimiter := false;
    var peeked := RecvOrThrow(net, fd, 64, true);
    if peeked.Err? {
      return Err(peeked.error), false;
    }
    var buffer := peeked.value;
    EolInBuffer(net.links[fd].incoming, buffer);
    var eol := IndexOf(buffer, '\n');
    var toRead := |buffer|;
    if eol < |buffer| {
      toRead := eol + 1;
      foundDelimiter := true;
    }
    var consumed := RecvOrThrow(net, fd, toRead, false);
    assert consumed.value == buffer[..toRead];
    return Ok(buffer[..toRead]), foundDelimiter;
  }

  lemma EolInBuffer(stream: string, buffer: string)
    requires buffer <= stream
    ensures IndexOf(buffer, '\n') < |buffer| ==> IndexOf(stream, '\n') == IndexOf(buffer, '\n')
    ensures IndexOf(buffer, '\n') == |buffer| ==> '\n' !in buffer
  {
    assert forall i :: 0 <= i < |buffer| ==> buffer[i] == stream[i];
  }

  lemma Consume(stream: string, line: string, chunk: string)
    requires line <= stream && chunk <= stream[|line|..]
    ensures line + chunk <= stream && stream[|line|..][|chunk|..] == stream[|line + chunk|..]
    ensures '\n' !in line && '\n' !in chunk ==> '\n' !in line + chunk
  {}

  /**
   `read_line`: for every stream and every way it arrives in pieces, it consumes exactly through
   the first LF and returns that prefix without trailing CR and LF bytes. The counter that should
   enforce `maxSize` is never advanced, so the result does not depend on `maxSize`; what bounds
   the loop is the distance to the LF, or to the end of the stream.
   */
  method ReadLine(net: Sockets, fd: int, maxSize: int) returns (r: Result<string>)
    requires 0 <= fd < |net.links| && net.links[fd].Valid() && maxSize > 0
    modifies net
    ensures r == ParseLine(old(net.links[fd].incoming)).result
    ensures ReadUpTo(old(net.links), net.links, fd, ParseLine(old(net.links[fd].incoming)).rest)
  {
    ghost var stream := net.links[fd].incoming;
    var line := "";
    var totalBytesRead := 0;
    var foundDelimiter := false;
    while totalBytesRead < maxSize && !foundDelimiter
      invariant totalBytesRead == 0
      invariant line <= stream && ReadUpTo(old(net.links), net.links, fd, stream[|line|..])
      invariant !foundDelimiter ==> '\n' !in line
      invariant foundDelimiter ==> |line| == IndexOf(stream, '\n') + 1
      decreases |stream| - |line|
    {
      IndexOfPrefix(stream, |line|, '\n');
      var chunk;
      chunk, foundDelimiter := ReadChunk(net, fd);
      if chunk.Err? {
        return Err(chunk.error);
      }
      Consume(stream, line, chunk.value);
      line := line + chunk.value;
    }
    assert line == stream[..|line|];
    return Ok(RTrim(line, CRLF));
  }

  // ------------------------------------------------------------------------------- both ends

  /** The medium carries everything that `near` has sent to `far`, behind what is unread there. */
  method Carry(net: Sockets, near: int, far: int)
    requires 0 <= near < |net.links| && 0 <= far < |net.links| && near != far && net.links[far].Valid()
    modifies net`links
    ensures |net.links| == |old(net.links)|
    ensures net.links[far] == old(net.links[far]).(incoming := old(net.links[far].incoming) + old(net.links[near].sent))
    ensures net.links[near] == old(net.links[near]).(sent := "")
  {
    var a, b := net.links[near], net.links[far];
    net.links := net.links[near := a.(sent := "")][far := b.(incoming := b.incoming + a.sent)];
  }

  /** What is to be read at `far` after `near` has written `message`: what was on its way, and what is accepted. */
  function Stream(near: Link, far: Link, message: string): string {
    far.incoming + near.sent + message[..near.Accepts(|message|)]
  }

  /**
   Partial I/O is transparent: with any sequence of short writes at one end and of short reads at the
   other, over any link, the writer learns how much has been accepted unless the link fails, and
   `read_n` for any count reads exactly the bytes written, behind those that were there before.
   */
  method PassOn(net: Sockets, near: int, far: int, message: string, count: nat)
    returns (written: int, r: Result<string>)
    requires 0 <= near < |net.links| && 0 <= far < |net.links| && near != far && net.links[far].Valid()
    modifies net
    ensures var k := old(net.links[near]).Accepts(|message|);
            written == if k < |message| && old(net.links[near]).writeEnd.Failed? then -1 else k
    ensures |net.links| == |old(net.links)|
    ensures var stream := Stream(old(net.links[near]), old(net.links[far]), message);
            r == (if count <= |stream| then Ok(stream[..count]) else Err(ConnectionError))
            && net.links[far].incoming == stream[if count <= |stream| then count else |stream|..]
  {
    ghost var a, b := net.links[near], net.links[far];
    written := AnetWrite(net, near, message);
    Carry(net, near, far);
    assert b.incoming + (a.sent + message[..a.Accepts(|message|)]) == Stream(a, b, message);
    r := ReadN(net, far, count);
  }

  /** The same with `anetRead` at the other end, which does not repeat an interrupted call. */
  method PassOnRead(net: Sockets, near: int, far: int, message: string, count: nat)
    returns (written: int, ret: int, buf: string)
    requires 0 <= near < |net.links| && 0 <= far < |net.links| && near != far && net.links[far].Valid()
    modifies net
    ensures var k := old(net.links[near]).Accepts(|message|);
            written == if k < |message| && old(net.links[near]).writeEnd.Failed? then -1 else k
    ensures |net.links| == |old(net.links)|
    ensures var stream := Stream(old(net.links[near]), old(net.links[far]), message);
            && buf <= stream && net.links[far].incoming == stream[|buf|..]
            && (0 <= ret < count ==> buf == stream)
            && (old(net.interrupts) == 0 ==> buf == stream[..if count <= |stream| then count else |stream|])
  {
    ghost var a, b := net.links[near], net.links[far];
    written := AnetWrite(net, near, message);
    Carry(net, near, far);
    assert b.incoming + (a.sent + message[..a.Accepts(|message|)]) == Stream(a, b, message);
    ret, buf := AnetRead(net, far, count);
  }
}
