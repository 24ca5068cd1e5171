/** The byte transport under the IPC protocol: ipc_write_all on the server's side and
    gsr_platform_ipc_client_receive_reply on the client's. The operating system decides how
    many bytes each WriteFile or ReadFile moves. */
module IpcTransport {
  import opened Options
  import opened TextLines

  /** How many bytes the j-th call moves, within what it was offered; 0 stands for failure. */
  type Pattern = nat -> nat

  function Moved(p: Pattern, j: nat, offered: nat): nat {
    if p(j) <= offered then p(j) else offered
  }

  ghost predicate Progresses(p: Pattern) { forall j: nat :: p(j) > 0 }

  lemma NoneBefore(s: string, i: nat)
    requires i <= |s| && '\n' !in s[..i]
    ensures forall m :: 0 <= m < i ==> s[m] != '\n'
  {
  }

  /** ipc_write_all. What reaches the pipe is always a prefix of the data, and all of it when
      the writes keep moving. */
  method WriteAll(data: string, accepts: Pattern) returns (ok: bool, wire: string)
    ensures wire <= data
    ensures ok <==> wire == data
    ensures Progresses(accepts) ==> ok
  {
    var offset, calls := 0, 0;
    wire := [];
    while offset < |data|
      invariant offset <= |data| && wire == data[..offset]
    {
      var written := Moved(accepts, calls, |data| - offset);
      calls := calls + 1;
      if written == 0 { return false, wire; }
      wire := wire + data[offset..offset + written];
      offset := offset + written;
    }
    return true, wire;
  }

  /** memchr for a newline in buffer[from..to]; -1 when there is none. */
  method FindNewline(buffer: array<char>, from: nat, to: nat) returns (i: int)
    requires from <= to <= buffer.Length
    ensures i == -1 ==> '\n' !in buffer[from..to]
    ensures i != -1 ==> from <= i < to && buffer[i] == '\n' && '\n' !in buffer[from..i]
  {
    i := from;
    while i < to
      invariant from <= i <= to && '\n' !in buffer[from..i]
    {
      if buffer[i] == '\n' { return; }
      i := i + 1;
    }
    return -1;
  }

  /** gsr_platform_ipc_client_receive_reply, reading from a server that sends `stream` and
      then closes the pipe. The outcome is decided by the stream and the capacity alone. */
  method ReceiveReply(stream: string, sizes: Pattern, reply: array<char>) returns (ok: bool, replySize: nat)
    modifies reply
    ensures ok ==> replySize == IndexOf(stream, '\n') && replySize < reply.Length && replySize < |stream|
    ensures ok ==> reply[..replySize] == stream[..replySize]
    ensures Progresses(sizes) ==> (ok <==> IndexOf(stream, '\n') < |stream| && IndexOf(stream, '\n') < reply.Length)
  {
    var offset, calls := 0, 0;
    replySize := 0;
    while true
      invariant offset <= reply.Length && offset <= |stream|
      invariant reply[..offset] == stream[..offset]
      invariant '\n' !in stream[..offset]
      decreases reply.Length - offset
    {
      NoneBefore(stream, offset);
      if offset == reply.Length { return false, 0; }
      var room := reply.Length - offset;
      var read := Moved(sizes, calls, if room <= |stream| - offset then room else |stream| - offset);
      calls := calls + 1;
      if read == 0 { return false, 0; }
      forall j | offset <= j < offset + read { reply[j] := stream[j]; }
      assert reply[..offset + read] == stream[..offset + read];
      assert reply[offset..offset + read] == stream[offset..offset + read];
      var newline := FindNewline(reply, offset, offset + read);
      if newline != -1 {
        assert stream[..newline] == stream[..offset] + reply[offset..newline];
        IndexOfIs(stream, '\n', newline);
        assert reply[..newline] == reply[..offset + read][..newline];
        return true, newline;
      }
      assert stream[..offset + read] == stream[..offset] + stream[offset..offset + read];
      offset := offset + read;
    }
  }

  /** Both ends together: however the system cuts the writes and the reads, a reply without an
      inner newline comes out byte for byte exactly when it leaves room for its newline. */
  method Exchange(reply: string, accepts: Pattern, sizes: Pattern, capacity: nat) returns (got: Option<string>)
    requires '\n' !in reply
    requires Progresses(accepts) && Progresses(sizes)
    ensures got == if |reply| < capacity then Some(reply) else None
  {
    var ok, wire := WriteAll(reply + ['\n'], accepts);
    assert (reply + ['\n'])[..|reply|] == reply;
    IndexOfIs(wire, '\n', |reply|);
    var buffer := new char[capacity];
    var received, size := ReceiveReply(wire, sizes, buffer);
    if received {
      assert wire[..size] == reply;
      return Some(buffer[..size]);
    }
    return None;
  }
}
