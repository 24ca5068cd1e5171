/** Line framing in the IPC server: what is dispatched depends only on the bytes a client has
    sent, never on how they were split into reads. */
module IpcFraming {
  import opened Options
  import opened TextLines
  import opened IpcProtocol
  import opened IpcInvariant

  // ---- the reference: splitting a stream at its newlines --------------------------------

  /** The text behind the last newline. */
  function Unfinished(stream: string): string {
    if stream == [] then []
    else if stream[|stream| - 1] == '\n' then []
    else Unfinished(stream[..|stream| - 1]) + [stream[|stream| - 1]]
  }

  /** The texts in front of the newlines. */
  function Lines(stream: string): seq<string> {
    if stream == [] then []
    else if stream[|stream| - 1] == '\n' then Lines(stream[..|stream| - 1]) + [Unfinished(stream[..|stream| - 1])]
    else Lines(stream[..|stream| - 1])
  }

  /** The split loses nothing, invents nothing and cuts at every newline. */
  lemma {:induction false} SplitIsFaithful(stream: string)
    ensures JoinLines(Lines(stream)) + Unfinished(stream) == stream
    ensures '\n' !in Unfinished(stream)
    ensures forall j :: 0 <= j < |Lines(stream)| ==> '\n' !in Lines(stream)[j]
  {
    if stream != [] {
      var n := |stream| - 1;
      SplitIsFaithful(stream[..n]);
      assert stream == stream[..n] + [stream[n]];
      if stream[n] == '\n' {
        var ls := Lines(stream[..n]);
        var u := Unfinished(stream[..n]);
        JoinSnoc(ls, u);
        assert JoinLines(ls) + (u + ['\n']) == JoinLines(ls) + u + ['\n'];
      }
    }
  }

  /** A line as the dispatcher gets it. */
  function Cut(line: string): Line { if |line| <= 4096 then Whole(line) else TooLarge }

  function CutAll(lines: seq<string>): seq<Line> {
    seq(|lines|, j requires 0 <= j < |lines| => Cut(lines[j]))
  }

  // ---- the server's bookkeeping against the reference --------------------------------------

  /** The lines dispatched for one connection, in order. */
  function Dispatched(requests: seq<Request>, serial: nat): seq<Line> {
    if requests == [] then []
    else
      var r := requests[|requests| - 1];
      Dispatched(requests[..|requests| - 1], serial) + (if r.serial == serial then [r.line] else [])
  }

  /** The buffer holds the unfinished line as far as it fits. */
  predicate Buffered(c: Client) {
    var u := Unfinished(c.received);
    && c.tooLarge == (|u| > 4096)
    && c.request == if |u| <= 4096 then u else u[..MAX_REQUEST_SIZE]
  }

  predicate FramedClient(requests: seq<Request>, c: Client) {
    Buffered(c) && Dispatched(requests, c.serial) == CutAll(Lines(c.received))
  }

  predicate Framed(s: State) {
    Table(s) && forall i :: 0 <= i < |s.clients| ==> FramedClient(s.requests, s.clients[i])
  }

  lemma DispatchedAppend(requests: seq<Request>, r: Request, serial: nat)
    ensures Dispatched(requests + [r], serial) ==
      Dispatched(requests, serial) + (if r.serial == serial then [r.line] else [])
  {
  }

  lemma {:induction false} NothingDispatched(requests: seq<Request>, serial: nat)
    requires forall t :: 0 <= t < |requests| ==> requests[t].serial != serial
    ensures Dispatched(requests, serial) == []
  {
    if requests != [] { NothingDispatched(requests[..|requests| - 1], serial); }
  }

  lemma StoreFrames(requests: seq<Request>, c: Client, b: char)
    requires FramedClient(requests, c) && b != '\n'
    ensures FramedClient(requests, Store(c, b))
  {
    assert (c.received + [b])[..|c.received|] == c.received;
    hide Dispatched, CutAll;
  }

  lemma RestartFrames(requests: seq<Request>, c: Client, r: Request)
    requires FramedClient(requests, c)
    requires r.serial == c.serial && r.line == if c.tooLarge then TooLarge else Whole(c.request)
    ensures FramedClient(requests + [r], Restart(c))
  {
  }

  lemma OnByteFrames(w: World, s: State, i: nat, b: char)
    requires i < |s.clients| && Framed(s)
    ensures Framed(OnByte(w, s, i, b).0)
  {
    hide OnRequest, Buffered, Dispatched, Lines, CutAll;
    var c := s.clients[i];
    if b != '\n' {
      StoreFrames(s.requests, c, b);
    } else {
      OnRequestShape(w, s, i);
      RestartFrames(s.requests, c, NewRequest(w, s, i));
      var s1 := OnByte(w, s, i, b).0;
      forall j | 0 <= j < |s1.clients| ensures FramedClient(s1.requests, s1.clients[j]) {
        if j != i {
          DispatchedAppend(s.requests, s1.requests[|s.requests|], s.clients[j].serial);
          assert s.clients[j].serial != c.serial;
        }
      }
    }
  }

  lemma {:induction false} OnBytesFrames(w: World, s: State, i: nat, bytes: string)
    requires i < |s.clients| && Framed(s)
    ensures Framed(OnBytes(w, s, i, bytes).0)
    decreases |bytes|
  {
    if bytes != [] {
      OnByteFrames(w, s, i, bytes[0]);
      OnRequestShape(w, s, i);
      hide OnByte, Framed;
      if OnByte(w, s, i, bytes[0]).1 { OnBytesFrames(w, OnByte(w, s, i, bytes[0]).0, i, bytes[1..]); }
    }
  }

  lemma {:induction false} StartReadFrames(w: World, s: State, i: nat, script: ReadScript)
    requires i < |s.clients| && Framed(s)
    ensures Framed(StartRead(w, s, i, script).0)
    decreases script
  {
    match script
    case Ready(bytes, rest) =>
      if bytes != [] {
        OnBytesFrames(w, s, i, bytes);
        hide Framed, OnBytes;
        var r := OnBytes(w, s, i, bytes);
        if r.1 { StartReadFrames(w, r.0, i, rest); }
      }
    case _ =>
  }

  lemma RemoveFrames(s: State, i: nat)
    requires i < |s.clients| && Framed(s)
    ensures Framed(RemoveClient(s, i))
  {
  }

  lemma PreparedFrames(s: State, a: Arrival)
    requires Framed(s) && |s.clients| < MAX_CLIENTS
    requires Fresh(s, a)
    ensures Framed(Prepared(s, a))
  {
    var s1 := Prepared(s, a);
    NothingDispatched(s.requests, s.nextSerial);
    forall j | 0 <= j < |s1.clients| ensures FramedClient(s1.requests, s1.clients[j]) {
      if j < |s.clients| { assert FramedClient(s.requests, s.clients[j]); }
    }
  }

  lemma PrefixFrames(s: State, n: nat)
    requires Framed(s) && n <= |s.clients|
    ensures Framed(s.(clients := s.clients[..n]))
  {
  }

  lemma AcceptFrames(w: World, s: State, a: Arrival)
    requires Framed(s) && Fresh(s, a)
    ensures Framed(Accept(w, s, a))
  {
    if |s.clients| < MAX_CLIENTS {
      PreparedFrames(s, a);
      StartReadFrames(w, Prepared(s, a), |s.clients|, a.script);
      PrefixFrames(StartRead(w, Prepared(s, a), |s.clients|, a.script).0, |s.clients|);
    }
  }

  lemma ReadClientFrames(w: World, s: State, i: nat, event: ReadEvent)
    requires i < |s.clients| && Framed(s)
    ensures Framed(ReadClient(w, s, i, event).0)
  {
    if s.clients[i].armed && event.Finished? {
      var s1 := s.(clients := s.clients[i := s.clients[i].(armed := false)]);
      assert Framed(s1);
      assert |s.slots| == NUM_KINDS;
      hide Framed, RemoveClient;
      if !event.ok || event.bytes == [] {
        RemoveFrames(s1, i);
      } else {
        OnBytesFrames(w, s1, i, event.bytes);
        var r := OnBytes(w, s1, i, event.bytes);
        StartReadFrames(w, r.0, i, event.rearm);
        if !r.1 { RemoveFrames(r.0, i); }
        else if StartRead(w, r.0, i, event.rearm).1 != Armed { RemoveFrames(StartRead(w, r.0, i, event.rearm).0, i); }
      }
    }
  }

  lemma {:induction false} ReadPassFrames(w: World, s: State, inbox: nat -> ReadEvent, i: nat)
    requires i <= |s.clients| && Framed(s)
    ensures Framed(ReadFrom(w, s, inbox, i).0)
    decreases |s.clients| - i
  {
    if i < |s.clients| {
      var event := inbox(s.clients[i].serial);
      ReadClientFrames(w, s, i, event);
      var r := ReadClient(w, s, i, event);
      ReadPassFrames(w, r.0, inbox, if r.1 then i + 1 else i);
    }
  }

  lemma DrainSlotFrames(w: World, s: State, env: PassEnv, k: Kind)
    requires Framed(s)
    ensures Framed(DrainSlot(w, s, env, k))
  {
    var slots := Interfere(w, s.slots, env.gap(k));
    var s1 := Emptied(Land(w, s, env.gap(k)), k);
    assert Framed(s1);
    var i := Find(s1.clients, slots[k].fd);
    if slots[k].state == Completed && i != -1 && !env.delivered(k) { RemoveFrames(s1, i); }
  }

  lemma {:induction false} DrainFrames(w: World, s: State, env: PassEnv, k: nat)
    requires Framed(s) && k <= NUM_KINDS
    ensures Framed(DrainFrom(w, s, env, k))
    decreases NUM_KINDS - k
  {
    if k < NUM_KINDS {
      DrainSlotFrames(w, s, env, k);
      DrainFrames(w, DrainSlot(w, s, env, k), env, k + 1);
    }
  }

  lemma {:induction false} TurnsFrame(w: World, s: State, turns: seq<Turn>)
    requires Framed(s) && FreshTurns(w, s, turns)
    ensures Framed(DoTurns(w, s, turns))
    decreases |turns|
  {
    if turns != [] {
      var t := turns[0];
      DrainFrames(w, s, t.drain, 0);
      var s1 := DrainFrom(w, s, t.drain, 0);
      hide Framed, DrainFrom, Accept;
      if t.accept.Some? { AcceptFrames(w, s1, t.accept.value); }
      var s2 := match t.accept case None => s1 case Some(a) => Accept(w, s1, a);
      ReadPassFrames(w, s2, t.inbox, 0);
      TurnsFrame(w, DoTurn(w, s, t), turns[1..]);
    }
  }

  /** In every run, the requests dispatched for a connected client are exactly the lines of the
      bytes it has sent, in order, whole when they fit and flagged too large otherwise, and its
      buffer holds the unfinished line. The read boundaries do not occur in the statement. */
  lemma EveryRunDispatchesTheLines(w: World, turns: seq<Turn>, i: nat)
    requires FreshTurns(w, Initial(), turns)
    ensures var s := DoTurns(w, Initial(), turns);
      i < |s.clients| ==>
        && Dispatched(s.requests, s.clients[i].serial) == CutAll(Lines(s.clients[i].received))
        && Buffered(s.clients[i])
  {
    assert Framed(Initial());
    TurnsFrame(w, Initial(), turns);
  }

  /** Two reads do what one read of their concatenation does. */
  lemma {:induction false} ChunksConcatenate(w: World, s: State, i: nat, a: string, b: string)
    requires i < |s.clients| && |s.slots| == NUM_KINDS
    ensures var r := OnBytes(w, s, i, a); OnBytes(w, s, i, a + b) == if r.1 then OnBytes(w, r.0, i, b) else r
    decreases |a|
  {
    if a == [] {
      assert a + b == b;
    } else {
      OnRequestShape(w, s, i);
      hide OnByte;
      assert (a + b)[1..] == a[1..] + b;
      ChunksConcatenate(w, OnByte(w, s, i, a[0]).0, i, a[1..], b);
    }
  }

  // ---- occupied slots ------------------------------------------------------------------------

  /** A request whose slot is occupied is refused: no handler runs, the slot keeps its owner,
      and the client is told why. */
  lemma OccupiedSlotRefuses(w: World, s: State, i: nat, id: int, name: string, options: Option<string>, k: Kind)
    requires i < |s.clients| && |s.slots| == NUM_KINDS
    requires !s.clients[i].tooLarge && !OnlyWhitespace(s.clients[i].request)
    requires w.parse(s.clients[i].request) == Parsed(id, name, options) && DeferredKind(name) == Some(k)
    requires s.slots[k].state != Empty
    ensures var r := OnRequest(w, s, i); var env := w.env(|s.requests|);
      && r.0.calls == s.calls
      && r.0.slots == Interfere(w, s.slots, env.before)
      && r.0.slots[k].ticket == s.slots[k].ticket && r.0.slots[k].fd == s.slots[k].fd && r.0.slots[k].state != Empty
      && (env.delivered ==>
           r.0.replies == s.replies + [Reply(|s.requests|, s.clients[i].pipe, s.clients[i].serial, id,
             Error(AlreadyPendingError(k)), |s.reports| + |env.before|)])
      && r.1 == env.delivered
  {
    InterfereKeepsHolders(w, s.slots, w.env(|s.requests|).before);
  }

  lemma {:induction false} InterfereKeepsResult(w: World, slots: seq<Slot>, cs: seq<Completion>, k: Kind)
    requires |slots| == NUM_KINDS && slots[k].state == Completed
    ensures Interfere(w, slots, cs)[k] == slots[k]
    decreases |cs|
  {
    if cs != [] { InterfereKeepsResult(w, Complete(w, slots, cs[0]), cs[1..], k); }
  }

  /** Whatever clients send, a result waiting to be drained stays as it is. */
  lemma {:induction false} ResultSurvivesInput(w: World, s: State, i: nat, bytes: string, k: Kind)
    requires i < |s.clients| && |s.slots| == NUM_KINDS && s.slots[k].state == Completed
    ensures OnBytes(w, s, i, bytes).0.slots[k] == s.slots[k]
    decreases |bytes|
  {
    if bytes != [] {
      OnRequestShape(w, s, i);
      ResultSurvivesRequest(w, s, i, k);
      var r := OnByte(w, s, i, bytes[0]);
      if r.1 { ResultSurvivesInput(w, r.0, i, bytes[1..], k); }
    }
  }

  lemma ResultSurvivesRequest(w: World, s: State, i: nat, k: Kind)
    requires i < |s.clients| && |s.slots| == NUM_KINDS && s.slots[k].state == Completed
    ensures OnRequest(w, s, i).0.slots[k] == s.slots[k]
  {
    var env := w.env(|s.requests|);
    InterfereKeepsResult(w, s.slots, env.before, k);
    var s1 := Land(w, s.(requests := OnRequest(w, s, i).0.requests), env.before);
    if !s.clients[i].tooLarge && !OnlyWhitespace(s.clients[i].request) {
      match w.parse(s.clients[i].request)
      case Malformed(id, message) =>
      case Parsed(id, name, options) =>
        match DeferredKind(name)
        case None =>
        case Some(j) =>
          if s1.slots[j].state == Empty {
            var registered := s1.slots[j := Slot(Pending, s.clients[i].pipe, id, false, None, |s.requests|)];
            InterfereKeepsResult(w, registered, env.during, k);
          }
    }
  }
}
