/** The engine's named-pipe IPC server (platform/windows/gsr_ipc_win32.c) as functions on
    a state value. Everything the server cannot decide itself comes from a `World` or from
    a script argument: what the JSON parser and the handlers return, which reads and writes
    succeed, and which completions the recorder thread slips in between two sections that
    take the deferred-request mutex. The class in IpcServer.dfy refines these functions. */
module IpcProtocol {
  import opened Options

  const MAX_CLIENTS: nat := 8
  const MAX_REQUEST_SIZE: nat := 4096
  const NUM_KINDS: nat := 3

  /** A pipe handle. The operating system may hand out the number of a closed pipe again. */
  type Pipe = int

  /** A deferred request type: 0 = stop, 1 = save-replay, 2 = stop-replay-recording. */
  type Kind = k: nat | k < NUM_KINDS

  datatype SlotState = Empty | Pending | Completed

  /** `ticket` is bookkeeping of the model: the number of the request that registered here.
      No branch reads it. */
  datatype Slot = Slot(state: SlotState, fd: Pipe, id: int, success: bool, file: Option<string>, ticket: nat)

  /** `serial` and `received` are bookkeeping: a number no two connections share, and every
      byte the connection has delivered. No branch reads them. */
  datatype Client = Client(pipe: Pipe, request: string, tooLarge: bool, armed: bool, serial: nat, received: string)

  /** A request line as the dispatcher sees it. */
  datatype Line = Whole(text: string) | TooLarge

  /** A dispatched request line; its index in the log is its ticket. `since` counts the completions
      reported before it was looked at. */
  datatype Request = Request(serial: nat, pipe: Pipe, line: Line, since: nat)

  datatype Body = Ok | OkData(data: string) | Error(message: string)

  /** A completely written reply. `serial` is the connection it was written to; `at` counts the
      completions reported before it was written. */
  datatype Reply = Reply(ticket: nat, pipe: Pipe, serial: nat, id: int, body: Body, at: nat)

  /** `calls` lists the tickets for which a handler of the recorder was called. `orphans` is
      bookkeeping: the tickets that were still registered when ipc_add_client closed the pipe of
      their client. `reports` lists the calls of gsr_ipc_complete_request, whatever they met. No
      branch reads any of them. */
  datatype State = State(
    clients: seq<Client>,
    slots: seq<Slot>,
    requests: seq<Request>,
    replies: seq<Reply>,
    calls: seq<nat>,
    nextSerial: nat,
    orphans: set<nat>,
    reports: seq<Completion>)

  /** What ipc_request_parse finds; `options` is the complaint about a malformed "data". */
  datatype Parse = Malformed(id: int, message: string) | Parsed(id: int, name: string, options: Option<string>)

  /** One call of gsr_ipc_complete_request on the recorder thread. */
  datatype Completion = Completion(kind: Kind, success: bool, file: Option<string>)

  /** The surroundings of one dispatched request: completions before the slot is looked at and
      while the handler runs, the handler's verdict, and whether an immediate reply gets out. */
  datatype RequestEnv = RequestEnv(before: seq<Completion>, during: seq<Completion>,
                                   accepted: bool, message: string, delivered: bool)

  datatype World = World(parse: string -> Parse, env: nat -> RequestEnv, fileRoom: nat)

  /** The surroundings of one pass over the slots. */
  datatype PassEnv = PassEnv(gap: Kind -> seq<Completion>, delivered: Kind -> bool)

  /** What successive ReadFile calls on one pipe return. */
  datatype ReadScript = Ready(bytes: string, rest: ReadScript) | WouldBlock | Gone | Failed

  datatype ReadCode = Armed | Disconnected | Failure

  /** The state of a client's overlapped read when the read pass looks at it. */
  datatype ReadEvent = NotReady | Finished(ok: bool, bytes: string, rearm: ReadScript)

  datatype Arrival = Arrival(pipe: Pipe, script: ReadScript)

  /** One turn of the server loop; `inbox` is indexed by connection serial. */
  datatype Turn = Turn(drain: PassEnv, accept: Option<Arrival>, inbox: nat -> ReadEvent)

  // ---- deferred slots ----------------------------------------------------

  const FREE_SLOT := Slot(Empty, 0, 0, false, None, 0)

  function DeferredKind(name: string): Option<Kind> {
    if name == "stop" then Some(0)
    else if name == "save-replay" then Some(1)
    else if name == "stop-replay-recording" then Some(2)
    else None
  }

  function AlreadyPendingError(k: Kind): string {
    if k == 0 then "GPU Screen Recorder is already stopping"
    else if k == 1 then "a replay is already being saved"
    else "the recording is already being stopped"
  }

  function FailedError(k: Kind): string {
    if k == 1 then "failed to save the replay" else "failed to save the recording"
  }

  const EXITED_ERROR := "GPU Screen Recorder exited before the request finished"

  /** snprintf into the slot's file path buffer keeps what fits. */
  function Fit(w: World, file: Option<string>): Option<string> {
    match file
    case None => None
    case Some(path) => Some(if |path| <= w.fileRoom then path else path[..w.fileRoom])
  }

  /** gsr_ipc_complete_request: only a pending slot takes the result. */
  function Complete(w: World, slots: seq<Slot>, c: Completion): (r: seq<Slot>)
    requires |slots| == NUM_KINDS
    ensures |r| == NUM_KINDS
  {
    if slots[c.kind].state != Pending then slots
    else slots[c.kind := slots[c.kind].(state := Completed, success := c.success, file := Fit(w, c.file))]
  }

  function Interfere(w: World, slots: seq<Slot>, cs: seq<Completion>): (r: seq<Slot>)
    requires |slots| == NUM_KINDS
    ensures |r| == NUM_KINDS
    decreases |cs|
  {
    if cs == [] then slots else Interfere(w, Complete(w, slots, cs[0]), cs[1..])
  }

  /** Completions land between two sections of the server. */
  function Land(w: World, s: State, cs: seq<Completion>): (r: State)
    requires |s.slots| == NUM_KINDS
    ensures |r.slots| == NUM_KINDS && r == s.(slots := Interfere(w, s.slots, cs), reports := s.reports + cs)
  {
    s.(slots := Interfere(w, s.slots, cs), reports := s.reports + cs)
  }

  function Release(slot: Slot, pipe: Pipe): Slot {
    if slot.state != Empty && slot.fd == pipe then slot.(state := Empty) else slot
  }

  function ReleaseAll(slots: seq<Slot>, pipe: Pipe): seq<Slot> {
    seq(|slots|, k requires 0 <= k < |slots| => Release(slots[k], pipe))
  }

  // ---- clients -------------------------------------------------------------

  /** ipc_find_client_index_by_pipe: the first match, or -1. */
  function Find(clients: seq<Client>, pipe: Pipe): (i: int)
    ensures i == -1 <==> forall j :: 0 <= j < |clients| ==> clients[j].pipe != pipe
    ensures i != -1 ==> 0 <= i < |clients| && clients[i].pipe == pipe
    ensures i != -1 ==> forall j :: 0 <= j < i ==> clients[j].pipe != pipe
  {
    if clients == [] then -1
    else if clients[0].pipe == pipe then 0
    else
      var i := Find(clients[1..], pipe);
      assert forall j :: 1 <= j < |clients| ==> clients[j] == clients[1..][j - 1];
      if i == -1 then -1 else i + 1
  }

  /** Writes one reply; a write that fails leaves nothing in the log and returns false. */
  function SendReply(s: State, i: nat, ticket: nat, id: int, body: Body, delivered: bool): (r: (State, bool))
    requires i < |s.clients|
  {
    if delivered
    then
      (s.(replies := s.replies + [Reply(ticket, s.clients[i].pipe, s.clients[i].serial, id, body, |s.reports|)]), true)
    else (s, false)
  }

  /** ipc_remove_client: releases the client's slots and closes the gap in the table. */
  function RemoveClient(s: State, i: nat): State
    requires i < |s.clients|
  {
    s.(slots := ReleaseAll(s.slots, s.clients[i].pipe), clients := s.clients[..i] + s.clients[i + 1..])
  }

  // ---- requests --------------------------------------------------------------

  predicate IsBlank(c: char) { c == ' ' || c == '\t' || c == '\r' }

  predicate OnlyWhitespace(text: string) { forall j :: 0 <= j < |text| ==> IsBlank(text[j]) }

  /** The id that every reply to `line` carries. */
  function IdOf(w: World, line: Line): int {
    match line
    case TooLarge => 0
    case Whole(text) => if OnlyWhitespace(text) then 0 else w.parse(text).id
  }

  datatype Verdict = Verdict(called: bool, ok: bool, message: string)

  /** ipc_handle_request: whether a handler is called, whether the request succeeds, and the
      error message when it does not. */
  function Handle(name: string, options: Option<string>, env: RequestEnv): Verdict {
    if name == "stop" || name == "toggle-pause" || name == "toggle-replay-recording"
       || name == "start-replay-recording" || name == "stop-replay-recording"
    then Verdict(true, env.accepted, env.message)
    else if name == "set-paused" || name == "save-replay" then
      match options
      case Some(complaint) => Verdict(false, false, complaint)
      case None => Verdict(true, env.accepted, env.message)
    else Verdict(false, false, "unknown request name '" + name + "'")
  }

  function Emptied(s: State, k: Kind): (r: State)
    requires |s.slots| == NUM_KINDS
    ensures |r.slots| == NUM_KINDS
  {
    s.(slots := s.slots[k := s.slots[k].(state := Empty)])
  }

  /** The part of ipc_client_on_request that follows a successful parse. */
  function OnParsed(w: World, s: State, i: nat, ticket: nat, id: int, name: string, options: Option<string>):
      (r: (State, bool))
    requires i < |s.clients| && |s.slots| == NUM_KINDS
  {
    var env := w.env(ticket);
    var h := Handle(name, options, env);
    match DeferredKind(name)
    case None =>
      var s1 := if h.called then s.(calls := s.calls + [ticket]) else s;
      SendReply(s1, i, ticket, id, if h.ok then Ok else Error(h.message), env.delivered)
    case Some(k) =>
      if s.slots[k].state != Empty then
        SendReply(s, i, ticket, id, Error(AlreadyPendingError(k)), env.delivered)
      else
        var s1 := if h.called then s.(calls := s.calls + [ticket]) else s;
        var registered := s1.(slots := s.slots[k := Slot(Pending, s.clients[i].pipe, id, false, None, ticket)]);
        var handled := Land(w, registered, env.during);
        if h.ok then (handled, true)
        else SendReply(Emptied(handled, k), i, ticket, id, Error(h.message), env.delivered)
  }

  /** The request that client i has completed, for the log. */
  function NewRequest(w: World, s: State, i: nat): Request
    requires i < |s.clients|
  {
    var c := s.clients[i];
    Request(c.serial, c.pipe, if c.tooLarge then TooLarge else Whole(c.request),
            |s.reports| + |w.env(|s.requests|).before|)
  }

  /** ipc_client_on_request; returns false when the client has to be disconnected. */
  function OnRequest(w: World, s: State, i: nat): (r: (State, bool))
    requires i < |s.clients| && |s.slots| == NUM_KINDS
  {
    var c := s.clients[i];
    var ticket := |s.requests|;
    var env := w.env(ticket);
    var s1 := Land(w, s.(requests := s.requests + [NewRequest(w, s, i)]), env.before);
    if c.tooLarge then SendReply(s1, i, ticket, 0, Error("the request is too large"), env.delivered)
    else if OnlyWhitespace(c.request) then SendReply(s1, i, ticket, 0, Error("the request is empty"), env.delivered)
    else
      match w.parse(c.request)
      case Malformed(id, message) => SendReply(s1, i, ticket, id, Error(message), env.delivered)
      case Parsed(id, name, options) => OnParsed(w, s1, i, ticket, id, name, options)
  }

  function Store(c: Client, b: char): Client {
    if |c.request| < MAX_REQUEST_SIZE then c.(request := c.request + [b], received := c.received + [b])
    else c.(tooLarge := true, received := c.received + [b])
  }

  function Restart(c: Client): Client {
    c.(request := [], tooLarge := false, received := c.received + ['\n'])
  }

  /** One byte of ipc_client_on_bytes. */
  function OnByte(w: World, s: State, i: nat, b: char): (r: (State, bool))
    requires i < |s.clients| && |s.slots| == NUM_KINDS
  {
    if b != '\n' then (s.(clients := s.clients[i := Store(s.clients[i], b)]), true)
    else
      var r := OnRequest(w, s, i);
      OnRequestShape(w, s, i);
      (r.0.(clients := r.0.clients[i := Restart(r.0.clients[i])]), r.1)
  }

  /** A request changes neither the client table nor the number of slots, and is logged once. */
  lemma OnRequestShape(w: World, s: State, i: nat)
    requires i < |s.clients| && |s.slots| == NUM_KINDS
    ensures OnRequest(w, s, i).0.clients == s.clients
    ensures |OnRequest(w, s, i).0.slots| == NUM_KINDS
    ensures OnRequest(w, s, i).0.nextSerial == s.nextSerial && OnRequest(w, s, i).0.orphans == s.orphans
    ensures OnRequest(w, s, i).0.requests == s.requests + [NewRequest(w, s, i)]
  {
  }

  /** ipc_client_on_bytes. */
  function OnBytes(w: World, s: State, i: nat, bytes: string): (r: (State, bool))
    requires i < |s.clients| && |s.slots| == NUM_KINDS
    ensures |r.0.slots| == NUM_KINDS && |r.0.clients| == |s.clients| && r.0.nextSerial == s.nextSerial
    ensures r.0.orphans == s.orphans
    decreases |bytes|
  {
    if bytes == [] then (s, true)
    else
      OnRequestShape(w, s, i);
      var r := OnByte(w, s, i, bytes[0]);
      if !r.1 then r else OnBytes(w, r.0, i, bytes[1..])
  }

  /** ipc_client_start_read, with the chunks that complete synchronously. */
  function StartRead(w: World, s: State, i: nat, script: ReadScript): (r: (State, ReadCode))
    requires i < |s.clients| && |s.slots| == NUM_KINDS
    ensures |r.0.slots| == NUM_KINDS && |r.0.clients| == |s.clients| && r.0.nextSerial == s.nextSerial
    ensures r.0.orphans == s.orphans
    decreases script
  {
    match script
    case Failed => (s, Failure)
    case Gone => (s, Disconnected)
    case WouldBlock => (s.(clients := s.clients[i := s.clients[i].(armed := true)]), Armed)
    case Ready(bytes, rest) =>
      if bytes == [] then (s, Disconnected)
      else
        var r := OnBytes(w, s, i, bytes);
        if !r.1 then (r.0, Disconnected) else StartRead(w, r.0, i, rest)
  }

  // ---- the server loop ---------------------------------------------------------

  function NewClient(s: State, a: Arrival): Client { Client(a.pipe, [], false, false, s.nextSerial, []) }

  /** The state in which ipc_add_client issues the first read: the entry behind the last
      client is filled in but not counted yet. */
  function Prepared(s: State, a: Arrival): State {
    s.(clients := s.clients + [NewClient(s, a)], nextSerial := s.nextSerial + 1)
  }

  /** The tickets that slots hold for one connection. */
  function HeldFor(s: State, serial: nat): set<nat>
    requires |s.slots| == NUM_KINDS
  {
    set k | 0 <= k < NUM_KINDS && s.slots[k].state != Empty && s.slots[k].ticket < |s.requests|
            && s.requests[s.slots[k].ticket].serial == serial :: s.slots[k].ticket
  }

  /** ipc_add_client. The entry is counted only when its first read stays pending; otherwise
      the pipe is closed and the slots stay as they are. */
  function Accept(w: World, s: State, a: Arrival): (r: State)
    requires |s.slots| == NUM_KINDS
    ensures |r.slots| == NUM_KINDS
  {
    if |s.clients| >= MAX_CLIENTS then s
    else
      var r := StartRead(w, Prepared(s, a), |s.clients|, a.script);
      if r.1 == Armed then r.0
      else r.0.(clients := r.0.clients[..|s.clients|], orphans := r.0.orphans + HeldFor(r.0, s.nextSerial))
  }

  /** The reply to a request whose slot was emptied, if its client can still be found. */
  function Deliver(s: State, slot: Slot, body: Body, delivered: bool): (r: State)
    requires |s.slots| == NUM_KINDS
    ensures |r.slots| == NUM_KINDS
    ensures r.orphans == s.orphans
  {
    var i := Find(s.clients, slot.fd);
    if i == -1 then s
    else
      var r := SendReply(s, i, slot.ticket, slot.id, body, delivered);
      if r.1 then r.0 else RemoveClient(r.0, i)
  }

  function ResultBody(k: Kind, slot: Slot): Body {
    if !slot.success then Error(FailedError(k))
    else match slot.file case Some(path) => OkData(path) case None => Ok
  }

  /** One iteration of ipc_send_completed_request_replies. */
  function DrainSlot(w: World, s: State, env: PassEnv, k: Kind): (r: State)
    requires |s.slots| == NUM_KINDS
    ensures |r.slots| == NUM_KINDS
    ensures r.orphans == s.orphans
  {
    var s1 := Land(w, s, env.gap(k));
    if s1.slots[k].state != Completed then s1
    else Deliver(Emptied(s1, k), s1.slots[k], ResultBody(k, s1.slots[k]), env.delivered(k))
  }

  function DrainFrom(w: World, s: State, env: PassEnv, k: nat): (r: State)
    requires |s.slots| == NUM_KINDS && k <= NUM_KINDS
    ensures |r.slots| == NUM_KINDS
    ensures r.orphans == s.orphans
    decreases NUM_KINDS - k
  {
    if k == NUM_KINDS then s else DrainFrom(w, DrainSlot(w, s, env, k), env, k + 1)
  }

  /** One iteration of ipc_fail_pending_requests: every slot is emptied, only a pending one
      is answered. */
  function FailSlot(w: World, s: State, env: PassEnv, k: Kind): (r: State)
    requires |s.slots| == NUM_KINDS
    ensures |r.slots| == NUM_KINDS
    ensures r.orphans == s.orphans
  {
    var s1 := Land(w, s, env.gap(k));
    if s1.slots[k].state != Pending then Emptied(s1, k)
    else Deliver(Emptied(s1, k), s1.slots[k], Error(EXITED_ERROR), env.delivered(k))
  }

  function FailFrom(w: World, s: State, env: PassEnv, k: nat): (r: State)
    requires |s.slots| == NUM_KINDS && k <= NUM_KINDS
    ensures |r.slots| == NUM_KINDS
    ensures r.orphans == s.orphans
    decreases NUM_KINDS - k
  {
    if k == NUM_KINDS then s else FailFrom(w, FailSlot(w, s, env, k), env, k + 1)
  }

  /** The treatment of client i in the read pass; false when it was removed. */
  function ReadClient(w: World, s: State, i: nat, event: ReadEvent): (r: (State, bool))
    requires i < |s.clients| && |s.slots| == NUM_KINDS
    ensures |r.0.slots| == NUM_KINDS
    ensures |r.0.clients| == if r.1 then |s.clients| else |s.clients| - 1
    ensures r.0.orphans == s.orphans
  {
    if !s.clients[i].armed || event.NotReady? then (s, true)
    else
      var s1 := s.(clients := s.clients[i := s.clients[i].(armed := false)]);
      if !event.ok || event.bytes == [] then (RemoveClient(s1, i), false)
      else
        var r := OnBytes(w, s1, i, event.bytes);
        if !r.1 then (RemoveClient(r.0, i), false)
        else
          var q := StartRead(w, r.0, i, event.rearm);
          if q.1 != Armed then (RemoveClient(q.0, i), false) else (q.0, true)
  }

  /** The read pass from index i on, with the serials of the clients it looked at. Removing
      client i moves the next client to i, so the index stays. */
  function ReadFrom(w: World, s: State, inbox: nat -> ReadEvent, i: nat): (r: (State, seq<nat>))
    requires i <= |s.clients| && |s.slots| == NUM_KINDS
    ensures |r.0.slots| == NUM_KINDS
    ensures r.0.orphans == s.orphans
    decreases |s.clients| - i
  {
    if i == |s.clients| then (s, [])
    else
      var serial := s.clients[i].serial;
      var r := ReadClient(w, s, i, inbox(serial));
      var q := ReadFrom(w, r.0, inbox, if r.1 then i + 1 else i);
      (q.0, [serial] + q.1)
  }

  function DoTurn(w: World, s: State, t: Turn): (r: State)
    requires |s.slots| == NUM_KINDS
    ensures |r.slots| == NUM_KINDS
  {
    var s1 := DrainFrom(w, s, t.drain, 0);
    var s2 := match t.accept case None => s1 case Some(a) => Accept(w, s1, a);
    ReadFrom(w, s2, t.inbox, 0).0
  }

  function DoTurns(w: World, s: State, turns: seq<Turn>): (r: State)
    requires |s.slots| == NUM_KINDS
    ensures |r.slots| == NUM_KINDS
    decreases |turns|
  {
    if turns == [] then s else DoTurns(w, DoTurn(w, s, turns[0]), turns[1..])
  }

  /** The two passes that end ipc_thread. */
  function Finish(w: World, s: State, drain: PassEnv, fail: PassEnv): (r: State)
    requires |s.slots| == NUM_KINDS
    ensures |r.slots| == NUM_KINDS
    ensures r.orphans == s.orphans
  {
    FailFrom(w, DrainFrom(w, s, drain, 0), fail, 0)
  }

  /** ipc_thread: turns, then the drain of the turn that sees the shutdown event, then the
      final passes. */
  function Thread(w: World, s: State, turns: seq<Turn>, stop: PassEnv, drain: PassEnv, fail: PassEnv): (r: State)
    requires |s.slots| == NUM_KINDS
    ensures |r.slots| == NUM_KINDS
  {
    Finish(w, DrainFrom(w, DoTurns(w, s, turns), stop, 0), drain, fail)
  }

  /** The state after gsr_ipc_init. */
  function Initial(): State { State([], [FREE_SLOT, FREE_SLOT, FREE_SLOT], [], [], [], 0, {}, []) }
}
