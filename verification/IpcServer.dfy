/** The IPC server as the source writes it: a fixed client table compacted in place, a slot
    array shared with the recorder thread, and loops over both. Every method is proved to do
    what its function in IpcProtocol says. */
module IpcServer {
  import opened Options
  import opened IpcProtocol

  lemma FindIs(clients: seq<Client>, pipe: Pipe, i: int)
    requires -1 <= i < |clients|
    requires i >= 0 ==> clients[i].pipe == pipe
    requires forall j :: 0 <= j < (if i >= 0 then i else |clients|) ==> clients[j].pipe != pipe
    ensures Find(clients, pipe) == i
  {
  }

  /** One step of the read pass, behind the clients visited so far. */
  lemma ReadStep(w: World, s: State, inbox: nat -> ReadEvent, i: nat, visited: seq<nat>)
    requires i < |s.clients| && |s.slots| == NUM_KINDS
    ensures var r := ReadClient(w, s, i, inbox(s.clients[i].serial));
      var rest := ReadFrom(w, r.0, inbox, if r.1 then i + 1 else i);
      && ReadFrom(w, s, inbox, i).0 == rest.0
      && visited + ReadFrom(w, s, inbox, i).1 == visited + [s.clients[i].serial] + rest.1
  {
  }

  lemma ReadDone(w: World, s: State, inbox: nat -> ReadEvent)
    requires |s.slots| == NUM_KINDS
    ensures ReadFrom(w, s, inbox, |s.clients|) == (s, [])
  {
  }

  lemma DrainStep(w: World, s: State, env: PassEnv, k: Kind)
    requires |s.slots| == NUM_KINDS
    ensures DrainFrom(w, s, env, k) == DrainFrom(w, DrainSlot(w, s, env, k), env, k + 1)
  {
    hide DrainSlot;
  }

  lemma DrainEnds(w: World, s: State, env: PassEnv)
    requires |s.slots| == NUM_KINDS
    ensures DrainFrom(w, s, env, NUM_KINDS) == s
  {
  }

  lemma FailStep(w: World, s: State, env: PassEnv, k: Kind)
    requires |s.slots| == NUM_KINDS
    ensures FailFrom(w, s, env, k) == FailFrom(w, FailSlot(w, s, env, k), env, k + 1)
  {
    hide FailSlot;
  }

  lemma FailEnds(w: World, s: State, env: PassEnv)
    requires |s.slots| == NUM_KINDS
    ensures FailFrom(w, s, env, NUM_KINDS) == s
  {
  }

  lemma GapClosed(before: seq<Client>, after: seq<Client>, i: nat, n: nat)
    requires i < n <= |before| == |after|
    requires forall m :: 0 <= m < i ==> after[m] == before[m]
    requires forall m :: i <= m < n - 1 ==> after[m] == before[m + 1]
    ensures after[..n - 1] == before[..n][..i] + before[..n][i + 1..]
  {
  }

  class Server {
    const w: World
    const clients: array<Client>
    const slots: array<Slot>
    var numClients: nat
    var nextSerial: nat
    ghost var requests: seq<Request>
    ghost var replies: seq<Reply>
    ghost var calls: seq<nat>
    ghost var orphans: set<nat>
    ghost var reports: seq<Completion>
    // The model's clock of requests; it tells the surroundings which request is meant.
    var numRequests: nat

    ghost predicate Valid()
      reads this
    {
      && clients.Length == MAX_CLIENTS
      && slots.Length == NUM_KINDS
      && numClients <= MAX_CLIENTS
      && numRequests == |requests|
    }

    /** The state, counting the first n table entries. */
    ghost function Abs(n: nat): (s: State)
      requires Valid() && n <= MAX_CLIENTS
      reads this, clients, slots
      ensures |s.slots| == NUM_KINDS && |s.clients| == n
    {
      State(clients[..n], slots[..], requests, replies, calls, nextSerial, orphans, reports)
    }

    ghost function Now(): (s: State)
      requires Valid()
      reads this, clients, slots
      ensures |s.slots| == NUM_KINDS
    {
      Abs(numClients)
    }

    /** gsr_ipc_init: an empty table and three free slots. */
    constructor (w: World, filler: Client)
      ensures Valid() && this.w == w && numClients == 0
      ensures Now() == Initial()
      ensures fresh(clients) && fresh(slots)
    {
      this.w := w;
      clients := new Client[MAX_CLIENTS](_ => filler);
      slots := new Slot[NUM_KINDS](_ => FREE_SLOT);
      numClients := 0;
      nextSerial := 0;
      numRequests := 0;
      requests, replies, calls, orphans, reports := [], [], [], {}, [];
    }

    // ---- the recorder thread ------------------------------------------------------

    /** gsr_ipc_complete_request. */
    method CompleteRequest(c: Completion)
      requires Valid()
      modifies this`reports, slots
      ensures slots[..] == Complete(w, old(slots[..]), c) && reports == old(reports) + [c]
    {
      reports := reports + [c];
      if slots[c.kind].state == Pending {
        slots[c.kind] := slots[c.kind].(state := Completed, success := c.success, file := Fit(w, c.file));
      }
    }

    /** Any number of completions between two sections that hold the mutex. */
    method RecorderRuns(cs: seq<Completion>)
      requires Valid()
      modifies this`reports, slots
      ensures slots[..] == Interfere(w, old(slots[..]), cs) && reports == old(reports) + cs
    {
      var i := 0;
      while i < |cs|
        invariant i <= |cs|
        invariant Interfere(w, slots[..], cs[i..]) == Interfere(w, old(slots[..]), cs)
        invariant reports == old(reports) + cs[..i]
      {
        assert cs[i..][1..] == cs[i + 1..];
        CompleteRequest(cs[i]);
        i := i + 1;
      }
    }

    // ---- replies and slots ----------------------------------------------------------

    /** ipc_client_send_reply, as far as the log is concerned. */
    method Send(i: nat, ghost n: nat, ticket: nat, id: int, body: Body, delivered: bool) returns (ok: bool)
      requires Valid() && i < n <= MAX_CLIENTS
      modifies this`replies
      ensures Valid() && (Abs(n), ok) == SendReply(old(Abs(n)), i, ticket, id, body, delivered)
    {
      if delivered { replies := replies + [Reply(ticket, clients[i].pipe, clients[i].serial, id, body, |reports|)]; }
      ok := delivered;
    }

    /** ipc_set_deferred_request_pending. */
    method SetPending(k: Kind, pipe: Pipe, id: int, ticket: nat) returns (wasEmpty: bool)
      requires Valid()
      modifies slots
      ensures wasEmpty == (old(slots[k]).state == Empty)
      ensures slots[..] ==
        if wasEmpty then old(slots[..])[k := Slot(Pending, pipe, id, false, None, ticket)] else old(slots[..])
    {
      wasEmpty := slots[k].state == Empty;
      if wasEmpty { slots[k] := Slot(Pending, pipe, id, false, None, ticket); }
    }

    /** ipc_clear_deferred_request. */
    method ClearSlot(k: Kind)
      requires Valid()
      modifies slots
      ensures slots[..] == old(slots[..])[k := old(slots[k]).(state := Empty)]
    {
      slots[k] := slots[k].(state := Empty);
    }

    /** string_is_only_whitespace. */
    method IsOnlyWhitespace(text: string) returns (r: bool)
      ensures r == OnlyWhitespace(text)
    {
      for i := 0 to |text|
        invariant forall j :: 0 <= j < i ==> IsBlank(text[j])
      {
        if text[i] != ' ' && text[i] != '\t' && text[i] != '\r' { return false; }
      }
      return true;
    }

    /** ipc_find_client_index_by_pipe. */
    method FindClient(pipe: Pipe) returns (i: int)
      requires Valid()
      ensures i == Find(clients[..numClients], pipe)
    {
      i := 0;
      while i < numClients
        invariant 0 <= i <= numClients
        invariant forall j :: 0 <= j < i ==> clients[j].pipe != pipe
      {
        if clients[i].pipe == pipe {
          FindIs(clients[..numClients], pipe, i);
          return;
        }
        i := i + 1;
      }
      i := -1;
      FindIs(clients[..numClients], pipe, i);
    }

    /** The first half of ipc_remove_client: give up the client's slots. */
    method ReleaseSlots(pipe: Pipe)
      requires Valid()
      modifies slots
      ensures slots[..] == ReleaseAll(old(slots[..]), pipe)
    {
      for k := 0 to NUM_KINDS
        invariant Valid()
        invariant forall j :: 0 <= j < k ==> slots[j] == Release(old(slots[j]), pipe)
        invariant forall j :: k <= j < NUM_KINDS ==> slots[j] == old(slots[j])
      {
        if slots[k].state != Empty && slots[k].fd == pipe { slots[k] := slots[k].(state := Empty); }
      }
    }

    /** ipc_remove_client: release the slots, then shift the table down by one. */
    method Remove(i: nat)
      requires Valid() && i < numClients
      modifies this`numClients, clients, slots
      ensures Valid() && numClients == old(numClients) - 1
      ensures Now() == RemoveClient(old(Now()), i)
    {
      ReleaseSlots(clients[i].pipe);
      var j := i;
      while j < numClients - 1
        invariant Valid() && numClients == old(numClients) && i <= j <= numClients - 1
        invariant slots[..] == ReleaseAll(old(slots[..]), old(clients[i].pipe))
        invariant forall m :: 0 <= m < i ==> clients[m] == old(clients[m])
        invariant forall m :: i <= m < j ==> clients[m] == old(clients[m + 1])
        invariant forall m :: j < m < MAX_CLIENTS ==> clients[m] == old(clients[m])
      {
        clients[j] := clients[j + 1];
        j := j + 1;
      }
      numClients := numClients - 1;
      hide ReleaseAll;
      GapClosed(old(clients[..]), clients[..], i, old(numClients));
    }

    // ---- requests -------------------------------------------------------------------------

    /** ipc_client_on_request, on the entry i of the first n entries. */
    method HandleRequest(i: nat, ghost n: nat) returns (keep: bool)
      requires Valid() && i < n <= MAX_CLIENTS
      modifies this`requests, this`replies, this`calls, this`numRequests, this`reports, slots
      ensures Valid() && (Abs(n), keep) == OnRequest(w, old(Abs(n)), i)
    {
      var c := clients[i];
      var ticket := numRequests;
      var env := w.env(ticket);
      requests := requests + [NewRequest(w, Abs(n), i)];
      numRequests := numRequests + 1;
      RecorderRuns(env.before);
      if c.tooLarge {
        keep := Send(i, n, ticket, 0, Error("the request is too large"), env.delivered);
        return;
      }
      var blank := IsOnlyWhitespace(c.request);
      if blank {
        keep := Send(i, n, ticket, 0, Error("the request is empty"), env.delivered);
        return;
      }
      match w.parse(c.request)
      case Malformed(id, message) =>
        keep := Send(i, n, ticket, id, Error(message), env.delivered);
      case Parsed(id, name, options) =>
        keep := HandleParsed(i, n, ticket, id, name, options);
    }

    method HandleParsed(i: nat, ghost n: nat, ticket: nat, id: int, name: string, options: Option<string>)
        returns (keep: bool)
      requires Valid() && i < n <= MAX_CLIENTS
      modifies this`replies, this`calls, this`reports, slots
      ensures Valid() && (Abs(n), keep) == OnParsed(w, old(Abs(n)), i, ticket, id, name, options)
    {
      var env := w.env(ticket);
      var kind := DeferredKind(name);
      if kind.Some? {
        var wasEmpty := SetPending(kind.value, clients[i].pipe, id, ticket);
        if !wasEmpty {
          keep := Send(i, n, ticket, id, Error(AlreadyPendingError(kind.value)), env.delivered);
          return;
        }
        RecorderRuns(env.during);
      }
      var verdict := Handle(name, options, env);
      if verdict.called { calls := calls + [ticket]; }
      if !verdict.ok {
        if kind.Some? { ClearSlot(kind.value); }
        keep := Send(i, n, ticket, id, Error(verdict.message), env.delivered);
        return;
      }
      if kind.Some? { return true; }
      keep := Send(i, n, ticket, id, Ok, env.delivered);
    }

    /** ipc_client_on_bytes. */
    method HandleBytes(i: nat, ghost n: nat, bytes: string) returns (keep: bool)
      requires Valid() && i < n <= MAX_CLIENTS
      modifies this`requests, this`replies, this`calls, this`numRequests, this`reports, clients, slots
      ensures Valid() && (Abs(n), keep) == OnBytes(w, old(Abs(n)), i, bytes)
      ensures forall j :: 0 <= j < MAX_CLIENTS && j != i ==> clients[j] == old(clients[j])
    {
      var m := 0;
      while m < |bytes|
        invariant m <= |bytes| && Valid()
        invariant OnBytes(w, Abs(n), i, bytes[m..]) == OnBytes(w, old(Abs(n)), i, bytes)
        invariant forall j :: 0 <= j < MAX_CLIENTS && j != i ==> clients[j] == old(clients[j])
      {
        var b := bytes[m];
        ghost var before := Abs(n);
        assert bytes[m..][0] == b && bytes[m..][1..] == bytes[m + 1..];
        if b != '\n' {
          if |clients[i].request| < MAX_REQUEST_SIZE {
            clients[i] := clients[i].(request := clients[i].request + [b], received := clients[i].received + [b]);
          } else {
            clients[i] := clients[i].(tooLarge := true, received := clients[i].received + [b]);
          }
          assert Abs(n) == OnByte(w, before, i, b).0;
        } else {
          OnRequestShape(w, before, i);
          keep := HandleRequest(i, n);
          clients[i] := clients[i].(request := [], tooLarge := false, received := clients[i].received + ['\n']);
          assert (Abs(n), keep) == OnByte(w, before, i, b);
          if !keep { return false; }
        }
        m := m + 1;
      }
      return true;
    }

    /** ipc_client_start_read: the source calls itself again after every chunk that completes
        synchronously. */
    method StartReading(i: nat, ghost n: nat, script: ReadScript) returns (code: ReadCode)
      requires Valid() && i < n <= MAX_CLIENTS
      modifies this`requests, this`replies, this`calls, this`numRequests, this`reports, clients, slots
      ensures Valid() && (Abs(n), code) == StartRead(w, old(Abs(n)), i, script)
      ensures forall j :: 0 <= j < MAX_CLIENTS && j != i ==> clients[j] == old(clients[j])
      decreases script
    {
      match script
      case Failed => code := Failure;
      case Gone => code := Disconnected;
      case WouldBlock =>
        clients[i] := clients[i].(armed := true);
        assert Abs(n) == StartRead(w, old(Abs(n)), i, script).0;
        code := Armed;
      case Ready(bytes, rest) =>
        if bytes == [] { return Disconnected; }
        var keep := HandleBytes(i, n, bytes);
        if !keep { return Disconnected; }
        code := StartReading(i, n, rest);
    }

    // ---- the server loop --------------------------------------------------------------------

    /** ipc_add_client. */
    method AddClient(a: Arrival)
      requires Valid()
      modifies this, clients, slots
      ensures Valid() && Now() == Accept(w, old(Now()), a)
    {
      if numClients == MAX_CLIENTS { return; }
      ghost var n := numClients;
      clients[numClients] := Client(a.pipe, [], false, false, nextSerial, []);
      nextSerial := nextSerial + 1;
      assert Abs(n + 1) == Prepared(old(Now()), a);
      var code := StartReading(numClients, n + 1, a.script);
      assert clients[..n + 1][..n] == clients[..n];
      if code != Armed {
        orphans := orphans + HeldFor(Abs(n + 1), old(nextSerial));
        return;
      }
      numClients := numClients + 1;
    }

    /** The end of one iteration over the slots: find the client, reply, drop it on failure. */
    method ReplyTo(slot: Slot, body: Body, delivered: bool)
      requires Valid()
      modifies this`numClients, this`replies, this`reports, clients, slots
      ensures Valid() && Now() == Deliver(old(Now()), slot, body, delivered)
    {
      var i := FindClient(slot.fd);
      if i == -1 { return; }
      var ok := Send(i, numClients, slot.ticket, slot.id, body, delivered);
      if !ok { Remove(i); }
    }

    /** ipc_send_completed_request_replies. */
    method SendCompleted(env: PassEnv)
      requires Valid()
      modifies this`numClients, this`replies, this`reports, clients, slots
      ensures Valid() && Now() == DrainFrom(w, old(Now()), env, 0)
    {
      hide DrainFrom, DrainSlot, Abs;
      for k := 0 to NUM_KINDS
        invariant Valid() && DrainFrom(w, Now(), env, k) == DrainFrom(w, old(Now()), env, 0)
      {
        DrainStep(w, Now(), env, k);
        SendOne(env, k);
      }
      DrainEnds(w, Now(), env);
    }

    /** One section: take a result out of its slot under the mutex, then reply. */
    method SendOne(env: PassEnv, k: Kind)
      requires Valid()
      modifies this`numClients, this`replies, this`reports, clients, slots
      ensures Valid() && Now() == DrainSlot(w, old(Now()), env, k)
    {
      hide Interfere, Deliver, ResultBody;
      ghost var before := Now();
      RecorderRuns(env.gap(k));
      var slot := slots[k];
      if slot.state != Completed { return; }
      slots[k] := slot.(state := Empty);
      assert Now() == Emptied(Land(w, before, env.gap(k)), k);
      ReplyTo(slot, ResultBody(k, slot), env.delivered(k));
    }

    /** ipc_fail_pending_requests. */
    method FailPending(env: PassEnv)
      requires Valid()
      modifies this`numClients, this`replies, this`reports, clients, slots
      ensures Valid() && Now() == FailFrom(w, old(Now()), env, 0)
    {
      hide FailFrom, FailSlot, Abs;
      for k := 0 to NUM_KINDS
        invariant Valid() && FailFrom(w, Now(), env, k) == FailFrom(w, old(Now()), env, 0)
      {
        FailStep(w, Now(), env, k);
        FailOne(env, k);
      }
      FailEnds(w, Now(), env);
    }

    /** One section: empty the slot under the mutex, then reply if it was pending. */
    method FailOne(env: PassEnv, k: Kind)
      requires Valid()
      modifies this`numClients, this`replies, this`reports, clients, slots
      ensures Valid() && Now() == FailSlot(w, old(Now()), env, k)
    {
      hide Interfere, Deliver;
      ghost var before := Now();
      RecorderRuns(env.gap(k));
      var slot := slots[k];
      slots[k] := slot.(state := Empty);
      assert Now() == Emptied(Land(w, before, env.gap(k)), k);
      if slot.state == Pending { ReplyTo(slot, Error(EXITED_ERROR), env.delivered(k)); }
    }

    /** The body of the read pass for client i; false when the client was removed. */
    method ReadOne(i: nat, event: ReadEvent) returns (kept: bool)
      requires Valid() && i < numClients
      modifies this, clients, slots
      ensures Valid() && (Now(), kept) == ReadClient(w, old(Now()), i, event)
    {
      if !clients[i].armed || event.NotReady? { return true; }
      ghost var before := Now();
      clients[i] := clients[i].(armed := false);
      assert Now() == before.(clients := before.clients[i := before.clients[i].(armed := false)]);
      if !event.ok || event.bytes == [] {
        Remove(i);
        return false;
      }
      var keep := HandleBytes(i, numClients, event.bytes);
      if !keep {
        Remove(i);
        return false;
      }
      var code := StartReading(i, numClients, event.rearm);
      if code != Armed {
        Remove(i);
        return false;
      }
      return true;
    }

    /** The read pass: `--i` after a removal, `++i` at the end of every iteration. */
    method ReadPass(inbox: nat -> ReadEvent) returns (ghost visited: seq<nat>)
      requires Valid()
      modifies this, clients, slots
      ensures Valid() && (Now(), visited) == ReadFrom(w, old(Now()), inbox, 0)
    {
      hide ReadClient, ReadFrom;
      visited := [];
      var i: int := 0;
      ghost var whole := ReadFrom(w, Now(), inbox, 0);
      assert [] + whole.1 == whole.1;
      while i < numClients
        invariant 0 <= i <= numClients && Valid()
        invariant ReadFrom(w, Now(), inbox, i).0 == whole.0
        invariant visited + ReadFrom(w, Now(), inbox, i).1 == whole.1
        decreases numClients - i
      {
        var serial := clients[i].serial;
        ReadStep(w, Now(), inbox, i, visited);
        var kept := ReadOne(i, inbox(serial));
        visited := visited + [serial];
        if !kept { i := i - 1; }
        i := i + 1;
      }
      ReadDone(w, Now(), inbox);
      assert visited + [] == visited;
    }

    /** One turn of the loop in ipc_thread. */
    method TakeTurn(t: Turn)
      requires Valid()
      modifies this, clients, slots
      ensures Valid() && Now() == DoTurn(w, old(Now()), t)
    {
      SendCompleted(t.drain);
      match t.accept {
        case None =>
        case Some(a) => AddClient(a);
      }
      ghost var visited := ReadPass(t.inbox);
    }

    /** ipc_thread. */
    method Run(turns: seq<Turn>, stop: PassEnv, drain: PassEnv, fail: PassEnv)
      requires Valid()
      modifies this, clients, slots
      ensures Valid() && Now() == Thread(w, old(Now()), turns, stop, drain, fail)
    {
      var i := 0;
      while i < |turns|
        invariant i <= |turns| && Valid()
        invariant DoTurns(w, Now(), turns[i..]) == DoTurns(w, old(Now()), turns)
      {
        assert turns[i..][1..] == turns[i + 1..];
        TakeTurn(turns[i]);
        i := i + 1;
      }
      SendCompleted(stop);
      SendCompleted(drain);
      FailPending(fail);
    }
  }
}
