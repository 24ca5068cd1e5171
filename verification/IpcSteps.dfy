/** Every operation of the IPC server keeps the invariant. */
module IpcSteps {
  import opened Options
  import opened IpcProtocol
  import opened IpcInvariant

  /** Bytes move into a client's buffer without touching who it is. */
  lemma ClientEdited(w: World, s: State, i: nat, c: Client, owed: set<nat>)
    requires i < |s.clients| && InvOwing(w, s, owed)
    requires c.pipe == s.clients[i].pipe && c.serial == s.clients[i].serial
    ensures InvOwing(w, s.(clients := s.clients[i := c]), owed)
  {
    var s1 := s.(clients := s.clients[i := c]);
    SameAddresses(s.clients, s1.clients);
    forall k | 0 <= k < |s1.slots| && s1.slots[k].state != Empty ensures OwnedSlot(w, s1, s1.slots[k]) {
      assert OwnedSlot(w, s, s.slots[k]);
      hide Hosts, Later;
    }
    forall t | 0 <= t < |s1.requests| ensures Load(s1, t) == Load(s, t) { }
    forall j | 0 <= j < |s1.replies| ensures RightReply(w, s1, s1.replies[j]) { assert RightReply(w, s, s.replies[j]); }
    hide OwnedSlot, RightReply, Load, Connected;
  }

  /** Tables with the same pipes and serials agree on who is where. */
  lemma SameAddresses(a: seq<Client>, b: seq<Client>)
    requires |a| == |b| && forall j :: 0 <= j < |a| ==> a[j].pipe == b[j].pipe && a[j].serial == b[j].serial
    ensures forall serial: nat :: Connected(a, serial) == Connected(b, serial)
    ensures forall pipe: Pipe, serial: nat :: Hosts(a, pipe, serial) == Hosts(b, pipe, serial)
    ensures forall pipe: Pipe, serial: nat :: Later(a, pipe, serial) == Later(b, pipe, serial)
  {
    forall serial: nat ensures Connected(a, serial) == Connected(b, serial) {
      if j :| 0 <= j < |a| && a[j].serial == serial { assert b[j].serial == serial; }
      if j :| 0 <= j < |b| && b[j].serial == serial { assert a[j].serial == serial; }
    }
    forall pipe: Pipe, serial: nat ensures Hosts(a, pipe, serial) == Hosts(b, pipe, serial) {
      if j :| 0 <= j < |a| && a[j].pipe == pipe && a[j].serial == serial { assert b[j].pipe == pipe; }
      if j :| 0 <= j < |b| && b[j].pipe == pipe && b[j].serial == serial { assert a[j].pipe == pipe; }
    }
  }

  /** What a request may leave behind: nothing owed, or itself owed to a client that the
      server is about to disconnect. */
  predicate Outcome(w: World, r: (State, bool), owed: nat) {
    if r.1 then Inv(w, r.0) else InvOwing(w, r.0, {owed})
  }

  lemma ReplyOutcome(w: World, s: State, i: nat, t: nat, id: int, body: Body, delivered: bool)
    requires i < |s.clients| && InvOwing(w, s, {t})
    requires s.requests[t].serial == s.clients[i].serial && s.requests[t].pipe == s.clients[i].pipe
    requires id == IdOf(w, s.requests[t].line)
    ensures Outcome(w, SendReply(s, i, t, id, body, delivered), t)
  {
    AskedItself(w, s, {t}, i, t);
    if delivered { Answered(w, s, {t}, i, t, id, body); assert {t} - {t} == {}; }
  }

  lemma CallLogged(w: World, s: State, calls: seq<nat>, owed: set<nat>)
    requires InvOwing(w, s, owed)
    ensures InvOwing(w, s.(calls := calls), owed)
  {
    var s1 := s.(calls := calls);
    forall k | 0 <= k < |s1.slots| && s1.slots[k].state != Empty ensures OwnedSlot(w, s1, s1.slots[k]) {
      assert OwnedSlot(w, s, s.slots[k]);
    }
    assert forall j :: 0 <= j < |s1.replies| ==> RightReply(w, s, s1.replies[j]);
    assert forall t: nat :: Load(s1, t) == Load(s, t);
  }

  lemma OnParsedKeeps(w: World, s: State, i: nat, t: nat, id: int, name: string, options: Option<string>)
    requires i < |s.clients| && InvOwing(w, s, {t})
    requires s.requests[t].serial == s.clients[i].serial && s.requests[t].pipe == s.clients[i].pipe
    requires id == IdOf(w, s.requests[t].line)
    ensures Outcome(w, OnParsed(w, s, i, t, id, name, options), t)
  {
    assert |s.slots| == NUM_KINDS;
    hide InvOwing, Outcome, Handle, DeferredKind;
    var env := w.env(t);
    var h := Handle(name, options, env);
    var calls := if h.called then s.calls + [t] else s.calls;
    CallLogged(w, s, calls, {t});
    match DeferredKind(name)
    case None =>
      ReplyOutcome(w, s.(calls := calls), i, t, id, if h.ok then Ok else Error(h.message), env.delivered);
    case Some(k) =>
      if s.slots[k].state != Empty {
        ReplyOutcome(w, s, i, t, id, Error(AlreadyPendingError(k)), env.delivered);
      } else {
        DeferredKeeps(w, s.(calls := calls), i, t, id, k, h, env);
      }
  }

  /** A request that takes the free slot k, and gives it back when its handler refuses. */
  lemma DeferredKeeps(w: World, s: State, i: nat, t: nat, id: int, k: Kind, h: Verdict, env: RequestEnv)
    requires i < |s.clients| && InvOwing(w, s, {t}) && s.slots[k].state == Empty
    requires s.requests[t].serial == s.clients[i].serial && s.requests[t].pipe == s.clients[i].pipe
    requires id == IdOf(w, s.requests[t].line)
    ensures
      var registered := s.(slots := s.slots[k := Slot(Pending, s.clients[i].pipe, id, false, None, t)]);
      var handled := Land(w, registered, env.during);
      if h.ok then Outcome(w, (handled, true), t)
      else Outcome(w, SendReply(Emptied(handled, k), i, t, id, Error(h.message), env.delivered), t)
  {
    assert |s.slots| == NUM_KINDS;
    hide InvOwing, SendReply;
    Registered(w, s, {t}, i, t, k, id);
    assert {t} - {t} == {} && {} + {t} == {t};
    var s2 := s.(slots := s.slots[k := Slot(Pending, s.clients[i].pipe, id, false, None, t)]);
    CompletionsLand(w, s2, {}, env.during);
    InterfereKeepsHolders(w, s2.slots, env.during);
    var s3 := Land(w, s2, env.during);
    if !h.ok {
      Unregistered(w, s3, {}, k);
      ReplyOutcome(w, Emptied(s3, k), i, t, id, Error(h.message), env.delivered);
    }
  }

  lemma OnRequestKeeps(w: World, s: State, i: nat)
    requires i < |s.clients| && Inv(w, s)
    ensures Outcome(w, OnRequest(w, s, i), |s.requests|)
    ensures OnRequest(w, s, i).0.requests[..|s.requests|] == s.requests
    ensures OnRequest(w, s, i).0.requests[|s.requests|].serial == s.clients[i].serial
  {
    OnRequestShape(w, s, i);
    assert |s.slots| == NUM_KINDS;
    hide InvOwing, Outcome, OnParsed;
    var c := s.clients[i];
    var t := |s.requests|;
    var env := w.env(t);
    RequestLogged(w, s, i);
    var s0 := s.(requests := s.requests + [NewRequest(w, s, i)]);
    CompletionsLand(w, s0, {t}, env.before);
    var s1 := Land(w, s0, env.before);
    if c.tooLarge { ReplyOutcome(w, s1, i, t, 0, Error("the request is too large"), env.delivered); }
    else if OnlyWhitespace(c.request) { ReplyOutcome(w, s1, i, t, 0, Error("the request is empty"), env.delivered); }
    else {
      match w.parse(c.request)
      case Malformed(id, message) => ReplyOutcome(w, s1, i, t, id, Error(message), env.delivered);
      case Parsed(id, name, options) => OnParsedKeeps(w, s1, i, t, id, name, options);
    }
  }

  /** Client i is still in place, nobody else moved, and at most one request of client i is owed. */
  predicate Progress(w: World, s: State, s1: State, i: nat, owed: set<nat>)
    requires i < |s.clients|
  {
    && InvOwing(w, s1, owed)
    && |s1.clients| == |s.clients|
    && s1.clients[i].serial == s.clients[i].serial && s1.clients[i].pipe == s.clients[i].pipe
    && (forall j :: 0 <= j < |s.clients| && j != i ==> s1.clients[j] == s.clients[j])
    && (forall t :: t in owed ==> s1.requests[t].serial == s.clients[i].serial)
  }

  lemma OnByteKeeps(w: World, s: State, i: nat, b: char) returns (owed: set<nat>)
    requires i < |s.clients| && Inv(w, s)
    ensures Progress(w, s, OnByte(w, s, i, b).0, i, owed)
    ensures OnByte(w, s, i, b).1 ==> owed == {}
  {
    var r := OnByte(w, s, i, b);
    if b != '\n' {
      ClientEdited(w, s, i, Store(s.clients[i], b), {});
      owed := {};
    } else {
      OnRequestShape(w, s, i);
      OnRequestKeeps(w, s, i);
      var q := OnRequest(w, s, i);
      owed := if q.1 then {} else {|s.requests|};
      ClientEdited(w, q.0, i, Restart(q.0.clients[i]), owed);
    }
  }

  lemma {:induction false} OnBytesKeeps(w: World, s: State, i: nat, bytes: string) returns (owed: set<nat>)
    requires i < |s.clients| && Inv(w, s)
    ensures Progress(w, s, OnBytes(w, s, i, bytes).0, i, owed)
    ensures OnBytes(w, s, i, bytes).1 ==> owed == {}
    decreases |bytes|
  {
    if bytes == [] { return {}; }
    owed := OnByteKeeps(w, s, i, bytes[0]);
    var r := OnByte(w, s, i, bytes[0]);
    if r.1 { owed := OnBytesKeeps(w, r.0, i, bytes[1..]); }
  }

  lemma {:induction false} StartReadKeeps(w: World, s: State, i: nat, script: ReadScript) returns (owed: set<nat>)
    requires i < |s.clients| && Inv(w, s)
    ensures Progress(w, s, StartRead(w, s, i, script).0, i, owed)
    ensures StartRead(w, s, i, script).1 == Armed ==> owed == {}
    decreases script
  {
    match script
    case WouldBlock => ClientEdited(w, s, i, s.clients[i].(armed := true), {}); return {};
    case Ready(bytes, rest) =>
      if bytes == [] { return {}; }
      owed := OnBytesKeeps(w, s, i, bytes);
      var r := OnBytes(w, s, i, bytes);
      if r.1 { owed := StartReadKeeps(w, r.0, i, rest); }
    case _ => return {};
  }

  // ---- the read pass ---------------------------------------------------------------

  lemma SameSerials(a: seq<Client>, b: seq<Client>, i: nat)
    requires |a| == |b| && i < |a| && a[i].serial == b[i].serial
    requires forall j :: 0 <= j < |a| && j != i ==> a[j] == b[j]
    ensures Serials(a) == Serials(b)
    ensures Serials(a[..i] + a[i + 1..]) == Serials(b)[..i] + Serials(b)[i + 1..]
  {
  }

  lemma ReadClientKeeps(w: World, s: State, i: nat, event: ReadEvent)
    requires i < |s.clients| && Inv(w, s)
    ensures var r := ReadClient(w, s, i, event);
      && Inv(w, r.0)
      && var all := Serials(s.clients); Serials(r.0.clients) == if r.1 then all else all[..i] + all[i + 1..]
  {
    assert |s.slots| == NUM_KINDS;
    hide InvOwing, Serials;
    if s.clients[i].armed && event.Finished? {
      var s1 := s.(clients := s.clients[i := s.clients[i].(armed := false)]);
      ClientEdited(w, s, i, s.clients[i].(armed := false), {});
      if !event.ok || event.bytes == [] {
        SameSerials(s1.clients, s.clients, i);
        Removed(w, s1, i, {}, {});
      } else {
        var owed := OnBytesKeeps(w, s1, i, event.bytes);
        var r := OnBytes(w, s1, i, event.bytes);
        SameSerials(r.0.clients, s.clients, i);
        if !r.1 {
          Removed(w, r.0, i, owed, {});
        } else {
          var owed' := StartReadKeeps(w, r.0, i, event.rearm);
          var q := StartRead(w, r.0, i, event.rearm);
          SameSerials(q.0.clients, s.clients, i);
          if q.1 != Armed { Removed(w, q.0, i, owed', {}); }
        }
      }
    }
  }

  function Serials(clients: seq<Client>): seq<nat> {
    seq(|clients|, i requires 0 <= i < |clients| => clients[i].serial)
  }

  lemma Remaining(serials: seq<nat>, i: nat)
    requires i < |serials|
    ensures serials[i..] == [serials[i]] + serials[i + 1..]
    ensures (serials[..i] + serials[i + 1..])[i..] == serials[i + 1..]
  {
  }

  /** The read pass looks at every client of the table it started with exactly once and in
      order, however many of them it removes on the way. */
  lemma {:induction false} ReadPassVisitsEveryClientOnce(w: World, s: State, inbox: nat -> ReadEvent, i: nat)
    requires i <= |s.clients| && Inv(w, s)
    ensures ReadFrom(w, s, inbox, i).1 == Serials(s.clients)[i..]
    ensures Inv(w, ReadFrom(w, s, inbox, i).0)
    decreases |s.clients| - i
  {
    assert |s.slots| == NUM_KINDS;
    hide InvOwing, ReadClient;
    if i < |s.clients| {
      var event := inbox(s.clients[i].serial);
      ReadClientKeeps(w, s, i, event);
      var r := ReadClient(w, s, i, event);
      ReadPassVisitsEveryClientOnce(w, r.0, inbox, if r.1 then i + 1 else i);
      Remaining(Serials(s.clients), i);
    }
  }

  // ---- passes over the slots ----------------------------------------------------------

  /** Nothing is owed to a connection that is gone. */
  lemma Settled(w: World, s: State, owed: set<nat>, t: nat)
    requires InvOwing(w, s, owed) && t < |s.requests| && !Connected(s.clients, s.requests[t].serial)
    ensures InvOwing(w, s, owed - {t})
  {
  }

  lemma DeliverKeeps(w: World, s: State, owed: set<nat>, slot: Slot, body: Body, delivered: bool)
    requires InvOwing(w, s, owed) && slot.ticket in owed && OwnedSlot(w, s, slot)
    ensures InvOwing(w, Deliver(s, slot, body, delivered), owed - {slot.ticket})
  {
    var t := slot.ticket;
    var i := Find(s.clients, slot.fd);
    if t in s.orphans {
      assert !Connected(s.clients, s.requests[t].serial);
      Settled(w, s, owed, t);
    } else {
      FindsHost(s.clients, slot.fd, s.requests[t].serial);
    }
    assert i != -1 ==> Answerable(s, i, t);
    hide InvOwing, OwnedSlot;
    if i != -1 {
      if delivered { Answered(w, s, owed, i, t, slot.id, body); }
      else { Removed(w, s, i, if t in s.orphans then owed - {t} else owed, owed - {t}); }
    }
  }

  /** Emptying slot k makes its request owed. */
  lemma SlotEmptied(w: World, s: State, owed: set<nat>, k: Kind)
    requires InvOwing(w, s, owed) && s.slots[k].state != Empty
    ensures InvOwing(w, Emptied(s, k), owed + {s.slots[k].ticket})
    ensures OwnedSlot(w, Emptied(s, k), s.slots[k])
    ensures s.slots[k].ticket !in owed
  {
    Unregistered(w, s, owed, k);
    assert OwnedSlot(w, s, s.slots[k]);
    assert Held(s.slots[k], s.slots[k].ticket) == 1;
  }

  lemma DrainSlotKeeps(w: World, s: State, env: PassEnv, k: Kind)
    requires Inv(w, s)
    ensures Inv(w, DrainSlot(w, s, env, k))
  {
    CompletionsLand(w, s, {}, env.gap(k));
    var s1 := Land(w, s, env.gap(k));
    var slot := s1.slots[k];
    if slot.state == Completed {
      SlotEmptied(w, s1, {}, k);
      DeliverKeeps(w, Emptied(s1, k), {slot.ticket}, slot, ResultBody(k, slot), env.delivered(k));
      assert {} + {slot.ticket} == {slot.ticket} && {slot.ticket} - {slot.ticket} == {};
    }
  }

  lemma {:induction false} DrainKeeps(w: World, s: State, env: PassEnv, k: nat)
    requires Inv(w, s) && k <= NUM_KINDS
    ensures Inv(w, DrainFrom(w, s, env, k))
    decreases NUM_KINDS - k
  {
    if k < NUM_KINDS {
      DrainSlotKeeps(w, s, env, k);
      DrainKeeps(w, DrainSlot(w, s, env, k), env, k + 1);
    }
  }

  /** The fail pass answers a pending request and drops a completed one. */
  lemma FailSlotKeeps(w: World, s: State, owed: set<nat>, env: PassEnv, k: Kind)
    requires InvOwing(w, s, owed)
    ensures var slot := Interfere(w, s.slots, env.gap(k))[k];
      InvOwing(w, FailSlot(w, s, env, k), if slot.state == Completed then owed + {slot.ticket} else owed)
  {
    CompletionsLand(w, s, owed, env.gap(k));
    var s1 := Land(w, s, env.gap(k));
    var slot := s1.slots[k];
    if slot.state == Empty {
      assert s1.slots[k := slot.(state := Empty)] == s1.slots;
    } else {
      SlotEmptied(w, s1, owed, k);
      if slot.state == Pending {
        DeliverKeeps(w, Emptied(s1, k), owed + {slot.ticket}, slot, Error(EXITED_ERROR), env.delivered(k));
        assert owed + {slot.ticket} - {slot.ticket} == owed;
      }
    }
  }

  // ---- accepting a client ---------------------------------------------------------------

  lemma PreparedKeeps(w: World, s: State, a: Arrival)
    requires Inv(w, s) && Fresh(s, a) && |s.clients| < MAX_CLIENTS
    ensures Inv(w, Prepared(s, a))
  {
    var s1 := Prepared(s, a);
    forall k | 0 <= k < |s1.slots| && s1.slots[k].state != Empty ensures OwnedSlot(w, s1, s1.slots[k]) {
      assert OwnedSlot(w, s, s.slots[k]);
      if s.slots[k].ticket !in s.orphans {
        var j :| 0 <= j < |s.clients| && s.clients[j].pipe == s.slots[k].fd
                 && s.clients[j].serial == s.requests[s.slots[k].ticket].serial;
        assert s1.clients[j] == s.clients[j];
      }
    }
    forall t | 0 <= t < |s1.requests| && Connected(s1.clients, s1.requests[t].serial)
      ensures Connected(s.clients, s.requests[t].serial)
    {
      var j :| 0 <= j < |s1.clients| && s1.clients[j].serial == s1.requests[t].serial;
      assert s.clients[j].serial == s.requests[t].serial;
    }
    forall t | 0 <= t < |s1.requests| ensures Load(s1, t) == Load(s, t) { }
    forall j | 0 <= j < |s1.replies| ensures RightReply(w, s1, s1.replies[j]) { assert RightReply(w, s, s.replies[j]); }
    hide OwnedSlot, RightReply, Load, Connected;
  }

  lemma {:induction false} AnsweredBefore(replies: seq<Reply>, j: nat)
    requires j < |replies|
    ensures Answers(replies, replies[j].ticket) >= 1
  {
    var n := |replies| - 1;
    if j < n { AnsweredBefore(replies[..n], j); }
  }

  /** What a slot holds has not been answered. */
  lemma HeldUnanswered(w: World, s: State, owed: set<nat>, serial: nat, j: nat)
    requires InvOwing(w, s, owed) && j < |s.replies|
    ensures s.replies[j].ticket !in HeldFor(s, serial)
  {
    AnsweredBefore(s.replies, j);
    assert RightReply(w, s, s.replies[j]);
    forall k: Kind | s.slots[k].state != Empty ensures s.slots[k].ticket != s.replies[j].ticket {
      assert Load(s, s.replies[j].ticket) <= 1;
      assert Held(s.slots[k], s.slots[k].ticket) == 1;
    }
  }

  lemma FewerConnected(clients: seq<Client>)
    requires clients != [] && Distinct(clients)
    ensures var n := |clients| - 1;
      forall serial: nat :: Connected(clients[..n], serial) ==>
        Connected(clients, serial) && serial != clients[n].serial
  {
    var n := |clients| - 1;
    forall serial: nat | Connected(clients[..n], serial)
      ensures Connected(clients, serial) && serial != clients[n].serial
    {
      var j :| 0 <= j < n && clients[..n][j].serial == serial;
      assert clients[j].serial == serial;
    }
  }

  /** The state in which the last client is forgotten and what slots hold for it is stranded. */
  function Forget(s: State): State
    requires |s.slots| == NUM_KINDS && s.clients != []
  {
    var n := |s.clients| - 1;
    s.(clients := s.clients[..n], orphans := s.orphans + HeldFor(s, s.clients[n].serial))
  }

  lemma ForgottenSlots(w: World, s: State, owed: set<nat>)
    requires InvOwing(w, s, owed) && s.clients != []
    ensures Owned(w, Forget(s))
  {
    var held := HeldFor(s, s.clients[|s.clients| - 1].serial);
    forall t | t in s.orphans ensures t !in held { assert !Connected(s.clients, s.requests[t].serial); }
    forall k | 0 <= k < |s.slots| && s.slots[k].state != Empty ensures OwnedSlot(w, Forget(s), s.slots[k]) {
      assert OwnedSlot(w, s, s.slots[k]);
      AbandonedSlot(w, s, s.slots[k], held);
    }
    hide OwnedSlot;
  }

  lemma ForgottenReplies(w: World, s: State, owed: set<nat>)
    requires InvOwing(w, s, owed) && s.clients != []
    ensures RightReplies(w, Forget(s))
  {
    forall j | 0 <= j < |s.replies| ensures RightReply(w, Forget(s), s.replies[j]) {
      HeldUnanswered(w, s, owed, s.clients[|s.clients| - 1].serial, j);
      assert RightReply(w, s, s.replies[j]);
      hide HeldFor, IdOf;
    }
    hide RightReply;
  }

  lemma ForgottenBalance(w: World, s: State, owed: set<nat>)
    requires InvOwing(w, s, owed) && s.clients != []
    requires forall t :: t in owed ==> s.requests[t].serial == s.clients[|s.clients| - 1].serial
    ensures Balanced(Forget(s), {}) && Stranded(Forget(s)) && Table(Forget(s))
  {
    FewerConnected(s.clients);
    forall t | 0 <= t < |s.requests| ensures Load(Forget(s), t) == Load(s, t) { }
    hide Load, Connected, Owned, RightReplies;
  }

  /** Forgetting the last client without releasing its slots strands what they hold for it. */
  lemma Abandoned(w: World, s: State, owed: set<nat>)
    requires InvOwing(w, s, owed) && s.clients != []
    requires forall t :: t in owed ==> s.requests[t].serial == s.clients[|s.clients| - 1].serial
    ensures Inv(w, Forget(s))
  {
    ForgottenSlots(w, s, owed);
    ForgottenReplies(w, s, owed);
    ForgottenBalance(w, s, owed);
    hide Owned, RightReplies, Balanced, Stranded, Table, Forget;
  }

  lemma AbandonedSlot(w: World, s: State, slot: Slot, held: set<nat>)
    requires Table(s) && |s.clients| > 0 && OwnedSlot(w, s, slot)
    requires slot.ticket in held <==> s.requests[slot.ticket].serial == s.clients[|s.clients| - 1].serial
    requires slot.ticket in s.orphans ==> slot.ticket !in held
    ensures OwnedSlot(w, s.(clients := s.clients[..|s.clients| - 1], orphans := s.orphans + held), slot)
  {
    var n := |s.clients| - 1;
    var serial := s.requests[slot.ticket].serial;
    if slot.ticket !in s.orphans {
      var j :| 0 <= j < |s.clients| && s.clients[j].pipe == slot.fd && s.clients[j].serial == serial;
      assert j < n ==> s.clients[..n][j] == s.clients[j];
    }
  }

  /** ipc_add_client keeps the invariant; what its early close leaves behind becomes an orphan. */
  lemma AcceptKeeps(w: World, s: State, a: Arrival)
    requires Inv(w, s) && Fresh(s, a)
    ensures Inv(w, Accept(w, s, a))
  {
    assert |s.slots| == NUM_KINDS;
    hide InvOwing;
    if |s.clients| < MAX_CLIENTS {
      PreparedKeeps(w, s, a);
      var owed := StartReadKeeps(w, Prepared(s, a), |s.clients|, a.script);
      var r := StartRead(w, Prepared(s, a), |s.clients|, a.script);
      if r.1 != Armed { Abandoned(w, r.0, owed); }
    }
  }
}
