/** What every step of the IPC server keeps: client pipes stay distinct, every occupied slot
    belongs to a connected client, every reply goes to the connection that asked, and every
    request of a connected client is answered or held by a slot, exactly once. */
module IpcInvariant {
  import opened Options
  import opened IpcProtocol

  // ---- the invariant ---------------------------------------------------------

  predicate Connected(clients: seq<Client>, serial: nat) {
    exists i :: 0 <= i < |clients| && clients[i].serial == serial
  }

  predicate Hosts(clients: seq<Client>, pipe: Pipe, serial: nat) {
    exists i :: 0 <= i < |clients| && clients[i].pipe == pipe && clients[i].serial == serial
  }

  /** Two table entries share neither a pipe nor a serial. */
  predicate Distinct(clients: seq<Client>) {
    forall i, j :: 0 <= i < j < |clients| ==>
      clients[i].pipe != clients[j].pipe && clients[i].serial != clients[j].serial
  }

  predicate Table(s: State) {
    && |s.slots| == NUM_KINDS
    && |s.clients| <= MAX_CLIENTS
    && Distinct(s.clients)
    && (forall i :: 0 <= i < |s.clients| ==> s.clients[i].serial < s.nextSerial)
    && (forall t :: 0 <= t < |s.requests| ==> s.requests[t].serial < s.nextSerial)
  }

  /** Whoever has this pipe now connected later than the given connection. */
  predicate Later(clients: seq<Client>, pipe: Pipe, serial: nat) {
    forall i :: 0 <= i < |clients| && clients[i].pipe == pipe ==> clients[i].serial > serial
  }

  /** A slot holds the request of a connected client, or an orphan whose pipe may be in use again. */
  predicate OwnedSlot(w: World, s: State, slot: Slot) {
    && slot.ticket < |s.requests|
    && slot.fd == s.requests[slot.ticket].pipe
    && slot.id == IdOf(w, s.requests[slot.ticket].line)
    && var serial := s.requests[slot.ticket].serial;
       if slot.ticket in s.orphans then Later(s.clients, slot.fd, serial) else Hosts(s.clients, slot.fd, serial)
  }

  predicate Owned(w: World, s: State) {
    forall k :: 0 <= k < |s.slots| && s.slots[k].state != Empty ==> OwnedSlot(w, s, s.slots[k])
  }

  /** Orphans never get their connection back. */
  predicate Stranded(s: State) {
    forall t :: t in s.orphans ==> t < |s.requests| && !Connected(s.clients, s.requests[t].serial)
  }

  /** A reply carries the id of its request and goes to its pipe; the pipe still belongs to the
      connection of the request, unless the request is an orphan: then to a later one. */
  predicate RightReply(w: World, s: State, r: Reply) {
    && r.ticket < |s.requests|
    && r.pipe == s.requests[r.ticket].pipe
    && r.id == IdOf(w, s.requests[r.ticket].line)
    && var serial := s.requests[r.ticket].serial;
       if r.ticket in s.orphans then r.serial > serial else r.serial == serial
  }

  predicate RightReplies(w: World, s: State) {
    forall j :: 0 <= j < |s.replies| ==> RightReply(w, s, s.replies[j])
  }

  function Answers(replies: seq<Reply>, t: nat): nat {
    if replies == [] then 0
    else Answers(replies[..|replies| - 1], t) + (if replies[|replies| - 1].ticket == t then 1 else 0)
  }

  function Held(slot: Slot, t: nat): nat { if slot.state != Empty && slot.ticket == t then 1 else 0 }

  function Holds(slots: seq<Slot>, t: nat): nat
    requires |slots| == NUM_KINDS
  {
    Held(slots[0], t) + Held(slots[1], t) + Held(slots[2], t)
  }

  /** How often request t was answered or waits for its answer. */
  function Load(s: State, t: nat): nat
    requires |s.slots| == NUM_KINDS
  {
    Answers(s.replies, t) + Holds(s.slots, t)
  }

  /** No request is loaded twice, and those of connected clients are loaded once; `owed`
      are the requests that are neither answered nor held although their client is there. */
  predicate Balanced(s: State, owed: set<nat>)
    requires |s.slots| == NUM_KINDS
  {
    forall t :: 0 <= t < |s.requests| ==>
      && Load(s, t) <= 1
      && (t !in owed && Connected(s.clients, s.requests[t].serial) ==> Load(s, t) == 1)
  }

  predicate InvOwing(w: World, s: State, owed: set<nat>) {
    && Table(s)
    && Owned(w, s)
    && Stranded(s)
    && RightReplies(w, s)
    && Balanced(s, owed)
    && (forall t :: t in owed ==> t < |s.requests| && Load(s, t) == 0)
  }

  predicate Inv(w: World, s: State) { InvOwing(w, s, {}) }

  // ---- what the operating system promises -----------------------------------------

  /** The operating system never hands out the handle of an open pipe. */
  predicate Fresh(s: State, a: Arrival) {
    forall i :: 0 <= i < |s.clients| ==> s.clients[i].pipe != a.pipe
  }

  /** Every accepted handle is new to the table. */
  predicate FreshTurns(w: World, s: State, turns: seq<Turn>)
    requires |s.slots| == NUM_KINDS
    decreases |turns|
  {
    turns == [] ||
    (&& (turns[0].accept.Some? ==> Fresh(DrainFrom(w, s, turns[0].drain, 0), turns[0].accept.value))
     && FreshTurns(w, DoTurn(w, s, turns[0]), turns[1..]))
  }

  // ---- counting ------------------------------------------------------------------

  lemma AnswersBound(replies: seq<Reply>, t: nat)
    requires forall j :: 0 <= j < |replies| ==> replies[j].ticket != t
    ensures Answers(replies, t) == 0
  {
  }

  lemma AnswersAppend(replies: seq<Reply>, r: Reply, t: nat)
    ensures Answers(replies + [r], t) == Answers(replies, t) + (if r.ticket == t then 1 else 0)
  {
  }

  /** Slots that differ at most in whether an occupied one is pending or completed. */
  predicate SameHolders(a: seq<Slot>, b: seq<Slot>) {
    && |a| == |b|
    && forall k :: 0 <= k < |a| ==>
         && (a[k].state == Empty <==> b[k].state == Empty)
         && a[k].fd == b[k].fd && a[k].id == b[k].id && a[k].ticket == b[k].ticket
  }

  lemma {:induction false} InterfereKeepsHolders(w: World, slots: seq<Slot>, cs: seq<Completion>)
    requires |slots| == NUM_KINDS
    ensures SameHolders(slots, Interfere(w, slots, cs))
    decreases |cs|
  {
    if cs != [] { InterfereKeepsHolders(w, Complete(w, slots, cs[0]), cs[1..]); }
  }

  lemma FindsHost(clients: seq<Client>, pipe: Pipe, serial: nat)
    requires Distinct(clients) && Hosts(clients, pipe, serial)
    ensures Find(clients, pipe) != -1 && clients[Find(clients, pipe)].serial == serial
  {
  }

  // ---- the five elementary changes -------------------------------------------------

  lemma RequestLogged(w: World, s: State, i: nat)
    requires Inv(w, s) && i < |s.clients|
    ensures InvOwing(w, s.(requests := s.requests + [NewRequest(w, s, i)]), {|s.requests|})
  {
    var s1 := s.(requests := s.requests + [NewRequest(w, s, i)]);
    AnswersBound(s.replies, |s.requests|);
    forall t | 0 <= t < |s1.requests|
      ensures Load(s1, t) <= 1
      ensures t != |s.requests| && Connected(s1.clients, s1.requests[t].serial) ==> Load(s1, t) == 1
    {
      if t < |s.requests| { assert Load(s1, t) == Load(s, t); }
    }
  }

  lemma CompletionsLand(w: World, s: State, owed: set<nat>, cs: seq<Completion>)
    requires InvOwing(w, s, owed)
    ensures InvOwing(w, Land(w, s, cs), owed)
  {
    var s1 := Land(w, s, cs);
    InterfereKeepsHolders(w, s.slots, cs);
    forall k | 0 <= k < |s1.slots| && s1.slots[k].state != Empty
      ensures OwnedSlot(w, s1, s1.slots[k])
    {
      assert OwnedSlot(w, s, s.slots[k]);
    }
    assert forall t: nat :: Load(s1, t) == Load(s, t);
  }

  /** Client i may be told the answer to request t: it asked, or t is an orphan of its pipe. */
  predicate Answerable(s: State, i: nat, t: nat)
    requires i < |s.clients| && t < |s.requests|
  {
    && s.requests[t].pipe == s.clients[i].pipe
    && if t in s.orphans
       then s.clients[i].serial > s.requests[t].serial
       else s.clients[i].serial == s.requests[t].serial
  }

  /** The newest request is no orphan: its client is connected. */
  lemma AskedItself(w: World, s: State, owed: set<nat>, i: nat, t: nat)
    requires i < |s.clients| && InvOwing(w, s, owed) && t < |s.requests|
    requires s.requests[t].serial == s.clients[i].serial && s.requests[t].pipe == s.clients[i].pipe
    ensures Answerable(s, i, t) && t !in s.orphans
  {
    assert Connected(s.clients, s.requests[t].serial);
  }

  lemma Answered(w: World, s: State, owed: set<nat>, i: nat, t: nat, id: int, body: Body)
    requires i < |s.clients| && InvOwing(w, s, owed) && t in owed && Answerable(s, i, t)
    requires id == IdOf(w, s.requests[t].line)
    ensures InvOwing(w, SendReply(s, i, t, id, body, true).0, owed - {t})
  {
    var s1 := SendReply(s, i, t, id, body, true).0;
    var r := s1.replies[|s.replies|];
    forall u | 0 <= u < |s1.requests|
      ensures Load(s1, u) <= 1
      ensures u !in owed - {t} && Connected(s1.clients, s1.requests[u].serial) ==> Load(s1, u) == 1
    {
      AnswersAppend(s.replies, r, u);
      assert Load(s1, u) == Load(s, u) + if u == t then 1 else 0;
    }
    assert RightReply(w, s1, r);
    forall j | 0 <= j < |s1.replies| ensures RightReply(w, s1, s1.replies[j]) {
      if j < |s.replies| { assert RightReply(w, s, s.replies[j]); }
    }
  }

  lemma Registered(w: World, s: State, owed: set<nat>, i: nat, t: nat, k: Kind, id: int)
    requires i < |s.clients| && InvOwing(w, s, owed) && t in owed
    requires s.slots[k].state == Empty
    requires s.requests[t].serial == s.clients[i].serial && s.requests[t].pipe == s.clients[i].pipe
    requires id == IdOf(w, s.requests[t].line)
    ensures InvOwing(w, s.(slots := s.slots[k := Slot(Pending, s.clients[i].pipe, id, false, None, t)]), owed - {t})
  {
    var slot := Slot(Pending, s.clients[i].pipe, id, false, None, t);
    var s1 := s.(slots := s.slots[k := slot]);
    AskedItself(w, s, owed, i, t);
    assert OwnedSlot(w, s1, slot);
    forall j | 0 <= j < |s1.slots| && s1.slots[j].state != Empty ensures OwnedSlot(w, s1, s1.slots[j]) {
      if j != k { assert OwnedSlot(w, s, s.slots[j]); }
    }
    forall u | 0 <= u < |s1.requests|
      ensures Load(s1, u) <= 1
      ensures u !in owed - {t} && Connected(s1.clients, s1.requests[u].serial) ==> Load(s1, u) == 1
    {
      assert Load(s1, u) == Load(s, u) + if u == t then 1 else 0;
    }
  }

  lemma Unregistered(w: World, s: State, owed: set<nat>, k: Kind)
    requires InvOwing(w, s, owed) && s.slots[k].state != Empty
    ensures InvOwing(w, Emptied(s, k), owed + {s.slots[k].ticket})
  {
    var s1 := Emptied(s, k);
    forall j | 0 <= j < |s1.slots| && s1.slots[j].state != Empty ensures OwnedSlot(w, s1, s1.slots[j]) {
      SlotsApart(w, s, s1.slots, s.slots[j]);
      hide OwnedSlot;
    }
    forall j | 0 <= j < |s1.replies| ensures RightReply(w, s1, s1.replies[j]) {
      assert RightReply(w, s, s.replies[j]);
    }
    UnregisteredBalance(w, s, owed, k);
    hide OwnedSlot, Balanced, Load, RightReply, Connected, Distinct;
  }

  lemma UnregisteredBalance(w: World, s: State, owed: set<nat>, k: Kind)
    requires InvOwing(w, s, owed) && s.slots[k].state != Empty
    ensures var t := s.slots[k].ticket; var s1 := Emptied(s, k);
      && Balanced(s1, owed + {t})
      && (forall u :: u in owed + {t} ==> u < |s.requests| && Load(s1, u) == 0)
  {
    var t := s.slots[k].ticket;
    var s1 := Emptied(s, k);
    assert OwnedSlot(w, s, s.slots[k]);
    assert forall u: nat :: Load(s1, u) == Load(s, u) - if u == t then 1 else 0;
    assert Load(s, t) == 1;
    hide OwnedSlot, Load, RightReply, Connected, Distinct;
  }

  lemma HostsElsewhere(clients: seq<Client>, i: nat, pipe: Pipe, serial: nat)
    requires Distinct(clients) && i < |clients| && Hosts(clients, pipe, serial) && clients[i].pipe != pipe
    ensures Hosts(clients[..i] + clients[i + 1..], pipe, serial)
  {
    var j :| 0 <= j < |clients| && clients[j].pipe == pipe && clients[j].serial == serial;
    var rest := clients[..i] + clients[i + 1..];
    assert rest[if j < i then j else j - 1] == clients[j];
  }

  lemma StillConnected(clients: seq<Client>, i: nat, serial: nat)
    requires Distinct(clients) && i < |clients|
    requires Connected(clients[..i] + clients[i + 1..], serial)
    ensures Connected(clients, serial) && serial != clients[i].serial
  {
  }

  lemma OwnedElsewhere(w: World, s: State, i: nat, slot: Slot)
    requires Distinct(s.clients) && i < |s.clients| && OwnedSlot(w, s, slot) && slot.fd != s.clients[i].pipe
    ensures OwnedSlot(w, s.(clients := s.clients[..i] + s.clients[i + 1..]), slot)
  {
    var serial := s.requests[slot.ticket].serial;
    if slot.ticket !in s.orphans { HostsElsewhere(s.clients, i, slot.fd, serial); }
    hide Hosts, IdOf;
  }

  /** Removing client i settles whatever was owed to it. */
  lemma Removed(w: World, s: State, i: nat, owed: set<nat>, kept: set<nat>)
    requires i < |s.clients| && InvOwing(w, s, owed) && kept <= owed
    requires forall t :: t in owed - kept ==> s.requests[t].serial == s.clients[i].serial
    ensures InvOwing(w, RemoveClient(s, i), kept)
  {
    var s1 := RemoveClient(s, i);
    forall k | 0 <= k < |s1.slots| && s1.slots[k].state != Empty ensures OwnedSlot(w, s1, s1.slots[k]) {
      assert s1.slots[k] == s.slots[k] && OwnedSlot(w, s, s.slots[k]);
      OwnedElsewhere(w, s, i, s.slots[k]);
      hide OwnedSlot;
      SlotsApart(w, s.(clients := s1.clients), s1.slots, s.slots[k]);
    }
    forall j | 0 <= j < |s1.replies| ensures RightReply(w, s1, s1.replies[j]) {
      assert RightReply(w, s, s.replies[j]);
    }
    forall t | 0 <= t < |s1.requests|
      ensures Load(s1, t) <= Load(s, t)
      ensures Connected(s1.clients, s1.requests[t].serial) ==>
        && Connected(s.clients, s.requests[t].serial) && s.requests[t].serial != s.clients[i].serial
        && Load(s1, t) == Load(s, t)
    {
      RemovedLoad(w, s, i, owed, t);
      if Connected(s1.clients, s1.requests[t].serial) { StillConnected(s.clients, i, s.requests[t].serial); }
    }
    TableWithout(s, i);
    hide OwnedSlot, Load, RemoveClient, Connected, Distinct, RightReply;
  }

  /** Who owns a slot does not depend on the other slots. */
  lemma SlotsApart(w: World, s: State, slots: seq<Slot>, slot: Slot)
    requires OwnedSlot(w, s, slot)
    ensures OwnedSlot(w, s.(slots := slots), slot)
  {
  }

  lemma TableWithout(s: State, i: nat)
    requires Table(s) && i < |s.clients|
    ensures Table(RemoveClient(s, i))
  {
    var rest := s.clients[..i] + s.clients[i + 1..];
    assert forall j :: 0 <= j < |rest| ==> rest[j] == s.clients[if j < i then j else j + 1];
  }

  lemma RemovedLoad(w: World, s: State, i: nat, owed: set<nat>, t: nat)
    requires i < |s.clients| && InvOwing(w, s, owed) && t < |s.requests|
    ensures Load(RemoveClient(s, i), t) <= Load(s, t)
    ensures Connected(RemoveClient(s, i).clients, s.requests[t].serial) ==>
              forall k :: 0 <= k < NUM_KINDS && Held(s.slots[k], t) == 1 ==> RemoveClient(s, i).slots[k] == s.slots[k]
    ensures Connected(RemoveClient(s, i).clients, s.requests[t].serial) ==> Load(RemoveClient(s, i), t) == Load(s, t)
  {
  }
}
