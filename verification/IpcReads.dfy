/** What the IPC server reads: every byte that a connection delivers is taken, once and in order, and a
    client stays exactly as long as its pipe does and its immediate answers get out. */
module IpcReads {
  import opened Options
  import opened IpcProtocol
  import opened IpcInvariant
  import opened IpcSteps
  import opened IpcRuns
  import opened IpcCalls

  /** The bytes of a chain of synchronous reads. */
  function ScriptBytes(script: ReadScript): string {
    match script
    case Ready(bytes, rest) => if bytes == [] then [] else bytes + ScriptBytes(rest)
    case _ => []
  }

  /** The bytes that a read event delivers. */
  function EventBytes(event: ReadEvent): string {
    match event
    case NotReady => []
    case Finished(ok, bytes, rearm) => if ok then bytes + ScriptBytes(rearm) else []
  }

  /** The same client, with these bytes more. */
  predicate Took(c: Client, c1: Client, bytes: string) {
    c1.serial == c.serial && c1.pipe == c.pipe && c1.received == c.received + bytes
  }

  lemma TookOn(a: Client, b: Client, c: Client, x: string, y: string)
    requires Took(a, b, x) && Took(b, c, y)
    ensures Took(a, c, x + y)
  {
    assert a.received + x + y == a.received + (x + y);
  }

  lemma ByteTaken(w: World, s: State, i: nat, b: char)
    requires i < |s.clients| && |s.slots| == NUM_KINDS
    ensures var r := OnByte(w, s, i, b).0;
      |r.slots| == NUM_KINDS && |r.clients| == |s.clients| && r.clients == s.clients[i := r.clients[i]]
      && Took(s.clients[i], r.clients[i], [b]) && r.clients[i].armed == s.clients[i].armed
  {
    OnRequestShape(w, s, i);
    hide OnRequest;
  }

  lemma {:induction false} BytesTaken(w: World, s: State, i: nat, bytes: string)
    requires i < |s.clients| && |s.slots| == NUM_KINDS
    ensures var r := OnBytes(w, s, i, bytes);
      |r.0.clients| == |s.clients| && r.0.clients == s.clients[i := r.0.clients[i]]
      && r.0.clients[i].serial == s.clients[i].serial && r.0.clients[i].armed == s.clients[i].armed
      && (r.1 ==> Took(s.clients[i], r.0.clients[i], bytes))
    decreases |bytes|
  {
    hide OnByte;
    if bytes == [] {
      assert s.clients[i].received + [] == s.clients[i].received;
    } else {
      OnRequestShape(w, s, i);
      ByteTaken(w, s, i, bytes[0]);
      var r := OnByte(w, s, i, bytes[0]);
      if r.1 {
        BytesTaken(w, r.0, i, bytes[1..]);
        if OnBytes(w, r.0, i, bytes[1..]).1 {
          TookOn(s.clients[i], r.0.clients[i], OnBytes(w, r.0, i, bytes[1..]).0.clients[i], [bytes[0]], bytes[1..]);
          assert [bytes[0]] + bytes[1..] == bytes;
        }
      }
    }
  }

  lemma {:induction false} ScriptTaken(w: World, s: State, i: nat, script: ReadScript)
    requires i < |s.clients| && |s.slots| == NUM_KINDS
    ensures var r := StartRead(w, s, i, script);
      |r.0.clients| == |s.clients| && r.0.clients == s.clients[i := r.0.clients[i]]
      && r.0.clients[i].serial == s.clients[i].serial
      && (r.1 == Armed ==> Took(s.clients[i], r.0.clients[i], ScriptBytes(script)) && r.0.clients[i].armed)
    decreases script
  {
    match script
    case Ready(bytes, rest) =>
      if bytes != [] {
        BytesTaken(w, s, i, bytes);
        hide OnBytes;
        var r := OnBytes(w, s, i, bytes);
        if r.1 {
          ScriptTaken(w, r.0, i, rest);
          var q := StartRead(w, r.0, i, rest);
          if q.1 == Armed {
            TookOn(s.clients[i], r.0.clients[i], q.0.clients[i], bytes, ScriptBytes(rest));
          }
        }
      }
    case _ => assert s.clients[i].received + [] == s.clients[i].received;
  }

  lemma ClientTaken(w: World, s: State, i: nat, event: ReadEvent)
    requires i < |s.clients| && |s.slots| == NUM_KINDS && s.clients[i].armed
    ensures var r := ReadClient(w, s, i, event);
      if r.1 then
        && r.0.clients == s.clients[i := r.0.clients[i]] && r.0.clients[i].armed
        && Took(s.clients[i], r.0.clients[i], EventBytes(event))
      else r.0.clients == s.clients[..i] + s.clients[i + 1..]
  {
    if event.NotReady? {
      assert s.clients[i].received + [] == s.clients[i].received;
    } else {
      var s1 := s.(clients := s.clients[i := s.clients[i].(armed := false)]);
      if event.ok && event.bytes != [] {
        BytesTaken(w, s1, i, event.bytes);
        hide OnBytes, StartRead;
        var r := OnBytes(w, s1, i, event.bytes);
        if r.1 {
          ScriptTaken(w, r.0, i, event.rearm);
          var q := StartRead(w, r.0, i, event.rearm);
          if q.1 == Armed {
            TookOn(s.clients[i], r.0.clients[i], q.0.clients[i], event.bytes, ScriptBytes(event.rearm));
          }
        }
      }
    }
  }

  // ---- a pass over the table ------------------------------------------------------------------------

  predicate AllArmed(clients: seq<Client>) { forall j :: 0 <= j < |clients| ==> clients[j].armed }

  /** `c` was in the table, at or behind i with its event taken, or in front of i as it is now. */
  predicate Served(before: seq<Client>, inbox: nat -> ReadEvent, i: nat, c: Client) {
    exists k :: 0 <= k < |before| && Took(before[k], c, if k < i then [] else EventBytes(inbox(before[k].serial)))
  }

  predicate AllServed(before: seq<Client>, inbox: nat -> ReadEvent, i: nat, after: seq<Client>) {
    AllArmed(after) && forall j :: 0 <= j < |after| ==> Served(before, inbox, i, after[j])
  }

  lemma NothingToServe(clients: seq<Client>, inbox: nat -> ReadEvent)
    requires AllArmed(clients)
    ensures AllServed(clients, inbox, |clients|, clients)
  {
    forall j | 0 <= j < |clients| ensures Served(clients, inbox, |clients|, clients[j]) {
      assert clients[j].received + [] == clients[j].received;
      assert Took(clients[j], clients[j], []);
    }
  }

  lemma ServedNext(s: seq<Client>, inbox: nat -> ReadEvent, i: nat, m: seq<Client>, next: nat, c: Client)
    requires i < |s| && Served(m, inbox, next, c)
    requires (next == i + 1 && |m| == |s| && m == s[i := m[i]] && Took(s[i], m[i], EventBytes(inbox(s[i].serial))))
             || (next == i && m == s[..i] + s[i + 1..])
    ensures Served(s, inbox, i, c)
  {
    var k :| 0 <= k < |m| && Took(m[k], c, if k < next then [] else EventBytes(inbox(m[k].serial)));
    if next == i {
      var j := if k < i then k else k + 1;
      assert s[j] == m[k];
      assert Took(s[j], c, if j < i then [] else EventBytes(inbox(s[j].serial)));
    } else if k == i {
      TookOn(s[i], m[i], c, EventBytes(inbox(s[i].serial)), []);
      assert EventBytes(inbox(s[i].serial)) + [] == EventBytes(inbox(s[i].serial));
    } else {
      assert s[k] == m[k];
    }
  }

  lemma {:induction false} PassTakes(w: World, s: State, inbox: nat -> ReadEvent, i: nat)
    requires i <= |s.clients| && |s.slots| == NUM_KINDS && AllArmed(s.clients)
    ensures AllServed(s.clients, inbox, i, ReadFrom(w, s, inbox, i).0.clients)
    ensures ReadFrom(w, s, inbox, i).0.nextSerial == s.nextSerial
    decreases |s.clients| - i
  {
    if i == |s.clients| {
      NothingToServe(s.clients, inbox);
    } else {
      var event := inbox(s.clients[i].serial);
      ClientTaken(w, s, i, event);
      var r := ReadClient(w, s, i, event);
      var next := if r.1 then i + 1 else i;
      SerialsStay(w, s, i, event);
      hide ReadClient, Served;
      PassTakes(w, r.0, inbox, next);
      var after := ReadFrom(w, r.0, inbox, next).0.clients;
      forall j | 0 <= j < |after| ensures Served(s.clients, inbox, i, after[j]) {
        ServedNext(s.clients, inbox, i, r.0.clients, next, after[j]);
      }
    }
  }

  lemma SerialsStay(w: World, s: State, i: nat, event: ReadEvent)
    requires i < |s.clients| && |s.slots| == NUM_KINDS
    ensures ReadClient(w, s, i, event).0.nextSerial == s.nextSerial
  {
    hide OnBytes, StartRead;
  }

  // ---- whole runs -------------------------------------------------------------------------------------

  predicate Among(before: seq<Client>, after: seq<Client>) { forall j :: 0 <= j < |after| ==> after[j] in before }

  lemma DrainSlotReads(w: World, s: State, env: PassEnv, k: Kind)
    requires |s.slots| == NUM_KINDS
    ensures var r := DrainSlot(w, s, env, k); Among(s.clients, r.clients) && r.nextSerial == s.nextSerial
  {
    hide Interfere, ReleaseAll;
  }

  lemma {:induction false} DrainReads(w: World, s: State, env: PassEnv, k: nat)
    requires |s.slots| == NUM_KINDS && k <= NUM_KINDS
    ensures var r := DrainFrom(w, s, env, k); Among(s.clients, r.clients) && r.nextSerial == s.nextSerial
    decreases NUM_KINDS - k
  {
    hide DrainSlot;
    if k < NUM_KINDS {
      DrainSlotReads(w, s, env, k);
      DrainReads(w, DrainSlot(w, s, env, k), env, k + 1);
    }
  }

  /** A client that is kept has delivered its script. */
  lemma AcceptReads(w: World, s: State, a: Arrival)
    requires |s.slots| == NUM_KINDS
    ensures var r := Accept(w, s, a);
      || (r.clients == s.clients && s.nextSerial <= r.nextSerial)
      || (&& |r.clients| == |s.clients| + 1 && r.clients[..|s.clients|] == s.clients
          && var c := r.clients[|s.clients|];
             c.armed && c.serial == s.nextSerial < r.nextSerial && c.received == ScriptBytes(a.script))
  {
    if |s.clients| < MAX_CLIENTS {
      var p := Prepared(s, a);
      var n := |s.clients|;
      ScriptTaken(w, p, n, a.script);
      hide StartRead;
      var r := StartRead(w, p, n, a.script).0;
      assert r.clients[..n] == s.clients;
      assert [] + ScriptBytes(a.script) == ScriptBytes(a.script);
    }
  }

  /** What a connection delivers while it is accepted in this turn. */
  function FirstBytes(t: Turn): string { if t.accept.Some? then ScriptBytes(t.accept.value.script) else [] }

  /** The bytes that the surroundings deliver on a connection over a run: its first reads when it is
      accepted, and then the read of every turn. */
  function Inflow(w: World, turns: seq<Turn>, serial: nat): string
    decreases |turns|
  {
    if turns == [] then []
    else
      var pre, t := turns[..|turns| - 1], turns[|turns| - 1];
      var first := DoTurns(w, Initial(), pre).nextSerial;
      (if serial < first then Inflow(w, pre, serial) else FirstBytes(t)) + EventBytes(t.inbox(serial))
  }

  lemma {:induction false} TurnsSnoc(w: World, s: State, turns: seq<Turn>, t: Turn)
    requires |s.slots| == NUM_KINDS
    ensures DoTurns(w, s, turns + [t]) == DoTurn(w, DoTurns(w, s, turns), t)
    decreases |turns|
  {
    hide DoTurn;
    if turns == [] {
      assert [t][1..] == [] && [] + [t] == [t];
    } else {
      assert (turns + [t])[1..] == turns[1..] + [t];
      TurnsSnoc(w, DoTurn(w, s, turns[0]), turns[1..], t);
    }
  }

  lemma InflowSnoc(w: World, pre: seq<Turn>, t: Turn, serial: nat)
    ensures var first := DoTurns(w, Initial(), pre).nextSerial;
      Inflow(w, pre + [t], serial) ==
        (if serial < first then Inflow(w, pre, serial) else FirstBytes(t)) + EventBytes(t.inbox(serial))
  {
    assert (pre + [t])[..|pre|] == pre;
    hide DoTurns, EventBytes, FirstBytes;
  }

  /** Every client is armed and has delivered what the run has brought it. */
  predicate UpToDate(w: World, turns: seq<Turn>, s: State) {
    forall j :: 0 <= j < |s.clients| ==>
      && s.clients[j].armed && s.clients[j].serial < s.nextSerial
      && s.clients[j].received == Inflow(w, turns, s.clients[j].serial)
  }

  /** The same in the middle of a turn, when its client has been accepted but the table not been read. */
  predicate Accepted(w: World, pre: seq<Turn>, t: Turn, first: nat, s: State) {
    forall j :: 0 <= j < |s.clients| ==>
      && s.clients[j].armed && s.clients[j].serial < s.nextSerial
      && s.clients[j].received ==
           if s.clients[j].serial < first then Inflow(w, pre, s.clients[j].serial) else FirstBytes(t)
  }

  lemma PassUpToDate(w: World, pre: seq<Turn>, t: Turn, s: State)
    requires |s.slots| == NUM_KINDS && Accepted(w, pre, t, DoTurns(w, Initial(), pre).nextSerial, s)
    ensures UpToDate(w, pre + [t], ReadFrom(w, s, t.inbox, 0).0)
  {
    hide ReadFrom, EventBytes, ScriptBytes, FirstBytes, Inflow, DoTurns;
    PassTakes(w, s, t.inbox, 0);
    var r := ReadFrom(w, s, t.inbox, 0).0;
    forall j | 0 <= j < |r.clients|
      ensures r.clients[j].armed && r.clients[j].serial < r.nextSerial
      ensures r.clients[j].received == Inflow(w, pre + [t], r.clients[j].serial)
    {
      assert Served(s.clients, t.inbox, 0, r.clients[j]);
      var k :| 0 <= k < |s.clients| && Took(s.clients[k], r.clients[j], EventBytes(t.inbox(s.clients[k].serial)));
      InflowSnoc(w, pre, t, s.clients[k].serial);
    }
  }

  lemma AcceptUpToDate(w: World, pre: seq<Turn>, t: Turn, s: State)
    requires |s.slots| == NUM_KINDS && s.nextSerial == DoTurns(w, Initial(), pre).nextSerial && UpToDate(w, pre, s)
    ensures var s2 := match t.accept case None => s case Some(a) => Accept(w, s, a);
      Accepted(w, pre, t, s.nextSerial, s2)
  {
    hide Accept, Inflow, DoTurns, ScriptBytes;
    if t.accept.Some? {
      AcceptReads(w, s, t.accept.value);
      var s2 := Accept(w, s, t.accept.value);
      forall j | 0 <= j < |s2.clients|
        ensures s2.clients[j].armed && s2.clients[j].serial < s2.nextSerial
        ensures s2.clients[j].received ==
          if s2.clients[j].serial < s.nextSerial then Inflow(w, pre, s2.clients[j].serial) else FirstBytes(t)
      {
        if j < |s.clients| { assert s2.clients[j] == s.clients[j]; }
      }
    }
  }

  lemma DrainUpToDate(w: World, pre: seq<Turn>, s: State, env: PassEnv)
    requires |s.slots| == NUM_KINDS && UpToDate(w, pre, s)
    ensures UpToDate(w, pre, DrainFrom(w, s, env, 0)) && DrainFrom(w, s, env, 0).nextSerial == s.nextSerial
  {
    hide DrainFrom, Inflow;
    DrainReads(w, s, env, 0);
    var r := DrainFrom(w, s, env, 0);
    forall j | 0 <= j < |r.clients|
      ensures r.clients[j].armed && r.clients[j].serial < r.nextSerial
      ensures r.clients[j].received == Inflow(w, pre, r.clients[j].serial)
    {
      assert r.clients[j] in s.clients;
    }
  }

  /** In every run, whatever is accepted, removed and answered: a connected client waits for its next
      read, and the server has taken exactly the bytes that were delivered on its connection. */
  lemma EveryByteIsTaken(w: World, turns: seq<Turn>, j: nat)
    ensures var s := DoTurns(w, Initial(), turns);
      j < |s.clients| ==> s.clients[j].armed && s.clients[j].received == Inflow(w, turns, s.clients[j].serial)
  {
    RunUpToDate(w, turns);
    hide DoTurns, Inflow;
  }

  lemma {:induction false} RunUpToDate(w: World, turns: seq<Turn>)
    ensures UpToDate(w, turns, DoTurns(w, Initial(), turns))
    decreases |turns|
  {
    if turns != [] {
      var n := |turns| - 1;
      var pre, t := turns[..n], turns[n];
      assert turns == pre + [t];
      RunUpToDate(w, pre);
      TurnsSnoc(w, Initial(), pre, t);
      hide DoTurns, DrainFrom, Accept, ReadFrom, UpToDate, Accepted;
      var s := DoTurns(w, Initial(), pre);
      DrainUpToDate(w, pre, s, t.drain);
      var s1 := DrainFrom(w, s, t.drain, 0);
      AcceptUpToDate(w, pre, t, s1);
      var s2 := match t.accept case None => s1 case Some(a) => Accept(w, s1, a);
      PassUpToDate(w, pre, t, s2);
    }
  }

  // ---- how long a client stays ------------------------------------------------------------------------

  /** The chain of reads ends with one that stays pending. */
  predicate EndsPending(script: ReadScript) {
    match script
    case Ready(bytes, rest) => bytes != [] && EndsPending(rest)
    case _ => script.WouldBlock?
  }

  /** The request is answered later: its handler has accepted it, and it waits for a report. */
  predicate AnsweredLater(w: World, s: State, t: nat)
    requires t < |s.requests|
  {
    var line := s.requests[t].line;
    && t in s.calls && w.env(t).accepted && line.Whole? && !OnlyWhitespace(line.text) && w.parse(line.text).Parsed?
    && exists k :: 0 <= k < NUM_KINDS && AwaitsReport(w.parse(line.text).name, k)
  }

  /** The client that asked is not dropped over this request: its answer gets out, or comes later. */
  predicate GoesWell(w: World, s: State, t: nat)
    requires t < |s.requests|
  {
    w.env(t).delivered || AnsweredLater(w, s, t)
  }

  predicate CallsInRange(s: State) { forall u :: u in s.calls ==> u < |s.requests| }

  /** More requests were asked and called since. */
  predicate Later(s: State, r: State) {
    && s.requests <= r.requests && CallsInRange(r)
    && forall u :: 0 <= u < |s.requests| ==> (u in s.calls <==> u in r.calls)
  }

  predicate AllGoWell(w: World, s: State, from: nat) { forall t :: from <= t < |s.requests| ==> GoesWell(w, s, t) }

  lemma AllGoOn(w: World, m: State, r: State, from: nat)
    requires Later(m, r) && from <= |m.requests|
    ensures AllGoWell(w, r, from) <==> AllGoWell(w, m, from) && AllGoWell(w, r, |m.requests|)
  {
    hide OnlyWhitespace;
    forall t | from <= t < |m.requests| ensures GoesWell(w, m, t) <==> GoesWell(w, r, t) {
      assert m.requests[t] == r.requests[t];
    }
  }

  lemma ParsedStays(w: World, s: State, i: nat, t: nat, id: int, name: string, options: Option<string>)
    requires i < |s.clients| && |s.slots| == NUM_KINDS && t !in s.calls
    ensures var r := OnParsed(w, s, i, t, id, name, options);
      && r.0.requests == s.requests && (r.0.calls == s.calls || r.0.calls == s.calls + [t])
      && (r.1 <==>
           || w.env(t).delivered
           || (t in r.0.calls && w.env(t).accepted && exists k :: 0 <= k < NUM_KINDS && AwaitsReport(name, k)))
  {
    KindIs(name);
    if DeferredKind(name).Some? { assert AwaitsReport(name, DeferredKind(name).value); }
    VerdictIsRight(w, t, name, options, []);
    hide Land, AwaitsReport, DeferredKind, RightAnswer;
  }

  lemma RequestStays(w: World, s: State, i: nat)
    requires i < |s.clients| && |s.slots| == NUM_KINDS && CallsInRange(s)
    ensures var r := OnRequest(w, s, i); var t := |s.requests|;
      && Later(s, r.0) && |r.0.requests| == t + 1 && (r.1 <==> GoesWell(w, r.0, t))
  {
    OnRequestShape(w, s, i);
    var c := s.clients[i];
    var t := |s.requests|;
    var s1 := Land(w, s.(requests := s.requests + [NewRequest(w, s, i)]), w.env(t).before);
    assert t !in s.calls;
    if !c.tooLarge && !OnlyWhitespace(c.request) && w.parse(c.request).Parsed? {
      var p := w.parse(c.request);
      ParsedStays(w, s1, i, t, p.id, p.name, p.options);
    }
    hide Land, OnParsed, OnlyWhitespace, AwaitsReport;
  }

  lemma ByteStays(w: World, s: State, i: nat, b: char)
    requires i < |s.clients| && |s.slots| == NUM_KINDS && CallsInRange(s)
    ensures var r := OnByte(w, s, i, b); Later(s, r.0) && (r.1 <==> AllGoWell(w, r.0, |s.requests|))
  {
    OnRequestShape(w, s, i);
    RequestStays(w, s, i);
    hide OnRequest, AnsweredLater;
    if b == '\n' {
      var r := OnByte(w, s, i, b).0;
      assert GoesWell(w, r, |s.requests|) <==> GoesWell(w, OnRequest(w, s, i).0, |s.requests|) by { Same(w, s, i); }
    }
  }

  lemma Same(w: World, s: State, i: nat)
    requires i < |s.clients| && |s.slots| == NUM_KINDS && CallsInRange(s)
    ensures var q := OnRequest(w, s, i).0; var r := OnByte(w, s, i, '\n').0; var t := |s.requests|;
      |q.requests| == |r.requests| == t + 1 && (GoesWell(w, q, t) <==> GoesWell(w, r, t))
  {
    OnRequestShape(w, s, i);
    hide OnRequest, OnlyWhitespace, AwaitsReport;
  }

  lemma {:induction false} BytesStay(w: World, s: State, i: nat, bytes: string)
    requires i < |s.clients| && |s.slots| == NUM_KINDS && CallsInRange(s)
    ensures var r := OnBytes(w, s, i, bytes); Later(s, r.0) && (r.1 <==> AllGoWell(w, r.0, |s.requests|))
    decreases |bytes|
  {
    hide GoesWell;
    if bytes != [] {
      OnRequestShape(w, s, i);
      ByteStays(w, s, i, bytes[0]);
      var r := OnByte(w, s, i, bytes[0]);
      if r.1 {
        hide OnByte;
        BytesStay(w, r.0, i, bytes[1..]);
        AllGoOn(w, r.0, OnBytes(w, r.0, i, bytes[1..]).0, |s.requests|);
      }
    }
  }

  lemma {:induction false} ScriptStays(w: World, s: State, i: nat, script: ReadScript)
    requires i < |s.clients| && |s.slots| == NUM_KINDS && CallsInRange(s)
    ensures var r := StartRead(w, s, i, script);
      Later(s, r.0) && (r.1 == Armed <==> EndsPending(script) && AllGoWell(w, r.0, |s.requests|))
    decreases script
  {
    hide GoesWell;
    match script
    case Ready(bytes, rest) =>
      if bytes != [] {
        BytesStay(w, s, i, bytes);
        hide OnBytes;
        var r := OnBytes(w, s, i, bytes);
        if r.1 {
          ScriptStays(w, r.0, i, rest);
          AllGoOn(w, r.0, StartRead(w, r.0, i, rest).0, |s.requests|);
        }
      }
    case _ =>
  }

  /** A client whose read has come up stays exactly when the read brought bytes, the chain of reads after
      it ends with one that stays pending, and every request on the way is answered or will be. */
  lemma ClientStaysExactly(w: World, s: State, i: nat, event: ReadEvent)
    requires i < |s.clients| && |s.slots| == NUM_KINDS && CallsInRange(s) && s.clients[i].armed
    ensures var r := ReadClient(w, s, i, event);
      && Later(s, r.0)
      && (r.1 <==>
           || event.NotReady?
           || (event.ok && event.bytes != [] && EndsPending(event.rearm) && AllGoWell(w, r.0, |s.requests|)))
  {
    hide GoesWell;
    if event.Finished? && event.ok && event.bytes != [] {
      var s1 := s.(clients := s.clients[i := s.clients[i].(armed := false)]);
      BytesStay(w, s1, i, event.bytes);
      hide OnBytes, StartRead;
      var r := OnBytes(w, s1, i, event.bytes);
      RemovedGoesWell(w, r.0, i, |s.requests|);
      if r.1 {
        ScriptStays(w, r.0, i, event.rearm);
        var q := StartRead(w, r.0, i, event.rearm).0;
        AllGoOn(w, r.0, q, |s.requests|);
        RemovedGoesWell(w, q, i, |s.requests|);
      }
      hide RemoveClient;
    }
  }

  /** An arriving client joins the table exactly when fewer than eight are there, its first reads end with
      one that stays pending, and every request in them is answered or will be; a full table is left as
      it is. */
  lemma ArrivalStaysExactly(w: World, s: State, a: Arrival)
    requires |s.slots| == NUM_KINDS && CallsInRange(s)
    ensures var r := Accept(w, s, a);
      && (|s.clients| >= 8 ==> r == s)
      && (|s.clients| < 8 ==>
           if EndsPending(a.script) && AllGoWell(w, r, |s.requests|)
           then |r.clients| == |s.clients| + 1 && r.clients[..|s.clients|] == s.clients
           else r.clients == s.clients)
  {
    if |s.clients| < MAX_CLIENTS {
      var p := Prepared(s, a);
      var n := |s.clients|;
      ScriptTaken(w, p, n, a.script);
      ScriptStays(w, p, n, a.script);
      hide StartRead;
      var q := StartRead(w, p, n, a.script).0;
      assert q.clients[..n] == s.clients;
      SameLog(w, q, Accept(w, s, a), |s.requests|);
    }
  }

  lemma SameLog(w: World, q: State, r: State, from: nat)
    requires q.requests == r.requests && q.calls == r.calls
    ensures AllGoWell(w, q, from) <==> AllGoWell(w, r, from)
  {
    hide OnlyWhitespace, AwaitsReport;
    forall t | from <= t < |q.requests| ensures GoesWell(w, q, t) <==> GoesWell(w, r, t) { }
  }

  lemma RemovedGoesWell(w: World, s: State, i: nat, from: nat)
    requires i < |s.clients| && CallsInRange(s)
    ensures var r := RemoveClient(s, i);
      r.requests == s.requests && r.calls == s.calls && (AllGoWell(w, r, from) <==> AllGoWell(w, s, from))
  {
    SameLog(w, s, RemoveClient(s, i), from);
    hide AllGoWell, ReleaseAll;
  }
}
