/** Two concrete runs of the IPC server in which a promise fails. */
module IpcFailures {
  import opened Options
  import opened IpcProtocol
  import opened IpcInvariant
  import opened IpcFirstRead
  import opened IpcRuns

  /** A world in which every line is a request to stop that its handler accepts. */
  function StopWorld(): World {
    World((text: string) => Parsed(7, "stop", None), (t: nat) => RequestEnv([], [], true, "", true), 260)
  }

  const FREE_SLOTS: seq<Slot> := [FREE_SLOT, FREE_SLOT, FREE_SLOT]

  /** The table with the orphan's client in it: before its newline, and after it. */
  const BEFORE_STOP := State([Client(5, [] + ['x'], false, false, 0, [] + ['x'])], FREE_SLOTS, [], [], [], 1, {}, [])
  const AFTER_STOP := State([Client(5, [], false, false, 0, [] + ['x'] + ['\n'])],
                           FREE_SLOTS[0 := Slot(Pending, 5, 7, false, None, 0)], [Request(0, 5, Whole([] + ['x']), 0)],
                             [], [0], 1, {}, [])

  lemma StopRegisters()
    ensures OnByte(StopWorld(), BEFORE_STOP, 0, '\n') == (AFTER_STOP, true)
  {
    assert !IsBlank(BEFORE_STOP.clients[0].request[0]);
    var r := OnByte(StopWorld(), BEFORE_STOP, 0, '\n').0;
    assert r.clients == AFTER_STOP.clients && r.slots == AFTER_STOP.slots;
    assert r.requests == AFTER_STOP.requests && r.calls == AFTER_STOP.calls && r.reports == AFTER_STOP.reports;
  }

  lemma StopArrives(s: State)
    requires s == Prepared(Initial(), Arrival(5, Ready("x\n", Gone)))
    ensures OnBytes(StopWorld(), s, 0, "x\n") == (AFTER_STOP, true)
  {
    StopRegisters();
    assert OnByte(StopWorld(), s, 0, 'x').0.clients == BEFORE_STOP.clients;
    assert OnByte(StopWorld(), s, 0, 'x') == (BEFORE_STOP, true);
    assert "x\n"[1..] == ['\n'] && ['\n'][1..] == [];
    hide OnByte;
    assert OnBytes(StopWorld(), BEFORE_STOP, 0, ['\n']) == OnBytes(StopWorld(), AFTER_STOP, 0, []);
  }

  /** What a client leaves behind that delivers "x\n" and is gone. */
  lemma OrphanStays()
    ensures Accept(StopWorld(), Initial(), Arrival(5, Ready("x\n", Gone))) == AFTER_STOP.(clients := [], orphans := {0})
  {
    var gone := Arrival(5, Ready("x\n", Gone));
    var s := Prepared(Initial(), gone);
    StopArrives(s);
    hide OnBytes;
    assert StartRead(StopWorld(), s, 0, gone.script) == StartRead(StopWorld(), AFTER_STOP, 0, Gone) ==
      (AFTER_STOP, Disconnected);
    assert AFTER_STOP.clients[..0] == [];
    hide StartRead;
    OrphanHeld();
  }

  lemma OrphanHeld()
    ensures HeldFor(AFTER_STOP, 0) == {0}
  {
    assert AFTER_STOP.slots[0].state != Empty && AFTER_STOP.requests[0].serial == 0;
    assert 0 in HeldFor(AFTER_STOP, 0);
  }

  /** A stray reply is real: a client whose first read delivers "x\n" and ends leaves its stop
      request registered; the next client gets the same pipe handle, and the reply to the request
      of connection 0 is written to connection 1. */
  lemma OrphanReachesTheWrongClient()
    ensures var w := StopWorld();
      var gone := Arrival(5, Ready("x\n", Gone)); var next := Arrival(5, WouldBlock);
      var done := PassEnv(k => if k == 0 then [Completion(0, true, None)] else [], k => true);
      var s := Accept(w, Accept(w, Initial(), gone), next);
      var r := DrainSlot(w, s, done, 0);
      && |r.replies| == 1 && |r.requests| == 1 && r.replies[0].ticket == 0
      && r.replies[0].serial == 1 && r.requests[0].serial == 0
  {
    OrphanStays();
    var w := StopWorld();
    var a := Accept(w, Initial(), Arrival(5, Ready("x\n", Gone)));
    var b := Accept(w, a, Arrival(5, WouldBlock));
    assert |b.clients| == 1 && b.clients[0].serial == 1 && b.clients[0].pipe == 5;
    var done := PassEnv(k => if k == 0 then [Completion(0, true, None)] else [], k => true);
    assert done.gap(0)[1..] == [];
    assert Interfere(w, b.slots, done.gap(0)) == Complete(w, b.slots, Completion(0, true, None));
  }

  // ---- a late result ----------------------------------------------------------------------

  function Quiet(): PassEnv { PassEnv(k => [], k => true) }

  /** The stop completes before the fail pass looks at its slot. */
  function Completes(): PassEnv { PassEnv(k => if k == 0 then [Completion(0, true, None)] else [], k => true) }

  const WAITING: State := AFTER_STOP.(clients := [AFTER_STOP.clients[0].(armed := true)])

  /** A client delivers "x\n" in its first read and waits. */
  function Asks(): Turn { Turn(Quiet(), Some(Arrival(5, Ready("x\n", WouldBlock))), _ => NotReady) }

  lemma NothingToDrain(s: State, k: nat)
    requires |s.slots| == NUM_KINDS && k <= NUM_KINDS
    requires forall j :: 0 <= j < NUM_KINDS ==> s.slots[j].state != Completed
    ensures DrainFrom(StopWorld(), s, Quiet(), k) == s
    decreases NUM_KINDS - k
  {
    if k < NUM_KINDS { assert Interfere(StopWorld(), s.slots, Quiet().gap(k)) == s.slots; }
  }

  lemma WaitingIsNotReady()
    ensures ReadFrom(StopWorld(), WAITING, Asks().inbox, 0).0 == WAITING
  {
    assert |WAITING.clients| == 1;
    var r := ReadClient(StopWorld(), WAITING, 0, NotReady);
    assert r == (WAITING, true);
    assert ReadFrom(StopWorld(), WAITING, Asks().inbox, 1) == (WAITING, []);
  }

  lemma ClientWaits()
    ensures DoTurn(StopWorld(), Initial(), Asks()) == WAITING
  {
    var w := StopWorld();
    var a := Asks().accept.value;
    NothingToDrain(Initial(), 0);
    StopArrives(Prepared(Initial(), a));
    hide OnBytes;
    assert AFTER_STOP.clients[0 := AFTER_STOP.clients[0].(armed := true)] == WAITING.clients;
    assert StartRead(w, Prepared(Initial(), a), 0, a.script) == StartRead(w, AFTER_STOP, 0, WouldBlock) ==
      (WAITING, Armed);
    assert Accept(w, Initial(), a) == WAITING;
    hide StartRead, Accept, DrainFrom;
    WaitingIsNotReady();
  }

  lemma LateIsDropped()
    ensures FailFrom(StopWorld(), WAITING, Completes(), 0) ==
      WAITING.(slots := FailFrom(StopWorld(), WAITING, Completes(), 0).slots, reports := [Completion(0, true, None)])
  {
    var w := StopWorld();
    var e := Completes();
    var cs := e.gap(0);
    assert cs[1..] == [];
    assert Interfere(w, WAITING.slots, cs) == Complete(w, WAITING.slots, cs[0]);
    var s1 := FailSlot(w, WAITING, e, 0);
    assert [] + cs == cs == [Completion(0, true, None)] && cs + [] == cs;
    assert s1 == WAITING.(slots := s1.slots, reports := cs) && s1.slots[1] == FREE_SLOT && s1.slots[2] == FREE_SLOT;
    var s2 := FailSlot(w, s1, e, 1);
    assert s2 == WAITING.(slots := s2.slots, reports := cs) && s2.slots[2] == FREE_SLOT;
    var s3 := FailSlot(w, s2, e, 2);
    assert FailFrom(w, s1, e, 1) == FailFrom(w, s2, e, 2) == FailFrom(w, s3, e, 3);
  }

  /** A late result is real: the stop completes between the last drain and the fail pass, and the
      client, still connected, is never answered. */
  lemma LateResultIsLost()
    ensures var r := Thread(StopWorld(), Initial(), [Asks()], Quiet(), Quiet(), Completes());
      && FreshTurns(StopWorld(), Initial(), [Asks()])
      && |r.requests| == 1 && Connected(r.clients, r.requests[0].serial) && r.replies == []
  {
    hide DoTurns, DoTurn, DrainFrom, FailFrom, FreshTurns, Asks, Connected;
    ClientWaits();
    OneTurn(StopWorld(), Initial(), Asks());
    AsksOnAFreshPipe();
    NothingToDrain(WAITING, 0);
    LateIsDropped();
    StillThere();
  }

  lemma OneTurn(w: World, s: State, t: Turn)
    requires |s.slots| == NUM_KINDS
    ensures DoTurns(w, s, [t]) == DoTurn(w, s, t)
    ensures FreshTurns(w, s, [t]) <==> (t.accept.Some? ==> Fresh(DrainFrom(w, s, t.drain, 0), t.accept.value))
  {
    assert [t][1..] == [];
    hide DoTurn, DrainFrom, Fresh;
  }

  lemma AsksOnAFreshPipe()
    ensures Fresh(DrainFrom(StopWorld(), Initial(), Asks().drain, 0), Asks().accept.value)
  {
    NothingToDrain(Initial(), 0);
    hide DrainFrom;
  }

  lemma StillThere()
    ensures Connected(WAITING.clients, 0)
  {
    assert WAITING.clients[0].serial == 0;
  }
}
