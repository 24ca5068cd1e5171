/** Whole runs of the IPC server, for every behaviour of clients, pipes and the recorder thread:
    what every run keeps, exactly which replies go astray, and exactly which requests the
    shutdown leaves unanswered. */
module IpcRuns {
  import opened Options
  import opened IpcProtocol
  import opened IpcInvariant
  import opened IpcSteps
  import opened IpcFirstRead

  // ---- runs -------------------------------------------------------------------------

  /** The requests that the accepts of the turns strand, told from the arrivals. */
  function StraysOf(w: World, s: State, turns: seq<Turn>): set<nat>
    requires |s.slots| == NUM_KINDS
    decreases |turns|
  {
    if turns == [] then {}
    else
      (match turns[0].accept
       case None => {}
       case Some(a) => Strays(w, DrainFrom(w, s, turns[0].drain, 0), a))
      + StraysOf(w, DoTurn(w, s, turns[0]), turns[1..])
  }

  lemma TurnKeeps(w: World, s: State, t: Turn)
    requires Inv(w, s) && (t.accept.Some? ==> Fresh(DrainFrom(w, s, t.drain, 0), t.accept.value))
    ensures Inv(w, DoTurn(w, s, t))
    ensures DoTurn(w, s, t).orphans == s.orphans +
      match t.accept case None => {} case Some(a) => Strays(w, DrainFrom(w, s, t.drain, 0), a)
  {
    assert |s.slots| == NUM_KINDS;
    hide InvOwing, DrainFrom, ReadFrom, Strays, Accept;
    DrainKeeps(w, s, t.drain, 0);
    var s1 := DrainFrom(w, s, t.drain, 0);
    var s2 := match t.accept case None => s1 case Some(a) => Accept(w, s1, a);
    if t.accept.Some? { AcceptOrphansExactly(w, s1, t.accept.value); }
    ReadPassVisitsEveryClientOnce(w, s2, t.inbox, 0);
  }

  lemma {:induction false} TurnsKeep(w: World, s: State, turns: seq<Turn>)
    requires Inv(w, s)
    ensures FreshTurns(w, s, turns) ==>
      Inv(w, DoTurns(w, s, turns)) && DoTurns(w, s, turns).orphans == s.orphans + StraysOf(w, s, turns)
    decreases |turns|
  {
    assert |s.slots| == NUM_KINDS;
    hide InvOwing, DoTurn, DrainFrom, Strays;
    if turns != [] && FreshTurns(w, s, turns) {
      TurnKeeps(w, s, turns[0]);
      TurnsKeep(w, DoTurn(w, s, turns[0]), turns[1..]);
    }
  }

  /** In every run: clients keep distinct pipes; every occupied slot holds the request of the
      connected client that owns its pipe, or a stray request, whose client is gone; and each
      request of a connected client is answered or held exactly once, no request twice. */
  lemma EveryRunKeepsTheInvariant(w: World, turns: seq<Turn>)
    requires FreshTurns(w, Initial(), turns)
    ensures var s := DoTurns(w, Initial(), turns); var strays := StraysOf(w, Initial(), turns);
      && Distinct(s.clients)
      && (forall k: Kind :: s.slots[k].state != Empty ==>
           var t := s.slots[k].ticket;
           && t < |s.requests| && s.slots[k].fd == s.requests[t].pipe && s.slots[k].id == IdOf(w, s.requests[t].line)
           && (t !in strays <==> Hosts(s.clients, s.slots[k].fd, s.requests[t].serial)))
      && (forall t :: t in strays ==> t < |s.requests| && !Connected(s.clients, s.requests[t].serial))
      && (forall t :: 0 <= t < |s.requests| ==> Load(s, t) <= 1)
      && (forall t :: 0 <= t < |s.requests| && Connected(s.clients, s.requests[t].serial) ==> Load(s, t) == 1)
  {
    InitialKeeps(w);
    TurnsKeep(w, Initial(), turns);
    var s := DoTurns(w, Initial(), turns);
    hide DoTurns, Load, StraysOf, FreshTurns, IdOf;
    forall k: Kind | s.slots[k].state != Empty
      ensures OwnedSlot(w, s, s.slots[k])
      ensures s.slots[k].ticket !in s.orphans <==> Hosts(s.clients, s.slots[k].fd, s.requests[s.slots[k].ticket].serial)
    {
      assert OwnedSlot(w, s, s.slots[k]);
    }
  }

  lemma InitialKeeps(w: World)
    ensures Inv(w, Initial())
  {
  }

  /** Over a whole run of the thread, every reply carries the id of its request and goes to the
      pipe it came from. It goes to another connection exactly when the request is a stray: one
      that a first read left registered when it ended. Then the pipe has been accepted again
      since, and the reply goes to that later connection. */
  lemma RepliesGoAstrayExactly(w: World, turns: seq<Turn>, stop: PassEnv, drain: PassEnv, fail: PassEnv, j: nat)
    requires FreshTurns(w, Initial(), turns)
    ensures var s := Thread(w, Initial(), turns, stop, drain, fail);
      j < |s.replies| ==>
        var r := s.replies[j]; var t := r.ticket;
        && t < |s.requests| && r.id == IdOf(w, s.requests[t].line) && r.pipe == s.requests[t].pipe
        && (r.serial != s.requests[t].serial <==> t in StraysOf(w, Initial(), turns))
        && r.serial >= s.requests[t].serial
  {
    InitialKeeps(w);
    TurnsKeep(w, Initial(), turns);
    var s0 := DoTurns(w, Initial(), turns);
    DrainKeeps(w, s0, stop, 0);
    var s1 := DrainFrom(w, s0, stop, 0);
    DrainKeeps(w, s1, drain, 0);
    var s2 := DrainFrom(w, s1, drain, 0);
    var lost := FailKeeps(w, s2, {}, fail, 0);
    var s := FailFrom(w, s2, fail, 0);
    hide DoTurns, DrainFrom, FailFrom, StraysOf, FreshTurns, IdOf;
    if j < |s.replies| { assert RightReply(w, s, s.replies[j]); }
  }

  // ---- following one slot through the final passes -------------------------------------

  predicate HasKind(cs: seq<Completion>, k: nat)
    decreases |cs|
  {
    cs != [] && (cs[0].kind == k || HasKind(cs[1..], k))
  }

  function FirstOf(cs: seq<Completion>, k: nat): Completion
    requires HasKind(cs, k)
    decreases |cs|
  {
    if cs[0].kind == k then cs[0] else FirstOf(cs[1..], k)
  }

  /** However many completions land, a slot takes the first of its kind and only while it is
      pending: a completed result is never overwritten. */
  lemma {:induction false} FirstCompletionWins(w: World, slots: seq<Slot>, cs: seq<Completion>, k: Kind)
    requires |slots| == NUM_KINDS
    ensures Interfere(w, slots, cs)[k] ==
      if slots[k].state == Pending && HasKind(cs, k) then
        slots[k].(state := Completed, success := FirstOf(cs, k).success, file := Fit(w, FirstOf(cs, k).file))
      else slots[k]
    decreases |cs|
  {
    if cs != [] { FirstCompletionWins(w, Complete(w, slots, cs[0]), cs[1..], k); }
  }

  /** A completion of kind k lands in one of the gaps from..to. */
  predicate AnyGap(env: PassEnv, k: Kind, from: nat, to: nat)
    requires to <= NUM_KINDS
    decreases if from < to then to - from else 0
  {
    from < to && (HasKind(env.gap(from), k) || AnyGap(env, k, from + 1, to))
  }

  lemma DeliverFollows(w: World, s: State, owed: set<nat>, slot: Slot, body: Body, delivered: bool, t: nat)
    requires InvOwing(w, s, owed) && t < |s.requests|
    requires Connected(Deliver(s, slot, body, delivered).clients, s.requests[t].serial)
    ensures var r := Deliver(s, slot, body, delivered);
      && r.requests == s.requests && Connected(s.clients, s.requests[t].serial)
      && (forall k :: 0 <= k < NUM_KINDS && Held(s.slots[k], t) == 1 ==> r.slots[k] == s.slots[k])
      && Answers(r.replies, t) >= Answers(s.replies, t)
  {
  }

  /** The client whose slot was emptied either gets its reply or is gone. */
  lemma DeliverAnswers(w: World, s: State, owed: set<nat>, slot: Slot, body: Body, delivered: bool)
    requires InvOwing(w, s, owed) && OwnedSlot(w, s, slot)
    requires Connected(Deliver(s, slot, body, delivered).clients, s.requests[slot.ticket].serial)
    ensures Answers(Deliver(s, slot, body, delivered).replies, slot.ticket) >= 1
  {
  }

  /** What the drain's sections from..to do to request t, which slot k may hold: it is answered
      when a result is there by the time section k comes up; otherwise slot k is left with
      what has landed since. */
  predicate Drained(s: State, r: State, env: PassEnv, from: nat, to: nat, k: Kind, t: nat)
    requires |s.slots| == NUM_KINDS == |r.slots| && to <= NUM_KINDS
  {
    && Answers(r.replies, t) >= Answers(s.replies, t)
    && (Held(s.slots[k], t) == 1 ==>
         if from <= k < to && (s.slots[k].state == Completed || AnyGap(env, k, from, k + 1))
         then Answers(r.replies, t) >= 1
         else
           && Held(r.slots[k], t) == 1
           && (r.slots[k].state == Completed <==> s.slots[k].state == Completed || AnyGap(env, k, from, to)))
  }

  lemma DrainedCompose(s: State, m: State, r: State, env: PassEnv, j: nat, k: Kind, t: nat)
    requires |s.slots| == |m.slots| == |r.slots| == NUM_KINDS && j < NUM_KINDS
    requires Drained(s, m, env, j, j + 1, k, t) && Drained(m, r, env, j + 1, NUM_KINDS, k, t)
    ensures Drained(s, r, env, j, NUM_KINDS, k, t)
  {
  }

  lemma DrainedAtOnce(s: State, r: State, after: seq<Slot>, env: PassEnv, j: Kind, k: Kind, t: nat)
    requires |s.slots| == |r.slots| == |after| == NUM_KINDS
    requires SameHolders(s.slots, after)
    requires after[k].state == Completed <==>
               s.slots[k].state == Completed || (s.slots[k].state == Pending && HasKind(env.gap(j), k))
    requires Answers(r.replies, t) >= Answers(s.replies, t)
    requires Held(s.slots[k], t) == 1 ==>
               if j == k && after[k].state == Completed then Answers(r.replies, t) >= 1 else r.slots[k] == after[k]
    ensures Drained(s, r, env, j, j + 1, k, t)
  {
    assert AnyGap(env, k, j, j + 1) == HasKind(env.gap(j), k);
  }

  lemma DrainSlotFollows(w: World, s: State, env: PassEnv, j: Kind, k: Kind, t: nat)
    requires Inv(w, s) && t < |s.requests|
    requires Connected(DrainSlot(w, s, env, j).clients, s.requests[t].serial)
    ensures Connected(s.clients, s.requests[t].serial)
    ensures Drained(s, DrainSlot(w, s, env, j), env, j, j + 1, k, t)
  {
    FirstCompletionWins(w, s.slots, env.gap(j), k);
    CompletionsLand(w, s, {}, env.gap(j));
    InterfereKeepsHolders(w, s.slots, env.gap(j));
    var s1 := Land(w, s, env.gap(j));
    var slot := s1.slots[j];
    if slot.state == Completed {
      SlotEmptied(w, s1, {}, j);
      hide InvOwing, OwnedSlot, Drained, Deliver, Interfere;
      var s2 := Emptied(s1, j);
      DeliverFollows(w, s2, {} + {slot.ticket}, slot, ResultBody(j, slot), env.delivered(j), t);
      if j == k && Held(s.slots[k], t) == 1 {
        DeliverAnswers(w, s2, {} + {slot.ticket}, slot, ResultBody(j, slot), env.delivered(j));
      }
      DrainedAtOnce(s, Deliver(s2, slot, ResultBody(j, slot), env.delivered(j)), s1.slots, env, j, k, t);
    } else {
      DrainedAtOnce(s, s1, s1.slots, env, j, k, t);
    }
  }

  lemma {:induction false} DrainFollows(w: World, s: State, env: PassEnv, j: nat, k: Kind, t: nat)
    requires Inv(w, s) && t < |s.requests| && j <= NUM_KINDS
    ensures Connected(DrainFrom(w, s, env, j).clients, s.requests[t].serial) ==>
              Connected(s.clients, s.requests[t].serial) && Drained(s, DrainFrom(w, s, env, j), env, j, NUM_KINDS, k, t)
    decreases NUM_KINDS - j
  {
    if j < NUM_KINDS && Connected(DrainFrom(w, s, env, j).clients, s.requests[t].serial) {
      RequestsStay(w, s, env, j);
      DrainSlotKeeps(w, s, env, j);
      DrainFollows(w, DrainSlot(w, s, env, j), env, j + 1, k, t);
      DrainSlotFollows(w, s, env, j, k, t);
      DrainedCompose(s, DrainSlot(w, s, env, j), DrainFrom(w, s, env, j), env, j, k, t);
    }
  }

  lemma RequestsStay(w: World, s: State, env: PassEnv, j: Kind)
    requires |s.slots| == NUM_KINDS
    ensures DrainSlot(w, s, env, j).requests == s.requests
    ensures FailSlot(w, s, env, j).requests == s.requests
  {
  }

  /** What the fail pass's sections from..to do to request t while slot k holds it. */
  predicate FailedOver(s: State, r: State, env: PassEnv, from: nat, to: nat, k: Kind, t: nat)
    requires |s.slots| == NUM_KINDS == |r.slots| && to <= NUM_KINDS
  {
    && Answers(r.replies, t) >= Answers(s.replies, t)
    && (Held(s.slots[k], t) == 1 && from <= k ==>
         if to <= k then Held(r.slots[k], t) == 1
           && (r.slots[k].state == Completed <==> s.slots[k].state == Completed || AnyGap(env, k, from, to))
         else s.slots[k].state == Completed || AnyGap(env, k, from, k + 1) || Answers(r.replies, t) >= 1)
  }

  lemma FailedOverCompose(s: State, m: State, r: State, env: PassEnv, j: nat, k: Kind, t: nat)
    requires |s.slots| == |m.slots| == |r.slots| == NUM_KINDS && j < NUM_KINDS
    requires FailedOver(s, m, env, j, j + 1, k, t) && FailedOver(m, r, env, j + 1, NUM_KINDS, k, t)
    ensures FailedOver(s, r, env, j, NUM_KINDS, k, t)
  {
  }

  lemma FailedAtOnce(s: State, r: State, after: seq<Slot>, env: PassEnv, j: Kind, k: Kind, t: nat)
    requires |s.slots| == |r.slots| == |after| == NUM_KINDS
    requires SameHolders(s.slots, after)
    requires after[k].state == Completed <==>
               s.slots[k].state == Completed || (s.slots[k].state == Pending && HasKind(env.gap(j), k))
    requires Answers(r.replies, t) >= Answers(s.replies, t)
    requires Held(s.slots[k], t) == 1 ==>
               if j == k then after[k].state == Completed || Answers(r.replies, t) >= 1 else r.slots[k] == after[k]
    ensures FailedOver(s, r, env, j, j + 1, k, t)
  {
    assert AnyGap(env, k, j, j + 1) == HasKind(env.gap(j), k);
  }

  lemma FailSlotFollows(w: World, s: State, owed: set<nat>, env: PassEnv, j: Kind, k: Kind, t: nat)
    requires InvOwing(w, s, owed) && t < |s.requests|
    requires Connected(FailSlot(w, s, env, j).clients, s.requests[t].serial)
    ensures Connected(s.clients, s.requests[t].serial)
    ensures FailedOver(s, FailSlot(w, s, env, j), env, j, j + 1, k, t)
  {
    assert |s.slots| == NUM_KINDS;
    hide InvOwing, OwnedSlot, FailedOver, Deliver, Interfere;
    FirstCompletionWins(w, s.slots, env.gap(j), k);
    CompletionsLand(w, s, owed, env.gap(j));
    InterfereKeepsHolders(w, s.slots, env.gap(j));
    var s1 := Land(w, s, env.gap(j));
    var slot := s1.slots[j];
    if slot.state == Pending {
      SlotEmptied(w, s1, owed, j);
      var s2 := Emptied(s1, j);
      DeliverFollows(w, s2, owed + {slot.ticket}, slot, Error(EXITED_ERROR), env.delivered(j), t);
      if j == k && Held(s.slots[k], t) == 1 {
        DeliverAnswers(w, s2, owed + {slot.ticket}, slot, Error(EXITED_ERROR), env.delivered(j));
      }
    }
    FailedAtOnce(s, FailSlot(w, s, env, j), s1.slots, env, j, k, t);
  }

  lemma {:induction false} FailKeeps(w: World, s: State, owed: set<nat>, env: PassEnv, j: nat) returns (lost: set<nat>)
    requires InvOwing(w, s, owed) && j <= NUM_KINDS
    ensures InvOwing(w, FailFrom(w, s, env, j), lost) && owed <= lost
    decreases NUM_KINDS - j
  {
    assert |s.slots| == NUM_KINDS;
    hide InvOwing, FailSlot, Interfere;
    lost := owed;
    if j < NUM_KINDS {
      FailSlotKeeps(w, s, owed, env, j);
      var slot := Interfere(w, s.slots, env.gap(j))[j];
      var owed1 := if slot.state == Completed then owed + {slot.ticket} else owed;
      lost := FailKeeps(w, FailSlot(w, s, env, j), owed1, env, j + 1);
    }
  }

  lemma FailSlotEmpties(w: World, s: State, env: PassEnv, j: Kind)
    requires |s.slots| == NUM_KINDS
    ensures FailSlot(w, s, env, j).slots[j].state == Empty
    ensures forall i :: 0 <= i < NUM_KINDS && s.slots[i].state == Empty ==>
              FailSlot(w, s, env, j).slots[i].state == Empty
  {
    InterfereKeepsHolders(w, s.slots, env.gap(j));
  }

  lemma {:induction false} FailEmpties(w: World, s: State, env: PassEnv, j: nat)
    requires |s.slots| == NUM_KINDS && j <= NUM_KINDS
    requires forall k :: 0 <= k < j ==> s.slots[k].state == Empty
    ensures forall k :: 0 <= k < NUM_KINDS ==> FailFrom(w, s, env, j).slots[k].state == Empty
    decreases NUM_KINDS - j
  {
    hide FailSlot;
    if j < NUM_KINDS {
      FailSlotEmpties(w, s, env, j);
      FailEmpties(w, FailSlot(w, s, env, j), env, j + 1);
    }
  }

  lemma {:induction false} FailFollows(w: World, s: State, owed: set<nat>, env: PassEnv, j: nat, k: Kind, t: nat)
    requires InvOwing(w, s, owed) && t < |s.requests| && j <= NUM_KINDS
    ensures Connected(FailFrom(w, s, env, j).clients, s.requests[t].serial) ==>
              Connected(s.clients, s.requests[t].serial)
                && FailedOver(s, FailFrom(w, s, env, j), env, j, NUM_KINDS, k, t)
    decreases NUM_KINDS - j
  {
    if j < NUM_KINDS && Connected(FailFrom(w, s, env, j).clients, s.requests[t].serial) {
      var slot := Interfere(w, s.slots, env.gap(j))[j];
      RequestsStay(w, s, env, j);
      FailSlotKeeps(w, s, owed, env, j);
      var owed1 := if slot.state == Completed then owed + {slot.ticket} else owed;
      FailFollows(w, FailSlot(w, s, env, j), owed1, env, j + 1, k, t);
      FailSlotFollows(w, s, owed, env, j, k, t);
      FailedOverCompose(s, FailSlot(w, s, env, j), FailFrom(w, s, env, j), env, j, k, t);
    }
  }

  lemma FailDropsHere(w: World, s: State, owed: set<nat>, env: PassEnv, k: Kind, t: nat)
    requires InvOwing(w, s, owed) && t < |s.requests| && Held(s.slots[k], t) == 1
    requires s.slots[k].state == Completed || HasKind(env.gap(k), k)
    ensures Answers(FailFrom(w, s, env, k).replies, t) == 0
  {
    FailSlotKeeps(w, s, owed, env, k);
    FirstCompletionWins(w, s.slots, env.gap(k), k);
    hide InvOwing, FailSlot, Interfere;
    var lost := FailKeeps(w, FailSlot(w, s, env, k), owed + {t}, env, k + 1);
    OwedIsUnanswered(w, FailFrom(w, s, env, k), lost, t);
  }

  /** A result that is there when its section comes up is dropped, never to be sent. */
  lemma {:induction false} FailDrops(w: World, s: State, owed: set<nat>, env: PassEnv, j: nat, k: Kind, t: nat)
    requires InvOwing(w, s, owed) && t < |s.requests| && j <= k
    requires Held(s.slots[k], t) == 1 && (s.slots[k].state == Completed || AnyGap(env, k, j, k + 1))
    ensures Connected(FailFrom(w, s, env, j).clients, s.requests[t].serial)
      ==> Answers(FailFrom(w, s, env, j).replies, t) == 0
    decreases NUM_KINDS - j
  {
    assert AnyGap(env, k, j, j + 1) == HasKind(env.gap(j), k);
    if j == k {
      FailDropsHere(w, s, owed, env, k, t);
    } else if Connected(FailFrom(w, s, env, j).clients, s.requests[t].serial) {
      var slot := Interfere(w, s.slots, env.gap(j))[j];
      var owed1 := if slot.state == Completed then owed + {slot.ticket} else owed;
      FailSlotKeeps(w, s, owed, env, j);
      RequestsStay(w, s, env, j);
      hide InvOwing, FailSlot, Interfere;
      FailFollows(w, FailSlot(w, s, env, j), owed1, env, j + 1, k, t);
      FailSlotFollows(w, s, owed, env, j, k, t);
      FailDrops(w, FailSlot(w, s, env, j), owed1, env, j + 1, k, t);
    }
  }

  lemma OwedIsUnanswered(w: World, s: State, owed: set<nat>, t: nat)
    requires InvOwing(w, s, owed) && t in owed
    ensures Answers(s.replies, t) == 0
  {
  }

  lemma {:induction false} RequestsKept(w: World, s: State, env: PassEnv, j: nat)
    requires |s.slots| == NUM_KINDS && j <= NUM_KINDS
    ensures FailFrom(w, s, env, j).requests == s.requests
    decreases NUM_KINDS - j
  {
    if j < NUM_KINDS { RequestsStay(w, s, env, j); RequestsKept(w, FailSlot(w, s, env, j), env, j + 1); }
  }

  // ---- shutdown -----------------------------------------------------------------------

  /** The result of slot k arrives too late for the last drain and too early for the fail
      pass: it is pending, no completion lands by the drain's section k, and one lands after
      that and by the fail pass's section k. */
  predicate Late(slot: Slot, drain: PassEnv, fail: PassEnv, k: Kind) {
    && slot.state == Pending
    && !AnyGap(drain, k, 0, k + 1)
    && (AnyGap(drain, k, k + 1, NUM_KINDS) || AnyGap(fail, k, 0, k + 1))
  }

  /** When the IPC thread ends, every slot is empty, no request is answered twice, and a
      request of a client that is still connected is answered exactly once unless its result
      landed between the last drain and the fail pass, in which case it is never answered. */
  lemma ShutdownAnswersExactly(w: World, s: State, drain: PassEnv, fail: PassEnv, t: nat)
    requires Inv(w, s) && t < |s.requests|
    ensures var r := Finish(w, s, drain, fail);
      && (forall k :: 0 <= k < NUM_KINDS ==> r.slots[k].state == Empty)
      && Answers(r.replies, t) <= 1
      && (Connected(r.clients, s.requests[t].serial) ==>
           (Answers(r.replies, t) == 1 <==>
             forall k: Kind :: Held(s.slots[k], t) == 1 ==> !Late(s.slots[k], drain, fail, k)))
  {
    DrainKeeps(w, s, drain, 0);
    var d := DrainFrom(w, s, drain, 0);
    DrainRequestsKept(w, s, drain, 0);
    RequestsKept(w, d, fail, 0);
    var lost := FailKeeps(w, d, {}, fail, 0);
    FailEmpties(w, d, fail, 0);
    AtMostOnce(w, Finish(w, s, drain, fail), lost, t);
    if Connected(Finish(w, s, drain, fail).clients, s.requests[t].serial) { AnsweredUnlessLate(w, s, drain, fail, t); }
  }

  lemma AnsweredUnlessLate(w: World, s: State, drain: PassEnv, fail: PassEnv, t: nat)
    requires Inv(w, s) && t < |s.requests|
    ensures Connected(Finish(w, s, drain, fail).clients, s.requests[t].serial) ==>
              (Answers(Finish(w, s, drain, fail).replies, t) >= 1 <==>
                forall k: Kind :: Held(s.slots[k], t) == 1 ==> !Late(s.slots[k], drain, fail, k))
  {
    if !Connected(Finish(w, s, drain, fail).clients, s.requests[t].serial) { return; }
    var d := DrainFrom(w, s, drain, 0);
    DrainKeeps(w, s, drain, 0);
    DrainRequestsKept(w, s, drain, 0);
    FailFollows(w, d, {}, fail, 0, 0, t);
    DrainFollows(w, s, drain, 0, 0, t);
    LoadedOnce(w, s, t);
    forall k: Kind | Held(s.slots[k], t) == 1
      ensures Answers(Finish(w, s, drain, fail).replies, t) >= 1 <==> !Late(s.slots[k], drain, fail, k)
    {
      FinishFollows(w, s, drain, fail, k, t);
    }
  }

  lemma AtMostOnce(w: World, s: State, owed: set<nat>, t: nat)
    requires InvOwing(w, s, owed) && t < |s.requests|
    ensures Answers(s.replies, t) <= Load(s, t) <= 1
  {
  }

  lemma LoadedOnce(w: World, s: State, t: nat)
    requires Inv(w, s) && t < |s.requests| && Connected(s.clients, s.requests[t].serial)
    ensures Answers(s.replies, t) == 1 || exists k: Kind :: Held(s.slots[k], t) == 1
    ensures forall k: Kind :: Held(s.slots[k], t) == 1 ==> Answers(s.replies, t) == 0
    ensures forall j: Kind, k: Kind :: Held(s.slots[j], t) == 1 && Held(s.slots[k], t) == 1 ==> j == k
  {
  }

  /** The two final passes, for request t held by slot k. */
  lemma FinishFollows(w: World, s: State, drain: PassEnv, fail: PassEnv, k: Kind, t: nat)
    requires Inv(w, s) && t < |s.requests| && Held(s.slots[k], t) == 1
    ensures Connected(Finish(w, s, drain, fail).clients, s.requests[t].serial) ==>
              (Answers(Finish(w, s, drain, fail).replies, t) >= 1 <==> !Late(s.slots[k], drain, fail, k))
  {
    if !Connected(Finish(w, s, drain, fail).clients, s.requests[t].serial) { return; }
    var d := DrainFrom(w, s, drain, 0);
    assert Inv(w, d) by { DrainKeeps(w, s, drain, 0); }
    DrainRequestsKept(w, s, drain, 0);
    FailFollows(w, d, {}, fail, 0, k, t);
    DrainFollows(w, s, drain, 0, k, t);
    GapUnion(drain, k, 0, k + 1, NUM_KINDS);
    if Late(s.slots[k], drain, fail, k) {
      FailDrops(w, d, {}, fail, 0, k, t);
    }
  }

  lemma {:induction false} GapUnion(env: PassEnv, k: Kind, from: nat, mid: nat, to: nat)
    requires from <= mid <= to <= NUM_KINDS
    ensures AnyGap(env, k, from, to) <==> AnyGap(env, k, from, mid) || AnyGap(env, k, mid, to)
    decreases mid - from
  {
  }

  lemma {:induction false} DrainRequestsKept(w: World, s: State, env: PassEnv, j: nat)
    requires |s.slots| == NUM_KINDS && j <= NUM_KINDS
    ensures DrainFrom(w, s, env, j).requests == s.requests
    decreases NUM_KINDS - j
  {
    if j < NUM_KINDS { RequestsStay(w, s, env, j); DrainRequestsKept(w, DrainSlot(w, s, env, j), env, j + 1); }
  }

  /** A whole run of ipc_thread: a request of a client that is still connected at the end has
      been answered exactly once, unless a slot held it when the last drain began and its
      result was late; then it is never answered. No request is answered twice. */
  lemma ThreadAnswersExactly(w: World, turns: seq<Turn>, stop: PassEnv, drain: PassEnv, fail: PassEnv, t: nat)
    requires FreshTurns(w, Initial(), turns)
    ensures var s := DrainFrom(w, DoTurns(w, Initial(), turns), stop, 0);
      var r := Thread(w, Initial(), turns, stop, drain, fail);
      && r.requests == s.requests
      && (t < |r.requests| ==>
           && Answers(r.replies, t) <= 1
           && (Connected(r.clients, r.requests[t].serial) ==>
                (Answers(r.replies, t) == 1 <==>
                  forall k: Kind :: Held(s.slots[k], t) == 1 ==> !Late(s.slots[k], drain, fail, k))))
  {
    InitialKeeps(w);
    hide InvOwing, DoTurns, DrainFrom, FailFrom;
    TurnsKeep(w, Initial(), turns);
    DrainKeeps(w, DoTurns(w, Initial(), turns), stop, 0);
    var s := DrainFrom(w, DoTurns(w, Initial(), turns), stop, 0);
    DrainRequestsKept(w, s, drain, 0);
    RequestsKept(w, DrainFrom(w, s, drain, 0), fail, 0);
    if t < |s.requests| { ShutdownAnswersExactly(w, s, drain, fail, t); }
  }
}
