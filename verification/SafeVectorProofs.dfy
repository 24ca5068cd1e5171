/** What every program over a SafeVector keeps. */
module SafeVectorProofs {
  import opened SafeVectorModel

  /** Serials in the vector are distinct and already handed out. */
  predicate Numbered(s: State) {
    && (forall i :: 0 <= i < |s.data| ==> s.data[i].serial < s.nextSerial)
    && (forall i, j :: 0 <= i < j < |s.data| ==> s.data[i].serial != s.data[j].serial)
  }

  predicate IsGone(log: seq<Event>, serial: nat) { exists j :: 0 <= j < |log| && log[j] == Gone(serial) }

  /** A loop over the live items never shows an item that was taken out before. */
  predicate NothingReturns(log: seq<Event>) {
    forall i, j :: 0 <= i < j < |log| && log[i].Gone? && log[j].Seen? && !log[j].deadToo
      ==> log[i].serial != log[j].serial
  }

  predicate Inv(s: State) {
    && Numbered(s)
    && s.numAlive + s.deadPops == CountAlive(s.data)
    && (s.depth == 0 ==> !s.hasDead && forall i :: 0 <= i < |s.data| ==> s.data[i].alive)
    && ((exists i :: 0 <= i < |s.data| && !s.data[i].alive) ==> s.hasDead)
    && (forall j :: 0 <= j < |s.log| ==> s.log[j].serial < s.nextSerial)
    && (forall i :: 0 <= i < |s.data| && s.data[i].alive ==> !IsGone(s.log, s.data[i].serial))
    && NothingReturns(s.log)
    && (forall j :: 0 <= j < |s.sizes| ==> s.sizes[j].answer + s.sizes[j].deadPops == s.sizes[j].live)
  }

  // ---- counting -------------------------------------------------------------------------

  lemma {:induction false} CountConcat(a: seq<Cell>, b: seq<Cell>)
    ensures CountAlive(a + b) == CountAlive(a) + CountAlive(b)
  {
    if a == [] {
      assert a + b == b;
    } else {
      assert (a + b)[0] == a[0] && (a + b)[1..] == a[1..] + b;
      CountConcat(a[1..], b);
    }
  }

  lemma CountSplit(data: seq<Cell>, i: nat)
    requires i < |data|
    ensures CountAlive(data) == CountAlive(data[..i]) + (if data[i].alive then 1 else 0) + CountAlive(data[i + 1..])
  {
    CountConcat(data[..i], data[i..]);
    assert data == data[..i] + data[i..];
    assert data[i..][1..] == data[i + 1..];
  }

  lemma CountUpdate(data: seq<Cell>, i: nat, c: Cell)
    requires i < |data|
    ensures CountAlive(data[i := c]) == CountAlive(data) - (if data[i].alive then 1 else 0) + (if c.alive then 1 else 0)
  {
    CountSplit(data, i);
    CountSplit(data[i := c], i);
    assert data[i := c][..i] == data[..i] && data[i := c][i + 1..] == data[i + 1..];
  }

  lemma CountErase(data: seq<Cell>, i: nat)
    requires i < |data|
    ensures CountAlive(data[..i] + data[i + 1..]) == CountAlive(data) - (if data[i].alive then 1 else 0)
  {
    CountSplit(data, i);
    CountConcat(data[..i], data[i + 1..]);
  }

  /** Purging keeps exactly the live cells, in order. */
  lemma {:induction false} PurgeKeepsLive(data: seq<Cell>)
    ensures CountAlive(Purge(data)) == CountAlive(data) == |Purge(data)|
    ensures forall i :: 0 <= i < |Purge(data)| ==> Purge(data)[i].alive && Purge(data)[i] in data
    ensures forall i :: 0 <= i < |data| && data[i].alive ==> data[i] in Purge(data)
    ensures (forall i, j :: 0 <= i < j < |data| ==> data[i].serial != data[j].serial) ==>
              forall i, j :: 0 <= i < j < |Purge(data)| ==> Purge(data)[i].serial != Purge(data)[j].serial
  {
    if data != [] {
      PurgeKeepsLive(data[1..]);
      var rest := Purge(data[1..]);
      assert forall i :: 0 <= i < |rest| ==> rest[i] in data[1..];
      if data[0].alive { assert Purge(data)[1..] == rest; } else { assert Purge(data) == rest; }
    }
  }

  // ---- one change at a time -----------------------------------------------------------------

  lemma LogGone(log: seq<Event>, serial: nat)
    requires NothingReturns(log)
    ensures NothingReturns(log + [Gone(serial)])
    ensures forall t: nat :: IsGone(log + [Gone(serial)], t) <==> t == serial || IsGone(log, t)
  {
    var after := log + [Gone(serial)];
    assert after[|log|] == Gone(serial);
    forall t: nat | IsGone(log, t) ensures IsGone(after, t) {
      var j :| 0 <= j < |log| && log[j] == Gone(t);
      assert after[j] == Gone(t);
    }
  }

  lemma PushKeeps(s: State, item: Ptr)
    requires Inv(s)
    ensures Inv(DoPush(s, item))
  {
    CountConcat(s.data, [Cell(item, true, s.nextSerial)]);
  }

  lemma PopKeeps(s: State)
    requires Inv(s)
    ensures Inv(DoPop(s))
  {
    if s.data != [] {
      var n := |s.data| - 1;
      CountSplit(s.data, n);
      LogGone(s.log, s.data[n].serial);
    }
  }

  lemma ErasedCells(data: seq<Cell>, i: nat)
    requires i < |data|
    ensures var r := data[..i] + data[i + 1..];
      && (forall j :: 0 <= j < i ==> r[j] == data[j])
      && (forall j :: i <= j < |r| ==> r[j] == data[j + 1])
  {
  }

  lemma EraseKeeps(s: State, i: nat)
    requires Inv(s) && i < |s.data| && s.data[i].alive
    ensures Inv(s.(data := s.data[..i] + s.data[i + 1..], numAlive := s.numAlive - 1,
      log := s.log + [Gone(s.data[i].serial)]))
  {
    var r := s.(data := s.data[..i] + s.data[i + 1..], numAlive := s.numAlive - 1,
      log := s.log + [Gone(s.data[i].serial)]);
    CountErase(s.data, i);
    LogGone(s.log, s.data[i].serial);
    ErasedCells(s.data, i);
    hide CountAlive, IsGone, NothingReturns;
    assert Numbered(r);
    forall j | 0 <= j < |r.data| && r.data[j].alive ensures !IsGone(r.log, r.data[j].serial) {
      var k := if j < i then j else j + 1;
      assert r.data[j] == s.data[k];
    }
    forall j | 0 <= j < |r.data| && !r.data[j].alive ensures r.hasDead {
      var k := if j < i then j else j + 1;
      assert r.data[j] == s.data[k];
    }
  }

  lemma MarkKeeps(s: State, i: nat)
    requires Inv(s) && i < |s.data| && s.data[i].alive && s.depth > 0
    ensures Inv(s.(data := s.data[i := s.data[i].(alive := false)], numAlive := s.numAlive - 1, hasDead := true,
                   log := s.log + [Gone(s.data[i].serial)]))
  {
    CountUpdate(s.data, i, s.data[i].(alive := false));
    LogGone(s.log, s.data[i].serial);
  }

  lemma RemoveKeeps(s: State, item: Ptr)
    requires Inv(s)
    ensures Inv(DoRemove(s, item))
  {
    var i := Find(s.data, item);
    if i != -1 {
      if s.depth == 0 { EraseKeeps(s, i); }
      else if s.data[i].alive { MarkKeeps(s, i); }
    }
  }

  lemma ClearKeeps(s: State)
    requires Inv(s)
    ensures Inv(DoClear(s))
  {
  }

  lemma ReplaceKeeps(s: State, item: Ptr, newItem: Ptr)
    requires Inv(s)
    ensures Inv(DoReplace(s, item, newItem))
  {
    var i := Find(s.data, item);
    if i != -1 && s.data[i].alive {
      CountUpdate(s.data, i, Cell(newItem, true, s.nextSerial));
      LogGone(s.log, s.data[i].serial);
    }
  }

  lemma AskKeeps(s: State)
    requires Inv(s)
    ensures Inv(DoAsk(s))
  {
  }

  lemma NoteKeeps(s: State, op: Op, r: State)
    requires Inv(r)
    ensures Inv(Noted(s, op, r))
  {
  }

  lemma LookKeeps(s: State, i: nat, deadToo: bool)
    requires Inv(s) && i < |s.data| && (s.data[i].alive || deadToo)
    ensures Inv(Look(s, i, deadToo))
  {
  }

  lemma LeaveKeeps(s: State)
    requires Inv(s) && s.depth > 0
    ensures Inv(Leave(s))
  {
    if s.depth == 1 && s.hasDead {
      PurgeKeepsLive(s.data);
    }
  }

  // ---- whole programs ---------------------------------------------------------------------------

  /** Any nesting of loops and mutations keeps the invariant. */
  lemma {:induction false} RunKeeps(s: State, op: Op)
    requires Inv(s)
    ensures Inv(Run(s, op))
    decreases op, 0, 0
  {
    hide Inv;
    match op
    case PushBack(item) =>
      PushKeeps(s, item);
      NoteKeeps(s, op, DoPush(s, item));
    case PopBack =>
      PopKeeps(s);
      NoteKeeps(s, op, DoPop(s));
    case Remove(item) =>
      RemoveKeeps(s, item);
      NoteKeeps(s, op, DoRemove(s, item));
    case Clear =>
      ClearKeeps(s);
      NoteKeeps(s, op, DoClear(s));
    case Replace(item, newItem) =>
      ReplaceKeeps(s, item, newItem);
      NoteKeeps(s, op, DoReplace(s, item, newItem));
    case AskSize => AskKeeps(s);
    case ForEach(visits, deadToo) =>
      EnterKeeps(s);
      ForwardKeeps(Enter(s), visits, deadToo, 0);
      LeaveKeeps(Forward(Enter(s), visits, deadToo, 0).s);
    case ForEachReverse(visits, deadToo) =>
      EnterKeeps(s);
      BackwardKeeps(Enter(s), visits, deadToo, |s.data| - 1);
      LeaveKeeps(Backward(Enter(s), visits, deadToo, |s.data| - 1).s);
  }

  lemma EnterKeeps(s: State)
    requires Inv(s)
    ensures Inv(Enter(s))
  {
  }

  lemma {:induction false} RunAllKeeps(s: State, ops: seq<Op>)
    requires Inv(s)
    ensures Inv(RunAll(s, ops))
    decreases ops, 0, 0
  {
    hide Inv;
    if ops != [] {
      RunKeeps(s, ops[0]);
      RunAllKeeps(Run(s, ops[0]), ops[1..]);
    }
  }

  lemma {:induction false} ForwardKeeps(s: State, visits: seq<Visit>, deadToo: bool, i: nat)
    requires Inv(s)
    ensures Inv(Forward(s, visits, deadToo, i).s)
    decreases visits, 1, |s.data| - i
  {
    hide Inv;
    if i < |s.data| {
      if !s.data[i].alive && !deadToo {
        ForwardKeeps(s, visits, deadToo, i + 1);
      } else {
        LookKeeps(s, i, deadToo);
        if visits == [] {
          ForwardKeeps(Look(s, i, deadToo), visits, deadToo, i + 1);
        } else {
          RunAllKeeps(Look(s, i, deadToo), visits[0].ops);
          if visits[0].result { ForwardKeeps(RunAll(Look(s, i, deadToo), visits[0].ops), visits[1..], deadToo, i + 1); }
        }
      }
    }
  }

  lemma {:induction false} BackwardKeeps(s: State, visits: seq<Visit>, deadToo: bool, i: int)
    requires Inv(s)
    ensures Inv(Backward(s, visits, deadToo, i).s)
    decreases visits, 1, i
  {
    hide Inv;
    var at := Clip(i, |s.data|);
    if at >= 0 {
      if !s.data[at].alive && !deadToo {
        BackwardKeeps(s, visits, deadToo, at - 1);
      } else {
        LookKeeps(s, at, deadToo);
        if visits == [] {
          BackwardKeeps(Look(s, at, deadToo), visits, deadToo, at - 1);
        } else {
          RunAllKeeps(Look(s, at, deadToo), visits[0].ops);
          if visits[0].result {
            BackwardKeeps(RunAll(Look(s, at, deadToo), visits[0].ops), visits[1..], deadToo, at - 1);
          }
        }
      }
    }
  }

  /** In every program: outside all loops no dead item is left; wherever size() is called, in any
      callback of any nesting or outside, it answers with the number of live items exactly when no
      pop_back since the last clear has hit a dead one; and no loop over the live items shows an
      item after it was taken out. */
  lemma EveryProgramKeepsTheVector(ops: seq<Op>)
    ensures var s := RunAll(Initial(), ops);
      && !s.hasDead && (forall i :: 0 <= i < |s.data| ==> s.data[i].alive)
      && (s.numAlive == CountAlive(s.data) == |s.data| <==> s.deadPops == 0)
      && (forall j :: 0 <= j < |s.sizes| ==> (s.sizes[j].answer == s.sizes[j].live <==> s.sizes[j].deadPops == 0))
      && NothingReturns(s.log)
  {
    hide Inv, RunAll;
    InitialKeeps();
    RunAllKeeps(Initial(), ops);
    OutsideLoops(RunAll(Initial(), ops));
  }

  lemma InitialKeeps()
    ensures Inv(Initial())
  {
  }

  lemma OutsideLoops(s: State)
    requires Inv(s) && s.depth == 0
    ensures !s.hasDead
    ensures forall i :: 0 <= i < |s.data| ==> s.data[i].alive
    ensures s.numAlive == CountAlive(s.data) == |s.data| <==> s.deadPops == 0
    ensures NothingReturns(s.log)
    ensures forall j :: 0 <= j < |s.sizes| ==> (s.sizes[j].answer == s.sizes[j].live <==> s.sizes[j].deadPops == 0)
  {
    AllAliveCount(s.data);
  }

  lemma {:induction false} AllAliveCount(data: seq<Cell>)
    requires forall i :: 0 <= i < |data| ==> data[i].alive
    ensures CountAlive(data) == |data|
  {
    if data != [] { AllAliveCount(data[1..]); }
  }

  /** While any loop runs, remove takes nothing out of the storage and moves nothing. */
  lemma RemoveInLoopKeepsStorage(s: State, item: Ptr)
    requires s.depth > 0
    ensures |DoRemove(s, item).data| == |s.data|
    ensures forall i :: 0 <= i < |s.data| ==> DoRemove(s, item).data[i].serial == s.data[i].serial
    ensures Find(s.data, item) != -1 ==> !DoRemove(s, item).data[Find(s.data, item)].alive
  {
  }

  predicate Decreasing(s: seq<nat>) { forall j, k :: 0 <= j < k < |s| ==> s[j] > s[k] }

  predicate AtMost(s: seq<nat>, bound: int) { forall j :: 0 <= j < |s| ==> s[j] <= bound }

  /** for_each_reverse calls back at strictly decreasing indices, none above its start, so at
      each index at most once, whatever the callback does. */
  lemma {:induction false} ReverseIndicesDecrease(s: State, visits: seq<Visit>, deadToo: bool, i: int)
    ensures Decreasing(Backward(s, visits, deadToo, i).at)
    ensures AtMost(Backward(s, visits, deadToo, i).at, i)
    decreases visits, 1, i
  {
    var at := Clip(i, |s.data|);
    if at >= 0 {
      hide RunAll, AtMost, Decreasing;
      if !s.data[at].alive && !deadToo {
        ReverseIndicesDecrease(s, visits, deadToo, at - 1);
        Lower(Backward(s, visits, deadToo, at - 1).at, at - 1, i);
      } else if visits == [] {
        ReverseIndicesDecrease(Look(s, at, deadToo), visits, deadToo, at - 1);
        Prepend(at, Backward(Look(s, at, deadToo), visits, deadToo, at - 1).at, i);
      } else if visits[0].result {
        var s1 := RunAll(Look(s, at, deadToo), visits[0].ops);
        ReverseIndicesDecrease(s1, visits[1..], deadToo, at - 1);
        Prepend(at, Backward(s1, visits[1..], deadToo, at - 1).at, i);
      } else {
        Prepend(at, [], i);
      }
    } else {
      Lower([], -1, i);
    }
  }

  lemma Lower(s: seq<nat>, low: int, high: int)
    requires AtMost(s, low) && (low <= high || s == [])
    ensures AtMost(s, high)
    ensures Decreasing([])
  {
  }

  lemma Prepend(at: nat, rest: seq<nat>, i: int)
    requires at <= i && (rest == [] || (Decreasing(rest) && AtMost(rest, at - 1)))
    ensures Decreasing([at] + rest) && AtMost([at] + rest, i)
    ensures [at] + [] == [at]
  {
  }

  function LiveFrom(data: seq<Cell>, i: nat): seq<Event>
    decreases |data| - i
  {
    if i >= |data| then [] else (if data[i].alive then [Seen(data[i].serial, false)] else []) + LiveFrom(data, i + 1)
  }

  /** A loop whose callback changes nothing shows exactly the live items, in order. */
  lemma {:induction false} QuietLoopSeesLiveItems(s: State, i: nat)
    ensures Forward(s, [], false, i).s == s.(log := s.log + LiveFrom(s.data, i))
    ensures Forward(s, [], false, i).result
    decreases |s.data| - i
  {
    if i >= |s.data| {
      assert s.log + [] == s.log;
    } else if s.data[i].alive {
      QuietLoopSeesLiveItems(Look(s, i, false), i + 1);
      assert s.log + [Seen(s.data[i].serial, false)] + LiveFrom(s.data, i + 1)
          == s.log + ([Seen(s.data[i].serial, false)] + LiveFrom(s.data, i + 1));
    } else {
      QuietLoopSeesLiveItems(s, i + 1);
    }
  }

  /** The vector after push_back(1), inside a loop that looks at the item, and after the callback. */
  const PUSHED := State([Cell(1, true, 0)], 0, 1, false, 1, 0, [], [], [Did(PushBack(1), true)])
  const LOOKED := PUSHED.(depth := 1, log := [Seen(0, false)])
  const REMOVED := State([Cell(1, false, 0)], 1, 0, true, 1, 0, [Seen(0, false), Gone(0)], [],
                         PUSHED.done + [Did(Remove(1), true)])
  const POPPED := State([], 1, -1, true, 1, 1, [Seen(0, false), Gone(0), Gone(0)], [],
                        REMOVED.done + [Did(PopBack, false)])

  lemma RemoveAndPop()
    ensures RunAll(LOOKED, [Remove(1), PopBack]) == POPPED
  {
    assert Run(LOOKED, Remove(1)) == REMOVED;
    assert Run(REMOVED, PopBack) == POPPED;
    assert [Remove(1), PopBack][1..] == [PopBack] && [PopBack][1..] == [];
    assert RunAll(REMOVED, [PopBack]) == RunAll(POPPED, []);
  }

  lemma LoopPops()
    ensures Run(PUSHED, ForEach([Visit([Remove(1), PopBack], true)], false)) == Leave(POPPED)
  {
    RemoveAndPop();
    var visits := [Visit([Remove(1), PopBack], true)];
    assert visits[1..] == [];
    assert Look(Enter(PUSHED), 0, false) == LOOKED;
    hide RunAll;
    assert Forward(Enter(PUSHED), visits, false, 0).s == Forward(POPPED, [], false, 1).s == POPPED;
  }

  /** A callback that removes the item and then pops it: the live count ends at -1. */
  lemma PopOfADeadItemDrifts()
    ensures var s := RunAll(Initial(), [PushBack(1), ForEach([Visit([Remove(1), PopBack], true)], false)]);
      s.data == [] && s.numAlive == -1 && s.deadPops == 1
  {
    LoopPops();
    var loop := ForEach([Visit([Remove(1), PopBack], true)], false);
    assert Run(Initial(), PushBack(1)) == PUSHED;
    assert [PushBack(1), loop][1..] == [loop] && [loop][1..] == [];
    hide Forward;
    assert RunAll(PUSHED, [loop]) == RunAll(Leave(POPPED), []);
  }
}
