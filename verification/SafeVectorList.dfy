/** What a SafeVector is to its users: a list of pointers, to which every change happens at once,
    although inside a loop the storage only marks what was removed; and what its loops show. */
module SafeVectorList {
  import opened SafeVectorModel
  import opened SafeVectorProofs

  // ---- the list -----------------------------------------------------------------------------

  /** The pointers of the live cells, in order. */
  function Pointers(data: seq<Cell>): seq<Ptr> {
    if data == [] then [] else (if data[0].alive then [data[0].ptr] else []) + Pointers(data[1..])
  }

  /** The list without the first `item`. */
  function Without(list: seq<Ptr>, item: Ptr): seq<Ptr> {
    if list == [] then [] else if list[0] == item then list[1..] else [list[0]] + Without(list[1..], item)
  }

  /** The list with `newItem` in the place of the first `item`. */
  function InPlace(list: seq<Ptr>, item: Ptr, newItem: Ptr): seq<Ptr> {
    if list == [] then []
    else if list[0] == item then [newItem] + list[1..]
    else [list[0]] + InPlace(list[1..], item, newItem)
  }

  /** What a change that hits does to the list. */
  function Changed(list: seq<Ptr>, op: Op): seq<Ptr> {
    match op
    case PushBack(item) => list + [item]
    case PopBack => if list == [] then [] else list[..|list| - 1]
    case Remove(item) => Without(list, item)
    case Clear => []
    case Replace(item, newItem) => InPlace(list, item, newItem)
    case _ => list
  }

  function Replayed(done: seq<Did>): seq<Ptr>
    decreases |done|
  {
    if done == [] then []
    else
      var last := done[|done| - 1];
      var list := Replayed(done[..|done| - 1]);
      if last.hit then Changed(list, last.op) else list
  }

  lemma {:induction false} PointersConcat(a: seq<Cell>, b: seq<Cell>)
    ensures Pointers(a + b) == Pointers(a) + Pointers(b)
  {
    if a == [] {
      assert a + b == b;
    } else {
      assert (a + b)[0] == a[0] && (a + b)[1..] == a[1..] + b;
      PointersConcat(a[1..], b);
    }
  }

  lemma PointersSplit(data: seq<Cell>, i: nat)
    requires i < |data|
    ensures Pointers(data) ==
      Pointers(data[..i]) + (if data[i].alive then [data[i].ptr] else []) + Pointers(data[i + 1..])
  {
    PointersConcat(data[..i], data[i..]);
    assert data == data[..i] + data[i..];
    assert data[i..][1..] == data[i + 1..];
  }

  lemma {:induction false} PointersAvoid(data: seq<Cell>, item: Ptr)
    requires forall j :: 0 <= j < |data| ==> data[j].ptr != item
    ensures item !in Pointers(data)
  {
    if data != [] { PointersAvoid(data[1..], item); }
  }

  lemma {:induction false} WithoutFirst(a: seq<Ptr>, item: Ptr, b: seq<Ptr>)
    requires item !in a
    ensures Without(a + [item] + b, item) == a + b
  {
    if a == [] {
      assert a + [item] + b == [item] + b && a + b == b;
    } else {
      assert (a + [item] + b)[1..] == a[1..] + [item] + b;
      WithoutFirst(a[1..], item, b);
      assert [a[0]] + (a[1..] + b) == a + b;
    }
  }

  lemma {:induction false} InPlaceOfFirst(a: seq<Ptr>, item: Ptr, b: seq<Ptr>, newItem: Ptr)
    requires item !in a
    ensures InPlace(a + [item] + b, item, newItem) == a + [newItem] + b
  {
    if a == [] {
      assert a + [item] + b == [item] + b && a + [newItem] + b == [newItem] + b;
    } else {
      assert (a + [item] + b)[1..] == a[1..] + [item] + b;
      InPlaceOfFirst(a[1..], item, b, newItem);
      assert [a[0]] + (a[1..] + [newItem] + b) == a + [newItem] + b;
    }
  }

  /** The first cell of an item, alive, splits the list at its first occurrence. */
  lemma FirstCellSplits(data: seq<Cell>, item: Ptr)
    requires var i := Find(data, item); i != -1 && data[i].alive
    ensures var i := Find(data, item);
      && item !in Pointers(data[..i])
      && Pointers(data) == Pointers(data[..i]) + [item] + Pointers(data[i + 1..])
  {
    var i := Find(data, item);
    PointersSplit(data, i);
    PointersAvoid(data[..i], item);
  }

  lemma ChangedCell(data: seq<Cell>, i: nat, c: Cell)
    requires i < |data|
    ensures Pointers(data[i := c]) ==
      Pointers(data[..i]) + (if c.alive then [c.ptr] else []) + Pointers(data[i + 1..])
  {
    PointersSplit(data[i := c], i);
    assert data[i := c][..i] == data[..i] && data[i := c][i + 1..] == data[i + 1..];
  }

  /** Remove, in a loop or not, takes the first occurrence out of the list and nothing else, unless the
      first cell with that pointer is missing or dead: then the list stays. */
  lemma RemoveOnList(s: State, item: Ptr)
    ensures Pointers(DoRemove(s, item).data) ==
      if Hits(s.data, Remove(item)) then Without(Pointers(s.data), item) else Pointers(s.data)
  {
    var i := Find(s.data, item);
    if i != -1 {
      PointersSplit(s.data, i);
      PointersConcat(s.data[..i], s.data[i + 1..]);
      ChangedCell(s.data, i, s.data[i].(alive := false));
      if s.data[i].alive {
        FirstCellSplits(s.data, item);
        WithoutFirst(Pointers(s.data[..i]), item, Pointers(s.data[i + 1..]));
      }
      hide Pointers, Without;
    }
  }

  lemma ReplaceOnList(s: State, item: Ptr, newItem: Ptr)
    ensures Pointers(DoReplace(s, item, newItem).data) ==
      if Hits(s.data, Replace(item, newItem)) then InPlace(Pointers(s.data), item, newItem) else Pointers(s.data)
  {
    var i := Find(s.data, item);
    if i != -1 && s.data[i].alive {
      FirstCellSplits(s.data, item);
      ChangedCell(s.data, i, Cell(newItem, true, s.nextSerial));
      InPlaceOfFirst(Pointers(s.data[..i]), item, Pointers(s.data[i + 1..]), newItem);
      hide Pointers, InPlace;
    }
  }

  lemma PushOnList(s: State, item: Ptr)
    ensures Pointers(DoPush(s, item).data) == Pointers(s.data) + [item]
  {
    PointersConcat(s.data, [Cell(item, true, s.nextSerial)]);
  }

  lemma PopOnList(s: State)
    ensures var list := Pointers(s.data);
      && (Hits(s.data, PopBack) ==> list != [] && Pointers(DoPop(s).data) == list[..|list| - 1])
      && (!Hits(s.data, PopBack) ==> Pointers(DoPop(s).data) == list)
  {
    if s.data != [] {
      var n := |s.data| - 1;
      PointersSplit(s.data, n);
      assert s.data[n + 1..] == [];
    }
  }

  /** Every change, in any state and at any depth, does to the list what it says, if it hits; and it
      can miss an item that is on the list only when a dead cell with the same pointer stands in
      front of it. */
  lemma ChangesWorkOnTheList(s: State, op: Op)
    requires IsChange(op)
    ensures var r := Run(s, op); var hit := Hits(s.data, op);
      && r.done == s.done + [Did(op, hit)]
      && Pointers(r.data) == (if hit then Changed(Pointers(s.data), op) else Pointers(s.data))
      && (op.Remove? || op.Replace? ==>
           && (hit ==> op.item in Pointers(s.data))
           && (!hit && op.item in Pointers(s.data) ==> exists i :: 0 <= i < |s.data| && s.data[i].ptr == op.item
                                                                   && !s.data[i].alive))
  {
    match op {
      case PushBack(item) => PushOnList(s, item);
      case PopBack => PopOnList(s);
      case Remove(item) =>
        RemoveOnList(s, item);
        HitIsListed(s.data, item);
      case Clear =>
      case Replace(item, newItem) =>
        ReplaceOnList(s, item, newItem);
        HitIsListed(s.data, item);
    }
    hide Pointers, Without, InPlace;
  }

  lemma HitIsListed(data: seq<Cell>, item: Ptr)
    ensures var i := Find(data, item);
      && (i != -1 && data[i].alive ==> item in Pointers(data))
      && (i == -1 ==> item !in Pointers(data))
  {
    var i := Find(data, item);
    if i == -1 { PointersAvoid(data, item); } else if data[i].alive { FirstCellSplits(data, item); }
    hide Pointers;
  }

  // ---- whole programs -------------------------------------------------------------------------

  predicate IsList(s: State) { Pointers(s.data) == Replayed(s.done) }

  lemma {:induction false} PurgeOnList(data: seq<Cell>)
    ensures Pointers(Purge(data)) == Pointers(data)
  {
    if data != [] {
      PurgeOnList(data[1..]);
      PointersConcat(if data[0].alive then [data[0]] else [], Purge(data[1..]));
    }
  }

  lemma LeaveIsList(s: State)
    requires IsList(s) && s.depth > 0
    ensures IsList(Leave(s))
  {
    PurgeOnList(s.data);
  }

  lemma ChangeIsList(s: State, op: Op)
    requires IsList(s) && IsChange(op)
    ensures IsList(Run(s, op))
  {
    ChangesWorkOnTheList(s, op);
    assert Run(s, op).done[..|s.done|] == s.done;
    hide Run, Pointers, Changed, Hits;
  }

  lemma {:induction false} RunIsList(s: State, op: Op)
    requires IsList(s)
    ensures IsList(Run(s, op))
    decreases op, 0, 0
  {
    match op
    case ForEach(visits, deadToo) =>
      ForwardIsList(Enter(s), visits, deadToo, 0);
      LeaveIsList(Forward(Enter(s), visits, deadToo, 0).s);
    case ForEachReverse(visits, deadToo) =>
      BackwardIsList(Enter(s), visits, deadToo, |s.data| - 1);
      LeaveIsList(Backward(Enter(s), visits, deadToo, |s.data| - 1).s);
    case AskSize =>
    case _ => ChangeIsList(s, op);
  }

  lemma {:induction false} RunAllIsList(s: State, ops: seq<Op>)
    requires IsList(s)
    ensures IsList(RunAll(s, ops))
    decreases ops, 0, 0
  {
    if ops != [] {
      RunIsList(s, ops[0]);
      hide IsList, Run;
      RunAllIsList(Run(s, ops[0]), ops[1..]);
    }
  }

  lemma {:induction false} ForwardIsList(s: State, visits: seq<Visit>, deadToo: bool, i: nat)
    requires IsList(s)
    ensures IsList(Forward(s, visits, deadToo, i).s)
    decreases visits, 1, |s.data| - i
  {
    hide RunAll, Pointers, Replayed;
    if i < |s.data| {
      if !s.data[i].alive && !deadToo {
        ForwardIsList(s, visits, deadToo, i + 1);
      } else if visits == [] {
        ForwardIsList(Look(s, i, deadToo), visits, deadToo, i + 1);
      } else {
        RunAllIsList(Look(s, i, deadToo), visits[0].ops);
        if visits[0].result { ForwardIsList(RunAll(Look(s, i, deadToo), visits[0].ops), visits[1..], deadToo, i + 1); }
      }
    }
  }

  lemma {:induction false} BackwardIsList(s: State, visits: seq<Visit>, deadToo: bool, i: int)
    requires IsList(s)
    ensures IsList(Backward(s, visits, deadToo, i).s)
    decreases visits, 1, i
  {
    hide RunAll, Pointers, Replayed;
    var at := Clip(i, |s.data|);
    if at >= 0 {
      if !s.data[at].alive && !deadToo {
        BackwardIsList(s, visits, deadToo, at - 1);
      } else if visits == [] {
        BackwardIsList(Look(s, at, deadToo), visits, deadToo, at - 1);
      } else {
        RunAllIsList(Look(s, at, deadToo), visits[0].ops);
        if visits[0].result {
          BackwardIsList(RunAll(Look(s, at, deadToo), visits[0].ops), visits[1..], deadToo, at - 1);
        }
      }
    }
  }

  /** Every program, with any nesting of loops: the vector holds exactly the list that its changes
      make of the empty one, applied one after the other as if nothing were ever only marked. */
  lemma EveryProgramEditsTheList(ops: seq<Op>)
    ensures var s := RunAll(Initial(), ops);
      |s.data| == |Replayed(s.done)| && forall i :: 0 <= i < |s.data| ==> s.data[i].ptr == Replayed(s.done)[i]
  {
    RunAllIsList(Initial(), ops);
    EveryProgramKeepsTheVector(ops);
    AllAlivePointers(RunAll(Initial(), ops).data);
    hide RunAll;
  }

  lemma {:induction false} AllAlivePointers(data: seq<Cell>)
    requires forall i :: 0 <= i < |data| ==> data[i].alive
    ensures |Pointers(data)| == |data| && forall i :: 0 <= i < |data| ==> Pointers(data)[i] == data[i].ptr
  {
    if data != [] { AllAlivePointers(data[1..]); }
  }

  /** Without loops the changes asked for are the program. */
  lemma {:induction false} PlainProgramIsDone(s: State, ops: seq<Op>)
    requires forall i :: 0 <= i < |ops| ==> IsChange(ops[i])
    ensures var done := RunAll(s, ops).done;
      && |done| == |s.done| + |ops| && s.done <= done
      && forall i :: 0 <= i < |ops| ==> done[|s.done| + i].op == ops[i]
    decreases |ops|
  {
    if ops != [] {
      var m := Run(s, ops[0]);
      assert m.done == s.done + [Did(ops[0], Hits(s.data, ops[0]))];
      hide Run;
      assert forall i :: 0 <= i < |ops[1..]| ==> ops[1..][i] == ops[i + 1];
      PlainProgramIsDone(m, ops[1..]);
      var done := RunAll(s, ops).done;
      assert done[|s.done|] == m.done[|s.done|];
      forall i | 0 <= i < |ops| ensures done[|s.done| + i].op == ops[i] {
        if i > 0 { assert done[|m.done| + (i - 1)].op == ops[1..][i - 1]; }
      }
    }
  }

  // ---- what a loop shows ----------------------------------------------------------------------

  /** The item of live cell j in s has been taken out since, or it is still alive at its place. */
  predicate Stays(s: State, r: State, j: nat)
    requires j < |s.data|
  {
    IsGone(r.log, s.data[j].serial) || (j < |r.data| && r.data[j].alive && r.data[j].serial == s.data[j].serial)
  }

  predicate AllStay(s: State, r: State) {
    s.log <= r.log && forall j :: 0 <= j < |s.data| && s.data[j].alive ==> Stays(s, r, j)
  }

  lemma GoneStays(before: seq<Event>, after: seq<Event>, serial: nat)
    requires before <= after && IsGone(before, serial)
    ensures IsGone(after, serial)
  {
    var i :| 0 <= i < |before| && before[i] == Gone(serial);
    assert after[i] == Gone(serial);
  }

  lemma StayOn(s: State, m: State, r: State)
    requires AllStay(s, m) && AllStay(m, r)
    ensures AllStay(s, r)
  {
    forall j | 0 <= j < |s.data| && s.data[j].alive ensures Stays(s, r, j) {
      assert Stays(s, m, j);
      if IsGone(m.log, s.data[j].serial) { GoneStays(m.log, r.log, s.data[j].serial); }
      else { assert Stays(m, r, j); }
    }
  }

  lemma ClearStays(s: State, j: nat)
    requires j < |s.data|
    ensures Stays(s, DoClear(s), j)
  {
    assert DoClear(s).log[|s.log| + j] == Gone(s.data[j].serial);
  }

  lemma ChangeStays(s: State, op: Op, j: nat)
    requires s.depth > 0 && j < |s.data| && s.data[j].alive
    requires IsChange(op)
    ensures Stays(s, Run(s, op), j)
  {
    var r := Run(s, op);
    match op {
      case PushBack(item) =>
      case PopBack => assert r.log[|s.log|] == Gone(s.data[|s.data| - 1].serial);
      case Remove(item) =>
        var i := Find(s.data, item);
        if i == j { assert r.log[|s.log|] == Gone(s.data[j].serial); }
      case Clear => ClearStays(s, j);
      case Replace(item, _) =>
        var i := Find(s.data, item);
        if i == j { assert r.log[|s.log|] == Gone(s.data[j].serial); }
    }
  }

  lemma {:induction false} RunStays(s: State, op: Op)
    requires s.depth > 0
    ensures AllStay(s, Run(s, op))
    decreases op, 0, 0
  {
    match op
    case ForEach(visits, deadToo) => ForwardShowsSurvivors(Enter(s), visits, deadToo, 0, 0);
    case ForEachReverse(visits, deadToo) => BackwardShowsSurvivors(Enter(s), visits, deadToo, |s.data| - 1);
    case AskSize =>
    case _ => forall j | 0 <= j < |s.data| && s.data[j].alive ensures Stays(s, Run(s, op), j) { ChangeStays(s, op, j); }
  }

  lemma {:induction false} RunAllStays(s: State, ops: seq<Op>)
    requires s.depth > 0
    ensures AllStay(s, RunAll(s, ops))
    decreases ops, 0, 0
  {
    if ops != [] {
      RunStays(s, ops[0]);
      hide AllStay, Run;
      RunAllStays(Run(s, ops[0]), ops[1..]);
      StayOn(s, Run(s, ops[0]), RunAll(s, ops));
    }
  }

  /** One call of a callback. */
  lemma {:induction false} CallbackStays(s: State, i: nat, deadToo: bool, ops: seq<Op>)
    requires s.depth > 0 && i < |s.data|
    ensures AllStay(s, RunAll(Look(s, i, deadToo), ops))
    decreases ops, 1, 0
  {
    RunAllStays(Look(s, i, deadToo), ops);
    assert AllStay(s, Look(s, i, deadToo));
    hide AllStay;
    StayOn(s, Look(s, i, deadToo), RunAll(Look(s, i, deadToo), ops));
  }

  /** Of the live items from `low` to `high`, each is gone in the end or was shown at its index. */
  predicate ShowsSurvivors(s: State, r: Looped, low: int, high: int) {
    forall j :: 0 <= j < |s.data| && low <= j <= high && s.data[j].alive
      ==> IsGone(r.s.log, s.data[j].serial) || j in r.at
  }

  /** The loop has kept its survivors in place, and shown them unless a callback ended it. */
  predicate Serves(s: State, r: Looped, low: int, high: int) {
    AllStay(s, r.s) && (r.result ==> ShowsSurvivors(s, r, low, high))
  }

  lemma ServesNothing(s: State, low: int, high: int, result: bool)
    requires low >= |s.data| || high < 0
    ensures Serves(s, Looped(s, [], result), low, high)
  {
  }

  lemma SkipsTheDead(s: State, r: Looped, i: nat, low: int, high: int)
    requires i < |s.data| && !s.data[i].alive && Serves(s, r, low, high)
    ensures low == i + 1 ==> Serves(s, r, i, high)
    ensures high == i - 1 ==> forall top :: (top == i || i == |s.data| - 1) ==> Serves(s, r, low, top)
  {
  }

  /** The callback at index i leads from s to m, and ends the loop or lets it go on. */
  lemma EndsTheLoop(s: State, m: State, i: nat, low: int, high: int)
    requires AllStay(s, m)
    ensures Serves(s, Before(i, Looped(m, [], false)), low, high)
  {
  }

  lemma GoesOn(s: State, m: State, rest: Looped, i: nat, low: int, high: int)
    requires i < |s.data| && AllStay(s, m) && Serves(m, rest, low, high)
    ensures low == i + 1 ==> Serves(s, Before(i, rest), i, high)
    ensures high == i - 1 ==> forall top :: (top == i || i == |s.data| - 1) ==> Serves(s, Before(i, rest), low, top)
  {
    StayOn(s, m, rest.s);
    if rest.result {
      forall j | 0 <= j < |s.data| && (low <= j <= high || j == i) && s.data[j].alive
        ensures IsGone(rest.s.log, s.data[j].serial) || j in Before(i, rest).at
      {
        assert Stays(s, m, j);
        if IsGone(m.log, s.data[j].serial) { GoneStays(m.log, rest.s.log, s.data[j].serial); }
      }
    }
    hide IsGone;
  }

  lemma LookStays(s: State, i: nat, deadToo: bool)
    requires i < |s.data|
    ensures AllStay(s, Look(s, i, deadToo))
  {
  }

  /** Unless a callback ends it, and whatever the callbacks do, for_each shows every item that is alive
      at its start and not taken out before its end; and no such item moves meanwhile. */
  lemma {:induction false} ForwardShowsSurvivors(s: State, visits: seq<Visit>, deadToo: bool, i: nat, top: nat)
    requires s.depth > 0
    ensures Serves(s, Forward(s, visits, deadToo, i), i, top)
    decreases visits, 1, |s.data| - i
  {
    hide RunAll, AllStay, Serves;
    if i >= |s.data| {
      ServesNothing(s, i, top, true);
    } else if !s.data[i].alive && !deadToo {
      ForwardShowsSurvivors(s, visits, deadToo, i + 1, top);
      SkipsTheDead(s, Forward(s, visits, deadToo, i + 1), i, i + 1, top);
    } else if visits == [] {
      LookStays(s, i, deadToo);
      ForwardShowsSurvivors(Look(s, i, deadToo), visits, deadToo, i + 1, top);
      GoesOn(s, Look(s, i, deadToo), Forward(Look(s, i, deadToo), visits, deadToo, i + 1), i, i + 1, top);
    } else {
      var m := RunAll(Look(s, i, deadToo), visits[0].ops);
      CallbackStays(s, i, deadToo, visits[0].ops);
      if visits[0].result {
        ForwardShowsSurvivors(m, visits[1..], deadToo, i + 1, top);
        GoesOn(s, m, Forward(m, visits[1..], deadToo, i + 1), i, i + 1, top);
      } else {
        EndsTheLoop(s, m, i, i, top);
      }
    }
  }

  /** The same for for_each_reverse. */
  lemma {:induction false} BackwardShowsSurvivors(s: State, visits: seq<Visit>, deadToo: bool, i: int)
    requires s.depth > 0
    ensures Serves(s, Backward(s, visits, deadToo, i), 0, i)
    decreases visits, 1, i
  {
    hide RunAll, AllStay, Serves;
    var at := Clip(i, |s.data|);
    if at < 0 {
      ServesNothing(s, 0, i, true);
    } else if !s.data[at].alive && !deadToo {
      BackwardShowsSurvivors(s, visits, deadToo, at - 1);
      SkipsTheDead(s, Backward(s, visits, deadToo, at - 1), at, 0, at - 1);
    } else if visits == [] {
      LookStays(s, at, deadToo);
      BackwardShowsSurvivors(Look(s, at, deadToo), visits, deadToo, at - 1);
      GoesOn(s, Look(s, at, deadToo), Backward(Look(s, at, deadToo), visits, deadToo, at - 1), at, 0, at - 1);
    } else {
      var m := RunAll(Look(s, at, deadToo), visits[0].ops);
      CallbackStays(s, at, deadToo, visits[0].ops);
      if visits[0].result {
        BackwardShowsSurvivors(m, visits[1..], deadToo, at - 1);
        GoesOn(s, m, Backward(m, visits[1..], deadToo, at - 1), at, 0, at - 1);
      } else {
        EndsTheLoop(s, m, at, 0, i);
      }
    }
  }

  predicate IncreasingFrom(at: seq<nat>, i: nat) {
    (forall k :: 0 <= k < |at| ==> i <= at[k]) && forall j, k :: 0 <= j < k < |at| ==> at[j] < at[k]
  }

  lemma IncreasingOn(i: nat, rest: seq<nat>)
    requires IncreasingFrom(rest, i + 1)
    ensures IncreasingFrom([i] + rest, i) && IncreasingFrom(rest, i)
  {
  }

  /** for_each calls back at strictly increasing indices, so at each index at most once. */
  lemma {:induction false} ForwardIndicesIncrease(s: State, visits: seq<Visit>, deadToo: bool, i: nat)
    ensures IncreasingFrom(Forward(s, visits, deadToo, i).at, i)
    decreases visits, 1, |s.data| - i
  {
    if i < |s.data| {
      var later := if visits == [] then [] else visits[1..];
      var m := if !s.data[i].alive && !deadToo then s
               else if visits == [] then Look(s, i, deadToo)
               else RunAll(Look(s, i, deadToo), visits[0].ops);
      hide RunAll, IncreasingFrom;
      if !s.data[i].alive && !deadToo {
        ForwardIndicesIncrease(s, visits, deadToo, i + 1);
        IncreasingOn(i, Forward(s, visits, deadToo, i + 1).at);
      } else if visits == [] || visits[0].result {
        ForwardIndicesIncrease(m, later, deadToo, i + 1);
        IncreasingOn(i, Forward(m, later, deadToo, i + 1).at);
      } else {
        assert IncreasingFrom([], i + 1) by { NoIndices(i); }
        IncreasingOn(i, []);
      }
    }
  }

  lemma NoIndices(i: nat)
    ensures IncreasingFrom([], i + 1)
  {
  }
}
