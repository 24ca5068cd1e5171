/** The SafeVector class itself: its members, loops and re-entrant iteration. */
module SafeVectorClass {
  import opened SafeVectorModel

  lemma Regroup(a: seq<Cell>, x: Cell, b: seq<Cell>)
    ensures a + ([x] + b) == a + [x] + b
    ensures (a + [x] + b)[|a|] == x
    ensures (a + [x] + b)[..|a|] == a && (a + [x] + b)[|a| + 1..] == b
  {
  }

  /** What one round of the erase loop makes of the storage `kept + rest`. */
  lemma EraseStep(kept: seq<Cell>, rest: seq<Cell>)
    requires rest != []
    ensures kept + Purge(rest) == (if rest[0].alive then kept + [rest[0]] else kept) + Purge(rest[1..])
    ensures (kept + rest)[|kept|] == rest[0]
    ensures (kept + rest)[..|kept|] + (kept + rest)[|kept| + 1..] == kept + rest[1..]
    ensures kept + rest == kept + [rest[0]] + rest[1..]
  {
    var p := Purge(rest[1..]);
    assert rest == [rest[0]] + rest[1..];
    assert Purge(rest) == if rest[0].alive then [rest[0]] + p else p;
    hide Purge;
    Regroup(kept, rest[0], p);
    Regroup(kept, rest[0], rest[1..]);
  }

  class SafeVector {
    var data: seq<Cell>
    var forEachDepth: nat
    var numItemsAlive: int
    var hasItemsToRemove: bool
    var nextSerial: nat
    ghost var deadPops: nat
    ghost var log: seq<Event>
    ghost var sizes: seq<Size>
    ghost var done: seq<Did>

    ghost function Abs(): State
      reads this
    {
      State(data, forEachDepth, numItemsAlive, hasItemsToRemove, nextSerial, deadPops, log, sizes,
            done)
    }

    constructor ()
      ensures Abs() == Initial()
    {
      data, forEachDepth, numItemsAlive, hasItemsToRemove, nextSerial := [], 0, 0, false, 0;
      deadPops, log, sizes, done := 0, [], [], [];
    }

    method Add(item: Ptr)
      modifies this
      ensures Abs() == DoPush(old(Abs()), item)
    {
      data := data + [Cell(item, true, nextSerial)];
      nextSerial := nextSerial + 1;
      numItemsAlive := numItemsAlive + 1;
    }

    method DropLast()
      modifies this
      ensures Abs() == DoPop(old(Abs()))
    {
      if data == [] { return; }
      if !data[|data| - 1].alive { deadPops := deadPops + 1; }
      log := log + [Gone(data[|data| - 1].serial)];
      data := data[..|data| - 1];
      numItemsAlive := numItemsAlive - 1;
    }

    /** get_item, and the search in remove_item. */
    method GetItem(item: Ptr) returns (i: int)
      ensures i == Find(data, item)
    {
      i := 0;
      while i < |data|
        invariant 0 <= i <= |data|
        invariant forall j :: 0 <= j < i ==> data[j].ptr != item
      {
        if data[i].ptr == item { return; }
        i := i + 1;
      }
      i := -1;
    }

    method Delete(item: Ptr)
      modifies this
      ensures Abs() == DoRemove(old(Abs()), item)
    {
      var i := GetItem(item);
      if i == -1 { return; }
      if forEachDepth == 0 {
        log := log + [Gone(data[i].serial)];
        data := data[..i] + data[i + 1..];
        numItemsAlive := numItemsAlive - 1;
        return;
      }
      if data[i].alive {
        log := log + [Gone(data[i].serial)];
        data := data[i := data[i].(alive := false)];
        numItemsAlive := numItemsAlive - 1;
        hasItemsToRemove := true;
      }
    }

    /** The last live item, if any. */
    method Back() returns (i: int)
      ensures i == -1 ==> forall j :: 0 <= j < |data| ==> !data[j].alive
      ensures i != -1 ==> 0 <= i < |data| && data[i].alive && forall j :: i < j < |data| ==> !data[j].alive
    {
      i := |data| - 1;
      while i >= 0
        invariant -1 <= i < |data|
        invariant forall j :: i < j < |data| ==> !data[j].alive
      {
        if data[i].alive { return; }
        i := i - 1;
      }
    }

    method RemoveEverything()
      modifies this
      ensures Abs() == DoClear(old(Abs()))
    {
      log := log + GoneAll(data);
      data := [];
      numItemsAlive := 0;
      deadPops := 0;
    }

    /** Reports whether the item is there at all, dead or alive; if not, the source dereferences null. */
    method ReplaceItem(item: Ptr, newItem: Ptr) returns (found: bool)
      modifies this
      ensures Abs() == DoReplace(old(Abs()), item, newItem)
      ensures found <==> exists i :: 0 <= i < |old(data)| && old(data)[i].ptr == item
    {
      var i := GetItem(item);
      found := i != -1;
      if !found { return; }
      if data[i].alive {
        log := log + [Gone(data[i].serial)];
        data := data[i := Cell(newItem, true, nextSerial)];
        nextSerial := nextSerial + 1;
      }
    }

    /** size(). */
    method Count() returns (size: int)
      modifies this`sizes
      ensures Abs() == DoAsk(old(Abs())) && sizes[|sizes| - 1].answer == size
    {
      sizes := sizes + [Size(numItemsAlive, CountAlive(data), deadPops)];
      size := numItemsAlive;
    }

    /** remove_dead_items: erase while walking. */
    method RemoveDeadItems()
      modifies this`data, this`hasItemsToRemove
      ensures !hasItemsToRemove
      ensures data == if old(hasItemsToRemove) then Purge(old(data)) else old(data)
    {
      if !hasItemsToRemove { return; }
      ghost var kept, rest := [], data;
      var i := 0;
      hide Purge;
      NothingPurged(data);
      while i < |data|
        invariant data == kept + rest && i == |kept|
        invariant kept + Purge(rest) == Purge(old(data))
        decreases |rest|
      {
        EraseStep(kept, rest);
        if data[i].alive {
          kept := kept + [rest[0]];
          i := i + 1;
        } else {
          data := data[..i] + data[i + 1..];
        }
        rest := rest[1..];
      }
      NothingPurged(kept);
      hasItemsToRemove := false;
    }

    /** The end of both loops. */
    method LeaveLoop()
      requires forEachDepth > 0
      modifies this
      ensures Abs() == Leave(old(Abs()))
    {
      forEachDepth := forEachDepth - 1;
      if forEachDepth == 0 { RemoveDeadItems(); }
    }

    /** Calls the callback on cell i: it sees the item and does what its visit says. */
    method Callback(i: nat, deadToo: bool, ops: seq<Op>)
      requires i < |data|
      modifies this
      ensures Abs() == RunAll(Look(old(Abs()), i, deadToo), ops)
      decreases ops, 1
    {
      log := log + [Seen(data[i].serial, deadToo)];
      PerformAll(ops);
    }

    /** for_each. */
    method ForEachItem(visits: seq<Visit>, deadToo: bool) returns (result: bool)
      modifies this
      ensures var r := Forward(Enter(old(Abs())), visits, deadToo, 0); Abs() == Leave(r.s) && result == r.result
      decreases visits, 2
    {
      hide Forward, RunAll, Leave;
      result := true;
      forEachDepth := forEachDepth + 1;
      ghost var whole := Forward(Abs(), visits, deadToo, 0);
      var i, v := 0, 0;
      while i < |data|
        invariant 0 <= i && v <= |visits| && result && forEachDepth == old(forEachDepth) + 1
        invariant Forward(Abs(), visits[v..], deadToo, i).s == whole.s
        invariant Forward(Abs(), visits[v..], deadToo, i).result == whole.result
        decreases |visits| - v, |data| - i
      {
        ForwardStep(Abs(), visits[v..], deadToo, i);
        if data[i].alive || deadToo {
          if v < |visits| {
            assert visits[v..][0] == visits[v] && visits[v..][1..] == visits[v + 1..];
            Callback(i, deadToo, visits[v].ops);
            result := visits[v].result;
            v := v + 1;
          } else {
            assert visits[v..] == [];
            Callback(i, deadToo, []);
            RunsNothing();
          }
          if !result { break; }
        }
        i := i + 1;
      }
      if result { ForwardEnds(Abs(), visits[v..], deadToo, i); }
      LeaveLoop();
    }

    /** for_each_reverse. */
    method ForEachItemReverse(visits: seq<Visit>, deadToo: bool) returns (result: bool)
      modifies this
      ensures var r := Backward(Enter(old(Abs())), visits, deadToo, old(|data|) - 1);
        Abs() == Leave(r.s) && result == r.result
      decreases visits, 2
    {
      hide Backward, RunAll, Leave;
      result := true;
      forEachDepth := forEachDepth + 1;
      var i := |data| - 1;
      ghost var whole := Backward(Abs(), visits, deadToo, i);
      var v := 0;
      while true
        invariant -1 <= i && v <= |visits| && result && forEachDepth == old(forEachDepth) + 1
        invariant Backward(Abs(), visits[v..], deadToo, i).s == whole.s
        invariant Backward(Abs(), visits[v..], deadToo, i).result == whole.result
        decreases i + 1
      {
        BackwardStep(Abs(), visits[v..], deadToo, i);
        if i >= |data| { i := |data| - 1; }
        if i < 0 { break; }
        if data[i].alive || deadToo {
          if v < |visits| {
            assert visits[v..][0] == visits[v] && visits[v..][1..] == visits[v + 1..];
            Callback(i, deadToo, visits[v].ops);
            result := visits[v].result;
            v := v + 1;
          } else {
            assert visits[v..] == [];
            Callback(i, deadToo, []);
            RunsNothing();
          }
          if !result { break; }
        }
        i := i - 1;
      }
      LeaveLoop();
    }

    /** A change, put on record. */
    method Change(op: Op)
      requires IsChange(op)
      modifies this
      ensures Abs() == Run(old(Abs()), op)
    {
      hide Hits, Find, GoneAll;
      ghost var hit := Hits(data, op);
      match op {
        case PushBack(item) => Add(item);
        case PopBack => DropLast();
        case Remove(item) => Delete(item);
        case Clear => RemoveEverything();
        case Replace(item, newItem) => var _ := ReplaceItem(item, newItem);
      }
      done := done + [Did(op, hit)];
    }

    method Perform(op: Op)
      modifies this
      ensures Abs() == Run(old(Abs()), op)
      decreases op, 2
    {
      match op {
        case AskSize => var _ := Count();
        case ForEach(visits, deadToo) => var _ := ForEachItem(visits, deadToo);
        case ForEachReverse(visits, deadToo) => var _ := ForEachItemReverse(visits, deadToo);
        case _ => Change(op);
      }
    }

    method PerformAll(ops: seq<Op>)
      modifies this
      ensures Abs() == RunAll(old(Abs()), ops)
      decreases ops, 0
    {
      if ops == [] { return; }
      Perform(ops[0]);
      PerformAll(ops[1..]);
    }
  }

  lemma NothingPurged(s: seq<Cell>)
    ensures s + Purge([]) == s && [] + s == s && [] + Purge(s) == Purge(s)
  {
  }

  lemma RunsNothing()
    ensures forall s: State :: RunAll(s, []) == s
  {
  }

  lemma ForwardEnds(s: State, visits: seq<Visit>, deadToo: bool, i: nat)
    requires i >= |s.data|
    ensures Forward(s, visits, deadToo, i) == Looped(s, [], true)
  {
  }

  lemma ForwardStep(s: State, visits: seq<Visit>, deadToo: bool, i: nat)
    requires i < |s.data|
    ensures var r := Forward(s, visits, deadToo, i);
      if !s.data[i].alive && !deadToo then r == Forward(s, visits, deadToo, i + 1)
      else if visits == [] then
        var n := Forward(Look(s, i, deadToo), visits, deadToo, i + 1); r.s == n.s && r.result == n.result
      else
        var s1 := RunAll(Look(s, i, deadToo), visits[0].ops);
        if visits[0].result then
          var n := Forward(s1, visits[1..], deadToo, i + 1); r.s == n.s && r.result == n.result
        else r.s == s1 && !r.result
  {
  }

  lemma BackwardStep(s: State, visits: seq<Visit>, deadToo: bool, i: int)
    ensures var r := Backward(s, visits, deadToo, i); var at := Clip(i, |s.data|);
      if at < 0 then r.s == s && r.result
      else if !s.data[at].alive && !deadToo then r == Backward(s, visits, deadToo, at - 1)
      else if visits == [] then
        var n := Backward(Look(s, at, deadToo), visits, deadToo, at - 1); r.s == n.s && r.result == n.result
      else
        var s1 := RunAll(Look(s, at, deadToo), visits[0].ops);
        if visits[0].result then
          var n := Backward(s1, visits[1..], deadToo, at - 1); r.s == n.s && r.result == n.result
        else r.s == s1 && !r.result
  {
  }
}
