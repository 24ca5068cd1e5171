/** A vector that may be changed while it is being iterated (ui/include/SafeVector.hpp). A
    terminating callback is described by the finite list of what it does at its successive
    calls; that may include further loops over the same vector. */
module SafeVectorModel {

  type Ptr = int

  /** `serial` is bookkeeping: every item put into the vector gets a number of its own. */
  datatype Cell = Cell(ptr: Ptr, alive: bool, serial: nat)

  datatype Op =
    | PushBack(item: Ptr)
    | PopBack
    | Remove(item: Ptr)
    | Clear
    | Replace(item: Ptr, newItem: Ptr)
    | AskSize
    | ForEach(visits: seq<Visit>, includeDead: bool)
    | ForEachReverse(visits: seq<Visit>, includeDead: bool)

  /** One call of a callback: what it does to the vector, and whether it returns true. Calls
      beyond the listed ones do nothing and return true. */
  datatype Visit = Visit(ops: seq<Op>, result: bool)

  datatype Event = Seen(serial: nat, deadToo: bool) | Gone(serial: nat)

  /** A call of size(): its answer, how many items were alive, and how many pops had hit a dead
      item since the last clear. */
  datatype Size = Size(answer: int, live: nat, deadPops: nat)

  /** A change that was asked for, and whether it found a live item to work on. */
  datatype Did = Did(op: Op, hit: bool)

  /** The last five are bookkeeping; `deadPops` counts the pop_back calls since the last clear
      that hit a dead item, and `done` lists the changes asked for, in order. */
  datatype State = State(data: seq<Cell>, depth: nat, numAlive: int, hasDead: bool,
                         nextSerial: nat, deadPops: nat, log: seq<Event>, sizes: seq<Size>, done: seq<Did>)

  function Find(data: seq<Cell>, item: Ptr): (i: int)
    ensures i == -1 || (0 <= i < |data| && data[i].ptr == item)
    ensures forall j :: 0 <= j < (if i == -1 then |data| else i) ==> data[j].ptr != item
  {
    if data == [] then -1
    else if data[0].ptr == item then 0
    else
      var i := Find(data[1..], item);
      assert forall j :: 1 <= j < |data| ==> data[j] == data[1..][j - 1];
      if i == -1 then -1 else i + 1
  }

  function Purge(data: seq<Cell>): seq<Cell> {
    if data == [] then [] else (if data[0].alive then [data[0]] else []) + Purge(data[1..])
  }

  function CountAlive(data: seq<Cell>): nat {
    if data == [] then 0 else (if data[0].alive then 1 else 0) + CountAlive(data[1..])
  }

  function GoneAll(data: seq<Cell>): seq<Event> {
    seq(|data|, j requires 0 <= j < |data| => Gone(data[j].serial))
  }

  // ---- the operations ---------------------------------------------------------------

  function DoPush(s: State, item: Ptr): State {
    s.(data := s.data + [Cell(item, true, s.nextSerial)], nextSerial := s.nextSerial + 1, numAlive := s.numAlive + 1)
  }

  function DoPop(s: State): State {
    if s.data == [] then s
    else
      var last := s.data[|s.data| - 1];
      s.(data := s.data[..|s.data| - 1], numAlive := s.numAlive - 1,
         deadPops := if last.alive then s.deadPops else s.deadPops + 1, log := s.log + [Gone(last.serial)])
  }

  /** At depth 0 the item is erased; inside a loop it is only marked. */
  function DoRemove(s: State, item: Ptr): State {
    var i := Find(s.data, item);
    if i == -1 then s
    else if s.depth == 0 then
      s.(data := s.data[..i] + s.data[i + 1..], numAlive := s.numAlive - 1, log := s.log + [Gone(s.data[i].serial)])
    else if s.data[i].alive then
      s.(data := s.data[i := s.data[i].(alive := false)], numAlive := s.numAlive - 1, hasDead := true,
         log := s.log + [Gone(s.data[i].serial)])
    else s
  }

  function DoClear(s: State): State { s.(data := [], numAlive := 0, deadPops := 0, log := s.log + GoneAll(s.data)) }

  function DoReplace(s: State, item: Ptr, newItem: Ptr): State {
    var i := Find(s.data, item);
    if i == -1 || !s.data[i].alive then s
    else s.(data := s.data[i := Cell(newItem, true, s.nextSerial)], nextSerial := s.nextSerial + 1,
            log := s.log + [Gone(s.data[i].serial)])
  }

  function DoAsk(s: State): State {
    s.(sizes := s.sizes + [Size(s.numAlive, CountAlive(s.data), s.deadPops)])
  }

  predicate IsChange(op: Op) { !op.AskSize? && !op.ForEach? && !op.ForEachReverse? }

  /** Whether the cell that the change is about is there and alive. */
  predicate Hits(data: seq<Cell>, op: Op) {
    match op
    case PopBack => data != [] && data[|data| - 1].alive
    case Remove(item) => var i := Find(data, item); i != -1 && data[i].alive
    case Replace(item, _) => var i := Find(data, item); i != -1 && data[i].alive
    case _ => true
  }

  function Noted(s: State, op: Op, r: State): State { r.(done := s.done + [Did(op, Hits(s.data, op))]) }

  function Enter(s: State): State { s.(depth := s.depth + 1) }

  /** The end of a loop; the outermost one removes the dead items. */
  function Leave(s: State): State
    requires s.depth > 0
  {
    if s.depth > 1 || !s.hasDead then s.(depth := s.depth - 1)
    else s.(depth := 0, data := Purge(s.data), hasDead := false)
  }

  function Look(s: State, i: nat, deadToo: bool): State
    requires i < |s.data|
  {
    s.(log := s.log + [Seen(s.data[i].serial, deadToo)])
  }

  function Run(s: State, op: Op): (r: State)
    ensures r.depth == s.depth
    decreases op, 0, 0
  {
    match op
    case PushBack(item) => Noted(s, op, DoPush(s, item))
    case PopBack => Noted(s, op, DoPop(s))
    case Remove(item) => Noted(s, op, DoRemove(s, item))
    case Clear => Noted(s, op, DoClear(s))
    case Replace(item, newItem) => Noted(s, op, DoReplace(s, item, newItem))
    case AskSize => DoAsk(s)
    case ForEach(visits, deadToo) => Leave(Forward(Enter(s), visits, deadToo, 0).s)
    case ForEachReverse(visits, deadToo) => Leave(Backward(Enter(s), visits, deadToo, |s.data| - 1).s)
  }

  function RunAll(s: State, ops: seq<Op>): (r: State)
    ensures r.depth == s.depth
    decreases ops, 0, 0
  {
    if ops == [] then s else RunAll(Run(s, ops[0]), ops[1..])
  }

  /** How a loop ends: the state, the indices at which the callback was called, and what the
      loop returns. */
  datatype Looped = Looped(s: State, at: seq<nat>, result: bool)

  function Before(i: nat, rest: Looped): Looped { rest.(at := [i] + rest.at) }

  /** The loop of for_each from index i on. */
  function Forward(s: State, visits: seq<Visit>, deadToo: bool, i: nat): (r: Looped)
    ensures r.s.depth == s.depth
    decreases visits, 1, |s.data| - i
  {
    if i >= |s.data| then Looped(s, [], true)
    else if !s.data[i].alive && !deadToo then Forward(s, visits, deadToo, i + 1)
    else if visits == [] then Before(i, Forward(Look(s, i, deadToo), visits, deadToo, i + 1))
    else
      var s1 := RunAll(Look(s, i, deadToo), visits[0].ops);
      Before(i, if visits[0].result then Forward(s1, visits[1..], deadToo, i + 1) else Looped(s1, [], false))
  }

  function Clip(i: int, n: nat): int { if i >= n then n - 1 else i }

  /** The loop of for_each_reverse. The index never grows, whatever the callback pushes, so it
      alone bounds the loop. */
  function Backward(s: State, visits: seq<Visit>, deadToo: bool, i: int): (r: Looped)
    ensures r.s.depth == s.depth
    decreases visits, 1, i
  {
    var at := Clip(i, |s.data|);
    if at < 0 then Looped(s, [], true)
    else if !s.data[at].alive && !deadToo then Backward(s, visits, deadToo, at - 1)
    else if visits == [] then Before(at, Backward(Look(s, at, deadToo), visits, deadToo, at - 1))
    else
      var s1 := RunAll(Look(s, at, deadToo), visits[0].ops);
      Before(at, if visits[0].result then Backward(s1, visits[1..], deadToo, at - 1) else Looped(s1, [], false))
  }

  function Initial(): State { State([], 0, 0, false, 0, 0, [], [], []) }
}
