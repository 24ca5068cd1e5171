/** The bounded queue that the WASAPI ring buffer stands for, and what holds over any
    interleaving of pushes, reads and flushes. */
module AudioQueue {

  /** The last n frames: what is left when the oldest are dropped on overflow. */
  function Newest<F>(frames: seq<F>, n: nat): (r: seq<F>)
    ensures |r| == if |frames| <= n then |frames| else n
  {
    if |frames| <= n then frames else frames[|frames| - n..]
  }

  datatype Op<F> = Push(frames: seq<F>) | Read | Flush

  /** The queue with its history: all frames pushed, the frames handed to the reader with their
      positions among the pushed ones, and how many were dropped or flushed. */
  datatype Queue<F> = Queue(held: seq<F>, pushed: seq<F>, got: seq<F>, gotAt: seq<int>, dropped: nat, flushed: nat)

  function Step<F>(q: Queue<F>, op: Op<F>, capacity: nat, period: nat): Queue<F> {
    match op
    case Push(frames) =>
      var held := Newest(q.held + frames, capacity);
      q.(held := held, pushed := q.pushed + frames, dropped := q.dropped + |q.held| + |frames| - |held|)
    case Flush => q.(held := [], flushed := q.flushed + |q.held|)
    case Read =>
      if |q.held| < period then q
      else
        q.(held := q.held[period..], got := q.got + q.held[..period],
           gotAt := q.gotAt + seq(period, j requires 0 <= j => |q.pushed| - |q.held| + j))
  }

  function Run<F>(q: Queue<F>, ops: seq<Op<F>>, capacity: nat, period: nat): Queue<F>
    decreases |ops|
  {
    if ops == [] then q else Run(Step(q, ops[0], capacity, period), ops[1..], capacity, period)
  }

  predicate Increasing(s: seq<int>) { forall i, j :: 0 <= i < j < |s| ==> s[i] < s[j] }

  /** The held frames are the newest pushed ones, the frames read are an in-order subsequence
      of the older ones, and nothing is unaccounted for. */
  predicate Accounted<F(==)>(q: Queue<F>, capacity: nat) {
    && |q.held| <= capacity
    && |q.held| <= |q.pushed|
    && q.held == q.pushed[|q.pushed| - |q.held|..]
    && |q.got| == |q.gotAt|
    && Increasing(q.gotAt)
    && (forall j :: 0 <= j < |q.gotAt| ==> 0 <= q.gotAt[j] < |q.pushed| - |q.held| && q.got[j] == q.pushed[q.gotAt[j]])
    && |q.pushed| == |q.got| + q.dropped + q.flushed + |q.held|
  }

  lemma PushAccounts<F>(q: Queue<F>, frames: seq<F>, capacity: nat, period: nat)
    requires Accounted(q, capacity)
    ensures Accounted(Step(q, Push(frames), capacity, period), capacity)
  {
  }

  lemma ReadAccounts<F>(q: Queue<F>, capacity: nat, period: nat)
    requires Accounted(q, capacity) && |q.held| >= period
    ensures Accounted(Step(q, Read, capacity, period), capacity)
  {
  }

  lemma StepAccounts<F>(q: Queue<F>, op: Op<F>, capacity: nat, period: nat)
    requires Accounted(q, capacity)
    ensures Accounted(Step(q, op, capacity, period), capacity)
  {
    match op
    case Push(frames) => PushAccounts(q, frames, capacity, period);
    case Flush =>
    case Read => if |q.held| >= period { ReadAccounts(q, capacity, period); }
  }

  function AllPushed<F>(ops: seq<Op<F>>): seq<F> {
    if ops == [] then [] else (if ops[0].Push? then ops[0].frames else []) + AllPushed(ops[1..])
  }

  lemma {:induction false} RunAccounts<F>(q: Queue<F>, ops: seq<Op<F>>, capacity: nat, period: nat)
    requires Accounted(q, capacity)
    ensures Accounted(Run(q, ops, capacity, period), capacity)
    decreases |ops|
  {
    hide Step, Accounted;
    if ops != [] {
      StepAccounts(q, ops[0], capacity, period);
      RunAccounts(Step(q, ops[0], capacity, period), ops[1..], capacity, period);
    }
  }

  lemma {:induction false} RunPushes<F>(q: Queue<F>, ops: seq<Op<F>>, capacity: nat, period: nat)
    ensures Run(q, ops, capacity, period).pushed == q.pushed + AllPushed(ops)
    decreases |ops|
  {
    if ops == [] {
      assert q.pushed + [] == q.pushed;
    } else {
      var m := Step(q, ops[0], capacity, period);
      var first := if ops[0].Push? then ops[0].frames else [];
      assert m.pushed == q.pushed + first;
      hide Step;
      RunPushes(m, ops[1..], capacity, period);
      assert q.pushed + first + AllPushed(ops[1..]) == q.pushed + (first + AllPushed(ops[1..]));
    }
  }

  function Empty<F>(): Queue<F> { Queue([], [], [], [], 0, 0) }

  /** Over every sequence of pushes, reads and flushes on an empty queue: what was pushed was read,
      dropped, flushed or is held; the held frames are the newest ones, no more than fit; and what
      was read is an in-order subsequence of what was pushed before them. */
  lemma EveryRunAccounts<F>(ops: seq<Op<F>>, capacity: nat, period: nat)
    ensures var q := Run(Empty(), ops, capacity, period); var all := AllPushed(ops);
      && |all| == |q.got| + q.dropped + q.flushed + |q.held|
      && |q.held| <= capacity && |q.held| <= |all| && q.held == all[|all| - |q.held|..]
      && |q.got| == |q.gotAt| && (forall i, j :: 0 <= i < j < |q.gotAt| ==> q.gotAt[i] < q.gotAt[j])
      && forall j :: 0 <= j < |q.gotAt| ==> 0 <= q.gotAt[j] < |all| - |q.held| && q.got[j] == all[q.gotAt[j]]
  {
    RunAccounts(Empty(), ops, capacity, period);
    RunPushes(Empty(), ops, capacity, period);
    assert [] + AllPushed(ops) == AllPushed(ops);
    hide Run, AllPushed;
  }

  /** A read takes exactly the oldest period when there is one, and otherwise nothing; and a push
      drops something exactly when not everything fits. */
  lemma ReadTakesTheOldest<F>(q: Queue<F>, frames: seq<F>, capacity: nat, period: nat)
    requires |q.held| <= capacity
    ensures var r := Step(q, Read, capacity, period); var p := Step(q, Push(frames), capacity, period);
      && (|q.held| >= period ==>
           |r.got| == |q.got| + period && q.got <= r.got && r.got[|q.got|..] + r.held == q.held)
      && (|q.held| < period ==> r == q)
      && (p.dropped > q.dropped <==> |q.held| + |frames| > capacity)
  {
    var r := Step(q, Read, capacity, period);
    if |q.held| >= period { assert r.got[|q.got|..] == q.held[..period]; }
  }

  /** Dropping the oldest frame when full and appending one keeps the newest frames. */
  lemma DropAndAppend<F>(held: seq<F>, frame: F, n: nat)
    requires |held| <= n && n > 0
    ensures (if |held| >= n then held[1..] else held) + [frame] == Newest(held + [frame], n)
  {
  }

  lemma NothingPushed<F>(held: seq<F>, frames: seq<F>, n: nat)
    requires |held| <= n
    ensures Newest(held + frames[..0], n) == held
    ensures frames[..|frames|] == frames
  {
  }

  /** The newest frames of all, frame by frame. */
  lemma PushStep<F>(before: seq<F>, frames: seq<F>, i: nat, n: nat)
    requires i < |frames| && n > 0
    ensures Newest(Newest(before + frames[..i], n) + [frames[i]], n) == Newest(before + frames[..i + 1], n)
  {
    var all := before + frames[..i];
    assert before + frames[..i + 1] == all + [frames[i]];
  }

  lemma RunStep<F>(q: Queue<F>, ops: seq<Op<F>>, i: nat, capacity: nat, period: nat)
    requires i < |ops|
    ensures Run(q, ops[i..], capacity, period) == Run(Step(q, ops[i], capacity, period), ops[i + 1..], capacity, period)
  {
    assert ops[i..][1..] == ops[i + 1..];
    hide Step;
  }

  lemma RunEnds<F>(q: Queue<F>, ops: seq<Op<F>>, capacity: nat, period: nat)
    ensures Run(q, ops[|ops|..], capacity, period) == q
  {
  }
}
