/** The ring buffer of the WASAPI capture (platform/windows/audio_wasapi.c): frames in a fixed
    array, drop-oldest on overflow, reads that copy across the wrap point. */
module AudioRing {
  import opened AudioQueue

  const RING_FRAMES_MIN: nat := 4096
  const RING_PERIODS: nat := 32

  /** What happens while a reader sleeps: frames come, the ring is emptied by a flush or a switch of
      the endpoint, or the device is stopped. When the list is used up the sleep times out. */
  datatype Wake<F> = Frames(frames: seq<F>) | Flushed | Stop

  datatype Waited<F> = Waited(held: seq<F>, ready: bool, stopped: bool)

  /** The wait at the start of sound_device_read_next_chunk. */
  function Await<F>(held: seq<F>, stopped: bool, wakes: seq<Wake<F>>, capacity: nat, period: nat): Waited<F>
    decreases |wakes|
  {
    if |held| >= period || stopped then Waited(held, !stopped, stopped)
    else if wakes == [] then Waited(held, false, stopped)
    else match wakes[0]
      case Stop => Await(held, true, wakes[1..], capacity, period)
      case Flushed => Await([], stopped, wakes[1..], capacity, period)
      case Frames(frames) => Await(Newest(held + frames, capacity), stopped, wakes[1..], capacity, period)
  }

  /** How many frames have come since the ring was last emptied; `held` were there before. */
  function SinceFlush<F>(held: nat, wakes: seq<Wake<F>>): nat
    decreases |wakes|
  {
    if wakes == [] then held
    else
      match wakes[0]
      case Frames(frames) => SinceFlush(held + |frames|, wakes[1..])
      case Flushed => SinceFlush(0, wakes[1..])
      case Stop => SinceFlush(held, wakes[1..])
  }

  predicate NoStop<F>(wakes: seq<Wake<F>>) { forall i :: 0 <= i < |wakes| ==> !wakes[i].Stop? }

  /** Before any stop, the first n wakes complete a period. */
  predicate Completes<F>(held: nat, wakes: seq<Wake<F>>, n: nat, period: nat) {
    n <= |wakes| && NoStop(wakes[..n]) && SinceFlush(held, wakes[..n]) >= period
  }

  /** A waiting reader gets its period if and only if it has not been stopped and at some point,
      before a stop and before the sleep times out, a period has come since the ring was last
      emptied; what the ring drops on overflow does not matter. */
  lemma {:induction false} ReaderIsServedExactly<F>(held: seq<F>, stopped: bool, wakes: seq<Wake<F>>, capacity: nat,
      period: nat)
    requires |held| <= capacity && period <= capacity
    ensures Await(held, stopped, wakes, capacity, period).ready <==>
      !stopped && exists n: nat :: n <= |wakes| && Completes(|held|, wakes, n, period)
    decreases |wakes|
  {
    if |held| >= period {
      assert Completes(|held|, wakes, 0, period);
    } else if !stopped && wakes != [] {
      NotYet(|held|, wakes, period);
      if wakes[0].Stop? {
        StoppedForGood(|held|, wakes, period);
      } else {
        var after := if wakes[0].Flushed? then [] else Newest(held + wakes[0].frames, capacity);
        ReaderIsServedExactly(after, stopped, wakes[1..], capacity, period);
        forall m: nat | m < |wakes|
          ensures Completes(|after|, wakes[1..], m, period) <==> Completes(|held|, wakes, m + 1, period)
        {
          CompletesAhead(|held|, |after|, wakes, m, period);
        }
        hide Completes;
        if n: nat :| n <= |wakes| && Completes(|held|, wakes, n, period) {
          assert Completes(|after|, wakes[1..], n - 1, period);
        }
      }
    }
  }

  lemma NotYet<F>(held: nat, wakes: seq<Wake<F>>, period: nat)
    requires held < period
    ensures !Completes(held, wakes, 0, period)
  {
  }

  lemma StoppedForGood<F>(held: nat, wakes: seq<Wake<F>>, period: nat)
    requires wakes != [] && wakes[0].Stop?
    ensures forall n: nat :: 0 < n <= |wakes| ==> !Completes(held, wakes, n, period)
  {
    forall n: nat | 0 < n <= |wakes| ensures !Completes(held, wakes, n, period) { assert wakes[..n][0].Stop?; }
  }

  lemma CompletesAhead<F>(held: nat, after: nat, wakes: seq<Wake<F>>, m: nat, period: nat)
    requires m < |wakes| && !wakes[0].Stop?
    requires var next := if wakes[0].Flushed? then 0 else held + |wakes[0].frames|;
      after == next || (after >= period && next >= period)
    ensures Completes(after, wakes[1..], m, period) <==> Completes(held, wakes, m + 1, period)
  {
    WakeAhead(held, wakes, m + 1);
    ExtraIsHarmless(after, if wakes[0].Flushed? then 0 else held + |wakes[0].frames|, wakes[1..][..m], period);
    hide SinceFlush, NoStop;
  }

  lemma WakeAhead<F>(held: nat, wakes: seq<Wake<F>>, n: nat)
    requires 0 < n <= |wakes| && !wakes[0].Stop?
    ensures SinceFlush(held, wakes[..n]) ==
      SinceFlush(if wakes[0].Flushed? then 0 else held + |wakes[0].frames|, wakes[1..][..n - 1])
    ensures NoStop(wakes[..n]) <==> NoStop(wakes[1..][..n - 1])
  {
    assert wakes[..n][1..] == wakes[1..][..n - 1];
    var x := wakes[..n];
    forall i | 0 < i < |x| ensures x[i] == x[1..][i - 1] { }
  }

  /** Frames beyond a period do not decide whether a period is there, so overflow does not either. */
  lemma {:induction false} ExtraIsHarmless<F>(a: nat, b: nat, wakes: seq<Wake<F>>, period: nat)
    requires a == b || (a >= period && b >= period)
    ensures SinceFlush(a, wakes) >= period <==> SinceFlush(b, wakes) >= period
    decreases |wakes|
  {
    if wakes != [] {
      match wakes[0]
      case Frames(frames) => ExtraIsHarmless(a + |frames|, b + |frames|, wakes[1..], period);
      case Flushed => ExtraIsHarmless(0, 0, wakes[1..], period);
      case Stop => ExtraIsHarmless(a, b, wakes[1..], period);
    }
  }

  lemma ModWrap(i: nat, n: nat)
    requires 0 < n && i < 2 * n
    ensures i % n == if i < n then i else i - n
  {
  }

  lemma CopiedPrefix<F>(all: seq<F>, offset: nat, take: nat, held: seq<F>, copied: seq<F>)
    requires offset + take <= |all| && held == all[offset..] && |copied| == offset + take
    requires copied[..offset] == all[..offset]
    requires forall j :: offset <= j < offset + take ==> copied[j] == held[j - offset]
    ensures copied == all[..offset + take]
    ensures held[take..] == all[offset + take..]
  {
  }

  class Ring<F(0)> {
    const ring: array<F>
    const period: nat
    var head: nat
    var count: nat
    var stopRequested: bool

    ghost predicate Valid()
      reads this
    {
      0 < period <= ring.Length && head < ring.Length && count <= ring.Length
    }

    /** The k-th oldest frame. */
    ghost function At(k: nat): F
      requires Valid() && k < ring.Length
      reads this, ring
    {
      ring[if head + k < ring.Length then head + k else head + k - ring.Length]
    }

    ghost function Contents(): (s: seq<F>)
      requires Valid()
      reads this, ring
      ensures |s| == count
    {
      seq(count, k requires 0 <= k < count && Valid() reads this, ring => At(k))
    }

    /** Ring sizing in sound_device_get_by_name, which rejects an empty period. */
    constructor (period: nat)
      requires period > 0
      ensures Valid() && fresh(ring) && this.period == period && !stopRequested
      ensures ring.Length == (if period * 32 < 4096 then 4096 else period * 32)
      ensures Contents() == []
    {
      var ringFrames := period * RING_PERIODS;
      if ringFrames < RING_FRAMES_MIN { ringFrames := RING_FRAMES_MIN; }
      ring := new F[ringFrames];
      this.period := period;
      head, count := 0, 0;
      stopRequested := false;
    }

    /** Forgets the n oldest frames. */
    method Advance(n: nat)
      requires Valid() && n <= count && n <= ring.Length - head
      modifies this`head, this`count
      ensures Valid() && count == old(count) - n
      ensures Contents() == old(Contents())[n..]
    {
      ModWrap(head + n, ring.Length);
      head := (head + n) % ring.Length;
      count := count - n;
    }

    /** Stores a frame behind the newest one. */
    method Append(frame: F)
      requires Valid() && count < ring.Length
      modifies this`count, ring
      ensures Valid() && Contents() == old(Contents()) + [frame]
    {
      ModWrap(head + count, ring.Length);
      var tail := (head + count) % ring.Length;
      ring[tail] := frame;
      count := count + 1;
    }

    /** One frame: the oldest makes room if the ring is full. */
    method PushOne(frame: F)
      requires Valid()
      modifies this`head, this`count, ring
      ensures Valid() && Contents() == Newest(old(Contents()) + [frame], ring.Length)
    {
      DropAndAppend(Contents(), frame, ring.Length);
      if count >= ring.Length { Advance(1); }
      Append(frame);
    }

    /** The push loop of convert_chunk_to_ring: the ring keeps the newest frames. */
    method PushAll(frames: seq<F>)
      requires Valid()
      modifies this`head, this`count, ring
      ensures Valid() && Contents() == Newest(old(Contents()) + frames, ring.Length)
    {
      hide Newest, Contents;
      ghost var before := Contents();
      NothingPushed(before, frames, ring.Length);
      for i := 0 to |frames|
        invariant Valid() && Contents() == Newest(before + frames[..i], ring.Length)
      {
        PushStep(before, frames, i, ring.Length);
        PushOne(frames[i]);
      }
    }

    /** sound_device_flush. */
    method Flush()
      requires Valid()
      modifies this`head, this`count
      ensures Valid() && Contents() == []
    {
      head, count := 0, 0;
    }

    /** The copy loop of sound_device_read_next_chunk: one period, in at most two pieces. */
    method TakePeriod(out: array<F>)
      requires Valid() && count >= period && out.Length == period && out != ring
      modifies this`head, this`count, out
      ensures Valid()
      ensures out[..] == old(Contents())[..period]
      ensures Contents() == old(Contents())[period..]
    {
      ghost var before := Contents();
      var remaining: nat, offset: nat := period, 0;
      while remaining > 0
        invariant Valid() && offset + remaining == period <= |before| && count == |before| - offset
        invariant Contents() == before[offset..]
        invariant out[..offset] == before[..offset]
      {
        var contiguous := ring.Length - head;
        var take := if remaining < contiguous then remaining else contiguous;
        forall j | offset <= j < offset + take { out[j] := ring[head + j - offset]; }
        CopiedPrefix(before, offset, take, Contents(), out[..offset + take]);
        Advance(take);
        remaining := remaining - take;
        offset := offset + take;
      }
    }

    /** sound_device_read_next_chunk; `wakes` is what happens while the reader sleeps. */
    method ReadNextChunk(wakes: seq<Wake<F>>, out: array<F>) returns (frames: int)
      requires Valid() && out.Length == period && out != ring
      modifies this, ring, out
      ensures Valid()
      ensures var a := Await(old(Contents()), old(stopRequested), wakes, ring.Length, period);
        && stopRequested == a.stopped
        && frames == (if a.ready then period else -1)
        && (a.ready ==> period <= |a.held| && out[..] == a.held[..period] && Contents() == a.held[period..])
        && (!a.ready ==> Contents() == a.held && out[..] == old(out[..]))
    {
      var i := 0;
      while count < period && !stopRequested
        invariant i <= |wakes| && Valid() && unchanged(out)
        invariant Await(Contents(), stopRequested, wakes[i..], ring.Length, period) ==
                  Await(old(Contents()), old(stopRequested), wakes, ring.Length, period)
        decreases |wakes| - i
      {
        if i == |wakes| { return -1; }
        assert wakes[i..][1..] == wakes[i + 1..];
        match wakes[i] {
          case Frames(pushed) => PushAll(pushed);
          case Flushed => Flush();
          case Stop => stopRequested := true;
        }
        i := i + 1;
      }
      if stopRequested { return -1; }
      TakePeriod(out);
      return period;
    }

    /** One push, flush or read; a read of less than a period times out. */
    method PerformOne(op: Op<F>, ghost q: Queue<F>) returns (got: seq<F>)
      requires Valid() && Contents() == q.held
      modifies this`head, this`count, ring
      ensures Valid()
      ensures var r := Step(q, op, ring.Length, period); Contents() == r.held && q.got + got == r.got
    {
      got := [];
      match op {
        case Push(frames) => PushAll(frames);
        case Flush() => Flush();
        case Read =>
          if count >= period {
            var out := new F[period];
            TakePeriod(out);
            got := out[..];
          }
      }
    }

    /** Any sequence of them is a run of the bounded queue. */
    method Perform(ops: seq<Op<F>>, ghost q: Queue<F>) returns (got: seq<F>)
      requires Valid() && Contents() == q.held
      modifies this`head, this`count, ring
      ensures Valid()
      ensures Contents() == Run(q, ops, ring.Length, period).held
      ensures q.got + got == Run(q, ops, ring.Length, period).got
    {
      hide Run, Step, Contents;
      got := [];
      ghost var now := q;
      assert ops[0..] == ops;
      for i := 0 to |ops|
        invariant Valid() && Contents() == now.held && now.got == q.got + got
        invariant Run(now, ops[i..], ring.Length, period) == Run(q, ops, ring.Length, period)
      {
        RunStep(now, ops, i, ring.Length, period);
        ghost var next := Step(now, ops[i], ring.Length, period);
        var more := PerformOne(ops[i], now);
        assert q.got + got + more == q.got + (got + more);
        got := got + more;
        now := next;
      }
      RunEnds(now, ops, ring.Length, period);
    }
  }
}
