/** The UI's command pipe server, Windows half (ui/src/Rpc.cpp): two parallel tables, removal by
    moving the last entry into the gap, and at most one line handled per read. */
module UiRpc {
  import opened TextLines

  const MAX_CONNECTIONS: nat := 8
  const MAX_MESSAGE_SIZE: nat := 128

  type Pipe = int

  /** `owner`, `received` and `handled` are bookkeeping: the pipe the entry was set up for,
      everything read from it, and the lines passed to the handlers. */
  datatype PollData = PollData(buffer: string, owner: Pipe, received: string, handled: seq<string>)

  /** The two tables, entry by entry. */
  datatype State = State(fds: seq<Pipe>, polls: seq<PollData>)

  /** What PeekNamedPipe and ReadFile find on a pipe. */
  datatype Peek = Broken | Nothing | Available(bytes: string, readOk: bool)

  predicate Shaped(s: State) { |s.fds| == |s.polls| <= MAX_CONNECTIONS }

  /** handle_client_data: at most one line leaves the buffer. */
  function Handle(d: PollData): PollData {
    var i := IndexOf(d.buffer, '\n');
    if i == |d.buffer| then d else d.(buffer := d.buffer[i + 1..], handled := d.handled + [d.buffer[..i]])
  }

  function Receive(d: PollData, bytes: string): PollData {
    Handle(d.(buffer := d.buffer + bytes, received := d.received + bytes))
  }

  function Space(d: PollData): nat { if |d.buffer| <= MAX_MESSAGE_SIZE then MAX_MESSAGE_SIZE - |d.buffer| else 0 }

  function Crop(bytes: string, n: nat): string { if |bytes| <= n then bytes else bytes[..n] }

  function SwapOut<T>(s: seq<T>, i: nat): seq<T>
    requires i < |s|
  {
    s[i := s[|s| - 1]][..|s| - 1]
  }

  function Drop(s: State, i: nat): State
    requires Shaped(s) && i < |s.fds|
  {
    State(SwapOut(s.fds, i), SwapOut(s.polls, i))
  }

  /** accept_listen_client; a connection beyond the table is closed. */
  function Accept(s: State, pipe: Pipe): State {
    if |s.fds| >= MAX_CONNECTIONS then s else State(s.fds + [pipe], s.polls + [PollData([], pipe, [], [])])
  }

  /** The poll loop's work on entry i; false when the entry was removed. */
  function PollOne(s: State, i: nat, peek: Peek): (r: (State, bool))
    requires Shaped(s) && i < |s.fds|
    ensures Shaped(r.0) && |r.0.fds| == if r.1 then |s.fds| else |s.fds| - 1
  {
    match peek
    case Broken => (Drop(s, i), false)
    case Nothing => (s, true)
    case Available(bytes, readOk) =>
      var got := Crop(bytes, Space(s.polls[i]));
      if bytes == [] then (s, true)
      else if !readOk || got == [] then (Drop(s, i), false)
      else (s.(polls := s.polls[i := Receive(s.polls[i], got)]), true)
  }

  /** The poll loop from entry i on, with the pipes it looked at. */
  function PollFrom(s: State, inbox: Pipe -> Peek, i: nat): (r: (State, seq<Pipe>))
    requires Shaped(s) && i <= |s.fds|
    ensures Shaped(r.0)
    decreases |s.fds| - i
  {
    if i == |s.fds| then (s, [])
    else
      var r := PollOne(s, i, inbox(s.fds[i]));
      var rest := PollFrom(r.0, inbox, if r.1 then i + 1 else i);
      (rest.0, [s.fds[i]] + rest.1)
  }

  datatype Event = Connect(pipe: Pipe) | Poll(inbox: Pipe -> Peek)

  function Step(s: State, e: Event): (r: State)
    requires Shaped(s)
    ensures Shaped(r)
  {
    match e
    case Connect(pipe) => Accept(s, pipe)
    case Poll(inbox) => PollFrom(s, inbox, 0).0
  }

  function Run(s: State, events: seq<Event>): (r: State)
    requires Shaped(s)
    ensures Shaped(r)
    decreases |events|
  {
    if events == [] then s else Run(Step(s, events[0]), events[1..])
  }

  // ---- what holds ---------------------------------------------------------------------------

  /** Nothing received is lost or invented: the handled lines and the buffer are the stream. */
  predicate Lossless(d: PollData) {
    && JoinLines(d.handled) + d.buffer == d.received
    && |d.buffer| <= MAX_MESSAGE_SIZE
    && forall j :: 0 <= j < |d.handled| ==> '\n' !in d.handled[j]
  }

  /** Nothing is lost, and a full buffer holds an unfinished line. */
  predicate Faithful(d: PollData) {
    Lossless(d) && (|d.buffer| == MAX_MESSAGE_SIZE ==> '\n' !in d.buffer)
  }

  predicate Inv(s: State) {
    && Shaped(s)
    && forall i :: 0 <= i < |s.fds| ==> s.polls[i].owner == s.fds[i] && Faithful(s.polls[i])
  }

  /** A handled line takes its text along. */
  lemma LineMoves(handled: seq<string>, line: string, rest: string)
    ensures JoinLines(handled + [line]) + rest == JoinLines(handled) + (line + ['\n'] + rest)
  {
    JoinSnoc(handled, line);
    hide JoinLines;
    assert JoinLines(handled) + line + ['\n'] + rest == JoinLines(handled) + (line + ['\n'] + rest);
  }

  lemma HandleKeeps(d: PollData)
    requires Lossless(d)
    ensures Faithful(Handle(d))
  {
    hide JoinLines;
    var i := IndexOf(d.buffer, '\n');
    if i < |d.buffer| {
      assert d.buffer == d.buffer[..i] + ['\n'] + d.buffer[i + 1..];
      LineMoves(d.handled, d.buffer[..i], d.buffer[i + 1..]);
    }
  }

  lemma ReceiveKeeps(d: PollData, bytes: string)
    requires Faithful(d) && |bytes| <= Space(d)
    ensures Faithful(Receive(d, bytes)) && Receive(d, bytes).owner == d.owner
  {
    var e := d.(buffer := d.buffer + bytes, received := d.received + bytes);
    assert JoinLines(d.handled) + (d.buffer + bytes) == JoinLines(d.handled) + d.buffer + bytes;
    HandleKeeps(e);
  }

  lemma SwapOutAt<T>(s: seq<T>, i: nat)
    requires i < |s|
    ensures |SwapOut(s, i)| == |s| - 1
    ensures forall j :: 0 <= j < |s| - 1 && j != i ==> SwapOut(s, i)[j] == s[j]
    ensures i < |s| - 1 ==> SwapOut(s, i)[i] == s[|s| - 1]
  {
  }

  /** The same entries, each as often, in some order. */
  predicate SameEntries<T(==)>(a: seq<T>, b: seq<T>) { multiset(a) == multiset(b) }

  /** The entries not looked at yet are the same ones after a removal. */
  lemma SwapOutRest<T>(s: seq<T>, i: nat)
    requires i < |s|
    ensures SameEntries(SwapOut(s, i)[i..], s[i + 1..])
  {
    var n := |s| - 1;
    if i == n {
      assert SwapOut(s, i)[i..] == [] && s[i + 1..] == [];
    } else {
      assert SwapOut(s, i)[i..] == [s[n]] + s[i + 1..n];
      assert s[i + 1..] == s[i + 1..n] + [s[n]];
    }
  }

  lemma DropKeeps(s: State, i: nat)
    requires Inv(s) && i < |s.fds|
    ensures Inv(Drop(s, i)) && SameEntries(Drop(s, i).fds[i..], s.fds[i + 1..])
  {
    SwapOutAt(s.fds, i);
    SwapOutAt(s.polls, i);
    SwapOutRest(s.fds, i);
    hide Faithful, SwapOut;
    var r := Drop(s, i);
    forall j | 0 <= j < |r.fds| ensures r.polls[j].owner == r.fds[j] && Faithful(r.polls[j]) {
      var k := if j == i then |s.fds| - 1 else j;
      assert r.polls[j] == s.polls[k] && r.fds[j] == s.fds[k];
    }
  }

  lemma PollOneKeeps(s: State, i: nat, peek: Peek)
    requires Inv(s) && i < |s.fds|
    ensures var r := PollOne(s, i, peek);
      && Inv(r.0)
      && (r.1 ==> r.0.fds == s.fds)
      && (!r.1 ==> SameEntries(r.0.fds[i..], s.fds[i + 1..]))
  {
    var r := PollOne(s, i, peek);
    if !r.1 {
      hide Inv;
      DropKeeps(s, i);
    } else if peek.Available? && peek.bytes != [] {
      ReceiveKeeps(s.polls[i], Crop(peek.bytes, Space(s.polls[i])));
      hide Faithful, Receive, Crop;
      forall j | 0 <= j < |r.0.fds| ensures r.0.polls[j].owner == r.0.fds[j] && Faithful(r.0.polls[j]) {
        if j != i { assert r.0.polls[j] == s.polls[j]; }
      }
    }
  }

  lemma VisitStep(x: Pipe, seen: seq<Pipe>, next: seq<Pipe>, rest: seq<Pipe>, all: seq<Pipe>)
    requires SameEntries(seen, next) && SameEntries(next, rest) && all == [x] + rest
    ensures SameEntries([x] + seen, all)
  {
  }

  lemma Rest(fds: seq<Pipe>, i: nat)
    requires i <= |fds|
    ensures i < |fds| ==> fds[i..] == [fds[i]] + fds[i + 1..] && SameEntries(fds[i + 1..], fds[i + 1..])
    ensures i == |fds| ==> SameEntries([], fds[i..])
  {
  }

  lemma PollStep(s: State, inbox: Pipe -> Peek, i: nat)
    requires Shaped(s) && i <= |s.fds|
    ensures i == |s.fds| ==> PollFrom(s, inbox, i) == (s, [])
    ensures i < |s.fds| ==>
              var r := PollOne(s, i, inbox(s.fds[i])); var rest := PollFrom(r.0, inbox, if r.1 then i + 1 else i);
              PollFrom(s, inbox, i) == (rest.0, [s.fds[i]] + rest.1)
  {
  }

  /** One poll looks at every entry of the table exactly once, however many it removes. */
  lemma {:induction false} PollVisitsEveryClientOnce(s: State, inbox: Pipe -> Peek, i: nat)
    requires Inv(s) && i <= |s.fds|
    ensures Inv(PollFrom(s, inbox, i).0)
    ensures SameEntries(PollFrom(s, inbox, i).1, s.fds[i..])
    decreases |s.fds| - i
  {
    assert Shaped(s);
    hide Inv, PollOne, SameEntries, PollFrom, Shaped;
    PollStep(s, inbox, i);
    Rest(s.fds, i);
    if i < |s.fds| {
      PollOneKeeps(s, i, inbox(s.fds[i]));
      var r := PollOne(s, i, inbox(s.fds[i]));
      var next := if r.1 then i + 1 else i;
      PollVisitsEveryClientOnce(r.0, inbox, next);
      VisitStep(s.fds[i], PollFrom(r.0, inbox, next).1, r.0.fds[next..], s.fds[i + 1..], s.fds[i..]);
    }
  }

  /** What becomes of one client in a poll: a broken pipe, a failed read and a full buffer lose it; bytes
      are taken as far as the buffer has room for them; and without bytes it stays as it is. */
  function Fate(d: PollData, peek: Peek): seq<PollData> {
    match peek
    case Broken => []
    case Nothing => [d]
    case Available(bytes, readOk) =>
      if bytes == [] then [d]
      else if !readOk || |d.buffer| >= 128 then []
      else [Receive(d, if |bytes| <= 128 - |d.buffer| then bytes else bytes[..128 - |d.buffer|])]
  }

  function Fates(ds: seq<PollData>, inbox: Pipe -> Peek): seq<PollData> {
    if ds == [] then [] else Fate(ds[0], inbox(ds[0].owner)) + Fates(ds[1..], inbox)
  }

  lemma {:induction false} FatesConcat(a: seq<PollData>, b: seq<PollData>, inbox: Pipe -> Peek)
    ensures Fates(a + b, inbox) == Fates(a, inbox) + Fates(b, inbox)
  {
    hide Fate;
    if a == [] {
      assert a + b == b;
    } else {
      assert (a + b)[0] == a[0] && (a + b)[1..] == a[1..] + b;
      FatesConcat(a[1..], b, inbox);
    }
  }

  lemma FatesOfOne(d: PollData, inbox: Pipe -> Peek)
    ensures Fates([d], inbox) == Fate(d, inbox(d.owner))
  {
    assert [d][1..] == [];
    hide Fate;
  }

  /** The fates of the entries behind i do not depend on the order that a removal leaves them in. */
  lemma FatesAfterSwap(ds: seq<PollData>, i: nat, inbox: Pipe -> Peek)
    requires i < |ds|
    ensures SameEntries(Fates(SwapOut(ds, i)[i..], inbox), Fates(ds[i + 1..], inbox))
    ensures SwapOut(ds, i)[..i] == ds[..i]
  {
    var n := |ds| - 1;
    hide Fates;
    if i == n {
      assert SwapOut(ds, i)[i..] == [] && ds[i + 1..] == [];
    } else {
      assert SwapOut(ds, i)[i..] == [ds[n]] + ds[i + 1..n];
      assert ds[i + 1..] == ds[i + 1..n] + [ds[n]];
      FatesConcat([ds[n]], ds[i + 1..n], inbox);
      FatesConcat(ds[i + 1..n], [ds[n]], inbox);
    }
  }

  /** What the table comes to when the entries from i on meet their fates. */
  function Expected(ds: seq<PollData>, i: nat, inbox: Pipe -> Peek): seq<PollData>
    requires i <= |ds|
  {
    ds[..i] + Fates(ds[i..], inbox)
  }

  lemma ExpectedFirst(ds: seq<PollData>, i: nat, inbox: Pipe -> Peek)
    requires i < |ds|
    ensures Fates(ds[i..], inbox) == Fate(ds[i], inbox(ds[i].owner)) + Fates(ds[i + 1..], inbox)
  {
    assert ds[i..] == [ds[i]] + ds[i + 1..];
    hide Fate, Fates;
    FatesConcat([ds[i]], ds[i + 1..], inbox);
    FatesOfOne(ds[i], inbox);
  }

  lemma ExpectedKept(ds: seq<PollData>, i: nat, d: PollData, inbox: Pipe -> Peek)
    requires i < |ds| && Fate(ds[i], inbox(ds[i].owner)) == [d]
    ensures Expected(ds[i := d], i + 1, inbox) == Expected(ds, i, inbox)
  {
    ExpectedFirst(ds, i, inbox);
    hide Fate, Fates;
    assert ds[i := d][..i + 1] == ds[..i] + [d] && ds[i := d][i + 1..] == ds[i + 1..];
  }

  lemma ExpectedDropped(ds: seq<PollData>, i: nat, inbox: Pipe -> Peek)
    requires i < |ds| && Fate(ds[i], inbox(ds[i].owner)) == []
    ensures SameEntries(Expected(SwapOut(ds, i), i, inbox), Expected(ds, i, inbox))
  {
    ExpectedFirst(ds, i, inbox);
    FatesAfterSwap(ds, i, inbox);
    hide Fate, Fates, SwapOut;
    assert [] + Fates(ds[i + 1..], inbox) == Fates(ds[i + 1..], inbox);
  }

  lemma ExpectedEnds(ds: seq<PollData>, inbox: Pipe -> Peek)
    ensures Expected(ds, |ds|, inbox) == ds && Expected(ds, 0, inbox) == Fates(ds, inbox)
  {
    assert ds[0..] == ds;
  }

  lemma SameOn<T>(a: seq<T>, b: seq<T>, c: seq<T>)
    requires SameEntries(a, b) && SameEntries(b, c)
    ensures SameEntries(a, c)
  {
  }

  /** What the loop does to entry i, and what it leaves to look at. */
  lemma PollOneFate(s: State, i: nat, inbox: Pipe -> Peek)
    requires Inv(s) && i < |s.fds|
    ensures var r := PollOne(s, i, inbox(s.fds[i])); var fate := Fate(s.polls[i], inbox(s.polls[i].owner));
      if r.1 then |fate| == 1 && r.0.polls == s.polls[i := fate[0]] else fate == [] && r.0.polls == SwapOut(s.polls, i)
  {
    hide Receive, SwapOut, Faithful;
    assert Faithful(s.polls[i]);
    FaithfulFits(s.polls[i]);
  }

  lemma FaithfulFits(d: PollData)
    requires Faithful(d)
    ensures |d.buffer| <= 128
  {
  }

  /** A poll, for all its removals by swapping, does to the clients what looking at each on its own
      would: every one meets its fate, and nothing else is in the table. */
  lemma PollServesEveryClient(s: State, inbox: Pipe -> Peek)
    requires Inv(s)
    ensures SameEntries(PollFrom(s, inbox, 0).0.polls, Fates(s.polls, inbox))
  {
    PollServesFrom(s, inbox, 0);
    ExpectedEnds(s.polls, inbox);
  }

  lemma PollServesOne(s: State, inbox: Pipe -> Peek, i: nat)
    requires Inv(s) && i < |s.fds|
    ensures Shaped(s)
    ensures var r := PollOne(s, i, inbox(s.fds[i])); var next := if r.1 then i + 1 else i;
      Inv(r.0) && |r.0.polls| == |r.0.fds| && SameEntries(Expected(r.0.polls, next, inbox), Expected(s.polls, i, inbox))
  {
    ShapedInv(s);
    hide Inv, PollOne, SwapOut, Fate, Expected, SameEntries;
    PollOneFate(s, i, inbox);
    PollOneKeeps(s, i, inbox(s.fds[i]));
    var r := PollOne(s, i, inbox(s.fds[i]));
    ShapedInv(r.0);
    if r.1 {
      ExpectedKept(s.polls, i, Fate(s.polls[i], inbox(s.polls[i].owner))[0], inbox);
      SameAsItself(Expected(s.polls, i, inbox));
    } else {
      ExpectedDropped(s.polls, i, inbox);
    }
  }

  lemma {:induction false} PollServesFrom(s: State, inbox: Pipe -> Peek, i: nat)
    requires Inv(s) && i <= |s.fds|
    ensures |s.polls| == |s.fds| && SameEntries(PollFrom(s, inbox, i).0.polls, Expected(s.polls, i, inbox))
    decreases |s.fds| - i
  {
    ShapedInv(s);
    hide Inv, PollOne, PollFrom, Expected, SameEntries, Shaped;
    PollStep(s, inbox, i);
    if i == |s.fds| {
      ExpectedEnds(s.polls, inbox);
      SameAsItself(s.polls);
    } else {
      PollServesOne(s, inbox, i);
      var r := PollOne(s, i, inbox(s.fds[i]));
      var next := if r.1 then i + 1 else i;
      PollServesFrom(r.0, inbox, next);
      SameOn(PollFrom(r.0, inbox, next).0.polls, Expected(r.0.polls, next, inbox), Expected(s.polls, i, inbox));
    }
  }

  lemma SameAsItself<T>(a: seq<T>)
    ensures SameEntries(a, a)
  {
  }

  lemma ShapedInv(s: State)
    requires Inv(s)
    ensures Shaped(s) && |s.polls| == |s.fds|
  {
  }

  /** In every run of connects and polls, each pipe stays paired with its own buffer, no buffer
      exceeds 128 bytes, a full one has no newline, and for every connected client the handled
      lines, each with its newline, followed by the buffer are exactly the bytes received. */
  lemma EveryRunIsFaithful(events: seq<Event>, i: nat)
    ensures Inv(State([], []))
    ensures var s := Run(State([], []), events);
      && |s.fds| == |s.polls| <= 8
      && (i < |s.fds| ==>
           var d := s.polls[i];
           && d.owner == s.fds[i] && |d.buffer| <= 128 && (|d.buffer| == 128 ==> '\n' !in d.buffer)
           && JoinLines(d.handled) + d.buffer == d.received
           && forall j :: 0 <= j < |d.handled| ==> '\n' !in d.handled[j])
  {
    RunIsFaithful(State([], []), events);
    hide Run, JoinLines;
    var s := Run(State([], []), events);
    if i < |s.fds| { assert Faithful(s.polls[i]); }
  }

  lemma {:induction false} RunIsFaithful(s: State, events: seq<Event>)
    requires Inv(s)
    ensures Inv(Run(s, events))
    decreases |events|
  {
    if events != [] {
      match events[0]
      case Connect(pipe) => RunIsFaithful(Accept(s, pipe), events[1..]);
      case Poll(inbox) =>
        PollVisitsEveryClientOnce(s, inbox, 0);
        RunIsFaithful(PollFrom(s, inbox, 0).0, events[1..]);
    }
  }

  /** A connection joins the clients with an empty buffer if fewer than eight are connected, and is
      closed otherwise. */
  lemma EightAreAccepted(s: State, pipe: Pipe)
    requires Inv(s)
    ensures |s.fds| < 8 ==>
      Accept(s, pipe).fds == s.fds + [pipe] && Accept(s, pipe).polls == s.polls + [PollData([], pipe, [], [])]
    ensures |s.fds| >= 8 ==> Accept(s, pipe) == s
  {
  }

  function Newlines(s: string): nat {
    if s == [] then 0 else (if s[0] == '\n' then 1 else 0) + Newlines(s[1..])
  }

  lemma {:induction false} NoNewlines(s: string)
    ensures Newlines(s) == 0 <==> '\n' !in s
  {
    if s != [] { NoNewlines(s[1..]); }
  }

  lemma {:induction false} NewlinesBehind(s: string, i: nat)
    requires i < |s| && s[i] == '\n' && '\n' !in s[..i]
    ensures Newlines(s) == 1 + Newlines(s[i + 1..])
  {
    if i > 0 {
      assert s[0] == s[..i][0] && s[1..][..i - 1] == s[..i][1..];
      NewlinesBehind(s[1..], i - 1);
      assert s[1..][i..] == s[i + 1..];
    }
  }

  /** A read handles one line when the buffer then holds one, and a complete line is left waiting
      exactly when it holds another. */
  lemma OneLinePerRead(d: PollData, bytes: string)
    ensures |Receive(d, bytes).handled| == |d.handled| + if Newlines(d.buffer + bytes) >= 1 then 1 else 0
    ensures '\n' in Receive(d, bytes).buffer <==> Newlines(d.buffer + bytes) >= 2
    ensures Receive(d, bytes).received == d.received + bytes && Receive(d, bytes).owner == d.owner
  {
    var all := d.buffer + bytes;
    NoNewlines(all);
    var i := IndexOf(all, '\n');
    if i < |all| {
      NewlinesBehind(all, i);
      NoNewlines(all[i + 1..]);
    }
  }

  /** The entries of a pipe are still there, as they were. */
  predicate EntriesStay(s: State, r: State, pipe: Pipe)
    requires Shaped(s) && Shaped(r)
  {
    forall i :: 0 <= i < |s.fds| && s.fds[i] == pipe ==>
      exists j :: 0 <= j < |r.fds| && r.fds[j] == pipe && r.polls[j] == s.polls[i]
  }

  lemma PollOneLeaves(s: State, i: nat, peek: Peek, pipe: Pipe)
    requires Shaped(s) && i < |s.fds| && (s.fds[i] == pipe ==> peek == Nothing)
    ensures EntriesStay(s, PollOne(s, i, peek).0, pipe)
  {
    var r := PollOne(s, i, peek);
    if !r.1 {
      SwapOutAt(s.fds, i);
      SwapOutAt(s.polls, i);
      forall m | 0 <= m < |s.fds| && s.fds[m] == pipe
        ensures exists j :: 0 <= j < |r.0.fds| && r.0.fds[j] == pipe && r.0.polls[j] == s.polls[m]
      {
        var j := if m == |s.fds| - 1 then i else m;
        assert r.0.fds[j] == pipe && r.0.polls[j] == s.polls[m];
      }
    } else {
      forall m | 0 <= m < |s.fds| && s.fds[m] == pipe
        ensures exists j :: 0 <= j < |r.0.fds| && r.0.fds[j] == pipe && r.0.polls[j] == s.polls[m]
      {
        assert r.0.fds[m] == pipe && r.0.polls[m] == s.polls[m];
      }
    }
  }

  lemma {:induction false} PollLeaves(s: State, inbox: Pipe -> Peek, i: nat, pipe: Pipe)
    requires Shaped(s) && i <= |s.fds| && inbox(pipe) == Nothing
    ensures EntriesStay(s, PollFrom(s, inbox, i).0, pipe)
    decreases |s.fds| - i
  {
    if i < |s.fds| {
      PollOneLeaves(s, i, inbox(s.fds[i]), pipe);
      var r := PollOne(s, i, inbox(s.fds[i]));
      PollLeaves(r.0, inbox, if r.1 then i + 1 else i, pipe);
      PollStep(s, inbox, i);
      hide PollOne, PollFrom;
    }
  }

  /** Whatever else happens, a pipe that brings nothing keeps its buffer: a complete line that is
      left waiting waits until the client sends more. */
  lemma {:induction false} WaitingLineWaits(s: State, events: seq<Event>, pipe: Pipe)
    requires Shaped(s)
    requires forall i :: 0 <= i < |events| && events[i].Poll? ==> events[i].inbox(pipe) == Nothing
    ensures EntriesStay(s, Run(s, events), pipe)
    decreases |events|
  {
    if events != [] {
      match events[0] {
        case Connect(p) =>
          assert forall i :: 0 <= i < |s.fds| ==>
                   Accept(s, p).fds[i] == s.fds[i] && Accept(s, p).polls[i] == s.polls[i];
          WaitingLineWaits(Accept(s, p), events[1..], pipe);
        case Poll(inbox) =>
          PollLeaves(s, inbox, 0, pipe);
          WaitingLineWaits(PollFrom(s, inbox, 0).0, events[1..], pipe);
      }
      hide PollFrom;
    }
  }

  lemma RunStep(s: State, events: seq<Event>, i: nat)
    requires Shaped(s) && i < |events|
    ensures Run(s, events[i..]) == Run(Step(s, events[i]), events[i + 1..])
  {
    assert events[i..][1..] == events[i + 1..];
    hide Step;
  }

  lemma RunEnds(s: State, events: seq<Event>)
    requires Shaped(s)
    ensures Run(s, events[|events|..]) == s
  {
  }

  class Rpc {
    const fds: array<Pipe>
    const polls: array<PollData>
    var numClients: nat

    ghost predicate Valid()
      reads this
    {
      fds.Length == MAX_CONNECTIONS && polls.Length == MAX_CONNECTIONS && numClients <= MAX_CONNECTIONS
    }

    ghost function Abs(): (s: State)
      requires Valid()
      reads this, fds, polls
      ensures Shaped(s)
    {
      State(fds[..numClients], polls[..numClients])
    }

    constructor ()
      ensures Valid() && fresh(fds) && fresh(polls) && Abs() == State([], [])
    {
      fds := new Pipe[MAX_CONNECTIONS](_ => 0);
      polls := new PollData[MAX_CONNECTIONS](_ => PollData([], 0, [], []));
      numClients := 0;
    }

    method AcceptClient(pipe: Pipe)
      requires Valid()
      modifies this, fds, polls
      ensures Valid() && Abs() == Accept(old(Abs()), pipe)
    {
      if numClients < MAX_CONNECTIONS {
        fds[numClients] := pipe;
        polls[numClients] := PollData([], pipe, [], []);
        numClients := numClients + 1;
      }
    }

    method Remove(i: nat)
      requires Valid() && i < numClients
      modifies this, fds, polls
      ensures Valid() && Abs() == Drop(old(Abs()), i)
    {
      fds[i] := fds[numClients - 1];
      polls[i] := polls[numClients - 1];
      numClients := numClients - 1;
      assert fds[..numClients] == SwapOut(old(fds[..numClients]), i);
      assert polls[..numClients] == SwapOut(old(polls[..numClients]), i);
    }

    /** handle_client_data. */
    method HandleData(i: nat)
      requires Valid() && i < numClients
      modifies polls
      ensures polls[..] == old(polls[..])[i := Handle(old(polls[i]))]
    {
      var d := polls[i];
      var newline := IndexOf(d.buffer, '\n');
      if newline == |d.buffer| { return; }
      polls[i] := d.(buffer := d.buffer[newline + 1..], handled := d.handled + [d.buffer[..newline]]);
    }

    method PollClient(i: nat, peek: Peek) returns (kept: bool)
      requires Valid() && i < numClients
      modifies this, fds, polls
      ensures Valid() && (Abs(), kept) == PollOne(old(Abs()), i, peek)
    {
      match peek {
        case Broken =>
          Remove(i);
          return false;
        case Nothing => return true;
        case Available(bytes, readOk) =>
          if bytes == [] { return true; }
          var got := Crop(bytes, Space(polls[i]));
          if !readOk || got == [] {
            Remove(i);
            return false;
          }
          polls[i] := polls[i].(buffer := polls[i].buffer + got, received := polls[i].received + got);
          ghost var d := polls[i];
          HandleData(i);
          assert polls[..numClients] == old(polls[..numClients])[i := Handle(d)];
          return true;
      }
    }

    /** The read loop of poll, with `--i` after a removal. */
    method PollAll(inbox: Pipe -> Peek)
      requires Valid()
      modifies this, fds, polls
      ensures Valid() && Abs() == PollFrom(old(Abs()), inbox, 0).0
    {
      hide PollFrom, PollOne;
      var i: int := 0;
      while i < numClients
        invariant 0 <= i <= numClients && Valid()
        invariant PollFrom(Abs(), inbox, i).0 == PollFrom(old(Abs()), inbox, 0).0
        decreases numClients - i
      {
        PollStep(Abs(), inbox, i);
        var kept := PollClient(i, inbox(fds[i]));
        if !kept { i := i - 1; }
        i := i + 1;
      }
      PollStep(Abs(), inbox, i);
    }

    /** Any sequence of connects and polls is a run. */
    method Perform(events: seq<Event>)
      requires Valid()
      modifies this, fds, polls
      ensures Valid() && Abs() == Run(old(Abs()), events)
    {
      hide Run, Accept, PollFrom;
      assert events[0..] == events;
      for i := 0 to |events|
        invariant Valid() && Run(Abs(), events[i..]) == Run(old(Abs()), events)
      {
        RunStep(Abs(), events, i);
        match events[i] {
          case Connect(pipe) => AcceptClient(pipe);
          case Poll(inbox) => PollAll(inbox);
        }
      }
      RunEnds(Abs(), events);
    }
  }
}
