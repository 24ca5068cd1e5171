/** What the first read of a new client does, told from the bytes that arrive and the slots that
    are free: which of its requests stay registered, and whether the connection survives. */
module IpcFirstRead {
  import opened Options
  import opened IpcProtocol
  import opened IpcInvariant
  import opened IpcSteps
  import opened IpcFraming

  // ---- the arrival, as the caller sees it ---------------------------------------------

  /** The bytes of the chunks that complete synchronously. */
  function TextOf(script: ReadScript): string
    decreases script
  {
    if script.Ready? && script.bytes != [] then script.bytes + TextOf(script.rest) else []
  }

  /** The last read of the chain stays pending. */
  predicate Blocks(script: ReadScript)
    decreases script
  {
    script.WouldBlock? || (script.Ready? && script.bytes != [] && Blocks(script.rest))
  }

  function LinesOf(script: ReadScript): seq<Line> { CutAll(Lines(TextOf(script))) }

  /** The deferred type whose slot the line takes when it is free: it parses to that type, and
      its handler accepts. */
  function Defers(w: World, line: Line, t: nat): Option<Kind> {
    match line
    case TooLarge => None
    case Whole(text) =>
      if OnlyWhitespace(text) then None
      else match w.parse(text)
        case Malformed(_, _) => None
        case Parsed(_, name, options) => if Handle(name, options, w.env(t)).ok then DeferredKind(name) else None
  }

  /** Line j, whose ticket is first + j, takes a slot: it is free, and no line before took it. */
  predicate Registers(w: World, slots: seq<Slot>, lines: seq<Line>, first: nat, j: nat)
    requires |slots| == NUM_KINDS && j < |lines|
  {
    var k := Defers(w, lines[j], first + j);
    && k.Some? && slots[k.value].state == Empty
    && forall i :: 0 <= i < j ==> Defers(w, lines[i], first + i) != k
  }

  /** Line j is answered at once, and the answer cannot be written. */
  predicate Stops(w: World, slots: seq<Slot>, lines: seq<Line>, first: nat, j: nat)
    requires |slots| == NUM_KINDS && j < |lines|
  {
    !Registers(w, slots, lines, first, j) && !w.env(first + j).delivered
  }

  /** No line before line j ends the connection. */
  predicate Reached(w: World, slots: seq<Slot>, lines: seq<Line>, first: nat, j: nat)
    requires |slots| == NUM_KINDS && j <= |lines|
  {
    forall i :: 0 <= i < j ==> !Stops(w, slots, lines, first, i)
  }

  /** Line j of the first read is left registered to a closed pipe: it is reached and takes its
      slot, and the read ends, at a later line or with the script. */
  predicate LeavesOrphan(w: World, s: State, a: Arrival, j: nat)
    requires |s.slots| == NUM_KINDS
  {
    var lines := LinesOf(a.script);
    && |s.clients| < MAX_CLIENTS && j < |lines|
    && Registers(w, s.slots, lines, |s.requests|, j) && Reached(w, s.slots, lines, |s.requests|, j)
    && !(Blocks(a.script) && Reached(w, s.slots, lines, |s.requests|, |lines|))
  }

  /** The tickets that the arrival strands. */
  function Strays(w: World, s: State, a: Arrival): set<nat>
    requires |s.slots| == NUM_KINDS
  {
    set j: nat | j < |LinesOf(a.script)| && LeavesOrphan(w, s, a, j) :: |s.requests| + j
  }

  // ---- following the lines -------------------------------------------------------------

  /** Whether the connection survives the lines, and which tickets hold which slots then. */
  datatype Fate = Fate(kept: bool, taken: map<Kind, nat>)

  function Follow(w: World, slots: seq<Slot>, lines: seq<Line>, first: nat): Fate
    requires |slots| == NUM_KINDS
  {
    if lines == [] then Fate(true, map[])
    else
      var n := |lines| - 1;
      var f := Follow(w, slots, lines[..n], first);
      if !f.kept then f else Advance(w, slots, f, lines[n], first + n)
  }

  function Advance(w: World, slots: seq<Slot>, f: Fate, line: Line, t: nat): Fate
    requires |slots| == NUM_KINDS
  {
    var k := Defers(w, line, t);
    if k.Some? && slots[k.value].state == Empty && k.value !in f.taken then f.(taken := f.taken[k.value := t])
    else f.(kept := w.env(t).delivered)
  }

  /** Line j is reached and takes slot k. */
  predicate Takes(w: World, slots: seq<Slot>, lines: seq<Line>, first: nat, j: nat, k: Kind)
    requires |slots| == NUM_KINDS
  {
    && j < |lines| && Registers(w, slots, lines, first, j) && Reached(w, slots, lines, first, j)
    && Defers(w, lines[j], first + j) == Some(k)
  }

  ghost predicate Describes(w: World, slots: seq<Slot>, lines: seq<Line>, first: nat, f: Fate)
    requires |slots| == NUM_KINDS
  {
    && (f.kept <==> Reached(w, slots, lines, first, |lines|))
    && (forall j: nat, k: Kind :: Takes(w, slots, lines, first, j, k) ==> k in f.taken && f.taken[k] == first + j)
    && (forall k: Kind :: k in f.taken ==> f.taken[k] >= first && Takes(w, slots, lines, first, f.taken[k] - first, k))
  }

  /** A line counts the same with and without the lines behind it. */
  lemma PrefixCounts(w: World, slots: seq<Slot>, lines: seq<Line>, first: nat)
    requires |slots| == NUM_KINDS && lines != []
    ensures var pre := lines[..|lines| - 1];
      && (forall j :: 0 <= j < |pre| ==> Registers(w, slots, lines, first, j) == Registers(w, slots, pre, first, j))
      && (forall j :: 0 <= j < |pre| ==> Stops(w, slots, lines, first, j) == Stops(w, slots, pre, first, j))
      && (forall j :: 0 <= j <= |pre| ==> Reached(w, slots, lines, first, j) == Reached(w, slots, pre, first, j))
  {
    var pre := lines[..|lines| - 1];
    forall j | 0 <= j < |pre| ensures Registers(w, slots, lines, first, j) == Registers(w, slots, pre, first, j) {
      assert forall i :: 0 <= i <= j ==> lines[i] == pre[i];
      hide Defers;
    }
    hide Registers;
  }

  /** The first line of a free type registers. */
  lemma {:induction false} FirstOfKind(w: World, slots: seq<Slot>, lines: seq<Line>, first: nat, k: Kind, i: nat)
    returns (j: nat)
    requires |slots| == NUM_KINDS && slots[k].state == Empty
    requires i < |lines| && Defers(w, lines[i], first + i) == Some(k)
    ensures j <= i && Registers(w, slots, lines, first, j) && Defers(w, lines[j], first + j) == Some(k)
    decreases i
  {
    hide Defers;
    j := i;
    if m :| 0 <= m < i && Defers(w, lines[m], first + m) == Some(k) {
      j := FirstOfKind(w, slots, lines, first, k, m);
    }
  }

  /** With every line before it reached, the last line registers when its type is not taken. */
  lemma LastRegisters(w: World, slots: seq<Slot>, lines: seq<Line>, first: nat, f: Fate)
    requires |slots| == NUM_KINDS && lines != []
    requires Describes(w, slots, lines[..|lines| - 1], first, f) && f.kept
    ensures var n := |lines| - 1; var k := Defers(w, lines[n], first + n);
      Registers(w, slots, lines, first, n) <==> k.Some? && slots[k.value].state == Empty && k.value !in f.taken
  {
    var n := |lines| - 1;
    var pre := lines[..n];
    var k := Defers(w, lines[n], first + n);
    assert forall j :: 0 <= j < n ==> pre[j] == lines[j];
    hide Defers;
    if k.Some? && slots[k.value].state == Empty {
      if i :| 0 <= i < n && Defers(w, lines[i], first + i) == k {
        var j := FirstOfKind(w, slots, pre, first, k.value, i);
        assert Takes(w, slots, pre, first, j, k.value);
      }
    }
  }

  lemma {:induction false} FollowDescribes(w: World, slots: seq<Slot>, lines: seq<Line>, first: nat)
    requires |slots| == NUM_KINDS
    ensures Describes(w, slots, lines, first, Follow(w, slots, lines, first))
  {
    if lines != [] {
      var n := |lines| - 1;
      var f := Follow(w, slots, lines[..n], first);
      FollowDescribes(w, slots, lines[..n], first);
      if f.kept { LastRegisters(w, slots, lines, first, f); }
      StepDescribes(w, slots, lines, first, f);
    }
  }

  /** The last line is reached and takes slot k. */
  predicate LastTakes(w: World, slots: seq<Slot>, lines: seq<Line>, first: nat, k: Kind)
    requires |slots| == NUM_KINDS && lines != []
  {
    var n := |lines| - 1;
    && Reached(w, slots, lines[..n], first, n) && Registers(w, slots, lines, first, n)
    && Defers(w, lines[n], first + n) == Some(k)
  }

  lemma OneMoreLine(w: World, slots: seq<Slot>, lines: seq<Line>, first: nat)
    requires |slots| == NUM_KINDS && lines != []
    ensures var n := |lines| - 1; forall j: nat, k: Kind ::
      Takes(w, slots, lines, first, j, k) <==>
        Takes(w, slots, lines[..n], first, j, k) || (j == n && LastTakes(w, slots, lines, first, k))
  {
    PrefixCounts(w, slots, lines, first);
    var n := |lines| - 1;
    assert forall j :: 0 <= j < n ==> lines[j] == lines[..n][j];
    hide Defers, Registers, Reached;
  }

  lemma ReachedStep(w: World, slots: seq<Slot>, lines: seq<Line>, first: nat)
    requires |slots| == NUM_KINDS && lines != []
    ensures var n := |lines| - 1;
      Reached(w, slots, lines, first, n + 1) <==>
        Reached(w, slots, lines[..n], first, n) && !Stops(w, slots, lines, first, n)
  {
    PrefixCounts(w, slots, lines, first);
    hide Stops;
  }

  lemma StepDescribes(w: World, slots: seq<Slot>, lines: seq<Line>, first: nat, f: Fate)
    requires |slots| == NUM_KINDS && lines != []
    requires Describes(w, slots, lines[..|lines| - 1], first, f)
    requires f.kept ==> (var n := |lines| - 1; var k := Defers(w, lines[n], first + n);
      Registers(w, slots, lines, first, n) <==> k.Some? && slots[k.value].state == Empty && k.value !in f.taken)
    ensures var n := |lines| - 1;
      Describes(w, slots, lines, first, if f.kept then Advance(w, slots, f, lines[n], first + n) else f)
  {
    hide Defers, Registers, Takes, Reached;
    ReachedStep(w, slots, lines, first);
    OneMoreLine(w, slots, lines, first);
  }

  // ---- the server follows the lines -------------------------------------------------------

  /** The same slots are occupied, by the same requests. */
  predicate SameOccupied(a: seq<Slot>, b: seq<Slot>) {
    && |a| == |b|
    && forall k :: 0 <= k < |a| ==>
         && (a[k].state == Empty <==> b[k].state == Empty)
         && (a[k].state != Empty ==> a[k].ticket == b[k].ticket)
  }

  function Occupy(slots: seq<Slot>, k: Kind, t: nat): seq<Slot>
    requires |slots| == NUM_KINDS
  {
    slots[k := slots[k].(state := Pending, ticket := t)]
  }

  lemma CompletionsOccupyNothing(w: World, slots: seq<Slot>, cs: seq<Completion>)
    requires |slots| == NUM_KINDS
    ensures SameOccupied(slots, Interfere(w, slots, cs))
  {
    InterfereKeepsHolders(w, slots, cs);
  }

  lemma ParsedFate(w: World, s: State, i: nat, t: nat, id: int, name: string, options: Option<string>)
    requires i < |s.clients| && |s.slots| == NUM_KINDS
    ensures var r := OnParsed(w, s, i, t, id, name, options);
      var k := if Handle(name, options, w.env(t)).ok then DeferredKind(name) else None;
      if k.Some? && s.slots[k.value].state == Empty then r.1 && SameOccupied(Occupy(s.slots, k.value, t), r.0.slots)
      else r.1 == w.env(t).delivered && SameOccupied(s.slots, r.0.slots)
  {
    hide SameOccupied, Occupy, Interfere, DeferredKind, Handle;
    SameAsItself(s.slots);
    match DeferredKind(name)
    case None =>
    case Some(k) =>
      if s.slots[k].state == Empty {
        HandledFate(w, s.slots, k, Slot(Pending, s.clients[i].pipe, id, false, None, t), w.env(t).during);
      }
  }

  lemma SameAsItself(slots: seq<Slot>)
    ensures SameOccupied(slots, slots)
  {
  }

  /** The slot while its handler runs, and after it was given up again. */
  lemma HandledFate(w: World, slots: seq<Slot>, k: Kind, slot: Slot, cs: seq<Completion>)
    requires |slots| == NUM_KINDS && slots[k].state == Empty && slot.state != Empty
    ensures var r := Interfere(w, slots[k := slot], cs);
      SameOccupied(Occupy(slots, k, slot.ticket), r) && SameOccupied(slots, r[k := r[k].(state := Empty)])
  {
    CompletionsOccupyNothing(w, slots[k := slot], cs);
    hide Interfere;
  }

  /** What one request does to the slots and to its connection. */
  lemma RequestFate(w: World, s: State, i: nat)
    requires i < |s.clients| && |s.slots| == NUM_KINDS
    ensures var r := OnRequest(w, s, i); var c := s.clients[i]; var t := |s.requests|;
      var k := Defers(w, if c.tooLarge then TooLarge else Whole(c.request), t);
      if k.Some? && s.slots[k.value].state == Empty then r.1 && SameOccupied(Occupy(s.slots, k.value, t), r.0.slots)
      else r.1 == w.env(t).delivered && SameOccupied(s.slots, r.0.slots)
  {
    hide Interfere, OnParsed, DeferredKind, Handle, OnlyWhitespace;
    var c := s.clients[i];
    var t := |s.requests|;
    var line := if c.tooLarge then TooLarge else Whole(c.request);
    var s1 := Land(w, s.(requests := s.requests + [NewRequest(w, s, i)]), w.env(t).before);
    CompletionsOccupyNothing(w, s.slots, w.env(t).before);
    if !c.tooLarge && !OnlyWhitespace(c.request) && w.parse(c.request).Parsed? {
      var p := w.parse(c.request);
      ParsedFate(w, s1, i, t, p.id, p.name, p.options);
      var k := Defers(w, line, t);
      var r := OnParsed(w, s1, i, t, p.id, p.name, p.options);
      if k.Some? { OccupyBoth(s.slots, s1.slots, k.value, t, r.0.slots); }
      OccupiedAlike(s.slots, s1.slots, r.0.slots);
    }
  }

  lemma OccupiedAlike(a: seq<Slot>, b: seq<Slot>, c: seq<Slot>)
    requires SameOccupied(a, b)
    ensures SameOccupied(b, c) ==> SameOccupied(a, c)
  {
  }

  lemma OccupyBoth(a: seq<Slot>, b: seq<Slot>, k: Kind, t: nat, c: seq<Slot>)
    requires |a| == NUM_KINDS && SameOccupied(a, b)
    ensures a[k].state == Empty <==> b[k].state == Empty
    ensures SameOccupied(Occupy(b, k, t), c) ==> SameOccupied(Occupy(a, k, t), c)
  {
  }

  /** The slots after the lines, compared with the slots before them. */
  predicate Follows(before: seq<Slot>, after: seq<Slot>, f: Fate) {
    && |before| == |after| == NUM_KINDS
    && forall k: Kind ::
         && (after[k].state != Empty <==> before[k].state != Empty || k in f.taken)
         && (k in f.taken ==> before[k].state == Empty && after[k].ticket == f.taken[k])
         && (before[k].state != Empty ==> after[k].ticket == before[k].ticket)
  }

  /** One request more, in terms of the slots it meets. */
  lemma AdvanceFollows(w: World, before: seq<Slot>, slots: seq<Slot>, after: seq<Slot>, f: Fate, line: Line, t: nat,
      kept: bool)
    requires |before| == NUM_KINDS && Follows(before, slots, f) && f.kept
    requires var k := Defers(w, line, t);
      if k.Some? && slots[k.value].state == Empty then kept && SameOccupied(Occupy(slots, k.value, t), after)
      else kept == w.env(t).delivered && SameOccupied(slots, after)
    ensures var g := Advance(w, before, f, line, t); kept == g.kept && Follows(before, after, g)
  {
    hide Defers;
  }

  /** The state in which the bytes so far have been consumed by a connection that is still there. */
  predicate Consumed(s: State, r: State, i: nat, bytes: string)
    requires i < |s.clients|
  {
    && |r.slots| == NUM_KINDS && |r.clients| == |s.clients|
    && r.clients[i].received == bytes && Buffered(r.clients[i]) && r.clients[i].serial == s.clients[i].serial
    && |r.requests| == |s.requests| + |Lines(bytes)|
  }

  /** Requests are only added, and only for this connection. */
  predicate Belong(s: State, r: State, serial: nat) {
    && |s.requests| <= |r.requests| && r.requests[..|s.requests|] == s.requests
    && forall t :: |s.requests| <= t < |r.requests| ==> r.requests[t].serial == serial
  }

  predicate BytesFollowed(w: World, s: State, i: nat, bytes: string)
    requires i < |s.clients| && |s.slots| == NUM_KINDS
  {
    var r := OnBytes(w, s, i, bytes);
    var f := Follow(w, s.slots, CutAll(Lines(bytes)), |s.requests|);
    && r.1 == f.kept && Follows(s.slots, r.0.slots, f) && Belong(s, r.0, s.clients[i].serial)
    && (r.1 ==> Consumed(s, r.0, i, bytes))
  }

  lemma OneByte(w: World, s: State, i: nat, b: char)
    requires i < |s.clients| && |s.slots| == NUM_KINDS
    ensures OnBytes(w, s, i, [b]) == OnByte(w, s, i, b)
  {
    OnRequestShape(w, s, i);
    assert [b][1..] == [];
    var r := OnByte(w, s, i, b);
    assert OnBytes(w, s, i, [b]) == if !r.1 then r else OnBytes(w, r.0, i, []);
  }

  lemma ByteStored(s: State, m: State, i: nat, pre: string, b: char)
    requires i < |s.clients| && Consumed(s, m, i, pre) && b != '\n'
    ensures Consumed(s, m.(clients := m.clients[i := Store(m.clients[i], b)]), i, pre + [b])
    ensures Lines(pre + [b]) == Lines(pre)
  {
    assert (pre + [b])[..|pre|] == pre;
  }

  lemma LineCompleted(pre: string)
    ensures Lines(pre + ['\n']) == Lines(pre) + [Unfinished(pre)]
    ensures CutAll(Lines(pre + ['\n'])) == CutAll(Lines(pre)) + [Cut(Unfinished(pre))]
    ensures CutAll(Lines(pre + ['\n']))[..|Lines(pre)|] == CutAll(Lines(pre))
    ensures Unfinished(pre + ['\n']) == []
  {
    assert (pre + ['\n'])[..|pre|] == pre;
  }

  lemma RestartBuffered(c: Client)
    ensures Buffered(Restart(c))
  {
    LineCompleted(c.received);
  }

  /** The fate of the lines when a newline completes one more. */
  lemma NewlineFate(w: World, slots: seq<Slot>, pre: string, first: nat)
    requires |slots| == NUM_KINDS
    ensures var f := Follow(w, slots, CutAll(Lines(pre)), first); var t := first + |Lines(pre)|;
      f.kept ==> Follow(w, slots, CutAll(Lines(pre + ['\n'])), first) == Advance(w, slots, f, Cut(Unfinished(pre)), t)
  {
    LineCompleted(pre);
    hide Lines, Unfinished, Advance, Cut;
  }

  lemma NewlineConsumed(w: World, s: State, m: State, i: nat, pre: string)
    requires i < |s.clients| && Consumed(s, m, i, pre) && Belong(s, m, s.clients[i].serial)
    ensures var r := OnByte(w, m, i, '\n').0;
      Consumed(s, r, i, pre + ['\n']) && Belong(s, r, s.clients[i].serial)
  {
    hide OnRequest, Buffered, Lines, Unfinished, CutAll;
    OnRequestShape(w, m, i);
    LineCompleted(pre);
    RestartBuffered(m.clients[i]);
  }

  lemma BufferedLine(c: Client)
    requires Buffered(c)
    ensures Cut(Unfinished(c.received)) == if c.tooLarge then TooLarge else Whole(c.request)
  {
  }

  lemma NewlineFollowed(w: World, s: State, m: State, i: nat, pre: string, f: Fate)
    requires i < |s.clients| && |s.slots| == NUM_KINDS
    requires Consumed(s, m, i, pre) && Follows(s.slots, m.slots, f) && f.kept
    requires f == Follow(w, s.slots, CutAll(Lines(pre)), |s.requests|)
    ensures var r := OnByte(w, m, i, '\n'); var g := Follow(w, s.slots, CutAll(Lines(pre + ['\n'])), |s.requests|);
      r.1 == g.kept && Follows(s.slots, r.0.slots, g)
  {
    hide OnRequest, Lines, CutAll, Defers, SameOccupied, Follows, Occupy, Advance, Follow, Buffered, Cut, Unfinished;
    NewlineFate(w, s.slots, pre, |s.requests|);
    RequestFate(w, m, i);
    OnRequestShape(w, m, i);
    var c := m.clients[i];
    var line := if c.tooLarge then TooLarge else Whole(c.request);
    BufferedLine(c);
    var r := OnRequest(w, m, i);
    AdvanceFollows(w, s.slots, m.slots, r.0.slots, f, line, |m.requests|, r.1);
  }

  lemma NothingFollowed(w: World, s: State, i: nat)
    requires i < |s.clients| && |s.slots| == NUM_KINDS
    requires var c := s.clients[i]; c.request == [] && !c.tooLarge && c.received == []
    ensures BytesFollowed(w, s, i, [])
  {
    assert CutAll(Lines([])) == [];
  }

  lemma {:induction false} BytesFollow(w: World, s: State, i: nat, bytes: string)
    requires i < |s.clients| && |s.slots| == NUM_KINDS
    requires var c := s.clients[i]; c.request == [] && !c.tooLarge && c.received == []
    ensures BytesFollowed(w, s, i, bytes)
    decreases |bytes|
  {
    if bytes == [] {
      NothingFollowed(w, s, i);
    } else {
      var n := |bytes| - 1;
      BytesFollow(w, s, i, bytes[..n]);
      OneMoreByte(w, s, i, bytes[..n], bytes[n]);
      assert bytes[..n] + [bytes[n]] == bytes;
    }
  }

  lemma OneMoreByte(w: World, s: State, i: nat, pre: string, b: char)
    requires i < |s.clients| && |s.slots| == NUM_KINDS && BytesFollowed(w, s, i, pre)
    ensures BytesFollowed(w, s, i, pre + [b])
  {
    var m := OnBytes(w, s, i, pre);
    var f := Follow(w, s.slots, CutAll(Lines(pre)), |s.requests|);
    ChunksConcatenate(w, s, i, pre, [b]);
    if m.1 {
      OneByte(w, m.0, i, b);
      if b == '\n' {
        NewlineFollowed(w, s, m.0, i, pre, f);
        NewlineConsumed(w, s, m.0, i, pre);
      } else {
        ByteStored(s, m.0, i, pre, b);
      }
    } else {
      StoppedStays(w, s.slots, pre, b, |s.requests|);
    }
    hide OnBytes, Follow, Follows, Lines, CutAll, Consumed, OnRequest;
  }

  /** After the connection has ended, further bytes do not matter. */
  lemma StoppedStays(w: World, slots: seq<Slot>, pre: string, b: char, first: nat)
    requires |slots| == NUM_KINDS
    ensures var f := Follow(w, slots, CutAll(Lines(pre)), first);
      !f.kept ==> Follow(w, slots, CutAll(Lines(pre + [b])), first) == f
  {
    assert (pre + [b])[..|pre|] == pre;
    if b == '\n' { LineCompleted(pre); }
    hide Unfinished, Advance;
  }

  // ---- accepting a client ---------------------------------------------------------------

  /** A chain of reads is one read of its whole text. */
  lemma {:induction false} ReadIsItsText(w: World, s: State, i: nat, script: ReadScript)
    requires i < |s.clients| && |s.slots| == NUM_KINDS
    ensures var r := StartRead(w, s, i, script); var o := OnBytes(w, s, i, TextOf(script));
      && r.0.slots == o.0.slots && r.0.requests == o.0.requests
      && (r.1 == Armed <==> o.1 && Blocks(script))
    decreases script
  {
    if script.Ready? && script.bytes != [] {
      ChunksConcatenate(w, s, i, script.bytes, TextOf(script.rest));
      var m := OnBytes(w, s, i, script.bytes);
      hide OnBytes;
      if m.1 { ReadIsItsText(w, m.0, i, script.rest); }
    }
  }

  /** After the first read: the slots follow the lines, and the connection is kept exactly when
      no line stops it and the last read stays pending. */
  lemma FirstReadFollows(w: World, s: State, a: Arrival)
    requires |s.slots| == NUM_KINDS
    ensures var r := StartRead(w, Prepared(s, a), |s.clients|, a.script);
      var f := Follow(w, s.slots, LinesOf(a.script), |s.requests|);
      && (r.1 == Armed <==> f.kept && Blocks(a.script))
      && Follows(s.slots, r.0.slots, f) && Belong(s, r.0, s.nextSerial)
  {
    ReadIsItsText(w, Prepared(s, a), |s.clients|, a.script);
    BytesFollow(w, Prepared(s, a), |s.clients|, TextOf(a.script));
    hide OnBytes, StartRead, Follow, Follows;
  }

  /** What is held for the new connection after its first read. */
  lemma HeldAreTaken(before: State, after: State, f: Fate, serial: nat)
    requires Follows(before.slots, after.slots, f) && Belong(before, after, serial)
    requires forall t :: 0 <= t < |before.requests| ==> before.requests[t].serial != serial
    requires forall k: Kind :: before.slots[k].state != Empty ==> before.slots[k].ticket < |before.requests|
    requires forall k: Kind :: after.slots[k].state != Empty ==> after.slots[k].ticket < |after.requests|
    requires forall k: Kind :: k in f.taken ==> |before.requests| <= f.taken[k]
    ensures HeldFor(after, serial) == f.taken.Values
  {
    assert forall t :: 0 <= t < |before.requests| ==> after.requests[t] == before.requests[t];
    forall t | t in f.taken.Values ensures t in HeldFor(after, serial) {
      var k: Kind :| k in f.taken && f.taken[k] == t;
      assert after.slots[k].ticket == t;
    }
  }

  /** ipc_add_client strands exactly the requests that the arrival says: those whose line takes
      a free slot in a first read that ends. */
  lemma AcceptOrphansExactly(w: World, s: State, a: Arrival)
    requires Inv(w, s) && Fresh(s, a)
    ensures Accept(w, s, a).orphans == s.orphans + Strays(w, s, a)
    ensures Inv(w, Accept(w, s, a))
  {
    AcceptKeeps(w, s, a);
    if |s.clients| < MAX_CLIENTS {
      var lines := LinesOf(a.script);
      var f := Follow(w, s.slots, lines, |s.requests|);
      FirstReadFollows(w, s, a);
      FollowDescribes(w, s.slots, lines, |s.requests|);
      var r := StartRead(w, Prepared(s, a), |s.clients|, a.script);
      PreparedKeeps(w, s, a);
      var owed := StartReadKeeps(w, Prepared(s, a), |s.clients|, a.script);
      TicketsInRange(w, s, {});
      TicketsInRange(w, r.0, owed);
      hide InvOwing, Follow, Follows, StartRead, LinesOf, Belong;
      HeldAreTaken(s, r.0, f, s.nextSerial);
      TakenLines(w, s, a, f);
    }
  }

  lemma TicketsInRange(w: World, s: State, owed: set<nat>)
    requires InvOwing(w, s, owed)
    ensures forall k: Kind :: s.slots[k].state != Empty ==> s.slots[k].ticket < |s.requests|
    ensures forall t :: 0 <= t < |s.requests| ==> s.requests[t].serial < s.nextSerial
  {
    forall k: Kind | s.slots[k].state != Empty ensures s.slots[k].ticket < |s.requests| {
      assert OwnedSlot(w, s, s.slots[k]);
    }
  }

  /** A line leaves an orphan when it takes a slot and the connection ends. */
  lemma OrphanTakes(w: World, s: State, a: Arrival, j: nat)
    requires |s.slots| == NUM_KINDS && |s.clients| < MAX_CLIENTS
    ensures var lines := LinesOf(a.script);
      LeavesOrphan(w, s, a, j) <==>
        && !(Blocks(a.script) && Reached(w, s.slots, lines, |s.requests|, |lines|))
        && exists k: Kind :: Takes(w, s.slots, lines, |s.requests|, j, k)
  {
    var lines := LinesOf(a.script);
    hide LinesOf, Defers, Reached;
    if LeavesOrphan(w, s, a, j) {
      assert Takes(w, s.slots, lines, |s.requests|, j, Defers(w, lines[j], |s.requests| + j).value);
    }
  }

  lemma StrayIs(w: World, s: State, a: Arrival, j: nat)
    requires |s.slots| == NUM_KINDS
    ensures |s.requests| + j in Strays(w, s, a) <==> LeavesOrphan(w, s, a, j)
    ensures forall t :: t in Strays(w, s, a) ==> t >= |s.requests|
  {
    hide LinesOf, Registers, Reached;
    if LeavesOrphan(w, s, a, j) { assert j < |LinesOf(a.script)|; }
  }

  lemma TakenIs(w: World, slots: seq<Slot>, lines: seq<Line>, first: nat, f: Fate, j: nat)
    requires |slots| == NUM_KINDS && Describes(w, slots, lines, first, f)
    ensures first + j in f.taken.Values <==> exists k: Kind :: Takes(w, slots, lines, first, j, k)
    ensures forall t :: t in f.taken.Values ==> t >= first
  {
    hide Takes, Reached;
    if k: Kind :| Takes(w, slots, lines, first, j, k) { assert f.taken[k] == first + j; }
  }

  lemma TakenLine(w: World, s: State, a: Arrival, f: Fate, t: nat)
    requires |s.slots| == NUM_KINDS && |s.clients| < MAX_CLIENTS
    requires Describes(w, s.slots, LinesOf(a.script), |s.requests|, f)
    ensures t in Strays(w, s, a) <==> t in f.taken.Values && !(f.kept && Blocks(a.script))
  {
    hide LinesOf, LeavesOrphan, Reached, Takes, Strays, Blocks, Describes;
    var lines := LinesOf(a.script);
    KeptIs(w, s.slots, lines, |s.requests|, f);
    var j: nat := if t >= |s.requests| then t - |s.requests| else 0;
    StrayIs(w, s, a, j);
    TakenIs(w, s.slots, lines, |s.requests|, f, j);
    OrphanTakes(w, s, a, j);
  }

  lemma KeptIs(w: World, slots: seq<Slot>, lines: seq<Line>, first: nat, f: Fate)
    requires |slots| == NUM_KINDS && Describes(w, slots, lines, first, f)
    ensures f.kept <==> Reached(w, slots, lines, first, |lines|)
  {
  }

  lemma TakenLines(w: World, s: State, a: Arrival, f: Fate)
    requires |s.slots| == NUM_KINDS && |s.clients| < MAX_CLIENTS
    requires Describes(w, s.slots, LinesOf(a.script), |s.requests|, f)
    ensures Strays(w, s, a) == if f.kept && Blocks(a.script) then {} else f.taken.Values
  {
    hide LinesOf, Strays, Describes, Blocks;
    forall t: nat ensures t in Strays(w, s, a) <==> t in f.taken.Values && !(f.kept && Blocks(a.script)) {
      TakenLine(w, s, a, f, t);
    }
  }
}
