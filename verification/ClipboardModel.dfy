/** Incremental clipboard transfers (ui/src/ClipboardFile.cpp, ICCCM section 2.7.2): many
    requestors are served from one file descriptor with one cursor. */
module ClipboardModel {
  import opened Options

  type Window = int
  type Atom = int

  const CHUNK: nat := 65536

  datatype Target = TargetList | Image(atom: Atom) | Unknown(atom: Atom)

  /** One entry of clipboard_copies. */
  datatype Copy = Copy(requestor: Window, offset: nat, property: Atom, target: Target)

  /** What a requestor has been sent since its transfer started; `intact` is false once an I/O
      error threw the transfer back after data had been sent. */
  datatype Sent = Sent(chunks: seq<string>, intact: bool)

  /** A transfer that reached its empty chunk. */
  datatype Done = Done(requestor: Window, file: string, sent: Sent)

  /** `file` is what the open descriptor refers to. `running` is whether the event thread is
      still alive. `sent` and `done` are bookkeeping. */
  datatype State = State(file: Option<string>, cursor: nat, copies: seq<Copy>, running: bool,
                         sent: map<Window, Sent>, done: seq<Done>)

  /** How one lseek and read turn out; a read moves at most `limit` bytes. */
  datatype Io = SeekFails | ReadFails | Reads(limit: nat)

  datatype Event =
    | SetFile(file: Option<string>)
    | Request(requestor: Window, ourSelection: bool, target: Target, property: Atom)
    | PropertyDelete(window: Window, atom: Atom, io: Io)

  function Concat(chunks: seq<string>): string {
    if chunks == [] then [] else Concat(chunks[..|chunks| - 1]) + chunks[|chunks| - 1]
  }

  function FindCopy(copies: seq<Copy>, requestor: Window): (i: int)
    ensures i == -1 || (0 <= i < |copies| && copies[i].requestor == requestor)
    ensures forall j :: 0 <= j < (if i == -1 then |copies| else i) ==> copies[j].requestor != requestor
  {
    if copies == [] then -1
    else if copies[0].requestor == requestor then 0
    else
      var i := FindCopy(copies[1..], requestor);
      assert forall j :: 1 <= j < |copies| ==> copies[j] == copies[1..][j - 1];
      if i == -1 then -1 else i + 1
  }

  /** send_clipboard_start: an image request starts the requestor's transfer over. */
  function Start(s: State, requestor: Window, ourSelection: bool, target: Target, property: Atom): State {
    if s.file.None? || !ourSelection || !target.Image? then s
    else
      var entry := Copy(requestor, 0, property, target);
      var i := FindCopy(s.copies, requestor);
      s.(copies := if i == -1 then s.copies + [entry] else s.copies[i := entry],
         sent := s.sent[requestor := Sent([], true)])
  }

  function Rewind(s: State, i: nat): State
    requires i < |s.copies|
  {
    var c := s.copies[i];
    s.(copies := s.copies[i := c.(offset := 0)],
       sent := if c.requestor in s.sent && c.offset > 0
               then s.sent[c.requestor := s.sent[c.requestor].(intact := false)]
               else s.sent)
  }

  /** How many bytes a read at `offset` returns: none only at the end of the file. */
  function ReadSize(file: string, offset: nat, limit: nat): nat {
    var left := if offset < |file| then |file| - offset else 0;
    var want := if limit == 0 then 1 else if limit > CHUNK then CHUNK else limit;
    if left < want then left else want
  }

  function Append(sent: map<Window, Sent>, requestor: Window, chunk: string): map<Window, Sent> {
    var before := if requestor in sent then sent[requestor] else Sent([], true);
    sent[requestor := before.(chunks := before.chunks + [chunk])]
  }

  /** transfer_clipboard_data for entry i. */
  function Transfer(s: State, i: nat, io: Io): State
    requires i < |s.copies|
  {
    match s.file
    case None => s
    case Some(file) =>
      match io
      case SeekFails => Rewind(s, i)
      case ReadFails => Rewind(s.(cursor := s.copies[i].offset), i)
      case Reads(limit) =>
        var c := s.copies[i];
        var n := ReadSize(file, c.offset, limit);
        var chunk := if n == 0 then [] else file[c.offset..c.offset + n];
        var sent := Append(s.sent, c.requestor, chunk);
        var s1 := s.(cursor := c.offset + n, sent := sent);
        if n == 0 then
          var finished := Done(c.requestor, file, sent[c.requestor]);
          s1.(copies := s.copies[..i] + s.copies[i + 1..], done := s.done + [finished])
        else s1.(copies := s.copies[i := c.(offset := c.offset + n)])
  }

  /** The event loop; a property event that matches no entry ends the thread, after which no
      event is handled any more. set_current_file is called from other threads. */
  function Step(s: State, e: Event): State {
    match e
    case SetFile(file) => s.(file := file, cursor := 0, copies := [], sent := map[])
    case Request(requestor, ours, target, property) =>
      if s.running then Start(s, requestor, ours, target, property) else s
    case PropertyDelete(window, atom, io) =>
      if !s.running then s
      else
        var i := FindCopy(s.copies, window);
        if i == -1 || s.copies[i].property != atom then s.(running := false) else Transfer(s, i, io)
  }

  function Run(s: State, events: seq<Event>): State
    decreases |events|
  {
    if events == [] then s else Run(Step(s, events[0]), events[1..])
  }

  function Initial(): State { State(None, 0, [], true, map[], []) }

  // ---- the invariant ------------------------------------------------------------------------

  predicate NonEmptyChunks(chunks: seq<string>) { forall j :: 0 <= j < |chunks| ==> 0 < |chunks[j]| <= 65536 }

  /** The chunks so far are exactly the file up to the offset. */
  predicate OnTrack(file: string, offset: nat, sent: Sent) {
    offset <= |file| && Concat(sent.chunks) == file[..offset] && NonEmptyChunks(sent.chunks)
  }

  predicate Whole(d: Done) {
    && |d.sent.chunks| > 0 && d.sent.chunks[|d.sent.chunks| - 1] == []
    && NonEmptyChunks(d.sent.chunks[..|d.sent.chunks| - 1])
    && Concat(d.sent.chunks) == d.file
  }

  predicate DistinctRequestors(copies: seq<Copy>) {
    forall i, j :: 0 <= i < j < |copies| ==> copies[i].requestor != copies[j].requestor
  }

  /** An intact transfer is on track; one that was thrown back has been sent more than the file up
      to its offset, and stays ahead of it. */
  predicate Served(file: string, offset: nat, sent: Sent) {
    if sent.intact then OnTrack(file, offset, sent) else offset <= |file| && |Concat(sent.chunks)| > offset
  }

  /** A finished transfer sent the whole file when it was intact, and too much when it was not. */
  predicate Recorded(d: Done) {
    if d.sent.intact then Whole(d) else |Concat(d.sent.chunks)| > |d.file|
  }

  predicate Inv(s: State) {
    && DistinctRequestors(s.copies)
    && (s.file.None? ==> s.copies == [])
    && (forall i :: 0 <= i < |s.copies| ==>
         && s.copies[i].requestor in s.sent
         && Served(s.file.value, s.copies[i].offset, s.sent[s.copies[i].requestor]))
    && (forall j :: 0 <= j < |s.done| ==> Recorded(s.done[j]))
  }

  lemma ConcatSnoc(chunks: seq<string>, chunk: string)
    ensures Concat(chunks + [chunk]) == Concat(chunks) + chunk
  {
  }

  /** One more chunk of the file keeps a transfer served. */
  lemma ChunkServes(file: string, offset: nat, sent: Sent, limit: nat)
    requires Served(file, offset, sent)
    ensures var n := ReadSize(file, offset, limit);
      && n <= CHUNK && offset + n <= |file| && (n == 0 <==> offset == |file|)
      && (n > 0 ==> Served(file, offset + n, sent.(chunks := sent.chunks + [file[offset..offset + n]])))
  {
    var n := ReadSize(file, offset, limit);
    if n > 0 {
      ConcatSnoc(sent.chunks, file[offset..offset + n]);
      assert file[..offset] + file[offset..offset + n] == file[..offset + n];
    }
  }

  /** The empty chunk finishes a transfer. */
  lemma EndIsRecorded(file: string, requestor: Window, sent: Sent)
    requires Served(file, |file|, sent)
    ensures Recorded(Done(requestor, file, sent.(chunks := sent.chunks + [[]])))
  {
    ConcatSnoc(sent.chunks, []);
    assert (sent.chunks + [[]])[..|sent.chunks|] == sent.chunks;
    assert file[..|file|] == file;
  }

  /** An I/O error keeps a transfer served: it is spoilt exactly when something had been read. */
  lemma ErrorServes(file: string, offset: nat, sent: Sent)
    requires Served(file, offset, sent)
    ensures Served(file, 0, if offset > 0 then sent.(intact := false) else sent)
  {
    assert offset > 0 ==> |Concat(sent.chunks)| > 0;
  }

  lemma StartKeeps(s: State, requestor: Window, ours: bool, target: Target, property: Atom)
    requires Inv(s)
    ensures Inv(Start(s, requestor, ours, target, property))
  {
    if s.file.Some? && ours && target.Image? {
      var r := Start(s, requestor, ours, target, property);
      assert Served(s.file.value, 0, Sent([], true));
      hide Served, Recorded;
      forall j | 0 <= j < |r.copies|
        ensures r.copies[j].requestor in r.sent
        ensures Served(r.file.value, r.copies[j].offset, r.sent[r.copies[j].requestor])
      {
        if r.copies[j].requestor != requestor { assert r.copies[j] == s.copies[j]; }
      }
    }
  }

  lemma RewindKeeps(s: State, i: nat)
    requires Inv(s) && i < |s.copies|
    ensures Inv(Rewind(s, i))
  {
    ErrorServes(s.file.value, s.copies[i].offset, s.sent[s.copies[i].requestor]);
    hide Served, Recorded;
  }

  lemma MoveKeeps(s: State, i: nat, limit: nat)
    requires Inv(s) && i < |s.copies|
    ensures Inv(Transfer(s, i, Reads(limit)))
  {
    var file, c := s.file.value, s.copies[i];
    ChunkServes(file, c.offset, s.sent[c.requestor], limit);
    hide Served, Recorded;
    if ReadSize(file, c.offset, limit) == 0 {
      FinishKeeps(s, i, limit);
    } else {
      var r := Transfer(s, i, Reads(limit));
      forall j | 0 <= j < |r.copies|
        ensures r.copies[j].requestor in r.sent
        ensures Served(r.file.value, r.copies[j].offset, r.sent[r.copies[j].requestor])
      {
        if j != i { assert r.copies[j] == s.copies[j]; }
      }
    }
  }

  lemma FinishKeeps(s: State, i: nat, limit: nat)
    requires Inv(s) && i < |s.copies| && ReadSize(s.file.value, s.copies[i].offset, limit) == 0
    ensures Inv(Transfer(s, i, Reads(limit)))
  {
    var file, c := s.file.value, s.copies[i];
    var r := Transfer(s, i, Reads(limit));
    ChunkServes(file, c.offset, s.sent[c.requestor], limit);
    EndIsRecorded(file, c.requestor, s.sent[c.requestor]);
    hide Served, Recorded;
    forall j | 0 <= j < |r.copies|
      ensures r.copies[j].requestor in r.sent
      ensures Served(r.file.value, r.copies[j].offset, r.sent[r.copies[j].requestor])
    {
      assert r.copies[j] == s.copies[if j < i then j else j + 1];
    }
    RemovedDistinct(s.copies, i);
  }

  lemma RemovedDistinct(copies: seq<Copy>, i: nat)
    requires DistinctRequestors(copies) && i < |copies|
    ensures DistinctRequestors(copies[..i] + copies[i + 1..])
  {
  }

  lemma StepKeeps(s: State, e: Event)
    requires Inv(s)
    ensures Inv(Step(s, e))
  {
    match e
    case SetFile(file) =>
    case Request(requestor, ours, target, property) => StartKeeps(s, requestor, ours, target, property);
    case PropertyDelete(window, atom, io) =>
      var i := FindCopy(s.copies, window);
      if s.running && i != -1 && s.copies[i].property == atom {
        match io
        case SeekFails => RewindKeeps(s, i);
        case ReadFails => RewindKeeps(s.(cursor := s.copies[i].offset), i);
        case Reads(limit) => MoveKeeps(s, i, limit);
      }
  }

  lemma {:induction false} RunKeeps(s: State, events: seq<Event>)
    requires Inv(s)
    ensures Inv(Run(s, events))
    decreases |events|
  {
    hide Inv;
    if events != [] {
      StepKeeps(s, events[0]);
      RunKeeps(Step(s, events[0]), events[1..]);
    }
  }

  /** Under any interleaving of requestors, restarts and file changes: what a requestor was sent
      since its last start is exactly the file up to its offset, if and only if its transfer is
      intact; and a finished transfer sent the whole file, in non-empty chunks followed by one
      empty chunk, if and only if it was intact. */
  lemma EveryRunServesTheFile(events: seq<Event>, i: nat, j: nat)
    ensures var s := Run(Initial(), events);
      && (i < |s.copies| ==>
           && s.file.Some? && s.copies[i].requestor in s.sent
           && var sent := s.sent[s.copies[i].requestor];
              OnTrack(s.file.value, s.copies[i].offset, sent) <==> sent.intact)
      && (j < |s.done| ==> (Whole(s.done[j]) <==> s.done[j].sent.intact))
  {
    assert Inv(Initial());
    RunKeeps(Initial(), events);
    var s := Run(Initial(), events);
    hide Run;
    if j < |s.done| { assert Recorded(s.done[j]); }
  }
}
