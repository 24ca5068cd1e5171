/** The ClipboardFile class: the entry list and the one file descriptor it reads through. */
module ClipboardFile {
  import opened Options
  import opened ClipboardModel

  lemma RunStep(s: State, events: seq<Event>, i: nat)
    requires i < |events|
    ensures Run(s, events[i..]) == Run(Step(s, events[i]), events[i + 1..])
  {
    assert events[i..][1..] == events[i + 1..];
    hide Step;
  }

  lemma RunEnds(s: State, events: seq<Event>)
    ensures Run(s, events[|events|..]) == s
  {
  }

  class Clipboard {
    var file: Option<string>
    var cursor: nat
    var copies: seq<Copy>
    var running: bool
    ghost var sent: map<Window, Sent>
    ghost var done: seq<Done>

    ghost function Abs(): State
      reads this
    {
      State(file, cursor, copies, running, sent, done)
    }

    constructor ()
      ensures Abs() == Initial()
    {
      file, cursor, copies, running := None, 0, [], true;
      sent, done := map[], [];
    }

    /** get_clipboard_copy_by_requestor. */
    method GetCopy(requestor: Window) returns (i: int)
      ensures i == FindCopy(copies, requestor)
    {
      i := 0;
      while i < |copies|
        invariant 0 <= i <= |copies|
        invariant forall j :: 0 <= j < i ==> copies[j].requestor != requestor
      {
        if copies[i].requestor == requestor { return; }
        i := i + 1;
      }
      i := -1;
    }

    /** remove_clipboard_copy. */
    method RemoveCopy(requestor: Window)
      modifies this`copies
      ensures var i := FindCopy(old(copies), requestor);
        copies == if i == -1 then old(copies) else old(copies)[..i] + old(copies)[i + 1..]
    {
      var i := 0;
      while i < |copies|
        invariant 0 <= i <= |copies| && copies == old(copies)
        invariant forall j :: 0 <= j < i ==> copies[j].requestor != requestor
      {
        if copies[i].requestor == requestor {
          copies := copies[..i] + copies[i + 1..];
          return;
        }
        i := i + 1;
      }
    }

    /** set_current_file. */
    method SetCurrentFile(newFile: Option<string>)
      modifies this
      ensures Abs() == Step(old(Abs()), SetFile(newFile))
    {
      copies := [];
      sent := map[];
      file := newFile;
      cursor := 0;
    }

    /** send_clipboard_start. */
    method SendStart(requestor: Window, ourSelection: bool, target: Target, property: Atom)
      modifies this
      ensures Abs() == Start(old(Abs()), requestor, ourSelection, target, property)
    {
      if file.None? || !ourSelection { return; }
      match target {
        case TargetList =>
        case Unknown(_) =>
        case Image(_) =>
          var i := GetCopy(requestor);
          if i == -1 { copies := copies + [Copy(requestor, 0, 0, TargetList)]; i := |copies| - 1; }
          copies := copies[i := Copy(requestor, 0, property, target)];
          sent := sent[requestor := Sent([], true)];
      }
    }

    /** read(2) through the shared cursor; it returns nothing only at the end of the file. */
    method Read(limit: nat) returns (bytes: string)
      requires file.Some?
      modifies this`cursor
      ensures var n := ReadSize(file.value, old(cursor), limit);
        && cursor == old(cursor) + n
        && bytes == if n == 0 then [] else file.value[old(cursor)..old(cursor) + n]
    {
      var n := ReadSize(file.value, cursor, limit);
      bytes := if n == 0 then [] else file.value[cursor..cursor + n];
      cursor := cursor + n;
    }

    ghost method NoteError(i: nat)
      requires i < |copies|
      modifies this`sent
      ensures sent == if copies[i].requestor in old(sent) && copies[i].offset > 0
                      then old(sent)[copies[i].requestor := old(sent)[copies[i].requestor].(intact := false)]
                      else old(sent)
    {
      var r := copies[i].requestor;
      if r in sent && copies[i].offset > 0 { sent := sent[r := sent[r].(intact := false)]; }
    }

    /** transfer_clipboard_data for the entry at i; entries have distinct requestors. */
    method TransferData(i: nat, io: Io)
      requires i < |copies| && DistinctRequestors(copies)
      modifies this
      ensures Abs() == Transfer(old(Abs()), i, io)
    {
      if file.None? { return; }
      var c := copies[i];
      if io.SeekFails? {
        NoteError(i);
        copies := copies[i := c.(offset := 0)];
        return;
      }
      cursor := c.offset;
      if io.ReadFails? {
        NoteError(i);
        copies := copies[i := c.(offset := 0)];
        return;
      }
      var bytes := Read(io.limit);
      sent := Append(sent, c.requestor, bytes);
      copies := copies[i := c.(offset := c.offset + |bytes|)];
      if |bytes| == 0 {
        assert copies == old(copies) && FindCopy(copies, c.requestor) == i;
        RemoveCopy(c.requestor);
        done := done + [Done(c.requestor, file.value, sent[c.requestor])];
      }
    }

    /** The PropertyDelete branch of the event loop: an event without a matching entry returns
        from the thread's function. */
    method OnPropertyDelete(window: Window, atom: Atom, io: Io)
      requires DistinctRequestors(copies)
      modifies this
      ensures Abs() == Step(old(Abs()), PropertyDelete(window, atom, io))
    {
      if !running { return; }
      var i := GetCopy(window);
      if i == -1 || copies[i].property != atom {
        running := false;
        return;
      }
      TransferData(i, io);
    }

    /** One event: set_current_file from another thread, or an event of the event thread. */
    method Perform(e: Event)
      requires DistinctRequestors(copies)
      modifies this
      ensures Abs() == Step(old(Abs()), e)
    {
      match e {
        case SetFile(newFile) => SetCurrentFile(newFile);
        case Request(requestor, ours, target, property) =>
          if running { SendStart(requestor, ours, target, property); }
        case PropertyDelete(window, atom, io) => OnPropertyDelete(window, atom, io);
      }
    }

    /** Any sequence of events is a run. */
    method PerformAll(events: seq<Event>)
      requires Inv(Abs())
      modifies this
      ensures Inv(Abs()) && Abs() == Run(old(Abs()), events)
    {
      hide Run, Step, Served, Recorded;
      assert events[0..] == events;
      for i := 0 to |events|
        invariant Inv(Abs()) && Run(Abs(), events[i..]) == Run(old(Abs()), events)
      {
        RunStep(Abs(), events, i);
        StepKeeps(Abs(), events[i]);
        Perform(events[i]);
      }
      RunEnds(Abs(), events);
    }
  }
}
