/** Whole clipboard transfers: every transfer ends, and exactly when the event thread dies. */
module ClipboardTransfers {
  import opened Options
  import opened ClipboardModel

  // ---- a transfer among others -------------------------------------------------------------

  /** The property event matches no entry; handling it ends the event thread. */
  predicate Stray(s: State, e: Event) {
    && s.running && e.PropertyDelete?
    && var i := FindCopy(s.copies, e.window);
       i == -1 || s.copies[i].property != e.atom
  }

  /** The event starts r's transfer, from the beginning of the file. */
  predicate Starts(s: State, e: Event, r: Window) {
    s.running && e.Request? && e.requestor == r && s.file.Some? && e.ourSelection && e.target.Image?
  }

  /** The event is handled as r's next chunk, and an I/O error throws it back from beyond the first. */
  predicate Hits(s: State, e: Event, r: Window) {
    && s.running && e.PropertyDelete? && e.window == r && !e.io.Reads?
    && var i := FindCopy(s.copies, r);
       i != -1 && s.copies[i].property == e.atom && s.copies[i].offset > 0
  }

  /** The event finishes r's transfer. */
  predicate Finishes(s: State, e: Event, r: Window) {
    && s.running && e.PropertyDelete? && e.window == r && e.io.Reads? && s.file.Some?
    && var i := FindCopy(s.copies, r);
       i != -1 && s.copies[i].property == e.atom && s.copies[i].offset == |s.file.value|
  }

  /** The event does not cut r's transfer short: the file stays, r does not start over, no I/O
      error hits r, and the thread survives. */
  predicate Undisturbed(s: State, e: Event, r: Window) {
    && !e.SetFile? && !Stray(s, e)
    && (e.Request? && e.requestor == r ==> !e.ourSelection || !e.target.Image?)
    && (e.PropertyDelete? && e.window == r ==> e.io.Reads?)
  }

  predicate AllUndisturbed(s: State, events: seq<Event>, r: Window)
    decreases |events|
  {
    events == [] || (Undisturbed(s, events[0], r) && AllUndisturbed(Step(s, events[0]), events[1..], r))
  }

  /** How often r asks for the next chunk. */
  function Deletes(events: seq<Event>, r: Window): nat {
    if events == [] then 0
    else (if events[0].PropertyDelete? && events[0].window == r then 1 else 0) + Deletes(events[1..], r)
  }

  /** What is left of r's transfer: the bytes behind its offset and the empty chunk. */
  function Remaining(s: State, r: Window): nat
    requires Inv(s)
  {
    var i := FindCopy(s.copies, r);
    if i == -1 then 0 else |s.file.value| - s.copies[i].offset + 1
  }

  /** A finished transfer of r on record from index j on. */
  predicate Finished(s: State, j: nat, r: Window, file: string, intact: bool) {
    exists k :: j <= k < |s.done| && s.done[k].requestor == r && s.done[k].file == file
      && (intact ==> s.done[k].sent.intact)
  }

  /** r's record in `sent` has not been spoilt. */
  predicate Intact(s: State, r: Window) { r in s.sent && s.sent[r].intact }

  /** One event, seen from requestor r. */
  predicate Advances(s: State, e: Event, r: Window, s': State)
    requires Inv(s) && Inv(s')
  {
    && s'.running && s'.file == s.file && s.done <= s'.done
    && (FindCopy(s.copies, r) != -1 && FindCopy(s'.copies, r) != -1 ==> (Intact(s, r) ==> Intact(s', r)))
    && (FindCopy(s.copies, r) == -1 ==> FindCopy(s'.copies, r) == -1)
    && (if e.PropertyDelete? && e.window == r
        then Remaining(s', r) < Remaining(s, r)
        else Remaining(s', r) == Remaining(s, r))
    && (FindCopy(s.copies, r) != -1 && FindCopy(s'.copies, r) == -1 ==>
         s.file.Some? && Finished(s', |s.done|, r, s.file.value, Intact(s, r)))
  }

  lemma FindIs(copies: seq<Copy>, i: nat)
    requires DistinctRequestors(copies) && i < |copies|
    ensures FindCopy(copies, copies[i].requestor) == i
  {
  }

  lemma StartAdvances(s: State, e: Event, r: Window)
    requires Inv(s) && s.running && e.Request? && Undisturbed(s, e, r)
    ensures Inv(Step(s, e)) && Advances(s, e, r, Step(s, e))
  {
    StepKeeps(s, e);
    var s1 := Step(s, e);
    var i := FindCopy(s.copies, r);
    if i != -1 {
      assert s1.copies[i] == s.copies[i];
      FindIs(s1.copies, i);
    } else {
      assert forall j :: 0 <= j < |s1.copies| ==> s1.copies[j].requestor != r;
    }
  }

  /** After a transfer step by entry i, another entry is where it was or one place further down. */
  lemma OtherStays(copies: seq<Copy>, i: nat, r: Window)
    requires DistinctRequestors(copies) && i < |copies| && copies[i].requestor != r
    ensures var rest := copies[..i] + copies[i + 1..]; var j := FindCopy(copies, r); var k := FindCopy(rest, r);
      (j == -1 <==> k == -1) && (j != -1 ==> rest[k] == copies[j])
  {
    var rest := copies[..i] + copies[i + 1..];
    RemovedDistinct(copies, i);
    var j := FindCopy(copies, r);
    assert forall m :: 0 <= m < |rest| ==> rest[m] == copies[if m < i then m else m + 1];
    if j != -1 {
      var m := if j < i then j else j - 1;
      assert rest[m] == copies[j];
      FindIs(rest, m);
    }
  }

  lemma ReplacedFind(copies: seq<Copy>, i: nat, c: Copy, r: Window)
    requires DistinctRequestors(copies) && i < |copies| && c.requestor == copies[i].requestor
    ensures FindCopy(copies[i := c], r) == FindCopy(copies, r)
  {
    var after := copies[i := c];
    var j := FindCopy(copies, r);
    assert forall m :: 0 <= m < |after| ==> after[m].requestor == copies[m].requestor;
    if j != -1 { FindIs(after, j); }
  }

  lemma FinishAdvances(s: State, e: Event, r: Window)
    requires Inv(s) && Inv(Step(s, e)) && s.running && e.PropertyDelete? && Undisturbed(s, e, r)
    requires var c := s.copies[FindCopy(s.copies, e.window)];
      e.io.Reads? && ReadSize(s.file.value, c.offset, e.io.limit) == 0
    ensures Advances(s, e, r, Step(s, e))
  {
    var i := FindCopy(s.copies, e.window);
    assert Step(s, e).done[|s.done|].requestor == e.window;
    if e.window != r { OtherStays(s.copies, i, r); } else { RemovedIsGone(s.copies, i); }
    hide FindCopy;
  }

  lemma MoveAdvances(s: State, e: Event, r: Window)
    requires Inv(s) && Inv(Step(s, e)) && s.running && e.PropertyDelete? && Undisturbed(s, e, r)
    requires var c := s.copies[FindCopy(s.copies, e.window)];
      e.io.Reads? ==> ReadSize(s.file.value, c.offset, e.io.limit) > 0
    ensures Advances(s, e, r, Step(s, e))
  {
    hide Step, FindCopy, Served, Recorded, Hits, ReadSize;
    var i := FindCopy(s.copies, e.window);
    var c := s.copies[i];
    var offset := if e.io.Reads? then c.offset + ReadSize(s.file.value, c.offset, e.io.limit) else 0;
    MovedTo(s, e, i);
    ReplacedFind(s.copies, i, c.(offset := offset), r);
    EntriesAreSent(s, e.window);
    if FindCopy(s.copies, r) != -1 {
      EntriesAreSent(s, r);
      IntactAfterTransfer(s, e, r);
    }
    NotHit(s, e, r);
  }

  lemma NotHit(s: State, e: Event, r: Window)
    requires Undisturbed(s, e, r)
    ensures !Hits(s, e, r)
  {
  }

  /** A transfer step that does not finish moves the offset and nothing else. */
  lemma MovedTo(s: State, e: Event, i: nat)
    requires Inv(s) && s.running && e.PropertyDelete? && !Stray(s, e) && i == FindCopy(s.copies, e.window)
    requires e.io.Reads? ==> ReadSize(s.file.value, s.copies[i].offset, e.io.limit) > 0
    ensures var c := s.copies[i]; var t := Step(s, e);
      var offset := if e.io.Reads? then c.offset + ReadSize(s.file.value, c.offset, e.io.limit) else 0;
      && t.copies == s.copies[i := c.(offset := offset)]
      && t.running && t.file == s.file && t.done == s.done
      && (e.io.Reads? ==> c.offset < offset <= |s.file.value|)
  {
    hide FindCopy, Recorded;
  }

  lemma TransferAdvances(s: State, e: Event, r: Window)
    requires Inv(s) && s.running && e.PropertyDelete? && Undisturbed(s, e, r)
    ensures Inv(Step(s, e)) && Advances(s, e, r, Step(s, e))
  {
    StepKeeps(s, e);
    var c := s.copies[FindCopy(s.copies, e.window)];
    assert s.file.Some?;
    if e.io.Reads? && ReadSize(s.file.value, c.offset, e.io.limit) == 0 { FinishAdvances(s, e, r); }
    else { MoveAdvances(s, e, r); }
    hide Step, Advances;
  }

  lemma RemovedIsGone(copies: seq<Copy>, i: nat)
    requires DistinctRequestors(copies) && i < |copies|
    ensures FindCopy(copies[..i] + copies[i + 1..], copies[i].requestor) == -1
  {
    var rest := copies[..i] + copies[i + 1..];
    assert forall m :: 0 <= m < |rest| ==> rest[m] == copies[if m < i then m else m + 1];
  }

  lemma StepAdvances(s: State, e: Event, r: Window)
    requires Inv(s) && s.running && Undisturbed(s, e, r)
    ensures Inv(Step(s, e)) && Advances(s, e, r, Step(s, e))
  {
    if e.Request? { StartAdvances(s, e, r); } else { TransferAdvances(s, e, r); }
  }

  lemma {:induction false} EventsAdvance(s: State, events: seq<Event>, r: Window)
    requires Inv(s) && s.running && AllUndisturbed(s, events, r)
    ensures var e := Run(s, events);
      && Inv(e) && e.running && e.file == s.file && s.done <= e.done
      && Remaining(e, r) + Deletes(events, r) <= Remaining(s, r)
      && (FindCopy(s.copies, r) == -1 ==> FindCopy(e.copies, r) == -1)
      && (FindCopy(s.copies, r) != -1 && FindCopy(e.copies, r) != -1 ==> (Intact(s, r) ==> Intact(e, r)))
      && (FindCopy(s.copies, r) != -1 && FindCopy(e.copies, r) == -1 ==>
           s.file.Some? && Finished(e, |s.done|, r, s.file.value, Intact(s, r)))
    decreases |events|
  {
    if events != [] {
      StepAdvances(s, events[0], r);
      hide Inv, Step, Undisturbed, Intact;
      EventsAdvance(Step(s, events[0]), events[1..], r);
    }
  }

  /** Every transfer ends: whatever other requestors do in between, while the file stays and no
      error, restart or stray event disturbs it, requestor r can ask at most once per byte that
      is left and once for the empty chunk; when it has asked that often, its entry is gone; and
      when its entry is gone, a transfer of the file by r is on record, whole if it was on track. */
  lemma EveryTransferEnds(s: State, events: seq<Event>, r: Window)
    requires Inv(s) && s.running && AllUndisturbed(s, events, r) && FindCopy(s.copies, r) != -1
    ensures var e := Run(s, events); var left := |s.file.value| - s.copies[FindCopy(s.copies, r)].offset + 1;
      && Deletes(events, r) <= left
      && (Deletes(events, r) == left ==> FindCopy(e.copies, r) == -1)
      && (FindCopy(e.copies, r) == -1 ==>
           exists k :: |s.done| <= k < |e.done| && e.done[k].requestor == r && e.done[k].file == s.file.value
                       && (s.sent[r].intact ==> Whole(e.done[k])))
  {
    EventsAdvance(s, events, r);
    var e := Run(s, events);
    if FindCopy(e.copies, r) == -1 {
      var k :| |s.done| <= k < |e.done| && e.done[k].requestor == r && e.done[k].file == s.file.value
               && (Intact(s, r) ==> e.done[k].sent.intact);
      assert Recorded(e.done[k]);
    }
    hide Run, Whole, AllUndisturbed;
  }

  // ---- the end of the event thread ------------------------------------------------------------

  lemma {:induction false} RunSnoc(s: State, events: seq<Event>, e: Event)
    ensures Run(s, events + [e]) == Step(Run(s, events), e)
    decreases |events|
  {
    hide Step;
    if events == [] {
      assert [e][1..] == [] && [] + [e] == [e];
    } else {
      assert (events + [e])[1..] == events[1..] + [e];
      RunSnoc(Step(s, events[0]), events[1..], e);
    }
  }

  /** The event thread is dead exactly when some property event it handled matched no entry. */
  lemma {:induction false} ThreadEndsExactly(s: State, events: seq<Event>)
    requires s.running
    ensures !Run(s, events).running <==> exists i :: 0 <= i < |events| && Stray(Run(s, events[..i]), events[i])
    decreases |events|
  {
    if events != [] {
      var n := |events| - 1;
      var pre, e := events[..n], events[n];
      assert events == pre + [e];
      RunSnoc(s, pre, e);
      ThreadEndsExactly(s, pre);
      assert forall i :: 0 <= i < n ==> events[..i] == pre[..i] && events[i] == pre[i];
      assert events[..n] == pre;
      StrayEnds(Run(s, pre), e);
      hide Run, Step, Stray;
    }
  }

  lemma StrayEnds(s: State, e: Event)
    ensures !Step(s, e).running <==> !s.running || Stray(s, e)
  {
  }

  /** Once it is dead, no event of its own changes anything. */
  lemma {:induction false} DeadThreadStaysDead(s: State, events: seq<Event>)
    requires !s.running && forall j :: 0 <= j < |events| ==> !events[j].SetFile?
    ensures Run(s, events) == s
    decreases |events|
  {
    if events != [] { DeadThreadStaysDead(s, events[1..]); }
  }

  // ---- what spoils a transfer -------------------------------------------------------------------

  /** No I/O error has hit r behind the first chunk since r's last start. */
  predicate Spared(events: seq<Event>, r: Window) {
    forall j :: 0 <= j < |events| && Hits(Run(Initial(), events[..j]), events[j], r) ==>
      exists k :: j < k < |events| && Starts(Run(Initial(), events[..k]), events[k], r)
  }

  lemma SparedStep(pre: seq<Event>, e: Event, r: Window)
    ensures var s := Run(Initial(), pre);
      Spared(pre + [e], r) <==> Starts(s, e, r) || (Spared(pre, r) && !Hits(s, e, r))
  {
    var events := pre + [e];
    var n := |pre|;
    assert events[..n] == pre && events[n] == e;
    assert forall j :: 0 <= j < n ==> events[..j] == pre[..j] && events[j] == pre[j];
    StartIsNoHit(Run(Initial(), pre), e, r);
    hide Run, Starts, Hits;
    assert Hits(Run(Initial(), pre), e, r) <==> Hits(Run(Initial(), events[..n]), events[n], r);
    if Starts(Run(Initial(), pre), e, r) {
      assert Starts(Run(Initial(), events[..n]), events[n], r);
    } else if Spared(events, r) {
      forall j | 0 <= j < n && Hits(Run(Initial(), pre[..j]), pre[j], r)
        ensures exists k :: j < k < n && Starts(Run(Initial(), pre[..k]), pre[k], r)
      {
        assert Hits(Run(Initial(), events[..j]), events[j], r);
      }
    }
  }

  lemma StartIsNoHit(s: State, e: Event, r: Window)
    ensures Starts(s, e, r) ==> !Hits(s, e, r)
  {
  }

  /** What a transfer step does to the records of what was sent. */
  lemma TransferSent(s: State, i: nat, io: Io, r: Window)
    requires s.file.Some? && i < |s.copies| && s.copies[i].requestor in s.sent
    ensures var t := Transfer(s, i, io);
      && (r in t.sent <==> r in s.sent)
      && (r in s.sent ==>
           (t.sent[r].intact <==>
             s.sent[r].intact && !(r == s.copies[i].requestor && !io.Reads? && s.copies[i].offset > 0)))
  {
  }

  lemma EntriesAreSent(s: State, r: Window)
    requires Inv(s) && FindCopy(s.copies, r) != -1
    ensures r in s.sent && s.file.Some?
  {
    hide Served, Recorded;
  }

  lemma IntactAfterTransfer(s: State, e: Event, r: Window)
    requires Inv(s) && s.running && e.PropertyDelete? && !Stray(s, e) && FindCopy(s.copies, r) != -1
    ensures r in Step(s, e).sent && r in s.sent
    ensures Step(s, e).sent[r].intact <==> s.sent[r].intact && !Hits(s, e, r)
  {
    EntriesAreSent(s, r);
    EntriesAreSent(s, e.window);
    hide Inv, Transfer;
    TransferSent(s, FindCopy(s.copies, e.window), e.io, r);
  }

  /** One event, as far as r's transfer is intact. */
  lemma IntactStep(s: State, e: Event, r: Window)
    requires Inv(s) && FindCopy(Step(s, e).copies, r) != -1
    ensures r in Step(s, e).sent
    ensures !Starts(s, e, r) ==> FindCopy(s.copies, r) != -1 && r in s.sent
    ensures Step(s, e).sent[r].intact <==> Starts(s, e, r) || (r in s.sent && s.sent[r].intact && !Hits(s, e, r))
  {
    StepKeeps(s, e);
    EntriesAreSent(Step(s, e), r);
    if FindCopy(s.copies, r) != -1 { EntriesAreSent(s, r); }
    if e.PropertyDelete? && s.running && !Stray(s, e) {
      TransferredElsewhere(s, e, r);
      IntactAfterTransfer(s, e, r);
      hide Step;
    } else if e.Request? && s.running && s.file.Some? && e.ourSelection && e.target.Image? {
      StartedElsewhere(s, e, r);
    }
    hide Inv, FindCopy, Transfer;
  }

  lemma StartedElsewhere(s: State, e: Event, r: Window)
    requires Inv(s) && s.running && e.Request? && s.file.Some? && e.ourSelection && e.target.Image?
    ensures e.requestor != r ==> (FindCopy(Step(s, e).copies, r) == -1 <==> FindCopy(s.copies, r) == -1)
  {
    var after := Step(s, e).copies;
    var i := FindCopy(s.copies, r);
    if e.requestor != r && i != -1 { assert after[i] == s.copies[i]; }
    if e.requestor != r && i == -1 { assert forall j :: 0 <= j < |after| ==> after[j].requestor != r; }
  }

  lemma TransferredElsewhere(s: State, e: Event, r: Window)
    requires Inv(s) && s.running && e.PropertyDelete? && !Stray(s, e)
    ensures FindCopy(Step(s, e).copies, r) != -1 ==> FindCopy(s.copies, r) != -1
  {
    var after := Step(s, e).copies;
    if FindCopy(s.copies, r) == -1 {
      assert forall j :: 0 <= j < |s.copies| ==> s.copies[j].requestor != r;
      assert forall j :: 0 <= j < |after| ==> after[j].requestor != r;
    }
    hide Served, Recorded;
  }

  /** In every run a transfer under way is intact, so that what was sent is the file up to its offset,
      if and only if no I/O error has hit it behind its first chunk since its last start. */
  lemma {:induction false} IntactExactly(events: seq<Event>, r: Window)
    ensures var s := Run(Initial(), events);
      && Inv(s)
      && (FindCopy(s.copies, r) != -1 ==> r in s.sent && (s.sent[r].intact <==> Spared(events, r)))
    decreases |events|
  {
    if events == [] {
      assert Inv(Initial());
    } else {
      var n := |events| - 1;
      var pre, e := events[..n], events[n];
      assert events == pre + [e];
      RunSnoc(Initial(), pre, e);
      IntactExactly(pre, r);
      var s := Run(Initial(), pre);
      StepKeeps(s, e);
      SparedStep(pre, e, r);
      if FindCopy(Step(s, e).copies, r) != -1 { IntactStep(s, e, r); }
      hide Run, Step, Inv, Spared, Starts, Hits;
    }
  }

  /** The record that event m of the run made. */
  predicate MadeBy(events: seq<Event>, m: nat, j: nat, d: Done)
    requires m < |events|
  {
    var s := Run(Initial(), events[..m]);
    && |s.done| == j && Finishes(s, events[m], d.requestor)
    && d.requestor in s.sent && d.sent.intact == s.sent[d.requestor].intact
  }

  /** What one event adds to the records. */
  lemma RecordStep(s: State, e: Event)
    requires Inv(s)
    ensures var r := Step(s, e);
      || r.done == s.done
      || (&& |r.done| == |s.done| + 1 && r.done[..|s.done|] == s.done
          && var d := r.done[|s.done|];
             Finishes(s, e, d.requestor) && d.requestor in s.sent && d.sent.intact == s.sent[d.requestor].intact)
  {
    hide Recorded;
  }

  lemma {:induction false} RecordMadeBy(events: seq<Event>, j: nat)
    requires j < |Run(Initial(), events).done|
    ensures exists m :: 0 <= m < |events| && MadeBy(events, m, j, Run(Initial(), events).done[j])
    decreases |events|
  {
    if events != [] {
      var n := |events| - 1;
      var pre, e := events[..n], events[n];
      assert events == pre + [e];
      RunSnoc(Initial(), pre, e);
      assert Inv(Initial());
      RunKeeps(Initial(), pre);
      var s := Run(Initial(), pre);
      RecordStep(s, e);
      if j < |s.done| {
        RecordMadeBy(pre, j);
        var m :| 0 <= m < n && MadeBy(pre, m, j, s.done[j]);
        assert events[..m] == pre[..m] && events[m] == pre[m];
        assert MadeBy(events, m, j, s.done[j]);
      } else {
        assert events[..n] == pre;
        assert MadeBy(events, n, j, Run(Initial(), events).done[j]);
      }
    }
  }

  /** In every run: a finished transfer sent the whole file, in non-empty chunks and one empty chunk,
      if and only if no I/O error had hit it behind its first chunk between its last start and its
      end. */
  lemma FinishedWholeExactly(events: seq<Event>, j: nat)
    requires j < |Run(Initial(), events).done|
    ensures var d := Run(Initial(), events).done[j];
      exists m :: 0 <= m < |events| && Finishes(Run(Initial(), events[..m]), events[m], d.requestor)
                  && |Run(Initial(), events[..m]).done| == j && (Whole(d) <==> Spared(events[..m], d.requestor))
  {
    var d := Run(Initial(), events).done[j];
    RecordMadeBy(events, j);
    EveryRunServesTheFile(events, 0, j);
    var m :| 0 <= m < |events| && MadeBy(events, m, j, d);
    IntactExactly(events[..m], d.requestor);
    hide Run, Whole, Spared, Inv;
  }

  // ---- what is served, and to whom ----------------------------------------------------------

  function LastFile(events: seq<Event>): Option<string> {
    if events == [] then None
    else
      var last := events[|events| - 1];
      if last.SetFile? then last.file else LastFile(events[..|events| - 1])
  }

  /** The file served is the one set last, whatever else happens, even when the thread is dead. */
  lemma {:induction false} TheLastFileIsServed(events: seq<Event>)
    ensures Run(Initial(), events).file == LastFile(events)
    decreases |events|
  {
    if events != [] {
      var n := |events| - 1;
      assert events == events[..n] + [events[n]];
      RunSnoc(Initial(), events[..n], events[n]);
      TheLastFileIsServed(events[..n]);
      FileStep(Run(Initial(), events[..n]), events[n]);
      hide Run, Step;
    }
  }

  lemma FileStep(s: State, e: Event)
    ensures Step(s, e).file == if e.SetFile? then e.file else s.file
  {
  }

  /** Event i started r's transfer, and nothing since has started it over, finished it, or set
      another file. */
  predicate StartedSince(events: seq<Event>, i: nat, r: Window) {
    && i < |events| && Starts(Run(Initial(), events[..i]), events[i], r)
    && forall j :: i < j < |events| ==>
         && !events[j].SetFile? && !Starts(Run(Initial(), events[..j]), events[j], r)
         && !Finishes(Run(Initial(), events[..j]), events[j], r)
  }

  /** The entry of r asks on this property for this target. */
  predicate ServedOn(s: State, r: Window, property: Atom, target: Target) {
    var i := FindCopy(s.copies, r);
    i != -1 && s.copies[i].property == property && s.copies[i].target == target
  }

  predicate SameEntry(s: State, s1: State, r: Window) {
    var i, j := FindCopy(s.copies, r), FindCopy(s1.copies, r);
    if i == -1 then j == -1
    else j != -1 && s1.copies[j].property == s.copies[i].property && s1.copies[j].target == s.copies[i].target
  }

  /** What one event does to the entry of r. */
  lemma EntryStep(s: State, e: Event, r: Window)
    requires Inv(s)
    ensures var s1 := Step(s, e);
      if Starts(s, e, r) then ServedOn(s1, r, e.property, e.target)
      else if e.SetFile? || Finishes(s, e, r) then FindCopy(s1.copies, r) == -1
      else SameEntry(s, s1, r)
  {
    match e {
      case SetFile(_) =>
      case Request(requestor, ours, target, property) =>
        if s.running && s.file.Some? && ours && target.Image? { StartEntry(s, e, r); }
      case PropertyDelete(window, atom, io) =>
        if s.running && !Stray(s, e) { TransferEntry(s, e, r); }
    }
  }

  lemma StartEntry(s: State, e: Event, r: Window)
    requires Inv(s) && e.Request? && Starts(s, e, e.requestor)
    ensures var s1 := Step(s, e);
      if e.requestor == r then ServedOn(s1, r, e.property, e.target) else SameEntry(s, s1, r)
  {
    var s1 := Step(s, e);
    var entry := Copy(e.requestor, 0, e.property, e.target);
    var i := FindCopy(s.copies, e.requestor);
    StepKeeps(s, e);
    if e.requestor == r {
      FindIs(s1.copies, if i == -1 then |s.copies| else i);
    } else {
      var j := FindCopy(s.copies, r);
      if j == -1 { assert forall k :: 0 <= k < |s1.copies| ==> s1.copies[k].requestor != r; }
      else { assert s1.copies[j] == s.copies[j]; FindIs(s1.copies, j); }
    }
    hide Served, Recorded;
  }

  lemma TransferEntry(s: State, e: Event, r: Window)
    requires Inv(s) && s.running && e.PropertyDelete? && !Stray(s, e)
    ensures if Finishes(s, e, r) then FindCopy(Step(s, e).copies, r) == -1 else SameEntry(s, Step(s, e), r)
  {
    hide FindCopy, Served, Recorded;
    var i := FindCopy(s.copies, e.window);
    var c := s.copies[i];
    if e.io.Reads? && ReadSize(s.file.value, c.offset, e.io.limit) == 0 {
      assert c.offset == |s.file.value| by { InOffset(s, i); }
      if e.window == r { RemovedIsGone(s.copies, i); } else { OtherStays(s.copies, i, r); }
    } else {
      MovedTo(s, e, i);
      var offset := if e.io.Reads? then c.offset + ReadSize(s.file.value, c.offset, e.io.limit) else 0;
      ReplacedFind(s.copies, i, c.(offset := offset), r);
    }
  }

  lemma InOffset(s: State, i: nat)
    requires Inv(s) && i < |s.copies|
    ensures s.file.Some? && s.copies[i].offset <= |s.file.value|
  {
  }

  lemma StartedBefore(pre: seq<Event>, e: Event, i: nat, r: Window)
    requires i < |pre|
    ensures var s := Run(Initial(), pre);
      StartedSince(pre + [e], i, r) <==>
        StartedSince(pre, i, r) && !e.SetFile? && !Starts(s, e, r) && !Finishes(s, e, r)
  {
    var events := pre + [e];
    assert events[..|pre|] == pre && events[|pre|] == e;
    assert forall j :: 0 <= j < |pre| ==> events[..j] == pre[..j] && events[j] == pre[j];
    hide Run, Starts, Finishes;
  }

  lemma StartedNow(pre: seq<Event>, e: Event, r: Window)
    ensures StartedSince(pre + [e], |pre|, r) <==> Starts(Run(Initial(), pre), e, r)
  {
    var events := pre + [e];
    assert events[..|pre|] == pre && events[|pre|] == e;
    hide Run, Starts, Finishes;
  }

  /** In every run, a requestor is being served if and only if a request of its own started its
      transfer while a file was open, and since then the file has stayed and the transfer has not
      come to its end; and it is served on the property and for the target of the last such request. */
  lemma {:induction false} UnderWayExactly(events: seq<Event>, r: Window)
    ensures var s := Run(Initial(), events);
      && (FindCopy(s.copies, r) != -1 <==> exists i: nat :: i < |events| && StartedSince(events, i, r))
      && forall i: nat :: i < |events| && StartedSince(events, i, r) ==>
           ServedOn(s, r, events[i].property, events[i].target)
    decreases |events|
  {
    assert Inv(Initial());
    if events != [] {
      var n := |events| - 1;
      var pre, e := events[..n], events[n];
      assert events == pre + [e];
      RunSnoc(Initial(), pre, e);
      UnderWayExactly(pre, r);
      RunKeeps(Initial(), pre);
      EntryStep(Run(Initial(), pre), e, r);
      StartedNow(pre, e, r);
      forall i: nat | i < n
        ensures var s := Run(Initial(), pre);
          StartedSince(events, i, r) <==>
            StartedSince(pre, i, r) && !e.SetFile? && !Starts(s, e, r) && !Finishes(s, e, r)
      {
        StartedBefore(pre, e, i, r);
      }
      hide Run, Step, Inv, StartedSince, Finishes, FindCopy;
    }
  }

  // ---- two runs in which a promise fails ----------------------------------------------------

  /** In the middle of a transfer the requestor deletes another property of its window: the thread is
      dead, the transfer never ends, and the next requestor is not served. */
  lemma StrayEventHappens()
    ensures var s := Step(Step(Initial(), SetFile(Some("a"))), Request(1, true, Image(9), 7));
      var other := PropertyDelete(1, 8, Reads(1));
      var dead := Step(s, other);
      && s.running && Stray(s, other) && !dead.running && dead.copies == s.copies != []
      && Step(dead, PropertyDelete(1, 7, Reads(1))) == dead == Step(dead, Request(2, true, Image(9), 7))
  {
  }

  function Serving(offset: nat, chunks: seq<string>, intact: bool): State {
    State(Some(['a']), offset, [Copy(1, offset, 7, Image(9))], true, map[1 := Sent(chunks, intact)], [])
  }

  /** One chunk more of the file "a", or the end of the transfer. */
  lemma Serves(offset: nat, chunks: seq<string>, intact: bool)
    requires offset <= 1
    ensures var s := Step(Serving(offset, chunks, intact), PropertyDelete(1, 7, Reads(1)));
      if offset == 0 then s == Serving(1, chunks + [['a']], intact)
      else s.done == [Done(1, ['a'], Sent(chunks + [[]], intact))]
  {
    assert ['a'][0..1] == ['a'];
  }

  lemma Begins()
    ensures Step(Step(Initial(), SetFile(Some(['a']))), Request(1, true, Image(9), 7)) == Serving(0, [], true)
  {
  }

  /** After the error the file is served from its beginning. */
  lemma Restarts(chunks: seq<string>)
    ensures var broken := Step(Serving(1, chunks, true), PropertyDelete(1, 7, SeekFails));
      Step(broken, PropertyDelete(1, 7, Reads(1))) == Serving(1, chunks + [['a']], false)
  {
    var broken := Step(Serving(1, chunks, true), PropertyDelete(1, 7, SeekFails));
    assert broken == Serving(0, chunks, false).(cursor := 1);
    assert ['a'][0..1] == ['a'];
  }

  /** A seek error before the empty chunk: the requestor is sent "a" twice for the file "a". */
  lemma ErrorMidwaySpoilsTheTransfer()
    ensures var s := Step(Step(Initial(), SetFile(Some(['a']))), Request(1, true, Image(9), 7));
      var broken := Step(Step(s, PropertyDelete(1, 7, Reads(1))), PropertyDelete(1, 7, SeekFails));
      var done := Step(Step(broken, PropertyDelete(1, 7, Reads(1))), PropertyDelete(1, 7, Reads(1))).done;
      |done| == 1 && done[0].sent.chunks == [['a'], ['a'], []] && !Whole(done[0])
  {
    hide Step, Serving, Concat;
    Begins();
    Serves(0, [], true);
    Restarts([] + [['a']]);
    Serves(1, [] + [['a']] + [['a']], false);
    TwiceIsNotTheFile();
    assert [] + [['a']] + [['a']] + [[]] == [['a'], ['a'], []];
  }

  lemma TwiceIsNotTheFile()
    ensures Concat([['a'], ['a'], []]) == ['a', 'a']
  {
    assert [['a'], ['a'], []][..2] == [['a'], ['a']] && [['a'], ['a']][..1] == [['a']] && [['a']][..0] == [];
  }
}
