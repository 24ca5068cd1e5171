/** Which handlers of the recorder the IPC server calls, and what it tells its clients: every reply
    is the one its request and the reports of the recorder thread call for. Nothing here depends on
    what clients, pipes or the recorder thread do. */
module IpcCalls {
  import opened Options
  import opened IpcProtocol
  import opened IpcInvariant
  import opened IpcRuns

  // ---- the right answer -----------------------------------------------------------------------

  predicate Ordered(calls: seq<nat>, bound: nat) {
    && (forall j :: 0 <= j < |calls| ==> calls[j] < bound)
    && forall i, j :: 0 <= i < j < |calls| ==> calls[i] < calls[j]
  }

  predicate Positive(body: Body) { body.Ok? || body.OkData? }

  /** The requests that are answered when the recorder thread reports. */
  predicate AwaitsReport(name: string, k: nat) {
    || (k == 0 && name == "stop")
    || (k == 1 && name == "save-replay")
    || (k == 2 && name == "stop-replay-recording")
  }

  predicate TakesOptions(name: string) { name == "set-paused" || name == "save-replay" }

  predicate Known(name: string) {
    || TakesOptions(name) || name == "stop" || name == "toggle-pause" || name == "toggle-replay-recording"
    || name == "start-replay-recording" || name == "stop-replay-recording"
  }

  /** The answer to an accepted request of kind k, after these reports: what the first report of its
      kind says, or that none has come. */
  predicate RightResult(w: World, k: nat, landed: seq<Completion>, body: Body) {
    if !HasKind(landed, k) then body == Error("GPU Screen Recorder exited before the request finished")
    else
      var first := FirstOf(landed, k);
      if !first.success then
        body == Error(if k == 1 then "failed to save the replay" else "failed to save the recording")
      else match first.file
        case None => body == Ok
        case Some(path) => body == OkData(if |path| <= w.fileRoom then path else path[..w.fileRoom])
  }

  /** Why a handler is not called: the kind of request is already waiting for a report, its options
      are malformed, or its name is unknown. */
  predicate RightRefusal(name: string, options: Option<string>, body: Body) {
    || (name == "stop" && body == Error("GPU Screen Recorder is already stopping"))
    || (name == "save-replay" && body == Error("a replay is already being saved"))
    || (name == "stop-replay-recording" && body == Error("the recording is already being stopped"))
    || (TakesOptions(name) && options.Some? && body == Error(options.value))
    || (!Known(name) && body == Error("unknown request name '" + name + "'"))
  }

  predicate RightAnswer(w: World, t: nat, name: string, options: Option<string>, called: bool,
      landed: seq<Completion>, body: Body) {
    if !called then RightRefusal(name, options, body)
    else
      && Known(name) && (TakesOptions(name) ==> options.None?)
      && if !w.env(t).accepted then body == Error(w.env(t).message)
         else if exists k :: 0 <= k < NUM_KINDS && AwaitsReport(name, k)
         then forall k :: 0 <= k < NUM_KINDS && AwaitsReport(name, k) ==> RightResult(w, k, landed, body)
         else body == Ok
  }

  /** The right answer to request t, given its line, whether its handler was called, and the reports
      that came between the request and the reply. */
  predicate RightBody(w: World, t: nat, line: Line, called: bool, landed: seq<Completion>, body: Body) {
    match line
    case TooLarge => !called && body == Error("the request is too large")
    case Whole(text) =>
      if OnlyWhitespace(text) then !called && body == Error("the request is empty")
      else match w.parse(text)
        case Malformed(_, message) => !called && body == Error(message)
        case Parsed(_, name, options) => RightAnswer(w, t, name, options, called, landed, body)
  }

  predicate Told(w: World, s: State, r: Reply) {
    && r.ticket < |s.requests| && s.requests[r.ticket].since <= r.at <= |s.reports|
    && RightBody(w, r.ticket, s.requests[r.ticket].line, r.ticket in s.calls,
                 s.reports[s.requests[r.ticket].since..r.at], r.body)
  }

  predicate AllTold(w: World, s: State) { forall j :: 0 <= j < |s.replies| ==> Told(w, s, s.replies[j]) }

  /** The slot holds an accepted request of its kind, and the first report of that kind since. */
  predicate TrueSlot(w: World, requests: seq<Request>, calls: seq<nat>, reports: seq<Completion>, k: nat,
      slot: Slot) {
    slot.state != Empty ==>
      && slot.ticket < |requests| && slot.ticket in calls && w.env(slot.ticket).accepted
      && AcceptedLine(w, requests[slot.ticket].line, k)
      && requests[slot.ticket].since <= |reports|
      && Holding(w, slot, k, reports[requests[slot.ticket].since..])
  }

  predicate AcceptedLine(w: World, line: Line, k: nat) {
    && line.Whole? && !OnlyWhitespace(line.text) && w.parse(line.text).Parsed?
    && AwaitsReport(w.parse(line.text).name, k)
    && (TakesOptions(w.parse(line.text).name) ==> w.parse(line.text).options.None?)
  }

  predicate Holding(w: World, slot: Slot, k: nat, landed: seq<Completion>) {
    if !HasKind(landed, k) then slot.state == Pending
    else
      var first := FirstOf(landed, k);
      slot.state == Completed && slot.success == first.success && slot.file == Fit(w, first.file)
  }

  predicate TrueSlots(w: World, s: State) {
    |s.slots| == NUM_KINDS
    && forall k :: 0 <= k < NUM_KINDS ==> TrueSlot(w, s.requests, s.calls, s.reports, k, s.slots[k])
  }

  predicate Honest(w: World, s: State) {
    Ordered(s.calls, |s.requests|) && AllTold(w, s) && TrueSlots(w, s)
  }

  // ---- the elementary changes -------------------------------------------------------------------

  /** More requests and reports, and calls for requests that nobody was told about yet. */
  predicate Continues(s: State, s1: State) {
    && s.requests <= s1.requests && s.reports <= s1.reports && s.replies == s1.replies
    && forall j :: 0 <= j < |s.replies| ==> (s.replies[j].ticket in s.calls <==> s.replies[j].ticket in s1.calls)
  }

  lemma ToldStays(w: World, s: State, s1: State)
    requires AllTold(w, s) && Continues(s, s1)
    ensures AllTold(w, s1)
  {
    forall j | 0 <= j < |s1.replies| ensures Told(w, s1, s1.replies[j]) {
      var r := s.replies[j];
      assert Told(w, s, r);
      assert s1.reports[..|s.reports|] == s.reports;
      var since := s.requests[r.ticket].since;
      assert s1.reports[since..r.at] == s.reports[since..r.at];
    }
  }

  lemma {:induction false} FirstOfConcat(a: seq<Completion>, b: seq<Completion>, k: nat)
    ensures HasKind(a + b, k) <==> HasKind(a, k) || HasKind(b, k)
    ensures HasKind(a, k) ==> FirstOf(a + b, k) == FirstOf(a, k)
    ensures !HasKind(a, k) && HasKind(b, k) ==> FirstOf(a + b, k) == FirstOf(b, k)
  {
    if a == [] {
      assert a + b == b;
    } else {
      assert (a + b)[0] == a[0] && (a + b)[1..] == a[1..] + b;
      FirstOfConcat(a[1..], b, k);
    }
  }

  lemma SlotAfterReports(w: World, s: State, cs: seq<Completion>, k: Kind)
    requires |s.slots| == NUM_KINDS && TrueSlot(w, s.requests, s.calls, s.reports, k, s.slots[k])
    ensures var r := Land(w, s, cs); TrueSlot(w, r.requests, r.calls, r.reports, k, r.slots[k])
  {
    FirstCompletionWins(w, s.slots, cs, k);
    var slot := s.slots[k];
    if slot.state != Empty {
      var since := s.requests[slot.ticket].since;
      assert (s.reports + cs)[since..] == s.reports[since..] + cs;
      FirstOfConcat(s.reports[since..], cs, k);
    }
    hide Interfere, Fit, FirstOf, HasKind, AcceptedLine;
  }

  lemma ReportsAreHonest(w: World, s: State, cs: seq<Completion>)
    requires Honest(w, s)
    ensures Honest(w, Land(w, s, cs))
  {
    hide TrueSlot, Interfere, AllTold, Ordered;
    assert |s.slots| == NUM_KINDS;
    var r := Land(w, s, cs);
    forall k | 0 <= k < NUM_KINDS ensures TrueSlot(w, r.requests, r.calls, r.reports, k, r.slots[k]) {
      SlotAfterReports(w, s, cs, k);
    }
    ToldStays(w, s, r);
  }

  lemma EmptiedIsHonest(w: World, s: State, k: Kind)
    requires Honest(w, s)
    ensures |s.slots| == NUM_KINDS && Honest(w, Emptied(s, k))
  {
    ToldStays(w, s, Emptied(s, k));
    hide AllTold, Ordered, Holding, AcceptedLine;
  }

  lemma ReplyIsHonest(w: World, s: State, i: nat, t: nat, id: int, body: Body, delivered: bool)
    requires Honest(w, s) && i < |s.clients| && t < |s.requests| && s.requests[t].since <= |s.reports|
    requires RightBody(w, t, s.requests[t].line, t in s.calls, s.reports[s.requests[t].since..], body)
    ensures Honest(w, SendReply(s, i, t, id, body, delivered).0)
  {
    var s1 := SendReply(s, i, t, id, body, delivered).0;
    assert s.reports[s.requests[t].since..|s.reports|] == s.reports[s.requests[t].since..];
    forall j | 0 <= j < |s1.replies| ensures Told(w, s1, s1.replies[j]) {
      if j < |s.replies| { assert Told(w, s, s.replies[j]); }
    }
    hide RightBody, TrueSlot, Ordered;
  }

  // ---- one request --------------------------------------------------------------------------------

  predicate Reads(w: World, line: Line, name: string, options: Option<string>) {
    && line.Whole? && !OnlyWhitespace(line.text) && w.parse(line.text).Parsed?
    && w.parse(line.text).name == name && w.parse(line.text).options == options
  }

  /** The newest request, logged and not answered yet. */
  predicate Asking(w: World, s: State, t: nat, name: string, options: Option<string>) {
    && |s.requests| == t + 1 && s.requests[t].since == |s.reports|
    && Reads(w, s.requests[t].line, name, options)
    && Ordered(s.calls, t) && forall j :: 0 <= j < |s.replies| ==> s.replies[j].ticket < t
  }

  lemma CallIsHonest(w: World, s: State, t: nat, name: string, options: Option<string>)
    requires Honest(w, s) && Asking(w, s, t, name, options)
    ensures Honest(w, s.(calls := s.calls + [t]))
  {
    var s1 := s.(calls := s.calls + [t]);
    ToldStays(w, s, s1);
    hide AllTold, Holding, AcceptedLine;
  }

  lemma KindIs(name: string)
    ensures match DeferredKind(name)
            case None => forall k :: 0 <= k < NUM_KINDS ==> !AwaitsReport(name, k)
            case Some(k) => forall j :: 0 <= j < NUM_KINDS ==> (AwaitsReport(name, j) <==> j == k)
  {
  }

  /** The verdict of a request makes the right answer, when it is given at once. */
  lemma VerdictIsRight(w: World, t: nat, name: string, options: Option<string>, landed: seq<Completion>)
    ensures var h := Handle(name, options, w.env(t));
      && (h.ok ==> h.called && w.env(t).accepted && Known(name) && (TakesOptions(name) ==> options.None?))
      && (h.ok && DeferredKind(name).None? ==> RightAnswer(w, t, name, options, true, landed, Ok))
      && (!h.ok ==> RightAnswer(w, t, name, options, h.called, landed, Error(h.message)))
  {
    KindIs(name);
  }

  lemma OccupiedIsRight(w: World, t: nat, name: string, options: Option<string>, k: Kind, landed: seq<Completion>)
    requires DeferredKind(name) == Some(k)
    ensures RightAnswer(w, t, name, options, false, landed, Error(AlreadyPendingError(k)))
  {
  }

  lemma AskingReply(w: World, s: State, i: nat, t: nat, id: int, name: string, options: Option<string>, body: Body,
      delivered: bool)
    requires Honest(w, s) && i < |s.clients| && t < |s.requests| && s.requests[t].since <= |s.reports|
    requires Reads(w, s.requests[t].line, name, options)
    requires RightAnswer(w, t, name, options, t in s.calls, s.reports[s.requests[t].since..], body)
    ensures Honest(w, SendReply(s, i, t, id, body, delivered).0)
  {
    hide Honest, RightAnswer, SendReply;
    ReplyIsHonest(w, s, i, t, id, body, delivered);
  }

  /** The request registers in slot k, and completions land while its handler runs. */
  lemma RegisteredIsHonest(w: World, s: State, t: nat, name: string, options: Option<string>, k: Kind, slot: Slot,
      cs: seq<Completion>)
    requires Honest(w, s) && Asking(w, s, t, name, options) && DeferredKind(name) == Some(k)
    requires w.env(t).accepted && (TakesOptions(name) ==> options.None?)
    requires slot.state == Pending && slot.ticket == t && |s.slots| == NUM_KINDS
    ensures Honest(w, Land(w, s.(calls := s.calls + [t], slots := s.slots[k := slot]), cs))
  {
    var s1 := s.(calls := s.calls + [t]);
    var s2 := s1.(slots := s.slots[k := slot]);
    CallIsHonest(w, s, t, name, options);
    KindIs(name);
    assert s.reports[|s.reports|..] == [];
    assert TrueSlot(w, s2.requests, s2.calls, s2.reports, k, slot);
    ToldStays(w, s1, s2);
    hide TrueSlot, AllTold, Ordered, Asking, Land;
    assert TrueSlots(w, s2);
    ReportsAreHonest(w, s2, cs);
  }

  /** The request has given slot k up again, after completions landed. */
  lemma RefusedIsHonest(w: World, s: State, k: Kind, slot: Slot, cs: seq<Completion>)
    requires Honest(w, s) && |s.slots| == NUM_KINDS
    ensures Honest(w, Emptied(Land(w, s.(slots := s.slots[k := slot]), cs), k))
  {
    var s2 := s.(slots := s.slots[k := slot]);
    var r := Emptied(Land(w, s2, cs), k);
    forall j | 0 <= j < NUM_KINDS ensures TrueSlot(w, r.requests, r.calls, r.reports, j, r.slots[j]) {
      if j != k { SlotAfterReports(w, s2, cs, j); }
    }
    ToldStays(w, s, r);
    hide TrueSlot, AllTold, Ordered, Interfere;
  }

  lemma ParsedIsHonest(w: World, s: State, i: nat, t: nat, id: int, name: string, options: Option<string>)
    requires Honest(w, s) && i < |s.clients| && Asking(w, s, t, name, options)
    ensures |s.slots| == NUM_KINDS && Honest(w, OnParsed(w, s, i, t, id, name, options).0)
  {
    assert |s.slots| == NUM_KINDS;
    var env := w.env(t);
    var h := Handle(name, options, env);
    assert t !in s.calls;
    CallIsHonest(w, s, t, name, options);
    VerdictIsRight(w, t, name, options, []);
    VerdictIsRight(w, t, name, options, env.during);
    assert s.reports[|s.reports|..] == [];
    hide Honest, Handle, DeferredKind, RightAnswer, SendReply, Land, Emptied;
    var s1 := if h.called then s.(calls := s.calls + [t]) else s;
    match DeferredKind(name)
    case None =>
      AskingReply(w, s1, i, t, id, name, options, if h.ok then Ok else Error(h.message), env.delivered);
    case Some(k) =>
      if s.slots[k].state != Empty {
        OccupiedIsRight(w, t, name, options, k, []);
        AskingReply(w, s, i, t, id, name, options, Error(AlreadyPendingError(k)), env.delivered);
      } else {
        var slot := Slot(Pending, s.clients[i].pipe, id, false, None, t);
        if h.ok {
          RegisteredIsHonest(w, s, t, name, options, k, slot, env.during);
        } else {
          RefusedIsHonest(w, s1, k, slot, env.during);
          var r := Emptied(Land(w, s1.(slots := s.slots[k := slot]), env.during), k);
          RefusedState(w, s1, k, slot, env.during);
          assert (s.reports + env.during)[|s.reports|..] == env.during;
          AskingReply(w, r, i, t, id, name, options, Error(h.message), env.delivered);
        }
      }
  }

  lemma RefusedState(w: World, s: State, k: Kind, slot: Slot, cs: seq<Completion>)
    requires |s.slots| == NUM_KINDS
    ensures var r := Emptied(Land(w, s.(slots := s.slots[k := slot]), cs), k);
      r.clients == s.clients && r.requests == s.requests && r.calls == s.calls && r.reports == s.reports + cs
  {
  }

  lemma RequestIsHonest(w: World, s: State, i: nat)
    requires Honest(w, s) && i < |s.clients|
    ensures |s.slots| == NUM_KINDS && Honest(w, OnRequest(w, s, i).0)
  {
    assert |s.slots| == NUM_KINDS;
    var c := s.clients[i];
    var t := |s.requests|;
    var env := w.env(t);
    LoggedIsHonest(w, s, i);
    var s1 := Land(w, s.(requests := s.requests + [NewRequest(w, s, i)]), env.before);
    assert s1.reports[s1.requests[t].since..] == [];
    hide Honest, SendReply, Land, OnParsed, Handle;
    if c.tooLarge {
      ReplyIsHonest(w, s1, i, t, 0, Error("the request is too large"), env.delivered);
    } else if OnlyWhitespace(c.request) {
      ReplyIsHonest(w, s1, i, t, 0, Error("the request is empty"), env.delivered);
    } else {
      match w.parse(c.request)
      case Malformed(id, message) => ReplyIsHonest(w, s1, i, t, id, Error(message), env.delivered);
      case Parsed(id, name, options) => ParsedIsHonest(w, s1, i, t, id, name, options);
    }
  }

  lemma LoggedIsHonest(w: World, s: State, i: nat)
    requires Honest(w, s) && i < |s.clients| && |s.slots| == NUM_KINDS
    ensures var t := |s.requests|;
      var s1 := Land(w, s.(requests := s.requests + [NewRequest(w, s, i)]), w.env(t).before);
      && Honest(w, s1) && s1.clients == s.clients
      && |s1.requests| == t + 1 && s1.requests[t] == NewRequest(w, s, i) && s1.requests[t].since == |s1.reports|
      && Ordered(s1.calls, t) && t !in s1.calls && forall j :: 0 <= j < |s1.replies| ==> s1.replies[j].ticket < t
  {
    var s0 := s.(requests := s.requests + [NewRequest(w, s, i)]);
    ToldStays(w, s, s0);
    assert Honest(w, s0) by { hide Holding, AcceptedLine, AllTold; }
    ReportsAreHonest(w, s0, w.env(|s.requests|).before);
    forall j | 0 <= j < |s.replies| ensures s.replies[j].ticket < |s.requests| { assert Told(w, s, s.replies[j]); }
    hide Honest, AllTold, TrueSlots, RightBody, Interfere;
  }

  lemma ByteIsHonest(w: World, s: State, i: nat, b: char)
    requires Honest(w, s) && i < |s.clients|
    ensures Honest(w, OnByte(w, s, i, b).0)
  {
    RequestIsHonest(w, s, i);
    OnRequestShape(w, s, i);
    hide OnRequest;
  }

  lemma {:induction false} BytesAreHonest(w: World, s: State, i: nat, bytes: string)
    requires Honest(w, s) && i < |s.clients|
    ensures Honest(w, OnBytes(w, s, i, bytes).0)
    decreases |bytes|
  {
    if bytes != [] {
      ByteIsHonest(w, s, i, bytes[0]);
      OnRequestShape(w, s, i);
      hide Honest, OnRequest;
      var r := OnByte(w, s, i, bytes[0]);
      if r.1 { BytesAreHonest(w, r.0, i, bytes[1..]); }
    }
  }

  lemma {:induction false} ReadIsHonest(w: World, s: State, i: nat, script: ReadScript)
    requires Honest(w, s) && i < |s.clients|
    ensures Honest(w, StartRead(w, s, i, script).0)
    decreases script
  {
    match script
    case Ready(bytes, rest) =>
      BytesAreHonest(w, s, i, bytes);
      hide Honest, OnBytes;
      var r := OnBytes(w, s, i, bytes);
      if bytes != [] && r.1 { ReadIsHonest(w, r.0, i, rest); }
    case _ =>
  }

  lemma RemovalIsHonest(w: World, s: State, i: nat)
    requires Honest(w, s) && i < |s.clients|
    ensures Honest(w, RemoveClient(s, i))
  {
  }

  lemma AcceptIsHonest(w: World, s: State, a: Arrival)
    requires Honest(w, s)
    ensures Honest(w, Accept(w, s, a))
  {
    if |s.clients| < MAX_CLIENTS {
      ReadIsHonest(w, Prepared(s, a), |s.clients|, a.script);
      hide StartRead;
    }
  }

  lemma DeliveryIsHonest(w: World, s: State, slot: Slot, body: Body, delivered: bool)
    requires Honest(w, s) && slot.ticket < |s.requests| && s.requests[slot.ticket].since <= |s.reports|
    requires RightBody(w, slot.ticket, s.requests[slot.ticket].line, slot.ticket in s.calls,
                       s.reports[s.requests[slot.ticket].since..], body)
    ensures |s.slots| == NUM_KINDS && Honest(w, Deliver(s, slot, body, delivered))
  {
    assert |s.slots| == NUM_KINDS;
    var i := Find(s.clients, slot.fd);
    if i != -1 {
      ReplyIsHonest(w, s, i, slot.ticket, slot.id, body, delivered);
      RemovalIsHonest(w, s, i);
    }
    hide Honest, RightBody, RemoveClient;
  }

  /** What a slot that is emptied calls for: its result, or that the recorder has exited. */
  lemma SlotIsRight(w: World, s: State, k: Kind)
    requires TrueSlots(w, s) && s.slots[k].state != Empty
    ensures var slot := s.slots[k]; var t := slot.ticket;
      && t < |s.requests| && s.requests[t].since <= |s.reports|
      && var landed := s.reports[s.requests[t].since..];
         && (slot.state == Completed ==>
              RightBody(w, t, s.requests[t].line, t in s.calls, landed, ResultBody(k, slot)))
         && (slot.state == Pending ==>
              RightBody(w, t, s.requests[t].line, t in s.calls, landed, Error(EXITED_ERROR)))
  {
    assert TrueSlot(w, s.requests, s.calls, s.reports, k, s.slots[k]);
    hide HasKind, FirstOf, OnlyWhitespace;
  }

  lemma DrainIsHonest(w: World, s: State, env: PassEnv, k: Kind)
    requires Honest(w, s)
    ensures |s.slots| == NUM_KINDS && Honest(w, DrainSlot(w, s, env, k))
  {
    HonestSlots(w, s);
    ReportsAreHonest(w, s, env.gap(k));
    var s1 := Land(w, s, env.gap(k));
    EmptiedIsHonest(w, s1, k);
    if s1.slots[k].state == Completed {
      SlotIsRight(w, s1, k);
      hide Honest, Deliver, RightBody, Land, ResultBody;
      DeliveryIsHonest(w, Emptied(s1, k), s1.slots[k], ResultBody(k, s1.slots[k]), env.delivered(k));
    }
  }

  lemma FailIsHonest(w: World, s: State, env: PassEnv, k: Kind)
    requires Honest(w, s)
    ensures |s.slots| == NUM_KINDS && Honest(w, FailSlot(w, s, env, k))
  {
    HonestSlots(w, s);
    ReportsAreHonest(w, s, env.gap(k));
    var s1 := Land(w, s, env.gap(k));
    EmptiedIsHonest(w, s1, k);
    if s1.slots[k].state == Pending {
      SlotIsRight(w, s1, k);
      hide Honest, Deliver, RightBody, Land;
      DeliveryIsHonest(w, Emptied(s1, k), s1.slots[k], Error(EXITED_ERROR), env.delivered(k));
    }
  }

  lemma {:induction false} DrainPassIsHonest(w: World, s: State, env: PassEnv, k: nat)
    requires Honest(w, s) && k <= NUM_KINDS
    ensures Honest(w, DrainFrom(w, s, env, k))
    decreases NUM_KINDS - k
  {
    hide Honest, DrainSlot;
    if k < NUM_KINDS {
      DrainIsHonest(w, s, env, k);
      assert |s.slots| == NUM_KINDS by { HonestSlots(w, s); }
      DrainPassIsHonest(w, DrainSlot(w, s, env, k), env, k + 1);
    }
  }

  lemma HonestSlots(w: World, s: State)
    requires Honest(w, s)
    ensures |s.slots| == NUM_KINDS
  {
  }

  lemma {:induction false} FailPassIsHonest(w: World, s: State, env: PassEnv, k: nat)
    requires Honest(w, s) && k <= NUM_KINDS
    ensures Honest(w, FailFrom(w, s, env, k))
    decreases NUM_KINDS - k
  {
    HonestSlots(w, s);
    hide Honest, FailSlot;
    if k < NUM_KINDS {
      FailIsHonest(w, s, env, k);
      FailPassIsHonest(w, FailSlot(w, s, env, k), env, k + 1);
    }
  }

  lemma ReadOneIsHonest(w: World, s: State, i: nat, event: ReadEvent)
    requires Honest(w, s) && i < |s.clients|
    ensures Honest(w, ReadClient(w, s, i, event).0)
  {
    if s.clients[i].armed && !event.NotReady? {
      var s1 := s.(clients := s.clients[i := s.clients[i].(armed := false)]);
      RemovalIsHonest(w, s1, i);
      if event.ok && event.bytes != [] {
        BytesAreHonest(w, s1, i, event.bytes);
        var r := OnBytes(w, s1, i, event.bytes);
        RemovalIsHonest(w, r.0, i);
        ReadIsHonest(w, r.0, i, event.rearm);
        RemovalIsHonest(w, StartRead(w, r.0, i, event.rearm).0, i);
      }
      hide Honest, OnBytes, StartRead, RemoveClient;
    }
  }

  lemma {:induction false} ReadPassIsHonest(w: World, s: State, inbox: nat -> ReadEvent, i: nat)
    requires Honest(w, s) && i <= |s.clients|
    ensures Honest(w, ReadFrom(w, s, inbox, i).0)
    decreases |s.clients| - i
  {
    HonestSlots(w, s);
    if i < |s.clients| {
      ReadOneIsHonest(w, s, i, inbox(s.clients[i].serial));
      hide Honest, ReadClient;
      var r := ReadClient(w, s, i, inbox(s.clients[i].serial));
      ReadPassIsHonest(w, r.0, inbox, if r.1 then i + 1 else i);
    }
  }

  lemma {:induction false} TurnsAreHonest(w: World, s: State, turns: seq<Turn>)
    requires Honest(w, s)
    ensures Honest(w, DoTurns(w, s, turns))
    decreases |turns|
  {
    HonestSlots(w, s);
    hide Honest, DrainFrom, Accept, ReadFrom;
    if turns != [] {
      var t := turns[0];
      DrainPassIsHonest(w, s, t.drain, 0);
      var s1 := DrainFrom(w, s, t.drain, 0);
      if t.accept.Some? { AcceptIsHonest(w, s1, t.accept.value); }
      var s2 := match t.accept case None => s1 case Some(a) => Accept(w, s1, a);
      ReadPassIsHonest(w, s2, t.inbox, 0);
      TurnsAreHonest(w, DoTurn(w, s, t), turns[1..]);
    }
  }

  lemma ThreadIsHonest(w: World, turns: seq<Turn>, stop: PassEnv, drain: PassEnv, fail: PassEnv)
    ensures Honest(w, Thread(w, Initial(), turns, stop, drain, fail))
  {
    assert Honest(w, Initial());
    TurnsAreHonest(w, Initial(), turns);
    var s0 := DoTurns(w, Initial(), turns);
    DrainPassIsHonest(w, s0, stop, 0);
    var s1 := DrainFrom(w, s0, stop, 0);
    DrainPassIsHonest(w, s1, drain, 0);
    FailPassIsHonest(w, DrainFrom(w, s1, drain, 0), fail, 0);
    hide Honest, DoTurns, DrainFrom, FailFrom;
  }

  /** In every run of the thread, without any condition on the surroundings: no request has its
      handler called twice, handlers run in the order of the requests, and a client is told
      "ok" only about a request whose handler was called and accepted. */
  lemma EveryRunIsHonest(w: World, turns: seq<Turn>, stop: PassEnv, drain: PassEnv, fail: PassEnv)
    ensures var s := Thread(w, Initial(), turns, stop, drain, fail);
      && (forall i, j :: 0 <= i < j < |s.calls| ==> s.calls[i] < s.calls[j])
      && (forall j :: 0 <= j < |s.calls| ==> s.calls[j] < |s.requests|)
      && forall j :: 0 <= j < |s.replies| && (s.replies[j].body.Ok? || s.replies[j].body.OkData?)
           ==> s.replies[j].ticket in s.calls && w.env(s.replies[j].ticket).accepted
  {
    hide Thread, Honest;
    ThreadIsHonest(w, turns, stop, drain, fail);
    HonestMeans(w, Thread(w, Initial(), turns, stop, drain, fail));
  }

  lemma HonestMeans(w: World, s: State)
    requires Honest(w, s)
    ensures Ordered(s.calls, |s.requests|)
    ensures forall j :: 0 <= j < |s.replies| && Positive(s.replies[j].body) ==>
              s.replies[j].ticket in s.calls && w.env(s.replies[j].ticket).accepted
  {
    hide Ordered, TrueSlots, RightResult;
    forall j | 0 <= j < |s.replies| && Positive(s.replies[j].body)
      ensures s.replies[j].ticket in s.calls && w.env(s.replies[j].ticket).accepted
    {
      assert Told(w, s, s.replies[j]);
    }
  }

  /** In every run of the thread, without any condition on the surroundings, every reply is the right
      answer to its request. In particular, an accepted request of a kind the recorder thread reports
      on is answered by the first report of that kind between the request and the reply: ok with
      the path cut to the room for it if it was a success, the error of its kind if it was not, and
      the exit error if no such report has come. */
  lemma EveryReplyIsRight(w: World, turns: seq<Turn>, stop: PassEnv, drain: PassEnv, fail: PassEnv, j: nat)
    ensures var s := Thread(w, Initial(), turns, stop, drain, fail);
      j < |s.replies| ==>
        var r := s.replies[j];
        && r.ticket < |s.requests| && s.requests[r.ticket].since <= r.at <= |s.reports|
        && RightBody(w, r.ticket, s.requests[r.ticket].line, r.ticket in s.calls,
                     s.reports[s.requests[r.ticket].since..r.at], r.body)
  {
    hide Thread, TrueSlots, Ordered, RightBody;
    ThreadIsHonest(w, turns, stop, drain, fail);
    var s := Thread(w, Initial(), turns, stop, drain, fail);
    if j < |s.replies| { assert Told(w, s, s.replies[j]); }
  }
}
