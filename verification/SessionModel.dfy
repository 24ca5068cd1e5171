/** The capture session of the overlay (ui/src/Overlay.cpp, Windows branches): which engine runs,
    what it is told over its pipe, and how long the recording is said to be. Clocks are real
    numbers; a handler takes no time. */
module SessionModel {
  datatype Mode = NoMode | Replay | Record | Stream

  datatype Order = Stop | TogglePause | ToggleReplayRecording | SaveReplay(seconds: nat)

  /** An order, and the pipe it goes to, named by the mode that owns the pipe. */
  datatype Sent = Sent(pipe: Mode, order: Order)

  /** What comes of an attempt to start an engine: a region is being selected, the attempt was put
      off or refused before the launch, the launch failed, or the engine runs. */
  datatype Launch = Selecting | PutOff | Failed | Launched

  /** A line of engine output: the name of a saved video, a failed recording, or another. */
  datatype Line = VideoLine | RecordingErrorLine | OtherLine

  datatype Event =
    | Tick(dt: real)
    | PressPause
    | PressReplay(launch: Launch, manually: bool)
    | PressRecord(launch: Launch)
    | PressStream(launch: Launch)
    | PressSave(minutes: nat, replayTime: nat, restartOnSave: bool)
    | Output(line: Line)
    | Exit(code: int)
    | Show
    | Hide

  datatype Ui = Ui(
    status: Mode, process: bool,
    paused: bool, pausedSince: real, pausedTotal: real, recordSince: real,
    replayRecording: bool, replaySince: real, savedDuration: real, saveMinutes: nat,
    launchedManually: bool, visible: bool)

  const IDLE := Ui(NoMode, false, false, 0.0, 0.0, 0.0, false, 0.0, 0.0, 0, true, false)

  /** What a handler did: the new state, the orders sent, the durations announced. */
  datatype Outcome = Outcome(ui: Ui, sent: seq<Sent>, notices: seq<real>)

  function Quiet(ui: Ui): Outcome { Outcome(ui, [], []) }

  /** update_upause_status. */
  function ResetPause(ui: Ui, now: real): Ui { ui.(paused := false, pausedSince := now, pausedTotal := 0.0) }

  /** update_ui_recording_stopped: does nothing while the overlay is hidden. */
  function UiRecordingStopped(ui: Ui, now: real): Ui {
    if ui.visible then ResetPause(ui, now).(replayRecording := false) else ui
  }

  function Duration(ui: Ui, now: real): real {
    now - ui.recordSince - ui.pausedTotal - (if ui.paused then now - ui.pausedSince else 0.0)
  }

  /** on_stop_recording. */
  function StopRecording(ui: Ui, now: real, code: int): Outcome {
    if ui.status != Record && ui.status != Replay then Quiet(ui)
    else Outcome(UiRecordingStopped(ui, now).(replayRecording := false), [],
                 if code == 0 then [Duration(ui, now)] else [])
  }

  function TogglePaused(ui: Ui, now: real): Outcome {
    if ui.status != Record || !ui.process then Quiet(ui)
    else
      var flipped := if ui.paused then ui.(paused := false, pausedTotal := ui.pausedTotal + (now - ui.pausedSince))
                     else ui.(paused := true, pausedSince := now);
      Outcome(flipped, [Sent(Record, TogglePause)], [])
  }

  function StartReplay(ui: Ui, now: real, launch: Launch, manually: bool): Outcome {
    if launch == Selecting || ui.status == Record || ui.status == Stream then Quiet(ui)
    else
      var u := ResetPause(ui, now).(launchedManually := manually);
      if u.process then
        Outcome(u.(launchedManually := false, saveMinutes := 0), [Sent(Replay, Stop)], [])
      else if launch == Launched then Quiet(u.(status := Replay, process := true, replaySince := now))
      else Quiet(u)
  }

  function StartRecord(ui: Ui, now: real, launch: Launch): Outcome {
    if launch == Selecting then Quiet(ui)
    else if ui.status == Replay || ui.status == Stream then
      if !ui.process then Quiet(ui)
      else
        var u := if ui.replayRecording then ui else ResetPause(ui.(recordSince := now), now);
        Outcome(u.(replayRecording := true), [Sent(ui.status, ToggleReplayRecording)], [])
    else if ui.process then Outcome(ui, [Sent(Record, Stop)], [])
    else
      var u := ResetPause(ui, now);
      Quiet(if launch == Launched then u.(status := Record, process := true, recordSince := now) else u)
  }

  function StartStream(ui: Ui, now: real, launch: Launch): Outcome {
    if launch == Selecting || ui.status == Replay || ui.status == Record then Quiet(ui)
    else
      var u := ResetPause(ui, now);
      if u.process then Outcome(u, [Sent(Stream, Stop)], [])
      else Quiet(if launch == Launched then u.(status := Stream, process := true) else u)
  }

  /** The three save handlers: the whole buffer, or the last one or ten minutes of it. */
  function SaveReplayed(ui: Ui, now: real, minutes: nat, replayTime: nat, restartOnSave: bool): Outcome {
    if ui.status != Replay || !ui.process || (minutes > 0 && replayTime < 60 * minutes) then Quiet(ui)
    else
      var u := ui.(saveMinutes := minutes, savedDuration := now - ui.replaySince);
      Outcome(if minutes == 0 && restartOnSave then u.(replaySince := now) else u,
              [Sent(Replay, SaveReplay(60 * minutes))], [])
  }

  /** process_gsr_output_line. */
  function TakeLine(ui: Ui, now: real, line: Line): Outcome {
    match line
    case VideoLine => StopRecording(ui, now, 0)
    case RecordingErrorLine => if ui.replayRecording then StopRecording(ui, now, 1) else Quiet(ui)
    case OtherLine => Quiet(ui)
  }

  /** update_gsr_process_status once the engine has exited. */
  function ProcessExited(ui: Ui, now: real, code: int): Outcome {
    if !ui.process then Quiet(ui)
    else
      var o := match ui.status
        case NoMode => Quiet(ui)
        case Replay => Quiet(UiRecordingStopped(ui.(saveMinutes := 0), now))
        case Record => StopRecording(UiRecordingStopped(ui, now), now, code)
        case Stream => Quiet(UiRecordingStopped(ui, now));
      o.(ui := o.ui.(process := false, status := NoMode, launchedManually := true))
  }

  function Handle(ui: Ui, now: real, e: Event): Outcome {
    match e
    case Tick(_) => Quiet(ui)
    case PressPause => TogglePaused(ui, now)
    case PressReplay(launch, manually) => StartReplay(ui, now, launch, manually)
    case PressRecord(launch) => StartRecord(ui, now, launch)
    case PressStream(launch) => StartStream(ui, now, launch)
    case PressSave(minutes, replayTime, restart) => SaveReplayed(ui, now, minutes, replayTime, restart)
    case Output(line) => TakeLine(ui, now, line)
    case Exit(code) => ProcessExited(ui, now, code)
    case Show => Quiet(ui.(visible := true))
    case Hide => Quiet(ui.(visible := false))
  }

  // ---- the engine on the other side of the pipe ------------------------------------------

  /** The engine knows only the orders it gets and the time that passes: whether its recording is
      paused and for how long it has recorded and paused, whether it records inside its session
      (`clipOn`) and how long the latest such clip is, whether it has been told to stop, and the
      lengths it has been told to save. */
  datatype Engine = Engine(running: Mode, paused: bool, recorded: real, pausedTime: real, clipOn: bool, clip: real,
                           stopping: bool, saved: seq<nat>)

  function Started(mode: Mode): Engine { Engine(mode, false, 0.0, 0.0, false, 0.0, false, []) }

  function ObeyOrder(g: Engine, s: Sent): Engine {
    if s.pipe != g.running then g
    else
      match s.order
      case Stop => g.(stopping := true)
      case TogglePause => g.(paused := !g.paused)
      case ToggleReplayRecording => if g.clipOn then g.(clipOn := false) else g.(clipOn := true, clip := 0.0)
      case SaveReplay(seconds) => g.(saved := g.saved + [seconds])
  }

  function Obey(g: Engine, sent: seq<Sent>): Engine
    decreases |sent|
  {
    if sent == [] then g else Obey(ObeyOrder(g, sent[0]), sent[1..])
  }

  function Pass(g: Engine, dt: real): Engine {
    var h := if g.clipOn then g.(clip := g.clip + dt) else g;
    if g.running != Record then h
    else if g.paused then h.(pausedTime := h.pausedTime + dt)
    else h.(recorded := h.recorded + dt)
  }

  function EngineRuns(g: Engine, before: Ui, e: Event, o: Outcome): Engine {
    if !before.process && o.ui.process then Started(o.ui.status)
    else if before.process && !o.ui.process then g.(running := NoMode)
    else if e.Tick? && e.dt > 0.0 then Pass(g, e.dt)
    else Obey(g, o.sent)
  }

  /** What a visible overlay forgot when it last reset its counters in the middle of a recording:
      when, how long the engine had paused by then, and whether it was paused. */
  datatype Lapse = Lapse(at: real, forgot: real, wasPaused: bool)

  /** The latest clip: when its recording was switched on and off, how far the duration clock was
      behind at the first press, and whether the clip was noted at the second. */
  datatype Take = NoTake | Take(onAt: real, lead: real, offAt: real, noted: bool)

  datatype World = World(ui: Ui, now: real, engine: Engine, lapse: Lapse, take: Take)

  const START := World(IDLE, 0.0, Started(NoMode), Lapse(0.0, 0.0, false), NoTake)

  /** The event ends the recording in the eyes of a visible overlay. */
  predicate Forgets(ui: Ui, e: Event) {
    ui.visible && e.Output? && (e.line == VideoLine || (e.line == RecordingErrorLine && ui.replayRecording))
  }

  predicate TogglesClip(o: Outcome) { |o.sent| == 1 && o.sent[0].order == ToggleReplayRecording }

  function TakeAfter(w: World, o: Outcome): Take {
    if !w.ui.process && o.ui.process then NoTake
    else if !TogglesClip(o) then w.take
    else if !w.engine.clipOn then
      var lead := if w.ui.replayRecording then w.now - w.ui.recordSince else 0.0;
      Take(w.now, lead, w.now, true)
    else if w.take.Take? then w.take.(offAt := w.now, noted := w.ui.replayRecording)
    else w.take
  }

  function Next(w: World, e: Event): World {
    var o := Handle(w.ui, w.now, e);
    World(o.ui,
          if e.Tick? && e.dt > 0.0 then w.now + e.dt else w.now,
          EngineRuns(w.engine, w.ui, e, o),
          if !w.ui.process && o.ui.process then Lapse(w.now, 0.0, false)
          else if Forgets(w.ui, e) then Lapse(w.now, w.engine.pausedTime, w.engine.paused)
          else w.lapse,
          TakeAfter(w, o))
  }

  function Run(w: World, events: seq<Event>): World
    decreases |events|
  {
    if events == [] then w else Run(Next(w, events[0]), events[1..])
  }

  // ---- what every run keeps -----------------------------------------------------------------

  predicate Inv(w: World) { Coupled(w) && Counted(w) && Clipped(w) }

  predicate CoupledUi(ui: Ui, now: real) {
    && (ui.process <==> ui.status != NoMode)
    && ui.pausedSince <= now && ui.recordSince <= now && 0.0 <= ui.pausedTotal
  }

  predicate Coupled(w: World) { CoupledUi(w.ui, w.now) && w.engine.running == w.ui.status }

  /** The time the overlay has counted as paused. */
  function PausedTime(ui: Ui, now: real): real {
    ui.pausedTotal + if ui.paused then now - ui.pausedSince else 0.0
  }

  /** How long the engine has paused since the lapse. */
  function PausedSince(w: World): real { w.engine.pausedTime - w.lapse.forgot }

  /** While a recording runs the overlay counts what the engine does since the lapse; after a
      lapse during a pause it takes recording for pausing and pausing for recording. */
  predicate Counted(w: World) {
    w.ui.status == Record ==>
      && w.now - w.ui.recordSince == w.engine.recorded + w.engine.pausedTime
      && w.ui.paused == (w.engine.paused != w.lapse.wasPaused)
      && PausedTime(w.ui, w.now) ==
           (if w.lapse.wasPaused then w.now - w.lapse.at - PausedSince(w) else PausedSince(w))
      && 0.0 <= w.lapse.forgot <= w.engine.pausedTime && PausedSince(w) <= w.now - w.lapse.at
  }

  /** While a session runs nothing is paused, and the duration clock stands where the presses put it. */
  predicate Clipped(w: World) {
    w.ui.status == Replay || w.ui.status == Stream ==>
      && !w.ui.paused && w.ui.pausedTotal == 0.0
      && (w.engine.clipOn ==> w.take.Take?)
      && (w.take.Take? ==>
           && 0.0 <= w.take.lead && w.take.onAt <= w.take.offAt <= w.now
           && if w.engine.clipOn then
                w.engine.clip == w.now - w.take.onAt && w.ui.recordSince == w.take.onAt - w.take.lead
              else
                && w.engine.clip == w.take.offAt - w.take.onAt
                && w.ui.recordSince == if w.take.noted then w.take.onAt - w.take.lead else w.take.offAt)
  }

  /** The mode a step may move to: it enters a mode only from none, and leaves one only for none. */
  predicate ModeMoves(before: Mode, after: Mode) { before == after || before == NoMode || after == NoMode }

  /** A step: the orders it sends go to the pipe of the engine that runs, which is still the
      same one after the step. */
  predicate SentToEngine(before: World, o: Outcome, after: World) {
    forall i :: 0 <= i < |o.sent| ==>
      && o.sent[i].pipe == before.engine.running && before.engine.running != NoMode
      && after.engine.running == before.engine.running
  }

  lemma ObeyAtMostOne(g: Engine, sent: seq<Sent>)
    requires |sent| <= 1
    ensures Obey(g, sent) == if sent == [] then g else ObeyOrder(g, sent[0])
  {
    if sent != [] { assert Obey(ObeyOrder(g, sent[0]), sent[1..]) == ObeyOrder(g, sent[0]); }
  }

  /** The presses that may start an engine. */
  predicate Starts(e: Event) { e.PressReplay? || e.PressRecord? || e.PressStream? }

  lemma ClocksAfterPress(ui: Ui, now: real, e: Event)
    requires CoupledUi(ui, now) && Starts(e)
    ensures CoupledUi(Handle(ui, now, e).ui, now)
  {
    hide TogglePaused, SaveReplayed, TakeLine, ProcessExited;
  }

  lemma ClocksStayBehind(ui: Ui, now: real, e: Event)
    requires CoupledUi(ui, now)
    ensures CoupledUi(Handle(ui, now, e).ui, now)
  {
    hide StartReplay, StartRecord, StartStream;
    if Starts(e) { ClocksAfterPress(ui, now, e); }
  }

  /** A handler moves the process and the mode together, and sends at most one order. */
  lemma UiStaysCoupled(ui: Ui, now: real, e: Event)
    requires CoupledUi(ui, now)
    ensures var o := Handle(ui, now, e);
      && CoupledUi(o.ui, now) && |o.sent| <= 1
      && (ui.process && o.ui.process ==> o.ui.status == ui.status)
      && (e.Tick? ==> o == Quiet(ui))
      && (o.sent != [] ==> o.sent[0].pipe == ui.status && ui.process && o.ui.process)
  {
    ClocksStayBehind(ui, now, e);
    var coupled := ui.process <==> ui.status != NoMode;
    assert coupled;
    hide CoupledUi;
  }

  lemma StepKeepsCoupled(w: World, e: Event)
    requires Coupled(w)
    ensures Coupled(Next(w, e))
    ensures ModeMoves(w.ui.status, Next(w, e).ui.status)
    ensures SentToEngine(w, Handle(w.ui, w.now, e), Next(w, e))
  {
    var o := Handle(w.ui, w.now, e);
    UiStaysCoupled(w.ui, w.now, e);
    ObeyAtMostOne(w.engine, o.sent);
    hide Handle, Obey;
  }

  lemma CountingStarts(w: World, e: Event)
    requires Coupled(w) && w.ui.status != Record
    ensures Counted(Next(w, e))
  {
    hide Obey, TakeAfter;
  }

  lemma CountingEnds(w: World, e: Event)
    requires Inv(w) && (e.Output? || e.Exit?)
    ensures Counted(Next(w, e))
  {
    hide Obey, Clipped, TakeAfter, TogglePaused, SaveReplayed, StartReplay, StartRecord, StartStream;
    if w.ui.status != Record {
      CountingStarts(w, e);
    } else {
      ObeyAtMostOne(w.engine, Handle(w.ui, w.now, e).sent);
    }
  }

  lemma StepKeepsCounted(w: World, e: Event)
    requires Inv(w)
    ensures Counted(Next(w, e))
  {
    hide Obey, Clipped, TakeAfter, TakeLine, ProcessExited;
    if w.ui.status != Record {
      CountingStarts(w, e);
    } else if e.Output? || e.Exit? {
      CountingEnds(w, e);
    } else {
      var o := Handle(w.ui, w.now, e);
      ObeyAtMostOne(w.engine, o.sent);
    }
  }

  lemma ClippingStarts(w: World, e: Event)
    requires Coupled(w) && w.ui.status != Replay && w.ui.status != Stream
    ensures Clipped(Next(w, e))
  {
    hide Obey;
  }

  lemma PressKeepsClipped(w: World, e: Event)
    requires Inv(w) && Starts(e)
    ensures Clipped(Next(w, e))
  {
    hide Obey, Counted, TogglePaused, SaveReplayed, TakeLine, ProcessExited;
    if w.ui.status != Replay && w.ui.status != Stream {
      ClippingStarts(w, e);
    } else {
      ObeyAtMostOne(w.engine, Handle(w.ui, w.now, e).sent);
    }
  }

  lemma StepKeepsClipped(w: World, e: Event)
    requires Inv(w)
    ensures Clipped(Next(w, e))
  {
    hide Obey, Counted, StartReplay, StartRecord, StartStream;
    if w.ui.status != Replay && w.ui.status != Stream {
      ClippingStarts(w, e);
    } else if Starts(e) {
      PressKeepsClipped(w, e);
    } else {
      var o := Handle(w.ui, w.now, e);
      ObeyAtMostOne(w.engine, o.sent);
    }
  }

  lemma StepKeeps(w: World, e: Event)
    requires Inv(w)
    ensures Inv(Next(w, e))
  {
    StepKeepsCoupled(w, e);
    StepKeepsCounted(w, e);
    StepKeepsClipped(w, e);
    hide Coupled, Counted, Clipped;
  }

  lemma {:induction false} RunSnoc(w: World, events: seq<Event>, e: Event)
    ensures Run(w, events + [e]) == Next(Run(w, events), e)
    decreases |events|
  {
    hide Next;
    if events == [] {
      assert [e][1..] == [] && [] + [e] == [e];
    } else {
      assert (events + [e])[1..] == events[1..] + [e];
      RunSnoc(Next(w, events[0]), events[1..], e);
    }
  }

  lemma StartIsSound()
    ensures Inv(START)
  {
  }

  lemma RunStep(w: World, events: seq<Event>, i: nat)
    requires i < |events|
    ensures Run(w, events[i..]) == Run(Next(w, events[i]), events[i + 1..])
  {
    assert events[i..][1..] == events[i + 1..];
    hide Next;
  }

  lemma RunEnds(w: World, events: seq<Event>)
    ensures Run(w, events[|events|..]) == w
  {
  }

  lemma NextIs(w: World, e: Event)
    ensures Next(w, e).ui == Handle(w.ui, w.now, e).ui
    ensures Next(w, e).now == if e.Tick? && e.dt > 0.0 then w.now + e.dt else w.now
  {
    hide Handle, EngineRuns, TakeAfter;
  }

  lemma {:induction false} RunKeeps(w: World, events: seq<Event>)
    requires Inv(w)
    ensures Inv(Run(w, events))
    decreases |events|
  {
    hide Inv, Next;
    if events != [] {
      StepKeeps(w, events[0]);
      RunKeeps(Next(w, events[0]), events[1..]);
    }
  }

  /** Whatever the user presses, whatever the engine prints and whenever it exits: a live engine
      goes with a mode and is the engine of that mode; a mode is entered from none and left for
      none; and every order reaches the engine that runs. */
  lemma EveryRunKeepsTheSession(events: seq<Event>, e: Event)
    ensures var w := Run(START, events); var after := Run(START, events + [e]);
      && Inv(w) && (w.ui.process <==> w.ui.status != NoMode) && w.engine.running == w.ui.status
      && ModeMoves(w.ui.status, after.ui.status)
      && SentToEngine(w, Handle(w.ui, w.now, e), after)
  {
    var w := Run(START, events);
    RunKeeps(START, events);
    RunSnoc(START, events, e);
    StepKeepsCoupled(w, e);
    hide Counted, Clipped, Run, Next, Handle, ModeMoves, SentToEngine;
  }

  // ---- what the presses do --------------------------------------------------------------------

  /** What the presses since its start have asked of the engine: to stop, which lengths to save, and
      how often to switch the pause and the recording inside a session. */
  datatype Asked = Asked(stop: bool, saves: seq<nat>, pauses: nat, clips: nat)

  /** One press more, while the engine of this mode runs. */
  function Press(a: Asked, mode: Mode, e: Event): Asked {
    match e
    case PressPause => if mode == Record then a.(pauses := a.pauses + 1) else a
    case PressReplay(launch, _) => if launch != Selecting && mode == Replay then a.(stop := true) else a
    case PressStream(launch) => if launch != Selecting && mode == Stream then a.(stop := true) else a
    case PressRecord(launch) =>
      if launch == Selecting then a else if mode == Record then a.(stop := true) else a.(clips := a.clips + 1)
    case PressSave(minutes, replayTime, _) =>
      if mode == Replay && (minutes == 0 || replayTime >= 60 * minutes)
      then a.(saves := a.saves + [60 * minutes])
      else a
    case _ => a
  }

  function AskedBy(events: seq<Event>): Asked
    decreases |events|
  {
    if events == [] then Asked(false, [], 0, 0)
    else
      var pre := events[..|events| - 1];
      var ui := Run(START, pre).ui;
      if ui.process then Press(AskedBy(pre), ui.status, events[|events| - 1]) else Asked(false, [], 0, 0)
  }

  predicate Odd(n: nat) { n % 2 == 1 }

  predicate Told(g: Engine, a: Asked) {
    g.stopping == a.stop && g.saved == a.saves && g.paused == Odd(a.pauses) && g.clipOn == Odd(a.clips)
  }

  lemma StepTells(w: World, e: Event, a: Asked)
    requires Coupled(w) && (w.ui.process ==> Told(w.engine, a))
    ensures var r := Next(w, e);
      r.ui.process ==> Told(r.engine, if w.ui.process then Press(a, w.ui.status, e) else Asked(false, [], 0, 0))
  {
    hide Obey, TakeAfter;
    ObeyAtMostOne(w.engine, Handle(w.ui, w.now, e).sent);
  }

  /** In every run the engine that runs has been told exactly what the presses since its start have
      asked: to stop, if one was on the button of its own mode and not for a region; to save the
      lengths of the presses that were in a replay session long enough; and to switch the pause and
      the recording inside the session as often as was pressed. */
  lemma {:induction false} EngineIsToldExactly(events: seq<Event>)
    ensures var w := Run(START, events); w.ui.process ==> Told(w.engine, AskedBy(events))
    decreases |events|
  {
    if events != [] {
      var pre, e := events[..|events| - 1], events[|events| - 1];
      assert events == pre + [e];
      StartIsSound();
      RunKeeps(START, pre);
      RunSnoc(START, pre, e);
      EngineIsToldExactly(pre);
      hide Run, Next, Told, Press, CoupledUi;
      StepTells(Run(START, pre), e, AskedBy(pre));
    }
  }

  /** A press on the button of this mode, not for a region. */
  predicate OnButtonOf(mode: Mode, e: Event) {
    match e
    case PressReplay(launch, _) => mode == Replay && launch != Selecting
    case PressRecord(launch) => mode == Record && launch != Selecting
    case PressStream(launch) => mode == Stream && launch != Selecting
    case _ => false
  }

  /** The press at i was on the button of the engine that runs now. */
  predicate StopPressed(events: seq<Event>, i: nat) {
    && i < |events| && OnButtonOf(Run(START, events[..i]).ui.status, events[i])
    && forall j :: i <= j < |events| ==> Run(START, events[..j]).ui.process
  }

  lemma StopPressedBefore(pre: seq<Event>, e: Event, i: nat)
    requires i < |pre|
    ensures StopPressed(pre + [e], i) <==> StopPressed(pre, i) && Run(START, pre).ui.process
  {
    var events := pre + [e];
    assert events[..|pre|] == pre && events[|pre|] == e;
    assert forall j :: 0 <= j < |pre| ==> events[..j] == pre[..j] && events[j] == pre[j];
    hide Run, OnButtonOf;
  }

  lemma StopPressedNow(pre: seq<Event>, e: Event)
    ensures StopPressed(pre + [e], |pre|) <==>
      OnButtonOf(Run(START, pre).ui.status, e) && Run(START, pre).ui.process
  {
    var events := pre + [e];
    assert events[..|pre|] == pre && events[|pre|] == e;
    hide Run, OnButtonOf;
  }

  lemma {:induction false} StopIsAsked(events: seq<Event>)
    ensures AskedBy(events).stop <==> exists i: nat :: i < |events| && StopPressed(events, i)
    decreases |events|
  {
    if events != [] {
      var n := |events| - 1;
      var pre, e := events[..n], events[n];
      assert events == pre + [e];
      StopIsAsked(pre);
      StopPressedNow(pre, e);
      forall i: nat | i < n
        ensures StopPressed(events, i) <==> StopPressed(pre, i) && Run(START, pre).ui.process
      {
        StopPressedBefore(pre, e, i);
      }
      hide Run, StopPressed;
    }
  }

  /** In every run: a running engine has been told to stop if and only if the button of its own mode
      was pressed, not for a region, while it ran. */
  lemma StopsExactly(events: seq<Event>)
    ensures var w := Run(START, events);
      w.ui.process ==> (w.engine.stopping <==> exists i: nat :: i < |events| && StopPressed(events, i))
  {
    EngineIsToldExactly(events);
    StopIsAsked(events);
    hide Run, AskedBy, StopPressed;
  }

  /** In every run: a running engine keeps its mode until it exits, and without one a mode is entered
      by the press on its own button that launches the engine, and by nothing else. */
  lemma ModeFollowsThePresses(events: seq<Event>, e: Event)
    ensures var ui := Run(START, events).ui; var after := Run(START, events + [e]).ui;
      && after.process == (after.status != NoMode)
      && after.status ==
           if ui.process then (if e.Exit? then NoMode else ui.status)
           else match e
             case PressReplay(Launched, _) => Replay
             case PressRecord(Launched) => Record
             case PressStream(Launched) => Stream
             case _ => NoMode
  {
    StartIsSound();
    RunKeeps(START, events);
    RunSnoc(START, events, e);
    UiStaysCoupled(Run(START, events).ui, Run(START, events).now, e);
    NextIs(Run(START, events), e);
    hide Run;
  }

  // ---- what the overlay remembers -------------------------------------------------------------

  /** The length announced for a saved replay (get_time_passed_in_replay_buffer_seconds). */
  function ReplayLength(ui: Ui, replayTime: nat): real {
    var d := if ui.savedDuration > replayTime as real then replayTime as real else ui.savedDuration;
    var asked := (ui.saveMinutes * 60) as real;
    if ui.saveMinutes > 0 && d > asked then asked else d
  }

  /** What a run should leave in the overlay's memory: whether it is shown, whether the replay was
      launched by hand, since when the replay buffer fills, and of the last save the minutes asked
      for and how long the buffer had filled. */
  datatype Memory = Memory(shown: bool, byHand: bool, fillsSince: real, minutes: nat, filled: real)

  /** The replay can be saved to this length now. */
  predicate Saves(ui: Ui, minutes: nat, replayTime: nat) {
    ui.process && ui.status == Replay && (minutes == 0 || 60 * minutes <= replayTime)
  }

  function Remember(m: Memory, w: World, e: Event): Memory {
    match e
    case Show => m.(shown := true)
    case Hide => m.(shown := false)
    case PressReplay(launch, manually) =>
      if launch == Selecting || w.ui.status == Record || w.ui.status == Stream then m
      else if w.ui.process then m.(byHand := false, minutes := 0)
      else m.(byHand := manually, fillsSince := if launch == Launched then w.now else m.fillsSince)
    case PressSave(minutes, replayTime, restart) =>
      if !Saves(w.ui, minutes, replayTime) then m
      else
        m.(minutes := minutes, filled := w.now - m.fillsSince,
           fillsSince := if minutes == 0 && restart then w.now else m.fillsSince)
    case Exit(_) =>
      if !w.ui.process then m
      else m.(byHand := true, minutes := if w.ui.status == Replay then 0 else m.minutes)
    case _ => m
  }

  function MemoryOf(events: seq<Event>): Memory
    decreases |events|
  {
    if events == [] then Memory(false, true, 0.0, 0, 0.0)
    else
      var pre := events[..|events| - 1];
      Remember(MemoryOf(pre), Run(START, pre), events[|events| - 1])
  }

  predicate Remembers(ui: Ui, m: Memory) {
    && ui.visible == m.shown && ui.launchedManually == m.byHand && ui.replaySince == m.fillsSince
    && ui.saveMinutes == m.minutes && ui.savedDuration == m.filled
  }

  lemma PressRemembers(w: World, e: Event, m: Memory)
    requires CoupledUi(w.ui, w.now) && Remembers(w.ui, m) && Starts(e)
    ensures Remembers(Handle(w.ui, w.now, e).ui, Remember(m, w, e))
  {
    hide TogglePaused, SaveReplayed, TakeLine, ProcessExited;
  }

  lemma StepRemembers(w: World, e: Event, m: Memory)
    requires CoupledUi(w.ui, w.now) && Remembers(w.ui, m)
    ensures Remembers(Next(w, e).ui, Remember(m, w, e))
  {
    hide Next, StartReplay, StartRecord, StartStream;
    NextIs(w, e);
    if Starts(e) { PressRemembers(w, e, m); }
  }

  /** In every run the overlay remembers what the presses, exits and its own showing and hiding have
      left to remember. */
  lemma {:induction false} OverlayRemembersExactly(events: seq<Event>)
    ensures Remembers(Run(START, events).ui, MemoryOf(events))
    decreases |events|
  {
    if events != [] {
      var pre, e := events[..|events| - 1], events[|events| - 1];
      assert events == pre + [e];
      StartIsSound();
      RunKeeps(START, pre);
      RunSnoc(START, pre, e);
      OverlayRemembersExactly(pre);
      hide Run, Next, Remembers, Remember, CoupledUi;
      StepRemembers(Run(START, pre), e, MemoryOf(pre));
    }
  }

  function Min(a: real, b: real): real { if a <= b then a else b }

  /** In every run a replay that is saved is announced with the time its buffer had filled since the
      launch or the last save that emptied it, but no more than the buffer holds and than was asked. */
  lemma SavedReplayIsAnnounced(events: seq<Event>, minutes: nat, replayTime: nat, restart: bool)
    ensures var w := Run(START, events);
      Saves(w.ui, minutes, replayTime) ==>
        ReplayLength(Next(w, PressSave(minutes, replayTime, restart)).ui, replayTime) ==
          Min(w.now - MemoryOf(events).fillsSince,
              if minutes == 0 then replayTime as real else (60 * minutes) as real)
  {
    OverlayRemembersExactly(events);
    hide Run, MemoryOf, Next;
    var w := Run(START, events);
    NextIs(w, PressSave(minutes, replayTime, restart));
    if Saves(w.ui, minutes, replayTime) {
      var after := Next(w, PressSave(minutes, replayTime, restart)).ui;
      assert after.saveMinutes == minutes;
      assert after.savedDuration == w.now - MemoryOf(events).fillsSince;
      assert minutes > 0 ==> (60 * minutes) as real <= replayTime as real;
      assert minutes * 60 == 60 * minutes;
    }
  }

  // ---- what is announced --------------------------------------------------------------------

  /** The overlay remembers every pause of the recording: it forgot none of it, or what it has
      forgotten and what it has taken for pauses since come to the same. */
  predicate PausesRemembered(w: World) {
    if w.lapse.wasPaused then w.now - w.lapse.at - PausedSince(w) == w.engine.pausedTime else w.lapse.forgot == 0.0
  }

  lemma LineInRecording(w: World)
    requires Inv(w) && w.ui.status == Record
    ensures Handle(w.ui, w.now, Output(VideoLine)) ==
      Outcome(UiRecordingStopped(w.ui, w.now).(replayRecording := false), [], [Duration(w.ui, w.now)])
    ensures Duration(w.ui, w.now) == w.engine.recorded + w.engine.pausedTime - PausedTime(w.ui, w.now)
  {
    hide Clipped;
  }

  lemma ExitInRecording(ui: Ui, now: real)
    requires CoupledUi(ui, now) && ui.status == Record
    ensures Handle(ui, now, Exit(0)).notices ==
      [if ui.visible then now - ui.recordSince else Duration(ui, now)]
  {
  }

  /** In every run, while a recording runs: a video line announces the time recorded if and only if
      the overlay remembers the pauses; the exit of the engine does so if and only if a visible
      overlay had nothing to forget, or a hidden one remembers. */
  lemma RecordingAnnouncedExactly(events: seq<Event>)
    ensures var w := Run(START, events);
      w.ui.status == Record ==>
        var line := Handle(w.ui, w.now, Output(VideoLine)).notices; var exit := Handle(w.ui, w.now, Exit(0)).notices;
        && |line| == |exit| == 1
        && (line[0] == w.engine.recorded <==> PausesRemembered(w))
        && (exit[0] == w.engine.recorded <==>
             if w.ui.visible then w.engine.pausedTime == 0.0 else PausesRemembered(w))
  {
    hide Run, Handle, Clipped;
    StartIsSound();
    RunKeeps(START, events);
    var w := Run(START, events);
    if w.ui.status == Record {
      LineInRecording(w);
      ExitInRecording(w.ui, w.now);
    }
  }

  /** The usual stop in every run: the video line, then the exit. An overlay that has forgotten
      nothing announces the time recorded; then a hidden one announces it again, and a visible one
      announces the time with all pauses. */
  lemma StopAnnouncesTwice(events: seq<Event>)
    ensures var w := Run(START, events);
      w.ui.status == Record && w.lapse.forgot == 0.0 && !w.lapse.wasPaused ==>
        var line := Handle(w.ui, w.now, Output(VideoLine)); var after := Next(w, Output(VideoLine));
        && line.notices == [w.engine.recorded]
        && Handle(after.ui, after.now, Exit(0)).notices ==
             [if w.ui.visible then w.engine.recorded + w.engine.pausedTime else w.engine.recorded]
  {
    hide Run, Handle, Next, Clipped;
    StartIsSound();
    RunKeeps(START, events);
    var w := Run(START, events);
    if w.ui.status == Record {
      LineInRecording(w);
      var after := Next(w, Output(VideoLine));
      NextIs(w, Output(VideoLine));
      ExitInRecording(after.ui, after.now);
    }
  }

  /** In every run, while a replay session runs: a video line announces the length of the latest
      clip if and only if the clip still runs and the clock was not behind at its start; or it has
      ended, was noted at its end, the clock was not behind, and no time has passed since; or it
      has ended, was not noted, and as much time has passed since its end as the clip is long. */
  lemma ClipAnnouncedExactly(events: seq<Event>)
    ensures var w := Run(START, events); var take := w.take;
      w.ui.status == Replay && take.Take? ==>
        var line := Handle(w.ui, w.now, Output(VideoLine)).notices;
        && |line| == 1
        && (line[0] == w.engine.clip <==>
             if w.engine.clipOn then take.lead == 0.0
             else if take.noted then take.lead == 0.0 && w.now == take.offAt
             else w.now - take.offAt == take.offAt - take.onAt)
  {
    hide Run, Counted;
    StartIsSound();
    RunKeeps(START, events);
  }

  /** Nothing else is announced: only a video line in a recording or a replay session, and only the
      successful exit of a recording. */
  lemma OnlyTheseAnnounce(ui: Ui, now: real, e: Event)
    ensures Handle(ui, now, e).notices != [] <==>
      || (e == Output(VideoLine) && (ui.status == Record || ui.status == Replay))
      || (e == Exit(0) && ui.process && ui.status == Record)
  {
  }

  // ---- the note of a clip ---------------------------------------------------------------------

  /** A press that reaches a session notes the clip. */
  predicate Notes(ui: Ui, e: Event) {
    e.PressRecord? && e.launch != Selecting && ui.process && (ui.status == Replay || ui.status == Stream)
  }

  /** A line or an exit that the overlay takes for the end of the clip. */
  predicate Unnotes(ui: Ui, e: Event) {
    || (e.Output? && e.line != OtherLine && (ui.status == Replay || ui.status == Record))
    || (e.Exit? && ui.process && (ui.visible || ui.status == Record))
  }

  /** What one event does to the note. */
  lemma NoteStep(w: World, e: Event)
    requires Coupled(w)
    ensures Next(w, e).ui.replayRecording <==>
      Notes(w.ui, e) || (w.ui.replayRecording && !Unnotes(w.ui, e))
  {
    hide Obey, EngineRuns, TakeAfter;
  }

  /** Event i notes the clip, and no event after it ends it. */
  predicate NotedSince(events: seq<Event>, i: nat) {
    && i < |events| && Notes(Run(START, events[..i]).ui, events[i])
    && forall j :: i < j < |events| ==> !Unnotes(Run(START, events[..j]).ui, events[j])
  }

  lemma NotedBefore(pre: seq<Event>, e: Event, i: nat)
    requires i < |pre|
    ensures NotedSince(pre + [e], i) <==> NotedSince(pre, i) && !Unnotes(Run(START, pre).ui, e)
  {
    var events := pre + [e];
    assert events[..|pre|] == pre && events[|pre|] == e;
    assert forall j :: 0 <= j < |pre| ==> events[..j] == pre[..j] && events[j] == pre[j];
    hide Run, Notes, Unnotes;
  }

  lemma NotedNow(pre: seq<Event>, e: Event)
    ensures NotedSince(pre + [e], |pre|) <==> Notes(Run(START, pre).ui, e)
  {
    var events := pre + [e];
    assert events[..|pre|] == pre && events[|pre|] == e;
    hide Run, Notes;
  }

  /** In every run a clip is noted exactly when some press in a session has noted it and nothing
      since has ended it: no line in a replay session or a recording, and no exit unless the
      overlay is hidden and the engine was not recording. */
  lemma {:induction false} NotedExactly(events: seq<Event>)
    ensures Run(START, events).ui.replayRecording <==> exists i: nat :: i < |events| && NotedSince(events, i)
    decreases |events|
  {
    if events != [] {
      var n := |events| - 1;
      var pre, e := events[..n], events[n];
      assert events == pre + [e];
      RunKeeps(START, pre);
      RunSnoc(START, pre, e);
      NotedExactly(pre);
      NoteStep(Run(START, pre), e);
      NotedNow(pre, e);
      forall i: nat | i < n ensures NotedSince(events, i) <==> NotedSince(pre, i) && !Unnotes(Run(START, pre).ui, e) {
        NotedBefore(pre, e, i);
      }
      hide Run, Next, NotedSince, Notes, Unnotes;
    }
  }

  // ---- the pause ----------------------------------------------------------------------------------

  /** In every run: after a video line overlay and engine agree on the pause if and only if the
      engine is not paused, for a visible overlay, or they agreed before, for a hidden one. */
  lemma PauseAgreesExactly(events: seq<Event>)
    ensures var w := Run(START, events); var after := Next(w, Output(VideoLine));
      w.ui.status == Record ==>
        (after.ui.paused == after.engine.paused <==> if w.ui.visible then !w.engine.paused else !w.lapse.wasPaused)
  {
    hide Run, Handle, Clipped, TakeAfter;
    StartIsSound();
    RunKeeps(START, events);
    var w := Run(START, events);
    if w.ui.status == Record { LineInRecording(w); }
  }
}
