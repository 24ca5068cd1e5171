/** The session variables of the overlay object (ui/src/Overlay.cpp), updated in place by its
    handlers. A handler returns the orders it sent and the durations it announced. */
module OverlaySession {
  import opened SessionModel

  class Overlay {
    var recordingStatus: Mode
    var process: bool
    var paused: bool
    var pausedClock: real
    var pausedTotalTime: real
    var recordingDurationClock: real
    var replayRecording: bool
    var replayDurationClock: real
    var replaySavedDuration: real
    var replaySaveDurationMin: nat
    var replayLaunchedManually: bool
    var visible: bool

    function State(): Ui
      reads this
    {
      Ui(recordingStatus, process, paused, pausedClock, pausedTotalTime, recordingDurationClock, replayRecording,
         replayDurationClock, replaySavedDuration, replaySaveDurationMin, replayLaunchedManually, visible)
    }

    constructor ()
      ensures State() == IDLE
    {
      recordingStatus, process, paused := NoMode, false, false;
      pausedClock, pausedTotalTime, recordingDurationClock := 0.0, 0.0, 0.0;
      replayRecording, replayDurationClock, replaySavedDuration := false, 0.0, 0.0;
      replaySaveDurationMin, replayLaunchedManually, visible := 0, true, false;
    }

    method UpdateUnpauseStatus(now: real)
      modifies this
      ensures State() == ResetPause(old(State()), now)
    {
      paused := false;
      pausedClock := now;
      pausedTotalTime := 0.0;
    }

    method UpdateUiRecordingStopped(now: real)
      modifies this
      ensures State() == UiRecordingStopped(old(State()), now)
    {
      if !visible { return; }
      UpdateUnpauseStatus(now);
      replayRecording := false;
    }

    method ToggledPause(now: real) returns (sent: seq<Sent>)
      modifies this
      ensures Outcome(State(), sent, []) == TogglePaused(old(State()), now)
    {
      sent := [];
      if recordingStatus != Record || !process { return; }
      sent := [Sent(Record, TogglePause)];
      paused := !paused;
      if paused {
        pausedClock := now;
      } else {
        pausedTotalTime := pausedTotalTime + (now - pausedClock);
      }
    }

    method OnPressStartReplay(now: real, launch: Launch, manually: bool) returns (sent: seq<Sent>)
      modifies this
      ensures Outcome(State(), sent, []) == StartReplay(old(State()), now, launch, manually)
    {
      sent := [];
      if launch == Selecting { return; }
      match recordingStatus {
        case NoMode =>
        case Replay =>
        case Record => return;
        case Stream => return;
      }
      UpdateUnpauseStatus(now);
      replayLaunchedManually := manually;
      if process {
        sent := [Sent(Replay, Stop)];
        replayLaunchedManually := false;
        replaySaveDurationMin := 0;
        return;
      }
      if launch != Launched { return; }
      process := true;
      recordingStatus := Replay;
      replayDurationClock := now;
    }

    method OnPressStartRecord(now: real, launch: Launch) returns (sent: seq<Sent>)
      modifies this
      ensures Outcome(State(), sent, []) == StartRecord(old(State()), now, launch)
    {
      sent := [];
      if launch == Selecting { return; }
      match recordingStatus {
        case NoMode =>
        case Record =>
        case _ =>
          if !process { return; }
          if !replayRecording {
            recordingDurationClock := now;
            UpdateUnpauseStatus(now);
          }
          replayRecording := true;
          sent := [Sent(recordingStatus, ToggleReplayRecording)];
          return;
      }
      if process {
        sent := [Sent(Record, Stop)];
        return;
      }
      UpdateUnpauseStatus(now);
      if launch != Launched { return; }
      process := true;
      recordingStatus := Record;
      recordingDurationClock := now;
    }

    method OnPressStartStream(now: real, launch: Launch) returns (sent: seq<Sent>)
      modifies this
      ensures Outcome(State(), sent, []) == StartStream(old(State()), now, launch)
    {
      sent := [];
      if launch == Selecting { return; }
      match recordingStatus {
        case NoMode =>
        case Stream =>
        case Replay => return;
        case Record => return;
      }
      UpdateUnpauseStatus(now);
      if process {
        sent := [Sent(Stream, Stop)];
        return;
      }
      if launch != Launched { return; }
      process := true;
      recordingStatus := Stream;
    }

    /** The three save handlers, told apart by their minutes; 0 saves the whole buffer. */
    method OnPressSaveReplay(now: real, minutes: nat, replayTime: nat, restartOnSave: bool) returns (sent: seq<Sent>)
      modifies this
      ensures Outcome(State(), sent, []) == SaveReplayed(old(State()), now, minutes, replayTime, restartOnSave)
    {
      sent := [];
      if recordingStatus != Replay || !process { return; }
      if minutes > 0 && replayTime < 60 * minutes { return; }
      replaySaveDurationMin := minutes;
      replaySavedDuration := now - replayDurationClock;
      if minutes == 0 && restartOnSave { replayDurationClock := now; }
      sent := [Sent(Replay, SaveReplay(60 * minutes))];
    }

    method OnStopRecording(now: real, code: int) returns (notices: seq<real>)
      modifies this
      ensures Outcome(State(), [], notices) == StopRecording(old(State()), now, code)
    {
      notices := [];
      if recordingStatus != Record && recordingStatus != Replay { return; }
      if code == 0 {
        var current := 0.0;
        if paused { current := now - pausedClock; }
        notices := [now - recordingDurationClock - pausedTotalTime - current];
      }
      UpdateUiRecordingStopped(now);
      replayRecording := false;
    }

    method ProcessOutputLine(now: real, line: Line) returns (notices: seq<real>)
      modifies this
      ensures Outcome(State(), [], notices) == TakeLine(old(State()), now, line)
    {
      notices := [];
      match line {
        case RecordingErrorLine => if replayRecording { notices := OnStopRecording(now, 1); }
        case VideoLine => notices := OnStopRecording(now, 0);
        case OtherLine =>
      }
    }

    /** update_gsr_process_status: the engine is polled, and finalized once it has exited. */
    method UpdateProcessStatus(now: real, running: bool, code: int) returns (notices: seq<real>)
      modifies this
      ensures Outcome(State(), [], notices) ==
        if running then Quiet(old(State())) else ProcessExited(old(State()), now, code)
    {
      notices := [];
      if !process || running { return; }
      match recordingStatus {
        case NoMode =>
        case Replay =>
          replaySaveDurationMin := 0;
          UpdateUiRecordingStopped(now);
        case Record =>
          UpdateUiRecordingStopped(now);
          notices := OnStopRecording(now, code);
        case Stream =>
          UpdateUiRecordingStopped(now);
      }
      process := false;
      recordingStatus := NoMode;
      replayLaunchedManually := true;
    }

    /** One event, dispatched to its handler. */
    method Perform(now: real, e: Event) returns (sent: seq<Sent>, notices: seq<real>)
      modifies this
      ensures Outcome(State(), sent, notices) == Handle(old(State()), now, e)
    {
      sent, notices := [], [];
      match e {
        case Tick(_) =>
        case PressPause => sent := ToggledPause(now);
        case PressReplay(launch, manually) => sent := OnPressStartReplay(now, launch, manually);
        case PressRecord(launch) => sent := OnPressStartRecord(now, launch);
        case PressStream(launch) => sent := OnPressStartStream(now, launch);
        case PressSave(minutes, replayTime, restart) =>
          sent := OnPressSaveReplay(now, minutes, replayTime, restart);
        case Output(line) => notices := ProcessOutputLine(now, line);
        case Exit(code) => notices := UpdateProcessStatus(now, false, code);
        case Show => visible := true;
        case Hide => visible := false;
      }
    }

    /** Any sequence of events is a run of the session. */
    method PerformAll(start: real, events: seq<Event>, ghost w: World) returns (now: real)
      requires State() == w.ui && start == w.now
      modifies this
      ensures var r := Run(w, events); State() == r.ui && now == r.now
    {
      hide Run, Next, Handle;
      now := start;
      ghost var at := w;
      assert events[0..] == events;
      for i := 0 to |events|
        invariant State() == at.ui && now == at.now && Run(at, events[i..]) == Run(w, events)
      {
        RunStep(at, events, i);
        NextIs(at, events[i]);
        var _, _ := Perform(now, events[i]);
        if events[i].Tick? && events[i].dt > 0.0 { now := now + events[i].dt; }
        at := Next(at, events[i]);
      }
      RunEnds(at, events);
    }
  }
}
