/** Concrete runs of the overlay session in which what is announced is wrong. */
module SessionFailures {
  import opened SessionModel

  /** What a video line would announce now. */
  function Announced(w: World): seq<real> { Handle(w.ui, w.now, Output(VideoLine)).notices }

  /** Three and two events of a run. */
  function Next3(w: World, a: Event, b: Event, c: Event): World { Next(Next(Next(w, a), b), c) }

  function Next2(w: World, a: Event, b: Event): World { Next(Next(w, a), b) }

  lemma Obeys(g: Engine)
    ensures forall s: Sent :: Obey(g, [s]) == ObeyOrder(g, s)
  {
    forall s: Sent ensures Obey(g, [s]) == ObeyOrder(g, s) { ObeyAtMostOne(g, [s]); }
  }

  // ---- a note left over -------------------------------------------------------------------

  const CLIP_OF_FIVE := World(
    Ui(Replay, true, false, 0.0, 0.0, 0.0, true, 0.0, 0.0, 0, true, false), 5.0,
    Engine(Replay, false, 0.0, 0.0, true, 5.0, false, []), Lapse(0.0, 0.0, false), Take(0.0, 0.0, 0.0, true))

  lemma ClipOfFive()
    ensures Next3(START, PressReplay(Launched, true), PressRecord(Launched), Tick(5.0)) == CLIP_OF_FIVE
  {
    Obeys(Started(Replay));
    hide Obey;
  }

  const LEFT_OVER := World(
    Ui(Replay, true, false, 5.0, 0.0, 0.0, true, 5.0, 0.0, 0, true, false), 5.0,
    Started(Replay), Lapse(5.0, 0.0, false), NoTake)

  lemma LeftOver()
    ensures Next2(CLIP_OF_FIVE, Exit(1), PressReplay(Launched, true)) == LEFT_OVER
  {
    hide Obey;
  }

  lemma CountedFromTheOldOne()
    ensures var w := Next2(LEFT_OVER, PressRecord(Launched), Tick(2.0));
      Announced(w) == [7.0] && w.engine.clip == 2.0 && w.take == Take(5.0, 5.0, 5.0, true)
  {
    Obeys(Started(Replay));
    hide Obey;
  }

  /** A hidden overlay keeps the note of a clip when the engine exits; the next clip is counted
      from the old one, and two seconds are announced as seven. */
  lemma LeftOverNoteMisleads()
    ensures var w1 := Next3(START, PressReplay(Launched, true), PressRecord(Launched), Tick(5.0));
      var w2 := Next2(w1, Exit(1), PressReplay(Launched, true));
      var w3 := Next2(w2, PressRecord(Launched), Tick(2.0));
      Announced(w3) == [7.0] && w3.engine.clip == 2.0 && w3.take == Take(5.0, 5.0, 5.0, true)
  {
    hide Next, Next2, Next3, Announced, CLIP_OF_FIVE, LEFT_OVER;
    ClipOfFive();
    LeftOver();
    CountedFromTheOldOne();
  }

  // ---- a second clip -------------------------------------------------------------------------

  const SHOWN_CLIP := CLIP_OF_FIVE.(ui := CLIP_OF_FIVE.ui.(visible := true))

  const SECOND_CLIP := World(
    Ui(Replay, true, false, 0.0, 0.0, 0.0, true, 0.0, 0.0, 0, true, true), 5.0,
    Engine(Replay, false, 0.0, 0.0, true, 0.0, false, []), Lapse(0.0, 0.0, false), Take(5.0, 5.0, 5.0, true))

  lemma ShownClip()
    ensures Next2(Next2(START, Show, PressReplay(Launched, true)), PressRecord(Launched), Tick(5.0)) == SHOWN_CLIP
  {
    Obeys(Started(Replay));
    hide Obey;
  }

  lemma SecondClip()
    ensures Next2(SHOWN_CLIP, PressRecord(Launched), PressRecord(Launched)) == SECOND_CLIP
  {
    Obeys(SHOWN_CLIP.engine);
    Obeys(SHOWN_CLIP.engine.(clipOn := false));
    hide Obey;
  }

  const UNNOTED := SECOND_CLIP.(
    ui := Ui(Replay, true, false, 5.0, 0.0, 0.0, false, 0.0, 0.0, 0, true, true), now := 7.0,
    engine := Engine(Replay, false, 0.0, 0.0, true, 2.0, false, []), lapse := Lapse(5.0, 0.0, false))

  lemma LineEndsTheNote()
    ensures Next2(SECOND_CLIP, Output(VideoLine), Tick(2.0)) == UNNOTED
  {
    hide Obey;
    assert Obey(SECOND_CLIP.engine, []) == SECOND_CLIP.engine by { ObeysNothing(SECOND_CLIP.engine); }
  }

  lemma ObeysNothing(g: Engine)
    ensures Obey(g, []) == g
  {
  }

  lemma CountedFromItsEnd()
    ensures var w := Next2(UNNOTED, PressRecord(Launched), Tick(1.0));
      Announced(w) == [1.0] && w.engine.clip == 2.0 && w.take == Take(5.0, 5.0, 7.0, false)
  {
    Obeys(UNNOTED.engine);
    hide Obey;
  }

  /** A second clip is started before the line of the first arrives: the line ends the note, the
      last press starts the clock again, and two seconds are announced as one. */
  lemma SecondClipMisleads()
    ensures var w1 := Next2(Next2(START, Show, PressReplay(Launched, true)), PressRecord(Launched), Tick(5.0));
      var w2 := Next2(w1, PressRecord(Launched), PressRecord(Launched));
      var w3 := Next2(w2, Output(VideoLine), Tick(2.0));
      var w4 := Next2(w3, PressRecord(Launched), Tick(1.0));
      Announced(w4) == [1.0] && w4.engine.clip == 2.0 && w4.take == Take(5.0, 5.0, 7.0, false)
  {
    hide Next, Next2, Announced, SHOWN_CLIP, SECOND_CLIP, UNNOTED;
    ShownClip();
    SecondClip();
    LineEndsTheNote();
    CountedFromItsEnd();
  }

  // ---- a pause ---------------------------------------------------------------------------------

  const PAUSED := World(
    Ui(Record, true, true, 4.0, 0.0, 0.0, false, 0.0, 0.0, 0, true, true), 8.0,
    Engine(Record, true, 4.0, 4.0, false, 0.0, false, []), Lapse(0.0, 0.0, false), NoTake)

  lemma Paused()
    ensures Next2(Next3(START, Show, PressRecord(Launched), Tick(4.0)), PressPause, Tick(4.0)) == PAUSED
  {
    Obeys(Engine(Record, false, 4.0, 0.0, false, 0.0, false, []));
    hide Obey;
  }

  /** A visible overlay, a pause, and the usual stop: four seconds are announced, then eight; and
      between the two the overlay takes the paused engine for a running one. */
  lemma PausedStopMisleads()
    ensures var w := Next2(Next3(START, Show, PressRecord(Launched), Tick(4.0)), PressPause, Tick(4.0));
      var after := Next(w, Output(VideoLine));
      && w.engine.recorded == 4.0 && Announced(w) == [4.0]
      && after.engine.paused && !after.ui.paused
      && Handle(after.ui, after.now, Exit(0)).notices == [8.0]
  {
    Paused();
  }
}
