/** The shipped schema of the UI (platform/windows/gsr_config_win32.c). */
module ConfigUiSchema {
  import opened Options
  import opened ConfigSchema
  import opened ConfigProofs

  const CODECS: Option<seq<string>> := Some(["h264", "hevc", "av1"])
  const STORAGES: Option<seq<string>> := Some(["ram", "disk"])

  const MAIN_OPTIONS: Schema := [
    IntEntry("main.config_file_version", 1, 1, 100),
    StringEntry("main.show_hide_hotkey", "alt+z", None),
    StringEntry("main.tint_color", "00000080", None),
    StringEntry("main.language", "en", None),
    BoolEntry("main.hotkeys_enable_option", true),
    BoolEntry("main.exclude_metadata", false)
  ]

  const RECORD_OPTIONS: Schema := [
    StringEntry("record.video_codec", "h264", CODECS),
    IntEntry("record.fps", 60, 1, 240),
    IntEntry("record.bitrate", 20000, 1000, 200000),
    StringEntry("record.save_directory", "", None)
  ]

  const REPLAY_OPTIONS: Schema := [
    StringEntry("replay.video_codec", "h264", CODECS),
    IntEntry("replay.fps", 60, 1, 240),
    IntEntry("replay.bitrate", 20000, 1000, 200000),
    IntEntry("replay.replay_buffer_size", 20, 1, 120),
    StringEntry("replay.replay_storage", "ram", STORAGES),
    StringEntry("replay.save_directory", "", None),
    StringEntry("screenshot.save_directory", "", None)
  ]

  const UI_SCHEMA: Schema := MAIN_OPTIONS + RECORD_OPTIONS + REPLAY_OPTIONS

  /** No blank, no control character and no equals sign. */
  predicate Plain(s: string) { forall i :: 0 <= i < |s| ==> ' ' < s[i] && s[i] != '=' }

  lemma PlainIsClean(s: string)
    requires Plain(s) && |s| <= 30
    ensures Clean(s) && GoodName(s)
  {
  }

  predicate PlainName(e: Entry) { Plain(e.name) && |e.name| <= 30 }

  lemma MainNames(i: nat)
    requires i < |MAIN_OPTIONS|
    ensures PlainName(MAIN_OPTIONS[i])
  {
    hide Plain;
    if i < 3 { MainNamesAreText(); } else { MoreMainNamesAreText(); }
  }

  lemma MainNamesAreText()
    ensures Plain("main.config_file_version") && Plain("main.show_hide_hotkey") && Plain("main.tint_color")
  {
  }

  lemma MoreMainNamesAreText()
    ensures Plain("main.language") && Plain("main.hotkeys_enable_option") && Plain("main.exclude_metadata")
  {
  }

  lemma RecordNames(i: nat)
    requires i < |RECORD_OPTIONS|
    ensures PlainName(RECORD_OPTIONS[i])
  {
  }

  lemma ReplayNames(i: nat)
    requires i < |REPLAY_OPTIONS|
    ensures PlainName(REPLAY_OPTIONS[i])
  {
    hide Plain;
    if i < 4 { ReplayNamesAreText(); } else { MoreReplayNamesAreText(); }
  }

  lemma ReplayNamesAreText()
    ensures Plain("replay.video_codec") && Plain("replay.fps") && Plain("replay.bitrate")
      && Plain("replay.replay_buffer_size")
  {
  }

  lemma MoreReplayNamesAreText()
    ensures Plain("replay.replay_storage") && Plain("replay.save_directory") && Plain("screenshot.save_directory")
  {
  }

  lemma NamesArePlain(i: nat)
    requires i < |UI_SCHEMA|
    ensures PlainName(UI_SCHEMA[i])
  {
    hide PlainName;
    if i < 6 { MainNames(i); } else if i < 10 { RecordNames(i - 6); } else { ReplayNames(i - 10); }
  }

  lemma DefaultsArePlain(i: nat)
    requires i < |UI_SCHEMA| && UI_SCHEMA[i].StringEntry?
    ensures Plain(UI_SCHEMA[i].stringDefault) && |UI_SCHEMA[i].stringDefault| <= 30
  {
  }

  lemma DefaultsAreAdmitted(i: nat)
    requires i < |UI_SCHEMA|
    ensures Admits(UI_SCHEMA[i], Default(UI_SCHEMA[i]))
  {
  }

  lemma ChoicesAreFixed(i: nat)
    requires i < |UI_SCHEMA| && UI_SCHEMA[i].StringEntry? && UI_SCHEMA[i].allowed.Some?
    ensures UI_SCHEMA[i].allowed == CODECS || UI_SCHEMA[i].allowed == STORAGES
  {
  }

  lemma ChoicesArePlain(s: string)
    requires s in CODECS.value || s in STORAGES.value
    ensures Plain(s) && |s| <= 30
  {
  }

  lemma NamesDiffer(i: nat, j: nat)
    requires i < j < |UI_SCHEMA|
    ensures UI_SCHEMA[i].name != UI_SCHEMA[j].name
  {
  }

  lemma UiSchemaIsGood()
    ensures GoodSchema(UI_SCHEMA)
  {
    hide Plain, GoodName, Clean, Admits, UI_SCHEMA, MAIN_OPTIONS, RECORD_OPTIONS, REPLAY_OPTIONS, CODECS, STORAGES;
    var schema := UI_SCHEMA;
    forall i | 0 <= i < |schema| ensures GoodName(schema[i].name) && Admits(schema[i], Default(schema[i])) {
      NamesArePlain(i);
      PlainIsClean(schema[i].name);
      DefaultsAreAdmitted(i);
    }
    forall i, j | 0 <= i < j < |schema| ensures schema[i].name != schema[j].name { NamesDiffer(i, j); }
    forall i | 0 <= i < |schema| && schema[i].StringEntry?
      ensures Clean(schema[i].stringDefault)
      ensures schema[i].allowed.Some? ==> forall s :: s in schema[i].allowed.value ==> Clean(s)
    {
      DefaultsArePlain(i);
      PlainIsClean(schema[i].stringDefault);
      forall s | schema[i].allowed.Some? && s in schema[i].allowed.value ensures Clean(s) {
        ChoicesAreFixed(i);
        ChoicesArePlain(s);
        PlainIsClean(s);
      }
    }
  }

  /** Whatever the user sets through the setters: the shipped config comes back from its file
      exactly when every text is clean. */
  lemma UiConfigRoundTrips(values: Values)
    requires SchemaValid(UI_SCHEMA, values)
    ensures Load(UI_SCHEMA, Fresh(UI_SCHEMA), Save(UI_SCHEMA, values)).values == values <==>
              forall i :: 0 <= i < |values| ==> Survives(values[i])
  {
    hide UI_SCHEMA, GoodSchema, SchemaValid, Load, Fresh, Save, Survives;
    UiSchemaIsGood();
    RoundTripExactly(UI_SCHEMA, values);
  }
}
