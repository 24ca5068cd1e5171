/** The UI's config file (ui/src/Config.cpp): one "key value" line per option, and several
    tagged lines for a list of audio tracks. The option table is a map from keys to typed
    values; which keys exist does not matter here. */
module UiConfig {
  import opened Options
  import opened TextLines
  import opened CText

  datatype Track = Track(name: string, inputs: seq<string>, invert: bool)

  type I32 = n: int | -0x8000_0000 <= n < 0x8000_0000
  type U32 = n: int | 0 <= n < 0x1_0000_0000

  /** sscanf stores a number modulo the width of its target. */
  function ToI32(n: int): I32 { (n + 0x8000_0000) % 0x1_0000_0000 - 0x8000_0000 }
  function ToI64(n: int): I64 { (n + 0x8000_0000_0000_0000) % 0x1_0000_0000_0000_0000 - 0x8000_0000_0000_0000 }
  function ToU32(n: int): U32 { n % 0x1_0000_0000 }

  datatype Value =
    | Bool(b: bool)
    | Str(s: string)
    | Int(i: I32)
    | Hotkey(key: I64, modifiers: U32)
    | Tracks(tracks: seq<Track>)

  type Config = map<string, Value>

  const TAG := "[add_audio_track]"
  const NAME_PREFIX := "name:"
  const VERSION_KEY := "main.config_file_version"
  const CONFIG_FILE_VERSION := 2
  const REPLAY_MODE_KEY := "replay.turn_on_replay_automatically_mode"
  const OLD_REPLAY_MODE := "turn_on_at_fullscreen"
  const NEW_REPLAY_MODE := "turn_on_at_game_launch"

  function BoolText(b: bool): string { if b then "true" else "false" }

  // ---- save_config ---------------------------------------------------------------------

  function Versioned(c: Config): Config {
    if VERSION_KEY in c then c[VERSION_KEY := Int(CONFIG_FILE_VERSION)] else c
  }

  function InputLines(key: string, invert: bool, inputs: seq<string>): seq<string> {
    if inputs == [] then []
    else [key + [' '] + (BoolText(invert) + [' '] + CStr(inputs[0]))] + InputLines(key, invert, inputs[1..])
  }

  function TrackLines(key: string, t: Track): seq<string> {
    [key + [' '] + (BoolText(t.invert) + [' '] + TAG)]
    + (if t.name == [] then [] else [key + [' '] + (BoolText(t.invert) + [' '] + (NAME_PREFIX + CStr(t.name)))])
    + InputLines(key, t.invert, t.inputs)
  }

  function TracksLines(key: string, ts: seq<Track>): seq<string> {
    if ts == [] then [] else TrackLines(key, ts[0]) + TracksLines(key, ts[1..])
  }

  /** The lines that save_config prints for one option. A string may hold a newline, in which
      case its "line" is more than one line of the file. */
  function Block(key: string, v: Value): seq<string> {
    match v
    case Bool(b) => [key + [' '] + BoolText(b)]
    case Str(s) => [key + [' '] + CStr(s)]
    case Int(i) => [key + [' '] + PrintInt(i)]
    case Hotkey(k, m) => [key + [' '] + (PrintInt(k) + [' '] + PrintInt(m))]
    case Tracks(ts) => TracksLines(key, ts)
  }

  function Blocks(c: Config, order: seq<string>): seq<string>
    requires forall k :: k in order ==> k in c
  {
    if order == [] then [] else Block(order[0], c[order[0]]) + Blocks(c, order[1..])
  }

  /** The file content save_config leaves, visiting the options in the given order. */
  function Save(c: Config, order: seq<string>): string
    requires forall k :: k in order ==> k in c
  {
    JoinLines(Blocks(Versioned(c), order))
  }

  // ---- read_config ------------------------------------------------------------------------

  datatype KeyValue = KeyValue(key: string, value: string)

  function StripCR(s: string): string { if s != [] && s[|s| - 1] == '\r' then s[..|s| - 1] else s }

  /** parse_key_value. */
  function ParseKeyValue(line: string): Option<KeyValue> {
    var i := IndexOf(line, ' ');
    if i == |line| then None else Some(KeyValue(line[..i], StripCR(line[i + 1..])))
  }

  function ApplyInput(ts: seq<Track>, invert: bool, text: string): seq<Track> {
    if StartsWith(text, TAG) then ts + [Track("", [], invert)]
    else if ts == [] then ts
    else
      var last := ts[|ts| - 1].(invert := invert);
      var changed :=
        if StartsWith(text, NAME_PREFIX) then last.(name := text[5..]) else last.(inputs := last.inputs + [text]);
      ts[|ts| - 1 := changed]
  }

  function ApplyTrackValue(ts: seq<Track>, value: string): seq<Track> {
    var i := IndexOf(value, ' ');
    if i == |value| then ts else ApplyInput(ts, value[..i] == "true", value[i + 1..])
  }

  function ScanHotkey(value: string): Value {
    var k := ScanI(value);
    if k == NoScan then Hotkey(0, 0)
    else
      var m := ScanU(SkipSpace(k.rest));
      if m == NoScan then Hotkey(0, 0) else Hotkey(ToI64(k.value), ToU32(m.value))
  }

  /** What a non-empty value text does to an option. */
  function ApplyValue(v: Value, text: string): Value {
    match v
    case Bool(_) => Bool(text == "true")
    case Str(_) => Str(text)
    case Int(_) => Int(if ScanI(text) == NoScan then 0 else ToI32(ScanI(text).value))
    case Hotkey(_, _) => ScanHotkey(text)
    case Tracks(ts) => Tracks(ApplyTrackValue(ts, text))
  }

  function ApplyLine(c: Config, line: string): Config {
    match ParseKeyValue(line)
    case None => c
    case Some(kv) =>
      if kv.key == [] || kv.value == [] || kv.key !in c then c
      else c[kv.key := ApplyValue(c[kv.key], kv.value)]
  }

  function ApplyLines(c: Config, lines: seq<string>): Config
    decreases |lines|
  {
    if lines == [] then c else ApplyLines(ApplyLine(c, lines[0]), lines[1..])
  }

  function ClearTracks(v: Value): Value { if v.Tracks? then Tracks([]) else v }

  /** The defaults with all track lists emptied. */
  function Cleared(defaults: Config): Config { map k | k in defaults :: ClearTracks(defaults[k]) }

  function Migrate(c: Config): Config {
    if REPLAY_MODE_KEY in c && c[REPLAY_MODE_KEY] == Str(OLD_REPLAY_MODE)
    then c[REPLAY_MODE_KEY := Str(NEW_REPLAY_MODE)]
    else c
  }

  /** read_config. */
  function Read(defaults: Config, content: string): Config {
    Migrate(ApplyLines(Cleared(defaults), SplitLines(content)))
  }

  // ---- what survives ------------------------------------------------------------------------

  /** Text that the file format can carry. */
  predicate Plain(s: string) { '\n' !in s && '\0' !in s && (s != [] ==> s[|s| - 1] != '\r') }

  predicate PlainTrack(t: Track) {
    && Plain(t.name)
    && forall j :: 0 <= j < |t.inputs| ==>
         Plain(t.inputs[j]) && !("[add_audio_track]" <= t.inputs[j]) && !("name:" <= t.inputs[j])
  }

  /** An option value that comes back from the file, given the option's default. */
  predicate Survives(key: string, v: Value, default: Value) {
    match v
    case Str(s) =>
      && Plain(s)
      && (s == [] ==> default == Str([]))
      && !(key == REPLAY_MODE_KEY && s == OLD_REPLAY_MODE)
    case Tracks(ts) => forall j :: 0 <= j < |ts| ==> PlainTrack(ts[j])
    case _ => true
  }

  predicate SameKind(a: Value, b: Value) {
    match a
    case Bool(_) => b.Bool?
    case Str(_) => b.Str?
    case Int(_) => b.Int?
    case Hotkey(_, _) => b.Hotkey?
    case Tracks(_) => b.Tracks?
  }

  predicate GoodKey(k: string) { k != [] && ' ' !in k && '\n' !in k && '\0' !in k }

  /** A config and the defaults it is read over: the same options with the same types, keys
      that can be written, and defaults the format could carry. */
  predicate Compatible(c: Config, defaults: Config) {
    && c.Keys == defaults.Keys
    && forall k :: k in c ==>
         GoodKey(k) && SameKind(c[k], defaults[k]) && (defaults[k].Str? ==> Plain(defaults[k].s))
  }

  /** The options in some order, each once. */
  ghost predicate Lists(order: seq<string>, c: Config) {
    && (forall k :: k in order <==> k in c)
    && forall i, j :: 0 <= i < j < |order| ==> order[i] != order[j]
  }
}
