/** The config object of the UI: read_config writes its fields line by line, save_config prints
    them in loops. */
module UiConfigStore {
  import opened Options
  import opened TextLines
  import opened CText
  import opened UiConfig

  /** Splitting and applying go hand in hand. */
  lemma ReadStep(c: Config, rest: string)
    requires rest != []
    ensures var i := IndexOf(rest, '\n');
      ApplyLines(c, SplitLines(rest)) ==
        ApplyLines(ApplyLine(c, rest[..i]), SplitLines(if i == |rest| then [] else rest[i + 1..]))
  {
  }

  lemma ReadEnd(c: Config)
    ensures ApplyLines(c, SplitLines([])) == c
  {
  }

  lemma SaveStep(c: Config, order: seq<string>, i: nat, done: string)
    requires i < |order| && forall k :: k in order ==> k in c
    ensures done + JoinLines(Blocks(c, order[i..])) ==
      done + JoinLines(Block(order[i], c[order[i]])) + JoinLines(Blocks(c, order[i + 1..]))
  {
    assert order[i..][1..] == order[i + 1..] && order[i..][0] == order[i];
    hide Block, JoinLines;
    JoinConcat(Block(order[i], c[order[i]]), Blocks(c, order[i + 1..]));
    Associative(done, JoinLines(Block(order[i], c[order[i]])), JoinLines(Blocks(c, order[i + 1..])));
  }

  lemma NothingToSave(c: Config, order: seq<string>)
    requires forall k :: k in order ==> k in c
    ensures JoinLines(Blocks(c, order[|order|..])) == []
  {
  }

  class Store {
    var values: Config

    /** A config with its defaults. */
    constructor (defaults: Config)
      ensures values == defaults
    {
      values := defaults;
    }

    /** The three audio track lists are emptied before the file is read. */
    method ClearTrackLists(keys: seq<string>)
      requires forall k :: k in values <==> k in keys
      modifies this
      ensures values == Cleared(old(values))
    {
      var i := 0;
      while i < |keys|
        invariant i <= |keys| && values.Keys == old(values).Keys
        invariant forall k :: k in values ==> values[k] == if k in keys[..i] then ClearTracks(old(values)[k])
          else old(values)[k]
      {
        var k := keys[i];
        if values[k].Tracks? { values := values[k := Tracks([])]; }
        i := i + 1;
      }
      assert keys[..i] == keys;
    }

    /** The callback that read_config runs for one line. */
    method ReadLine(line: string)
      modifies this
      ensures values == ApplyLine(old(values), line)
    {
      var kv := ParseKeyValue(line);
      if kv.None? { return; }
      var key, text := kv.value.key, kv.value.value;
      if key == [] || text == [] { return; }
      if key !in values { return; }
      match values[key] {
        case Bool(_) => values := values[key := Bool(text == "true")];
        case Str(_) => values := values[key := Str(text)];
        case Int(_) =>
          var scan := ScanI(text);
          values := values[key := Int(if scan == NoScan then 0 else ToI32(scan.value))];
        case Hotkey(_, _) => values := values[key := ScanHotkey(text)];
        case Tracks(tracks) =>
          var r := ReadTrackValue(tracks, text);
          values := values[key := Tracks(r)];
      }
    }

    /** The audio track branch of the callback. */
    static method ReadTrackValue(tracks: seq<Track>, text: string) returns (r: seq<Track>)
      ensures r == ApplyTrackValue(tracks, text)
    {
      var space := IndexOf(text, ' ');
      if space == |text| { return tracks; }
      var invert := text[..space] == "true";
      var input := text[space + 1..];
      if StartsWith(input, TAG) { return tracks + [Track("", [], invert)]; }
      if tracks == [] { return tracks; }
      var last := tracks[|tracks| - 1].(invert := invert);
      if StartsWith(input, NAME_PREFIX) { last := last.(name := input[5..]); }
      else { last := last.(inputs := last.inputs + [input]); }
      return tracks[|tracks| - 1 := last];
    }

    /** read_config, from the defaults in `this`; string_split_char is the loop. */
    method ReadFile(content: string, keys: seq<string>)
      requires forall k :: k in values <==> k in keys
      modifies this
      ensures values == Read(old(values), content)
    {
      ClearTrackLists(keys);
      hide ApplyLine, ApplyLines, SplitLines, Cleared;
      ghost var goal := ApplyLines(values, SplitLines(content));
      var index := 0;
      assert content[0..] == content;
      while index < |content|
        invariant index <= |content| && ApplyLines(values, SplitLines(content[index..])) == goal
      {
        var rest := content[index..];
        var length := IndexOf(rest, '\n');
        ReadStep(values, rest);
        ReadLine(rest[..length]);
        index := if length == |rest| then |content| else index + length + 1;
        assert content[index..] == if length == |rest| then [] else rest[length + 1..];
      }
      assert content[index..] == [];
      ReadEnd(values);
      if REPLAY_MODE_KEY in values && values[REPLAY_MODE_KEY] == Str(OLD_REPLAY_MODE) {
        values := values[REPLAY_MODE_KEY := Str(NEW_REPLAY_MODE)];
      }
    }

    /** save_config: the version is bumped in the object, then every option is printed. */
    method SaveFile(order: seq<string>) returns (content: string)
      requires forall k :: k in order ==> k in values
      modifies this
      ensures values == Versioned(old(values))
      ensures content == Save(old(values), order)
    {
      hide Blocks, JoinLines, Block;
      if VERSION_KEY in values { values := values[VERSION_KEY := Int(CONFIG_FILE_VERSION)]; }
      content := [];
      assert order[0..] == order && [] + JoinLines(Blocks(values, order)) == JoinLines(Blocks(values, order));
      for i := 0 to |order|
        invariant values == Versioned(old(values))
        invariant content + JoinLines(Blocks(values, order[i..])) == JoinLines(Blocks(values, order))
      {
        var lines := PrintOption(order[i], values[order[i]]);
        SaveStep(values, order, i, content);
        content := content + JoinLines(lines);
      }
      NothingToSave(values, order);
      assert content + [] == content;
    }

    /** The branches of the printing loop. */
    static method PrintOption(key: string, v: Value) returns (lines: seq<string>)
      ensures lines == Block(key, v)
    {
      match v {
        case Bool(b) => lines := [key + [' '] + BoolText(b)];
        case Str(s) => lines := [key + [' '] + CStr(s)];
        case Int(i) => lines := [key + [' '] + PrintInt(i)];
        case Hotkey(k, m) => lines := [key + [' '] + (PrintInt(k) + [' '] + PrintInt(m))];
        case Tracks(tracks) =>
          lines := [];
          var i := 0;
          while i < |tracks|
            invariant i <= |tracks|
            invariant lines + TracksLines(key, tracks[i..]) == TracksLines(key, tracks)
          {
            var one := PrintTrack(key, tracks[i]);
            assert tracks[i..][1..] == tracks[i + 1..];
            Associative(lines, one, TracksLines(key, tracks[i + 1..]));
            lines := lines + one;
            i := i + 1;
          }
      }
    }

    static method PrintTrack(key: string, t: Track) returns (lines: seq<string>)
      ensures lines == TrackLines(key, t)
    {
      lines := [key + [' '] + (BoolText(t.invert) + [' '] + TAG)];
      if t.name != [] { lines := lines + [key + [' '] + (BoolText(t.invert) + [' '] + (NAME_PREFIX + CStr(t.name)))]; }
      ghost var head := lines;
      assert head + InputLines(key, t.invert, t.inputs) == TrackLines(key, t);
      var i := 0;
      while i < |t.inputs|
        invariant i <= |t.inputs|
        invariant lines + InputLines(key, t.invert, t.inputs[i..]) == head + InputLines(key, t.invert, t.inputs)
      {
        var line := key + [' '] + (BoolText(t.invert) + [' '] + CStr(t.inputs[i]));
        assert t.inputs[i..][1..] == t.inputs[i + 1..];
        Associative(lines, [line], InputLines(key, t.invert, t.inputs[i + 1..]));
        lines := lines + [line];
        i := i + 1;
      }
      assert lines + [] == lines;
    }
  }
}
