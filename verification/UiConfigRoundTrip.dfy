/** Exactly which configs come back from the file save_config writes. */
module UiConfigRoundTrip {
  import opened Options
  import opened TextLines
  import opened CText
  import opened UiConfig

  // ---- one line ------------------------------------------------------------------------

  lemma ParsesBack(key: string, value: string)
    requires GoodKey(key)
    ensures ParseKeyValue(key + [' '] + value) == Some(KeyValue(key, StripCR(value)))
  {
    IndexOfConcat(key, ' ', value);
  }

  /** What one printed line does to its own option. */
  lemma AppliesToItsKey(c: Config, key: string, value: string)
    requires GoodKey(key) && key in c
    ensures ApplyLine(c, key + [' '] + value) ==
              if StripCR(value) == [] then c else c[key := ApplyValue(c[key], StripCR(value))]
  {
    ParsesBack(key, value);
  }

  lemma {:induction false} ApplyConcat(c: Config, a: seq<string>, b: seq<string>)
    ensures ApplyLines(c, a + b) == ApplyLines(ApplyLines(c, a), b)
    decreases |a|
  {
    if a == [] {
      assert a + b == b;
    } else {
      assert (a + b)[0] == a[0] && (a + b)[1..] == a[1..] + b;
      ApplyConcat(ApplyLine(c, a[0]), a[1..], b);
    }
  }

  /** What a block of lines makes of the option's value; it depends on nothing else. */
  function BlockResult(start: Value, v: Value): Value {
    match v
    case Bool(b) => ApplyValue(start, BoolText(b))
    case Str(s) => if StripCR(CStr(s)) == [] then start else ApplyValue(start, StripCR(CStr(s)))
    case Int(i) => ApplyValue(start, PrintInt(i))
    case Hotkey(k, m) => ApplyValue(start, PrintInt(k) + [' '] + PrintInt(m))
    case Tracks(ts) => if start.Tracks? then Tracks(ReadTracks(start.tracks, ts)) else start
  }

  function ReadInputs(acc: seq<Track>, invert: bool, inputs: seq<string>): seq<Track>
    decreases |inputs|
  {
    if inputs == [] then acc
    else ReadInputs(ApplyInput(acc, invert, StripCR(CStr(inputs[0]))), invert, inputs[1..])
  }

  function ReadTrack(acc: seq<Track>, t: Track): seq<Track> {
    var acc1 := ApplyInput(acc, t.invert, TAG);
    var acc2 := if t.name == [] then acc1 else ApplyInput(acc1, t.invert, StripCR(NAME_PREFIX + CStr(t.name)));
    ReadInputs(acc2, t.invert, t.inputs)
  }

  function ReadTracks(acc: seq<Track>, ts: seq<Track>): seq<Track>
    decreases |ts|
  {
    if ts == [] then acc else ReadTracks(ReadTrack(acc, ts[0]), ts[1..])
  }

  lemma PrintedHasNoCR(n: int)
    ensures PrintInt(n) != [] && StripCR(PrintInt(n)) == PrintInt(n) && ' ' !in PrintInt(n) && '\n' !in PrintInt(n)
      && '\0' !in PrintInt(n)
  {
  }

  /** A track line is one value word followed by one input text. */
  lemma TrackLineApplies(c: Config, key: string, invert: bool, text: string)
    requires GoodKey(key) && key in c && c[key].Tracks?
    ensures ApplyLine(c, key + [' '] + (BoolText(invert) + [' '] + text)) ==
              c[key := Tracks(ApplyInput(c[key].tracks, invert, StripCR(text)))]
  {
    BoolTextEndsPlain(invert);
    hide ApplyLine, ApplyTrackValue, ApplyInput, StripCR, GoodKey, BoolText;
    var head := BoolText(invert) + [' '];
    StripCRAfter(head, text);
    TrackValueApplies(c[key].tracks, invert, StripCR(text));
    AppliesToItsKey(c, key, head + text);
  }

  lemma BoolTextEndsPlain(b: bool)
    ensures BoolText(b) != [] && ' ' !in BoolText(b)
  {
  }

  lemma StripCRAfter(head: string, text: string)
    requires head != [] && head[|head| - 1] != '\r'
    ensures StripCR(head + text) == head + StripCR(text)
  {
  }

  lemma TrackValueApplies(ts: seq<Track>, invert: bool, text: string)
    ensures ApplyTrackValue(ts, BoolText(invert) + [' '] + text) == ApplyInput(ts, invert, text)
  {
    IndexOfConcat(BoolText(invert), ' ', text);
    hide ApplyInput;
  }

  lemma {:induction false} InputLinesApply(c: Config, key: string, invert: bool, inputs: seq<string>)
    requires GoodKey(key) && key in c && c[key].Tracks?
    ensures ApplyLines(c, InputLines(key, invert, inputs)) ==
      c[key := Tracks(ReadInputs(c[key].tracks, invert, inputs))]
    decreases |inputs|
  {
    if inputs != [] {
      var line := key + [' '] + (BoolText(invert) + [' '] + CStr(inputs[0]));
      var rest := InputLines(key, invert, inputs[1..]);
      TrackLineApplies(c, key, invert, CStr(inputs[0]));
      assert ([line] + rest)[1..] == rest;
      InputLinesApply(ApplyLine(c, line), key, invert, inputs[1..]);
    }
  }

  lemma OneLine(c: Config, line: string)
    ensures ApplyLines(c, [line]) == ApplyLine(c, line)
  {
  }

  lemma TrackLinesApply(c: Config, key: string, t: Track)
    requires GoodKey(key) && key in c && c[key].Tracks?
    ensures ApplyLines(c, TrackLines(key, t)) == c[key := Tracks(ReadTrack(c[key].tracks, t))]
  {
    var tag := [key + [' '] + (BoolText(t.invert) + [' '] + TAG)];
    var nameLine := key + [' '] + (BoolText(t.invert) + [' '] + (NAME_PREFIX + CStr(t.name)));
    var name := if t.name == [] then [] else [nameLine];
    var inputs := InputLines(key, t.invert, t.inputs);
    hide ApplyLines, ApplyLine, ApplyInput, InputLines, GoodKey, StripCR;
    TrackLineApplies(c, key, t.invert, TAG);
    assert StripCR(TAG) == TAG by { TagIsPlain(); }
    OneLine(c, tag[0]);
    var c1 := ApplyLine(c, tag[0]);
    if t.name != [] {
      TrackLineApplies(c1, key, t.invert, NAME_PREFIX + CStr(t.name));
      OneLine(c1, name[0]);
    } else {
      Nothing(c1);
    }
    ApplyConcat(c, tag, name);
    ApplyConcat(c, tag + name, inputs);
    InputLinesApply(ApplyLines(c1, name), key, t.invert, t.inputs);
  }

  lemma TagIsPlain()
    ensures StripCR(TAG) == TAG
  {
  }

  lemma Nothing(c: Config)
    ensures ApplyLines(c, []) == c
  {
  }

  lemma {:induction false} TracksLinesApply(c: Config, key: string, ts: seq<Track>)
    requires GoodKey(key) && key in c && c[key].Tracks?
    ensures ApplyLines(c, TracksLines(key, ts)) == c[key := Tracks(ReadTracks(c[key].tracks, ts))]
    decreases |ts|
  {
    if ts != [] {
      ApplyConcat(c, TrackLines(key, ts[0]), TracksLines(key, ts[1..]));
      TrackLinesApply(c, key, ts[0]);
      TracksLinesApply(ApplyLines(c, TrackLines(key, ts[0])), key, ts[1..]);
    }
  }

  /** A block changes its own option, to its block result, and no other. */
  lemma BlockApplies(c: Config, key: string, v: Value)
    requires GoodKey(key) && key in c && SameKind(v, c[key])
    ensures ApplyLines(c, Block(key, v)) == c[key := BlockResult(c[key], v)]
  {
    match v
    case Tracks(ts) => TracksLinesApply(c, key, ts);
    case Bool(b) =>
      OneLine(c, Block(key, v)[0]);
      AppliesToItsKey(c, key, BoolText(b));
    case Str(s) =>
      OneLine(c, Block(key, v)[0]);
      AppliesToItsKey(c, key, CStr(s));
    case Int(i) =>
      OneLine(c, Block(key, v)[0]);
      AppliesToItsKey(c, key, PrintInt(i));
      PrintedHasNoCR(i);
    case Hotkey(k, m) =>
      OneLine(c, Block(key, v)[0]);
      AppliesToItsKey(c, key, PrintInt(k) + [' '] + PrintInt(m));
      PrintedHasNoCR(m);
  }

  /** All blocks: every listed option gets its own block result. */
  lemma {:induction false} BlocksApply(c: Config, saved: Config, order: seq<string>)
    requires forall k :: k in order ==> k in saved && k in c && GoodKey(k) && SameKind(saved[k], c[k])
    requires forall i, j :: 0 <= i < j < |order| ==> order[i] != order[j]
    ensures ApplyLines(c, Blocks(saved, order)) ==
              map k | k in c :: if k in order then BlockResult(c[k], saved[k]) else c[k]
    decreases |order|
  {
    hide BlockResult, ApplyLines, Blocks, GoodKey, SameKind;
    if order == [] {
      NoBlocks(c, saved);
      assert c == map k | k in c :: if k in order then BlockResult(c[k], saved[k]) else c[k];
    } else {
      FirstBlockApplies(c, saved, order);
      var k0, rest := order[0], order[1..];
      assert k0 !in rest;
      assert forall k :: k in order <==> k == k0 || k in rest;
      BlockResultKind(c[k0], saved[k0]);
      BlocksApply(c[k0 := BlockResult(c[k0], saved[k0])], saved, rest);
    }
  }

  lemma NoBlocks(c: Config, saved: Config)
    ensures ApplyLines(c, Blocks(saved, [])) == c
  {
  }

  lemma FirstBlockApplies(c: Config, saved: Config, order: seq<string>)
    requires order != [] && forall k :: k in order ==> k in saved
    requires var k := order[0]; k in c && GoodKey(k) && SameKind(saved[k], c[k])
    ensures var k := order[0];
      ApplyLines(c, Blocks(saved, order)) ==
        ApplyLines(c[k := BlockResult(c[k], saved[k])], Blocks(saved, order[1..]))
  {
    hide BlockResult, ApplyLines, Block, GoodKey, SameKind;
    var k := order[0];
    ApplyConcat(c, Block(k, saved[k]), Blocks(saved, order[1..]));
    BlockApplies(c, k, saved[k]);
  }

  lemma BlockResultKind(start: Value, v: Value)
    requires SameKind(v, start)
    ensures SameKind(v, BlockResult(start, v))
  {
  }

  // ---- lines that say nothing, and numbers that are none ------------------------------------

  /** A line without a space, with an empty key or an unknown one, or with nothing or only a carriage
      return behind its first space changes nothing. */
  lemma OddLinesChangeNothing(c: Config, line: string)
    requires var i := IndexOf(line, ' ');
      i == |line| || i == 0 || line[..i] !in c || i + 1 == |line| || line[i + 1..] == "\r"
    ensures ApplyLine(c, line) == c
  {
    hide ApplyValue;
    var i := IndexOf(line, ' ');
    if i < |line| && line[i + 1..] == "\r" { assert StripCR("\r") == []; }
  }

  /** Up to i white space, up to j a sign or nothing, and no digit there. */
  predicate NoDigitAt(text: string, i: nat, j: nat) {
    && i <= j <= |text| && j <= i + 1
    && (forall k :: 0 <= k < i ==> IsSpace(text[k])) && (i < |text| ==> !IsSpace(text[i]))
    && (i < |text| ==> (i < j <==> text[i] == '-' || text[i] == '+'))
    && (j < |text| ==> !('0' <= text[j] <= '9'))
  }

  predicate NoNumber(text: string) { exists i, j :: 0 <= i <= j <= |text| && NoDigitAt(text, i, j) }

  lemma {:induction false} SpaceIsSkipped(text: string, i: nat)
    requires i <= |text| && (forall k :: 0 <= k < i ==> IsSpace(text[k])) && (i < |text| ==> !IsSpace(text[i]))
    ensures SkipSpace(text) == text[i..]
  {
    if i > 0 {
      assert forall k :: 0 <= k < i - 1 ==> text[1..][k] == text[k + 1];
      SpaceIsSkipped(text[1..], i - 1);
      assert text[1..][i - 1..] == text[i..];
    } else {
      assert text[0..] == text;
    }
  }

  lemma NoNumberIsScanned(text: string)
    requires NoNumber(text)
    ensures ScanI(text) == NoScan && ScanU(text) == NoScan
  {
    var i, j :| 0 <= i <= j <= |text| && NoDigitAt(text, i, j);
    SpaceIsSkipped(text, i);
    SignIsSkipped(text, i, j);
    hide SkipSpace, NoDigitAt, Unsigned;
  }

  lemma SignIsSkipped(text: string, i: nat, j: nat)
    requires NoDigitAt(text, i, j)
    ensures var q := Unsigned(text[i..]); q == text[j..] && PrefixedNumber(q) == NoScan && DecimalNumber(q) == NoScan
  {
    assert Unsigned(text[i..]) == text[j..];
  }

  /** What is not a number is read as zero, and a hotkey whose key or modifiers are none as no hotkey;
      only "true" is true. */
  lemma GarbageIsNothing(start: Value, text: string)
    ensures start.Bool? ==> ApplyValue(start, text) == Bool(text == "true")
    ensures NoNumber(text) && start.Int? ==> ApplyValue(start, text) == Int(0)
    ensures NoNumber(text) && start.Hotkey? ==> ApplyValue(start, text) == Hotkey(0, 0)
    ensures start.Hotkey? && ScanI(text).Scanned? && NoNumber(SkipSpace(ScanI(text).rest)) ==>
              ApplyValue(start, text) == Hotkey(0, 0)
  {
    hide ScanI, ScanU, NoNumber;
    if NoNumber(text) { NoNumberIsScanned(text); }
    if ScanI(text).Scanned? && NoNumber(SkipSpace(ScanI(text).rest)) {
      NoNumberIsScanned(SkipSpace(ScanI(text).rest));
    }
  }

  // ---- characters that cannot come out of the file ------------------------------------------

  predicate TrackAvoids(t: Track, ch: char) {
    ch !in t.name && forall j :: 0 <= j < |t.inputs| ==> ch !in t.inputs[j]
  }

  predicate TracksAvoid(ts: seq<Track>, ch: char) { forall j :: 0 <= j < |ts| ==> TrackAvoids(ts[j], ch) }

  predicate Avoids(v: Value, ch: char) {
    match v
    case Str(s) => ch !in s
    case Tracks(ts) => TracksAvoid(ts, ch)
    case _ => true
  }

  predicate ConfigAvoids(c: Config, ch: char) { forall k :: k in c ==> Avoids(c[k], ch) }

  lemma ApplyTrackAvoids(ts: seq<Track>, value: string, ch: char)
    requires TracksAvoid(ts, ch) && ch !in value
    ensures TracksAvoid(ApplyTrackValue(ts, value), ch)
  {
  }

  lemma ApplyLineAvoids(c: Config, line: string, ch: char)
    requires ConfigAvoids(c, ch) && ch !in line
    ensures ConfigAvoids(ApplyLine(c, line), ch)
  {
    match ParseKeyValue(line)
    case None =>
    case Some(kv) =>
      assert ch !in kv.value;
      if kv.key in c && c[kv.key].Tracks? {
        assert Avoids(c[kv.key], ch);
        ApplyTrackAvoids(c[kv.key].tracks, kv.value, ch);
      }
  }

  lemma {:induction false} ApplyLinesAvoid(c: Config, lines: seq<string>, ch: char)
    requires ConfigAvoids(c, ch) && forall j :: 0 <= j < |lines| ==> ch !in lines[j]
    ensures ConfigAvoids(ApplyLines(c, lines), ch)
    decreases |lines|
  {
    if lines != [] {
      ApplyLineAvoids(c, lines[0], ch);
      ApplyLinesAvoid(ApplyLine(c, lines[0]), lines[1..], ch);
    }
  }

  lemma ReadAvoids(defaults: Config, content: string, ch: char)
    requires ch == '\n' || (ch == '\0' && ch !in content)
    requires forall k :: k in defaults && defaults[k].Str? ==> ch !in defaults[k].s
    ensures ConfigAvoids(Read(defaults, content), ch)
  {
    SplitAvoids(content, ch);
    ApplyLinesAvoid(Cleared(defaults), SplitLines(content), ch);
  }

  lemma {:induction false} InputLinesAvoid(key: string, invert: bool, inputs: seq<string>, ch: char)
    requires GoodKey(key) && (ch == '\0' || (ch == '\n' && forall j :: 0 <= j < |inputs| ==> ch !in inputs[j]))
    ensures forall j :: 0 <= j < |InputLines(key, invert, inputs)| ==> ch !in InputLines(key, invert, inputs)[j]
  {
    if inputs != [] { InputLinesAvoid(key, invert, inputs[1..], ch); }
  }

  lemma {:induction false} TracksLinesAvoid(key: string, ts: seq<Track>, ch: char)
    requires GoodKey(key) && (ch == '\0' || (ch == '\n' && TracksAvoid(ts, ch)))
    ensures forall j :: 0 <= j < |TracksLines(key, ts)| ==> ch !in TracksLines(key, ts)[j]
  {
    if ts != [] {
      TrackLinesAvoid(key, ts[0], ch);
      hide TrackLines, TrackAvoids, GoodKey;
      TracksLinesAvoid(key, ts[1..], ch);
    }
  }

  lemma TrackLinesAvoid(key: string, t: Track, ch: char)
    requires GoodKey(key) && (ch == '\0' || (ch == '\n' && TrackAvoids(t, ch)))
    ensures forall j :: 0 <= j < |TrackLines(key, t)| ==> ch !in TrackLines(key, t)[j]
  {
    InputLinesAvoid(key, t.invert, t.inputs, ch);
    hide InputLines;
    assert ch !in BoolText(t.invert) && ch !in TAG && ch !in NAME_PREFIX;
  }

  lemma BlockAvoids(key: string, v: Value, ch: char)
    requires GoodKey(key) && (ch == '\0' || (ch == '\n' && Avoids(v, ch)))
    ensures forall j :: 0 <= j < |Block(key, v)| ==> ch !in Block(key, v)[j]
  {
    match v
    case Tracks(ts) => TracksLinesAvoid(key, ts, ch);
    case Int(i) => PrintedHasNoCR(i);
    case Hotkey(k, m) =>
      PrintedHasNoCR(k);
      PrintedHasNoCR(m);
    case _ =>
  }

  lemma {:induction false} BlocksAvoid(c: Config, order: seq<string>, ch: char)
    requires forall k :: k in order ==> k in c && GoodKey(k) && (ch == '\0' || (ch == '\n' && Avoids(c[k], ch)))
    ensures forall j :: 0 <= j < |Blocks(c, order)| ==> ch !in Blocks(c, order)[j]
  {
    if order != [] {
      BlockAvoids(order[0], c[order[0]], ch);
      BlocksAvoid(c, order[1..], ch);
    }
  }

  lemma {:induction false} JoinAvoids(lines: seq<string>, ch: char)
    requires ch != '\n' && forall j :: 0 <= j < |lines| ==> ch !in lines[j]
    ensures ch !in JoinLines(lines)
  {
    if lines != [] { JoinAvoids(lines[1..], ch); }
  }

  // ---- one value ------------------------------------------------------------------------------

  predicate NoBreaks(v: Value) { Avoids(v, '\n') && Avoids(v, '\0') }

  lemma IntComesBack(i: I32)
    ensures ScanI(PrintInt(i)) != NoScan && ToI32(ScanI(PrintInt(i)).value) == i
  {
    ScanPrinted(i, []);
    assert PrintInt(i) + [] == PrintInt(i);
  }

  lemma WidthsFit(k: I64, m: U32)
    ensures ToI64(k) == k && ToU32(m) == m
  {
  }

  lemma SpaceSkipped(m: U32)
    ensures SkipSpace([' '] + PrintInt(m)) == PrintInt(m)
  {
  }

  lemma HotkeyComesBack(k: I64, m: U32)
    ensures ScanHotkey(PrintInt(k) + [' '] + PrintInt(m)) == Hotkey(k, m)
  {
    var tail := [' '] + PrintInt(m);
    ScanPrinted(k, tail);
    ScanPrinted(m, []);
    SpaceSkipped(m);
    WidthsFit(k, m);
    assert PrintInt(m) + [] == PrintInt(m);
    Associative(PrintInt(k), [' '], PrintInt(m));
    hide ScanI, ScanU, PrintInt, SkipSpace, ToI64, ToU32;
  }

  lemma NumbersComeBack(start: Value, v: Value)
    requires SameKind(v, start) && (v.Bool? || v.Int? || v.Hotkey?)
    ensures BlockResult(start, v) == v
  {
    hide ScanI, ScanHotkey, PrintInt;
    match v
    case Bool(b) =>
    case Int(i) => IntComesBack(i);
    case Hotkey(k, m) => HotkeyComesBack(k, m);
    case _ =>
  }

  lemma StringComesBack(start: Value, s: string)
    requires start.Str? && Plain(start.s) && '\n' !in s && '\0' !in s
    ensures BlockResult(start, Str(s)) == Str(s) <==> Plain(s) && (s == [] ==> start.s == [])
  {
  }

  // ---- track lists ------------------------------------------------------------------------------

  predicate IsTag(text: string) { StartsWith(StripCR(CStr(text)), TAG) }
  predicate IsName(text: string) { StartsWith(StripCR(CStr(text)), NAME_PREFIX) }

  function Count(inputs: seq<string>, p: string -> bool): nat {
    if inputs == [] then 0 else (if p(inputs[0]) then 1 else 0) + Count(inputs[1..], p)
  }

  lemma {:induction false} CountZero(inputs: seq<string>, p: string -> bool)
    ensures Count(inputs, p) == 0 <==> forall j :: 0 <= j < |inputs| ==> !p(inputs[j])
  {
    if inputs != [] {
      CountZero(inputs[1..], p);
      assert forall j :: 1 <= j < |inputs| ==> inputs[j] == inputs[1..][j - 1];
      assert forall j :: 0 <= j < |inputs| - 1 ==> inputs[1..][j] == inputs[j + 1];
    }
  }

  /** Every tag among the inputs opens one more track. */
  lemma {:induction false} TagsOpenTracks(acc: seq<Track>, invert: bool, inputs: seq<string>)
    requires acc != []
    ensures |ReadInputs(acc, invert, inputs)| == |acc| + Count(inputs, IsTag)
    decreases |inputs|
  {
    if inputs != [] { TagsOpenTracks(ApplyInput(acc, invert, StripCR(CStr(inputs[0]))), invert, inputs[1..]); }
  }

  lemma NameLine(name: string)
    ensures StripCR(NAME_PREFIX + name) == NAME_PREFIX + StripCR(name)
    ensures !StartsWith(NAME_PREFIX + StripCR(name), TAG) && StartsWith(NAME_PREFIX + StripCR(name), NAME_PREFIX)
    ensures (NAME_PREFIX + StripCR(name))[5..] == StripCR(name)
  {
    var text := NAME_PREFIX + StripCR(name);
    assert text[0] == 'n' && TAG[0] == '[';
    assert text[..5] == NAME_PREFIX;
  }

  lemma TrackLength(acc: seq<Track>, t: Track)
    ensures |ReadTrack(acc, t)| == |acc| + 1 + Count(t.inputs, IsTag)
  {
    NameLine(CStr(t.name));
    hide StripCR, CStr;
    var acc1 := ApplyInput(acc, t.invert, TAG);
    var acc2 := if t.name == [] then acc1 else ApplyInput(acc1, t.invert, StripCR(NAME_PREFIX + CStr(t.name)));
    TagsOpenTracks(acc2, t.invert, t.inputs);
  }

  function TagCount(ts: seq<Track>): nat {
    if ts == [] then 0 else Count(ts[0].inputs, IsTag) + TagCount(ts[1..])
  }

  lemma {:induction false} TracksLength(acc: seq<Track>, ts: seq<Track>)
    ensures |ReadTracks(acc, ts)| == |acc| + |ts| + TagCount(ts)
    decreases |ts|
  {
    if ts != [] {
      TrackLength(acc, ts[0]);
      TracksLength(ReadTrack(acc, ts[0]), ts[1..]);
    }
  }

  lemma {:induction false} NoTags(ts: seq<Track>)
    requires TagCount(ts) == 0
    ensures forall j :: 0 <= j < |ts| ==> Count(ts[j].inputs, IsTag) == 0
  {
    if ts != [] { NoTags(ts[1..]); }
  }

  /** What becomes of a track whose inputs open no further track. */
  function Collect(t: Track, inputs: seq<string>): Track
    decreases |inputs|
  {
    if inputs == [] then t
    else
      var text := StripCR(CStr(inputs[0]));
      var t1 := if StartsWith(text, NAME_PREFIX) then t.(name := text[5..]) else t.(inputs := t.inputs + [text]);
      Collect(t1, inputs[1..])
  }

  lemma {:induction false} InputsCollect(acc: seq<Track>, t: Track, inputs: seq<string>)
    requires forall j :: 0 <= j < |inputs| ==> !IsTag(inputs[j])
    ensures ReadInputs(acc + [t], t.invert, inputs) == acc + [Collect(t, inputs)]
    decreases |inputs|
  {
    if inputs != [] {
      var text := StripCR(CStr(inputs[0]));
      assert !IsTag(inputs[0]);
      var t1 := if StartsWith(text, NAME_PREFIX) then t.(name := text[5..]) else t.(inputs := t.inputs + [text]);
      assert ApplyInput(acc + [t], t.invert, text) == acc + [t1];
      InputsCollect(acc, t1, inputs[1..]);
    }
  }

  function Opened(t: Track): Track { Track(StripCR(CStr(t.name)), [], t.invert) }

  lemma TrackCollects(acc: seq<Track>, t: Track)
    requires forall j :: 0 <= j < |t.inputs| ==> !IsTag(t.inputs[j])
    ensures ReadTrack(acc, t) == acc + [Collect(Opened(t), t.inputs)]
  {
    NameLine(CStr(t.name));
    var acc1 := ApplyInput(acc, t.invert, TAG);
    assert acc1 == acc + [Track("", [], t.invert)];
    if t.name == [] {
      assert Opened(t) == Track("", [], t.invert);
    } else {
      hide StripCR, CStr;
      assert ApplyInput(acc1, t.invert, StripCR(NAME_PREFIX + CStr(t.name))) == acc + [Opened(t)];
    }
    InputsCollect(acc, Opened(t), t.inputs);
  }

  function CollectAll(ts: seq<Track>): (r: seq<Track>)
    ensures |r| == |ts|
  {
    if ts == [] then [] else [Collect(Opened(ts[0]), ts[0].inputs)] + CollectAll(ts[1..])
  }

  lemma {:induction false} CollectAllAt(ts: seq<Track>, i: nat)
    requires i < |ts|
    ensures CollectAll(ts)[i] == Collect(Opened(ts[i]), ts[i].inputs)
  {
    if i > 0 { CollectAllAt(ts[1..], i - 1); }
  }

  lemma {:induction false} TracksCollect(acc: seq<Track>, ts: seq<Track>)
    requires forall i, j :: 0 <= i < |ts| && 0 <= j < |ts[i].inputs| ==> !IsTag(ts[i].inputs[j])
    ensures ReadTracks(acc, ts) == acc + CollectAll(ts)
    decreases |ts|
  {
    if ts == [] {
      assert acc + CollectAll(ts) == acc;
    } else {
      TrackCollects(acc, ts[0]);
      var first := [Collect(Opened(ts[0]), ts[0].inputs)];
      TracksCollect(acc + first, ts[1..]);
      Associative(acc, first, CollectAll(ts[1..]));
    }
  }

  /** Inputs that look like names are not collected as inputs. */
  lemma {:induction false} NamesAreNotInputs(t: Track, inputs: seq<string>)
    ensures |Collect(t, inputs).inputs| + Count(inputs, IsName) == |t.inputs| + |inputs|
    ensures Collect(t, inputs).invert == t.invert
    decreases |inputs|
  {
    if inputs != [] {
      var text := StripCR(CStr(inputs[0]));
      var t1 := if StartsWith(text, NAME_PREFIX) then t.(name := text[5..]) else t.(inputs := t.inputs + [text]);
      NamesAreNotInputs(t1, inputs[1..]);
    }
  }

  function Texts(inputs: seq<string>): seq<string> {
    seq(|inputs|, j requires 0 <= j < |inputs| => StripCR(CStr(inputs[j])))
  }

  lemma {:induction false} InputsKept(t: Track, inputs: seq<string>)
    requires forall j :: 0 <= j < |inputs| ==> !IsName(inputs[j])
    ensures Collect(t, inputs) == t.(inputs := t.inputs + Texts(inputs))
    decreases |inputs|
  {
    if inputs == [] {
      assert t.inputs + Texts(inputs) == t.inputs;
    } else {
      var text := StripCR(CStr(inputs[0]));
      assert !IsName(inputs[0]);
      InputsKept(t.(inputs := t.inputs + [text]), inputs[1..]);
      assert t.inputs + [text] + Texts(inputs[1..]) == t.inputs + Texts(inputs);
    }
  }

  predicate Untagged(t: Track) { forall j :: 0 <= j < |t.inputs| ==> !IsTag(t.inputs[j]) }

  /** A track comes back from its own lines exactly when it is plain. */
  lemma TrackComesBack(t: Track)
    requires TrackAvoids(t, '\n') && TrackAvoids(t, '\0') && Untagged(t)
    ensures Collect(Opened(t), t.inputs) == t <==> PlainTrack(t)
  {
    CStrOfPlain(t.name);
    forall j | 0 <= j < |t.inputs| ensures CStr(t.inputs[j]) == t.inputs[j] { CStrOfPlain(t.inputs[j]); }
    hide StartsWith, CStr, Collect, Count;
    NamesAreNotInputs(Opened(t), t.inputs);
    CountZero(t.inputs, IsName);
    if Count(t.inputs, IsName) == 0 {
      InputsKept(Opened(t), t.inputs);
      TextsKept(t.inputs);
      NamelessInputs(t);
    } else {
      var j :| 0 <= j < |t.inputs| && IsName(t.inputs[j]);
      NamedInputIsNotPlain(t.inputs[j]);
    }
  }

  /** A text that becomes a name when its carriage return is cut off is not a plain input. */
  lemma NamedInputIsNotPlain(text: string)
    requires CStr(text) == text && IsName(text)
    ensures StartsWith(text, NAME_PREFIX)
  {
  }

  lemma TextsKept(inputs: seq<string>)
    requires forall j :: 0 <= j < |inputs| ==> CStr(inputs[j]) == inputs[j]
    ensures Texts(inputs) == inputs <==> forall j :: 0 <= j < |inputs| ==> StripCR(inputs[j]) == inputs[j]
    ensures [] + Texts(inputs) == Texts(inputs)
  {
    hide CStr, StripCR;
    assert forall j :: 0 <= j < |inputs| ==> Texts(inputs)[j] == StripCR(inputs[j]);
  }

  /** Among inputs that are neither tags nor names, those that survive the cut are plain. */
  lemma NamelessInputs(t: Track)
    requires TrackAvoids(t, '\n') && TrackAvoids(t, '\0') && Untagged(t)
    requires forall j :: 0 <= j < |t.inputs| ==> CStr(t.inputs[j]) == t.inputs[j] && !IsName(t.inputs[j])
    ensures (StripCR(t.name) == t.name && forall j :: 0 <= j < |t.inputs| ==> StripCR(t.inputs[j]) == t.inputs[j]) <==>
              PlainTrack(t)
  {
    forall j | 0 <= j < |t.inputs|
      ensures StripCR(t.inputs[j]) == t.inputs[j] ==>
        !StartsWith(t.inputs[j], NAME_PREFIX) && !StartsWith(t.inputs[j], TAG)
    {
      assert !IsName(t.inputs[j]) && !IsTag(t.inputs[j]);
    }
    hide StartsWith, StripCR, CStr;
  }

  lemma UntaggedTracksComeBack(ts: seq<Track>)
    requires TracksAvoid(ts, '\n') && TracksAvoid(ts, '\0') && TagCount(ts) == 0
    ensures ReadTracks([], ts) == ts <==> forall j :: 0 <= j < |ts| ==> PlainTrack(ts[j])
  {
    NoTags(ts);
    forall i | 0 <= i < |ts| ensures Untagged(ts[i]) { CountZero(ts[i].inputs, IsTag); }
    TracksCollect([], ts);
    var r := CollectAll(ts);
    assert [] + r == r;
    forall i | 0 <= i < |ts| ensures r[i] == ts[i] <==> PlainTrack(ts[i]) {
      CollectAllAt(ts, i);
      TrackComesBack(ts[i]);
    }
    SamePointwise(r, ts);
  }

  lemma SamePointwise(r: seq<Track>, ts: seq<Track>)
    requires |r| == |ts| && forall i :: 0 <= i < |ts| ==> (r[i] == ts[i] <==> PlainTrack(ts[i]))
    ensures r == ts <==> forall i :: 0 <= i < |ts| ==> PlainTrack(ts[i])
  {
  }

  /** A track list comes back exactly when all its tracks are plain. */
  lemma TracksComeBack(ts: seq<Track>)
    requires TracksAvoid(ts, '\n') && TracksAvoid(ts, '\0')
    ensures ReadTracks([], ts) == ts <==> forall j :: 0 <= j < |ts| ==> PlainTrack(ts[j])
  {
    if TagCount(ts) == 0 {
      UntaggedTracksComeBack(ts);
    } else {
      TracksLength([], ts);
      var i, j := TaggedInput(ts);
      CStrOfPlain(ts[i].inputs[j]);
      hide ReadTracks, TagCount;
      assert StartsWith(ts[i].inputs[j], TAG);
      assert !PlainTrack(ts[i]);
    }
  }

  lemma {:induction false} TaggedInput(ts: seq<Track>) returns (i: nat, j: nat)
    requires TagCount(ts) > 0
    ensures i < |ts| && j < |ts[i].inputs| && IsTag(ts[i].inputs[j])
  {
    hide IsTag, Count;
    CountZero(ts[0].inputs, IsTag);
    if Count(ts[0].inputs, IsTag) > 0 {
      i := 0;
      j :| 0 <= j < |ts[0].inputs| && IsTag(ts[0].inputs[j]);
    } else {
      i, j := TaggedInput(ts[1..]);
      i := i + 1;
    }
  }

  // ---- the whole config ----------------------------------------------------------------------

  /** One option: its block result is its value, and the migration leaves it alone, exactly
      when the value survives. */
  lemma ValueComesBack(key: string, v: Value, default: Value)
    requires SameKind(v, default) && NoBreaks(v) && (default.Str? ==> Plain(default.s))
    ensures BlockResult(ClearTracks(default), v) == v && !(key == REPLAY_MODE_KEY && v == Str(OLD_REPLAY_MODE))
            <==> Survives(key, v, default)
  {
    match v
    case Str(s) => StringComesBack(default, s);
    case Tracks(ts) => TracksComeBack(ts);
    case _ => NumbersComeBack(default, v);
  }

  lemma SurvivorsHaveNoBreaks(key: string, v: Value, default: Value)
    requires Survives(key, v, default)
    ensures NoBreaks(v)
  {
  }

  /** Without line breaks and NULs in its strings, a saved config reads back to its block results. */
  lemma ReadsBlockResults(c: Config, defaults: Config, order: seq<string>)
    requires Compatible(c, defaults) && Lists(order, c) && forall k :: k in c ==> NoBreaks(c[k])
    ensures ApplyLines(Cleared(defaults), SplitLines(JoinLines(Blocks(c, order)))) ==
              map k | k in c :: BlockResult(ClearTracks(defaults[k]), c[k])
  {
    hide ApplyLines, SplitLines, JoinLines, Blocks, BlockResult, GoodKey, SameKind, Avoids, ClearTracks;
    BlocksAvoid(c, order, '\n');
    SplitJoined(Blocks(c, order));
    forall k | k in c ensures SameKind(c[k], Cleared(defaults)[k]) { ClearedKind(c[k], defaults[k]); }
    BlocksApply(Cleared(defaults), c, order);
  }

  lemma ClearedKind(v: Value, default: Value)
    requires SameKind(v, default)
    ensures SameKind(v, ClearTracks(default))
  {
  }

  /** read_config after save_config restores the config, whatever order the options are
      written in, exactly when every option value survives. */
  lemma RoundTripExactly(c: Config, defaults: Config, order: seq<string>)
    requires Compatible(c, defaults) && Compatible(Versioned(c), defaults) && Lists(order, c)
    ensures Read(defaults, Save(c, order)) == Versioned(c) <==>
              forall k :: k in c ==> Survives(k, Versioned(c)[k], defaults[k])
    ensures var key := "main.config_file_version";
      Versioned(c) == if key in c then c[key := Int(2)] else c
  {
    var v := Versioned(c);
    assert Lists(order, v);
    if forall k :: k in v ==> NoBreaks(v[k]) {
      RoundTripWithoutBreaks(v, defaults, order);
    } else {
      var k :| k in v && !NoBreaks(v[k]);
      NoBreaksComeOut(v, defaults, order);
      if Survives(k, v[k], defaults[k]) { SurvivorsHaveNoBreaks(k, v[k], defaults[k]); }
    }
  }

  lemma NoBreaksComeOut(v: Config, defaults: Config, order: seq<string>)
    requires Compatible(v, defaults) && Lists(order, v)
    ensures ConfigAvoids(Read(defaults, JoinLines(Blocks(v, order))), '\n')
    ensures ConfigAvoids(Read(defaults, JoinLines(Blocks(v, order))), '\0')
  {
    BlocksAvoid(v, order, '\0');
    JoinAvoids(Blocks(v, order), '\0');
    ReadAvoids(defaults, JoinLines(Blocks(v, order)), '\n');
    ReadAvoids(defaults, JoinLines(Blocks(v, order)), '\0');
  }

  lemma RoundTripWithoutBreaks(v: Config, defaults: Config, order: seq<string>)
    requires Compatible(v, defaults) && Lists(order, v) && forall k :: k in v ==> NoBreaks(v[k])
    ensures Read(defaults, JoinLines(Blocks(v, order))) == v <==> forall k :: k in v ==> Survives(k, v[k], defaults[k])
  {
    hide BlockResult, Survives, ApplyLines, Blocks, NoBreaks, JoinLines, SplitLines, Migrate;
    ReadsBlockResults(v, defaults, order);
    var raw := map k | k in v :: BlockResult(ClearTracks(defaults[k]), v[k]);
    assert Read(defaults, JoinLines(Blocks(v, order))) == Migrate(raw);
    forall k | k in v
      ensures raw[k] == v[k] && !(k == REPLAY_MODE_KEY && v[k] == Str(OLD_REPLAY_MODE))
        <==> Survives(k, v[k], defaults[k])
    {
      ValueComesBack(k, v[k], defaults[k]);
    }
    MigratedIsPlain(defaults, v);
    MigrationIsExact(raw, v);
  }

  /** The one replay mode that does not come back is the old name of a mode: it comes back as the new
      name, and everything else that survives comes back beside it. */
  lemma OldReplayModeComesBackRenamed(c: Config, defaults: Config, order: seq<string>)
    requires Compatible(c, defaults) && Compatible(Versioned(c), defaults) && Lists(order, c)
    requires var key := "replay.turn_on_replay_automatically_mode";
      && key in c && c[key] == Str("turn_on_at_fullscreen")
      && forall k :: k in c && k != key ==> Survives(k, Versioned(c)[k], defaults[k])
    ensures Read(defaults, Save(c, order)) ==
      Versioned(c)["replay.turn_on_replay_automatically_mode" := Str("turn_on_at_game_launch")]
  {
    hide BlockResult, ApplyLines, Blocks, JoinLines, SplitLines, Survives, Compatible, NoBreaks, Migrate;
    var v := Versioned(c);
    assert Lists(order, v);
    VersionedKeepsTheMode(c);
    SameKeys(v, defaults);
    forall k | k in v ensures NoBreaks(v[k]) && BlockResult(ClearTracks(defaults[k]), v[k]) == v[k] {
      BlockKeeps(v, defaults, k);
    }
    ReadsBlockResults(v, defaults, order);
    assert v == map k | k in v :: BlockResult(ClearTracks(defaults[k]), v[k]);
    Renamed(v);
  }

  lemma SameKeys(c: Config, defaults: Config)
    requires Compatible(c, defaults)
    ensures c.Keys == defaults.Keys
  {
  }

  lemma BlockKeeps(v: Config, defaults: Config, k: string)
    requires Compatible(v, defaults) && k in v
    requires if k == REPLAY_MODE_KEY then v[k] == Str(OLD_REPLAY_MODE) else Survives(k, v[k], defaults[k])
    ensures k in defaults && NoBreaks(v[k]) && BlockResult(ClearTracks(defaults[k]), v[k]) == v[k]
  {
    OldModeIsPlain();
    hide BlockResult, Survives, NoBreaks, Plain, GoodKey;
    if k == REPLAY_MODE_KEY {
      assert SameKind(v[k], defaults[k]);
      StringComesBack(defaults[k], OLD_REPLAY_MODE);
    } else {
      SurvivorsHaveNoBreaks(k, v[k], defaults[k]);
      ValueComesBack(k, v[k], defaults[k]);
    }
  }

  lemma Renamed(v: Config)
    requires var key := "replay.turn_on_replay_automatically_mode"; key in v && v[key] == Str("turn_on_at_fullscreen")
    ensures Migrate(v) == v["replay.turn_on_replay_automatically_mode" := Str("turn_on_at_game_launch")]
  {
  }

  lemma VersionedKeepsTheMode(c: Config)
    ensures Versioned(c).Keys == c.Keys
    ensures var key := "replay.turn_on_replay_automatically_mode";
      key == REPLAY_MODE_KEY && (key in c ==> Versioned(c)[key] == c[key])
  {
    KeysDiffer();
  }

  lemma OldModeIsPlain()
    ensures Plain(OLD_REPLAY_MODE) && NoBreaks(Str(OLD_REPLAY_MODE)) && OLD_REPLAY_MODE != []
  {
    assert OLD_REPLAY_MODE[|OLD_REPLAY_MODE| - 1] == 'n';
  }

  lemma KeysDiffer()
    ensures VERSION_KEY != REPLAY_MODE_KEY
  {
    assert VERSION_KEY[0] == 'm' && REPLAY_MODE_KEY[0] == 'r';
  }

  lemma MigratedIsPlain(defaults: Config, v: Config)
    requires Compatible(v, defaults) && forall k :: k in v ==> NoBreaks(v[k])
    ensures REPLAY_MODE_KEY in v && v[REPLAY_MODE_KEY] == Str(NEW_REPLAY_MODE) ==>
              BlockResult(ClearTracks(defaults[REPLAY_MODE_KEY]), v[REPLAY_MODE_KEY]) == v[REPLAY_MODE_KEY]
  {
    if REPLAY_MODE_KEY in v && v[REPLAY_MODE_KEY] == Str(NEW_REPLAY_MODE) {
      assert NoBreaks(v[REPLAY_MODE_KEY]);
      StringComesBack(defaults[REPLAY_MODE_KEY], NEW_REPLAY_MODE);
      assert NEW_REPLAY_MODE[|NEW_REPLAY_MODE| - 1] == 'h';
    }
  }

  lemma MigrationIsExact(raw: Config, v: Config)
    requires raw.Keys == v.Keys
    requires REPLAY_MODE_KEY in v && v[REPLAY_MODE_KEY] == Str(NEW_REPLAY_MODE)
      ==> raw[REPLAY_MODE_KEY] == v[REPLAY_MODE_KEY]
    ensures Migrate(raw) == v <==>
      forall k :: k in v ==> raw[k] == v[k] && !(k == REPLAY_MODE_KEY && v[k] == Str(OLD_REPLAY_MODE))
  {
  }
}
