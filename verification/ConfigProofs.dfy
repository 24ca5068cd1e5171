/** What loads and setters keep, and exactly which values a saved config brings back. */
module ConfigProofs {
  import opened Options
  import opened TextLines
  import opened CText
  import opened ConfigSchema

  // ---- schema validity --------------------------------------------------------------------

  lemma LoadLineKeepsValid(schema: Schema, l: Loaded, raw: string)
    requires SchemaValid(schema, l.values)
    ensures SchemaValid(schema, LoadLine(schema, l, raw).values)
  {
  }

  lemma {:induction false} LoadKeepsValid(schema: Schema, l: Loaded, content: string)
    requires SchemaValid(schema, l.values)
    ensures SchemaValid(schema, LoadFrom(schema, l, content).values)
    decreases |content|
  {
    if content != [] {
      var n := LineLength(content);
      LoadLineKeepsValid(schema, l, content[..n]);
      LoadKeepsValid(schema, LoadLine(schema, l, content[..n]), content[n..]);
    }
  }

  datatype Call = LoadFile(content: string) | SetValue(name: string, v: Value)

  function Applied(schema: Schema, values: Values, call: Call): (r: Values)
    requires |values| == |schema|
    ensures |r| == |schema|
  {
    match call
    case LoadFile(content) => Load(schema, values, content).values
    case SetValue(name, v) =>
      var r := Set(schema, values, name, v);
      if r.Some? then r.value else values
  }

  function Run(schema: Schema, values: Values, calls: seq<Call>): (r: Values)
    requires |values| == |schema|
    ensures |r| == |schema|
    decreases |calls|
  {
    if calls == [] then values else Run(schema, Applied(schema, values, calls[0]), calls[1..])
  }

  /** Whatever files are loaded and whatever setters are called, with whatever arguments: every
      value stays one its schema entry admits. */
  lemma {:induction false} EveryRunStaysSchemaValid(schema: Schema, values: Values, calls: seq<Call>)
    requires SchemaValid(schema, values)
    ensures SchemaValid(schema, Run(schema, values, calls))
    decreases |calls|
  {
    if calls != [] {
      match calls[0]
      case LoadFile(content) =>
        LoadKeepsValid(schema, Loaded(values, 0), content);
        EveryRunStaysSchemaValid(schema, Load(schema, values, content).values, calls[1..]);
      case SetValue(name, v) =>
        var r := Set(schema, values, name, v);
        EveryRunStaysSchemaValid(schema, if r.Some? then r.value else values, calls[1..]);
    }
  }

  /** The option that a setter called with this name is about: the first one of that name. */
  predicate IsFirst(schema: Schema, name: string, i: nat) {
    i < |schema| && schema[i].name == name && forall j :: 0 <= j < i ==> schema[j].name != name
  }

  /** The value is of the entry's type, in its range if it has one, and in its list if it has one. */
  predicate Fitting(e: Entry, v: Value) {
    match e
    case BoolEntry(_, _) => v.BoolValue?
    case IntEntry(_, _, min, max) => v.IntValue? && (min > max || min <= v.i <= max)
    case StringEntry(_, _, allowed) => v.StringValue? && (allowed.Some? ==> v.s in allowed.value)
  }

  /** A setter succeeds exactly when there is an option of that name and the value fits it; then that
      option has the value and every other option keeps its own. */
  lemma SettersStoreExactly(schema: Schema, values: Values, name: string, v: Value)
    requires |values| == |schema|
    ensures var r := Set(schema, values, name, v);
      && (r.Some? <==> exists i :: 0 <= i < |schema| && IsFirst(schema, name, i) && Fitting(schema[i], v))
      && (r.Some? ==> |r.value| == |values|)
      && (r.Some? ==> forall i :: 0 <= i < |schema| ==>
           r.value[i] == if IsFirst(schema, name, i) then v else values[i])
  {
    var i := FindOption(schema, name);
    if i != -1 { assert IsFirst(schema, name, i); }
  }

  lemma {:induction false} RunSnoc(schema: Schema, values: Values, calls: seq<Call>, call: Call)
    requires |values| == |schema|
    ensures Run(schema, values, calls + [call]) == Applied(schema, Run(schema, values, calls), call)
    decreases |calls|
  {
    hide Applied;
    if calls == [] {
      assert [call][1..] == [] && [] + [call] == [call];
    } else {
      assert (calls + [call])[1..] == calls[1..] + [call];
      RunSnoc(schema, Applied(schema, values, calls[0]), calls[1..], call);
    }
  }

  /** Some line of the file names option i. */
  predicate Names(schema: Schema, content: string, i: nat)
    decreases |content|
  {
    content != [] &&
    var n := LineLength(content);
    var line := StripEnd(content[..n], IsEol);
    var eq := IndexOf(line, '=');
    || (eq < |line| && FindOption(schema, Trim(line[..eq])) == i)
    || Names(schema, content[n..], i)
  }

  /** A load leaves every option alone that no line names. */
  lemma {:induction false} LoadChangesOnlyNamed(schema: Schema, l: Loaded, content: string, i: nat)
    requires |l.values| == |schema| && i < |schema| && !Names(schema, content, i)
    ensures LoadFrom(schema, l, content).values[i] == l.values[i]
    decreases |content|
  {
    if content != [] {
      var n := LineLength(content);
      LoadChangesOnlyNamed(schema, LoadLine(schema, l, content[..n]), content[n..], i);
    }
  }

  // ---- one line -----------------------------------------------------------------------------

  lemma {:induction false} StripEndConcat(a: string, b: string, p: char -> bool)
    requires a != [] && !p(a[|a| - 1])
    ensures StripEnd(a + b, p) == a + StripEnd(b, p)
  {
    if b != [] && p(b[|b| - 1]) {
      assert (a + b)[..|a + b| - 1] == a + b[..|b| - 1];
      StripEndConcat(a, b[..|b| - 1], p);
    } else if b == [] {
      assert a + b == a;
    }
  }

  lemma StripEol(s: string)
    ensures StripEnd(s + ['\r', '\n'], IsEol) == StripEnd(s, IsEol)
  {
    var t := s + ['\r', '\n'];
    assert t[..|t| - 1] == s + ['\r'] && (s + ['\r'])[..|s|] == s;
  }

  /** What a saved line does to its option. */
  function Restored(e: Entry, start: Value, v: Value): Value {
    match Accept(e, Cropped(Trim(StripEnd(Text(v), IsEol))))
    case Some(r) => r
    case None => start
  }

  lemma SavedLineParses(name: string, text: string)
    requires '=' !in name
    ensures var line := StripEnd(name + ['='] + text + ['\r', '\n'], IsEol);
      && IndexOf(line, '=') == |name| < |line|
      && line[..|name|] == name && line[|name| + 1..] == StripEnd(text, IsEol)
  {
    var head := name + ['='];
    StripEol(head + text);
    StripEndConcat(head, text, IsEol);
    hide StripEnd;
    IndexOfConcat(name, '=', StripEnd(text, IsEol));
    assert head + StripEnd(text, IsEol) == name + ['='] + StripEnd(text, IsEol);
  }

  lemma SavedLineLoads(schema: Schema, l: Loaded, i: nat, v: Value)
    requires GoodSchema(schema) && |l.values| == |schema| && i < |schema|
    ensures LoadLine(schema, l, SaveLine(schema[i], v)).values == l.values[i := Restored(schema[i], l.values[i], v)]
  {
    OptionFound(schema, i);
    hide StripEnd, Trim, Accept, GoodSchema, FindOption, Cropped, Text;
    SavedLineParses(schema[i].name, Text(v));
    LineWithKeyLoads(schema, l, SaveLine(schema[i], v), schema[i].name, StripEnd(Text(v), IsEol));
  }

  lemma LineWithKeyLoads(schema: Schema, l: Loaded, raw: string, name: string, value: string)
    requires |l.values| == |schema| && Trim(name) == name
    requires var line := StripEnd(raw, IsEol);
      IndexOf(line, '=') == |name| < |line| && line[..|name|] == name && line[|name| + 1..] == value
    ensures var i := FindOption(schema, name);
      i != -1 ==>
        LoadLine(schema, l, raw).values ==
          match Accept(schema[i], Cropped(Trim(value)))
          case Some(v) => l.values[i := v]
          case None => l.values
  {
    hide StripEnd, Trim, Accept, FindOption, Cropped;
  }

  lemma OptionFound(schema: Schema, i: nat)
    requires GoodSchema(schema) && i < |schema|
    ensures GoodName(schema[i].name) && FindOption(schema, schema[i].name) == i
  {
  }

  // ---- the whole file -------------------------------------------------------------------------

  /** A value whose text stays on its line and in its buffer. */
  predicate Fits(v: Value) { v.StringValue? ==> '\n' !in v.s && |v.s| < VALUE_BUFFER }

  function Power10(k: nat): nat { if k == 0 then 1 else 10 * Power10(k - 1) }

  lemma {:induction false} DigitCount(n: nat, k: nat)
    requires n < Power10(k) && k > 0
    ensures |Digits(n)| <= k
    decreases k
  {
    if n >= 10 { DigitCount(n / 10, k - 1); }
  }

  /** Every 64-bit number prints in at most twenty digits. */
  lemma DigitsOfI64(i: I64)
    ensures var n: int := i; |Digits(if n < 0 then -n else n)| <= 20
  {
    var n: int := i;
    assert Power10(5) == 100_000;
    assert Power10(10) == 10_000_000_000;
    assert Power10(15) == 1_000_000_000_000_000;
    assert Power10(20) == 100_000_000_000_000_000_000;
    DigitCount(if n < 0 then -n else n, 20);
  }

  lemma PrintedIsShort(i: I64)
    ensures '\n' !in PrintInt(i) && |PrintInt(i)| <= 21
  {
    DigitsOfI64(i);
  }

  lemma TextIsShort(e: Entry, v: Value)
    requires GoodName(e.name) && Fits(v)
    ensures '\n' !in Text(v) && |SaveLine(e, v)| <= LINE_BUFFER - 1
  {
    if v.IntValue? { PrintedIsShort(v.i); }
    hide PrintInt, Trim;
  }

  lemma SavedLineIsOneLine(e: Entry, v: Value, rest: string)
    requires GoodName(e.name) && Fits(v)
    ensures var line := SaveLine(e, v);
      && line + rest != [] && LineLength(line + rest) == |line|
      && (line + rest)[..|line|] == line && (line + rest)[|line|..] == rest
  {
    var line := SaveLine(e, v);
    TextIsShort(e, v);
    var body := e.name + ['='] + Text(v) + ['\r'];
    assert line == body + ['\n'];
    IndexOfConcat(body, '\n', rest);
    assert body + ['\n'] + rest == line + rest;
  }

  /** The saved line of option i is loaded first. */
  lemma FirstSavedLoads(schema: Schema, l: Loaded, saved: Values, i: nat)
    requires GoodSchema(schema) && |l.values| == |saved| == |schema| && i < |schema| && Fits(saved[i])
    ensures LoadFrom(schema, l, SaveFrom(schema, saved, i)) ==
      LoadFrom(schema, LoadLine(schema, l, SaveLine(schema[i], saved[i])), SaveFrom(schema, saved, i + 1))
  {
    OptionFound(schema, i);
    SavedLineIsOneLine(schema[i], saved[i], SaveFrom(schema, saved, i + 1));
    hide GoodSchema, GoodName, LoadLine, SaveLine, LineLength;
  }

  /** The options from i on are restored, the others untouched. */
  predicate RestoredFrom(schema: Schema, start: Values, saved: Values, i: nat, after: Values) {
    && |start| == |saved| == |after| == |schema|
    && forall j :: 0 <= j < |schema| ==>
         after[j] == if j < i then start[j] else Restored(schema[j], start[j], saved[j])
  }

  lemma RestoredOneMore(schema: Schema, start: Values, saved: Values, i: nat, after: Values)
    requires |start| == |saved| == |schema| && i < |schema|
    requires RestoredFrom(schema, start[i := Restored(schema[i], start[i], saved[i])], saved, i + 1, after)
    ensures RestoredFrom(schema, start, saved, i, after)
  {
    hide Restored;
  }

  lemma NothingToLoad(schema: Schema, l: Loaded, saved: Values)
    requires |l.values| == |saved| == |schema|
    ensures
      RestoredFrom(schema, l.values, saved, |schema|, LoadFrom(schema, l, SaveFrom(schema, saved, |schema|)).values)
  {
  }

  /** Loading what was saved from option i on restores those options one by one. */
  lemma {:induction false} SavedLoads(schema: Schema, l: Loaded, saved: Values, i: nat)
    requires GoodSchema(schema) && |l.values| == |saved| == |schema| && i <= |schema|
    requires forall j :: 0 <= j < |saved| ==> Fits(saved[j])
    ensures RestoredFrom(schema, l.values, saved, i, LoadFrom(schema, l, SaveFrom(schema, saved, i)).values)
    decreases |schema| - i
  {
    hide GoodSchema, LoadLine, SaveLine, LoadFrom, SaveFrom, Restored, RestoredFrom;
    if i == |schema| {
      NothingToLoad(schema, l, saved);
    } else {
      var next := LoadLine(schema, l, SaveLine(schema[i], saved[i]));
      FirstSavedLoads(schema, l, saved, i);
      SavedLineLoads(schema, l, i, saved[i]);
      SavedLoads(schema, next, saved, i + 1);
      RestoredOneMore(schema, l.values, saved, i, LoadFrom(schema, next, SaveFrom(schema, saved, i + 1)).values);
    }
  }

  // ---- one value ------------------------------------------------------------------------------

  lemma {:induction false} StripEndShorter(s: string, p: char -> bool)
    ensures |StripEnd(s, p)| <= |s|
    ensures s != [] && !p(s[|s| - 1]) ==> StripEnd(s, p) == s
  {
  }

  lemma {:induction false} StripStartShorter(s: string)
    ensures |StripStart(s)| <= |s|
    ensures s != [] && !IsBlank(s[0]) ==> StripStart(s) == s
  {
    if s != [] && IsBlank(s[0]) { StripStartShorter(s[1..]); }
  }

  lemma PlainTextStays(s: string)
    requires s != [] && !IsBlank(s[0]) && !IsBlank(s[|s| - 1]) && !IsEol(s[|s| - 1]) && |s| < VALUE_BUFFER
    ensures Cropped(Trim(StripEnd(s, IsEol))) == s
  {
  }

  lemma NumbersAreRestored(e: Entry, start: Value, v: Value)
    requires Admits(e, v) && (v.BoolValue? || v.IntValue?)
    ensures Restored(e, start, v) == v
  {
    if v.BoolValue? { PlainTextStays(Text(v)); } else { IntIsAccepted(e, v.i); }
    hide Trim, StripEnd;
  }

  lemma IntIsAccepted(e: Entry, i: I64)
    requires e.IntEntry? && InRange(e, i)
    ensures Accept(e, Cropped(Trim(StripEnd(PrintInt(i), IsEol)))) == Some(IntValue(i))
  {
    IntTextStays(i);
    hide Trim, StripEnd, Cropped;
    ScanPrinted(i, []);
    assert PrintInt(i) + [] == PrintInt(i);
    hide PrintInt, ScanU;
  }

  lemma IntTextStays(i: I64)
    ensures Cropped(Trim(StripEnd(PrintInt(i), IsEol))) == PrintInt(i)
  {
    var n: int := i;
    var m: nat := if n < 0 then -n else n;
    DigitsOfI64(i);
    var d := Digits(m);
    assert '0' <= d[0] <= '9' && '0' <= d[|d| - 1] <= '9';
    hide Digits;
    assert PrintInt(i)[|PrintInt(i)| - 1] == d[|d| - 1];
    PlainTextStays(PrintInt(i));
  }

  /** A string comes back over the option's default exactly when it is clean. */
  lemma StringIsRestored(e: Entry, s: string)
    requires e.StringEntry? && Allowed(e, s) && Clean(e.stringDefault) && Fits(StringValue(s))
    ensures Restored(e, Default(e), StringValue(s)) == StringValue(s) <==> Clean(s)
  {
    StripEndShorter(s, IsEol);
    StripStartShorter(StripEnd(s, IsEol));
    StripEndShorter(StripStart(StripEnd(s, IsEol)), IsBlank);
    var t := Trim(StripEnd(s, IsEol));
    assert |t| <= |s|;
    hide Trim, StripEnd;
  }

  // ---- the round trip ---------------------------------------------------------------------------

  predicate Survives(v: Value) { v.StringValue? ==> Clean(v.s) && |v.s| < 1024 }

  lemma ValueIsRestored(e: Entry, v: Value)
    requires Admits(e, v) && Fits(v) && (e.StringEntry? ==> Clean(e.stringDefault))
    ensures Restored(e, Default(e), v) == v <==> Survives(v)
  {
    match v
    case StringValue(s) => StringIsRestored(e, s);
    case _ => NumbersAreRestored(e, Default(e), v);
  }

  predicate AllFit(values: Values) { forall i :: 0 <= i < |values| ==> Fits(values[i]) }

  lemma RoundTripOfFitting(schema: Schema, values: Values)
    requires GoodSchema(schema) && SchemaValid(schema, values) && AllFit(values)
    ensures Load(schema, Fresh(schema), Save(schema, values)).values == values <==>
              forall i :: 0 <= i < |values| ==> Survives(values[i])
  {
    SavedLoads(schema, Loaded(Fresh(schema), 0), values, 0);
    var r := Load(schema, Fresh(schema), Save(schema, values)).values;
    forall i | 0 <= i < |values| ensures r[i] == values[i] <==> Survives(values[i]) {
      assert r[i] == Restored(schema[i], Default(schema[i]), values[i]);
      ValueIsRestored(schema[i], values[i]);
    }
    hide Load, Save, Survives, GoodSchema, SchemaValid;
    SameEverywhere(r, values);
  }

  lemma SameEverywhere(r: Values, values: Values)
    requires |r| == |values| && forall i :: 0 <= i < |values| ==> (r[i] == values[i] <==> Survives(values[i]))
    ensures r == values <==> forall i :: 0 <= i < |values| ==> Survives(values[i])
  {
  }

  lemma {:induction false} StripEndAvoids(s: string, ch: char)
    requires IsEol(ch) && (s == [] || ch !in s[..|s| - 1])
    ensures ch !in StripEnd(s, IsEol)
  {
  }

  lemma {:induction false} TrimAvoids(s: string, ch: char)
    requires ch !in s
    ensures ch !in Trim(s)
  {
    StripStartAvoids(s, ch);
  }

  lemma {:induction false} StripStartAvoids(s: string, ch: char)
    requires ch !in s
    ensures ch !in StripStart(s)
  {
    if s != [] && IsBlank(s[0]) { StripStartAvoids(s[1..], ch); }
  }

  lemma RawLine(content: string)
    requires content != []
    ensures var raw := content[..LineLength(content)]; '\n' !in raw[..|raw| - 1]
  {
  }

  lemma LoadLineFits(schema: Schema, l: Loaded, raw: string)
    requires |l.values| == |schema| && AllFit(l.values)
    requires raw == [] || '\n' !in raw[..|raw| - 1]
    ensures AllFit(LoadLine(schema, l, raw).values)
  {
    StripEndAvoids(raw, '\n');
    var line := StripEnd(raw, IsEol);
    var eq := IndexOf(line, '=');
    if eq < |line| {
      TrimAvoids(line[eq + 1..], '\n');
      var text := Cropped(Trim(line[eq + 1..]));
      assert '\n' !in text && |text| < VALUE_BUFFER;
    }
  }

  lemma {:induction false} LoadFits(schema: Schema, l: Loaded, content: string)
    requires |l.values| == |schema| && AllFit(l.values)
    ensures AllFit(LoadFrom(schema, l, content).values)
    decreases |content|
  {
    if content != [] {
      var n := LineLength(content);
      RawLine(content);
      LoadLineFits(schema, l, content[..n]);
      LoadFits(schema, LoadLine(schema, l, content[..n]), content[n..]);
    }
  }

  lemma FreshFits(schema: Schema)
    requires GoodSchema(schema)
    ensures AllFit(Fresh(schema)) && SchemaValid(schema, Fresh(schema))
  {
  }

  lemma SurvivorsFit(values: Values)
    requires forall i :: 0 <= i < |values| ==> Survives(values[i])
    ensures AllFit(values)
  {
  }

  /** Saving and loading into a fresh config restores every value exactly when every string is
      trimmed, on one line, and shorter than the value buffer. */
  lemma RoundTripExactly(schema: Schema, values: Values)
    requires GoodSchema(schema) && SchemaValid(schema, values)
    ensures Load(schema, Fresh(schema), Save(schema, values)).values == values <==>
              forall i :: 0 <= i < |values| ==> Survives(values[i])
  {
    if AllFit(values) {
      RoundTripOfFitting(schema, values);
    } else {
      FreshFits(schema);
      LoadFits(schema, Loaded(Fresh(schema), 0), Save(schema, values));
      hide AllFit, Survives, GoodSchema;
      if forall i :: 0 <= i < |values| ==> Survives(values[i]) { SurvivorsFit(values); }
    }
  }
}
