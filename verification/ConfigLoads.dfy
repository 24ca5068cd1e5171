/** What a load of any file does to every option, and which texts the options take. */
module ConfigLoads {
  import opened Options
  import opened TextLines
  import opened CText
  import opened ConfigSchema
  import opened ConfigProofs

  // ---- numbers ----------------------------------------------------------------------------------

  predicate AllDigits(s: string) { forall i :: 0 <= i < |s| ==> '0' <= s[i] <= '9' }

  function Number(digits: string): nat
    requires AllDigits(digits)
  {
    if digits == [] then 0
    else 10 * Number(digits[..|digits| - 1]) + (digits[|digits| - 1] - '0') as nat
  }

  predicate IsNumber(digits: string, n: int) { digits != [] && AllDigits(digits) && n == Number(digits) }

  predicate Numeral(q: string, n: int) {
    || IsNumber(q, n)
    || (q != [] && q[0] == '+' && IsNumber(q[1..], n))
    || (q != [] && q[0] == '-' && IsNumber(q[1..], -n))
  }

  /** A decimal number as strtoll takes it: white space, a sign or none, digits to the end. */
  predicate Decimal(text: string, n: int) {
    exists i :: 0 <= i <= |text| && (forall j :: 0 <= j < i ==> IsSpace(text[j])) && Numeral(text[i..], n)
  }

  lemma {:induction false} DecimalSkips(text: string, n: int)
    ensures Decimal(text, n) <==> Numeral(SkipSpace(text), n)
  {
    hide Numeral;
    if text != [] && IsSpace(text[0]) {
      DecimalSkips(text[1..], n);
      NumeralsDoNotStartBlank(text, n);
      assert text[0..] == text;
      if i :| 0 <= i <= |text| && (forall j :: 0 <= j < i ==> IsSpace(text[j])) && Numeral(text[i..], n) {
        assert text[i..] == text[1..][i - 1..];
        assert Decimal(text[1..], n);
      }
      var rest := text[1..];
      if i :| 0 <= i <= |rest| && (forall j :: 0 <= j < i ==> IsSpace(rest[j])) && Numeral(rest[i..], n) {
        assert rest[i..] == text[i + 1..];
        assert forall j :: 0 < j < i + 1 ==> text[j] == rest[j - 1];
        assert Decimal(text, n);
      }
    } else {
      assert text[0..] == text;
    }
  }

  lemma NumeralsDoNotStartBlank(q: string, n: int)
    ensures Numeral(q, n) ==> q != [] && !IsSpace(q[0])
  {
  }

  lemma {:induction false} ReadsOn(a: string, b: string, acc: nat)
    requires AllDigits(a)
    ensures ReadDigits(a, 10, acc).Scanned? && ReadDigits(a, 10, acc).value >= 0
    ensures ReadDigits(a + b, 10, acc) == ReadDigits(b, 10, ReadDigits(a, 10, acc).value)
    decreases |a|
  {
    if a == [] {
      assert a + b == b;
    } else {
      assert (a + b)[1..] == a[1..] + b;
      ReadsOn(a[1..], b, acc * 10 + DigitValue(a[0]));
    }
  }

  lemma {:induction false} DigitsRead(s: string)
    requires AllDigits(s)
    ensures ReadDigits(s, 10, 0) == Scanned(Number(s), [])
    decreases |s|
  {
    if s != [] {
      var init, last := s[..|s| - 1], s[|s| - 1];
      assert s == init + [last];
      DigitsRead(init);
      ReadsOn(init, [last], 0);
      assert [last][1..] == [];
    }
  }

  lemma {:induction false} ReadStops(s: string, acc: nat)
    requires !AllDigits(s)
    ensures ReadDigits(s, 10, acc).Scanned? && ReadDigits(s, 10, acc).rest != []
    decreases |s|
  {
    if '0' <= s[0] <= '9' {
      assert !AllDigits(s[1..]) by { assert forall i :: 0 <= i < |s[1..]| ==> s[1..][i] == s[i + 1]; }
      ReadStops(s[1..], acc * 10 + DigitValue(s[0]));
    }
  }

  lemma DecimalNumberIs(q: string, n: int)
    ensures DecimalNumber(q) == Scanned(n, []) <==> IsNumber(q, n)
  {
    if AllDigits(q) { DigitsRead(q); } else { ReadStops(q, 0); }
    hide ReadDigits, Number;
  }

  /** A text is taken for a number exactly when it is a decimal number, to its end, of 64 bits. */
  lemma ParseIntExactly(text: string, n: int)
    ensures ParseInt(text) == Some(n) <==>
      Decimal(text, n) && -0x8000_0000_0000_0000 <= n < 0x8000_0000_0000_0000
  {
    var q := SkipSpace(text);
    DecimalSkips(text, n);
    DecimalNumberIs(Unsigned(q), n);
    DecimalNumberIs(Unsigned(q), -n);
    hide DecimalNumber, SkipSpace, Decimal, IsNumber;
    NumberHasNoSign(q);
  }

  lemma NumberHasNoSign(q: string)
    ensures forall n: int :: IsNumber(q, n) ==> q != [] && q[0] != '-' && q[0] != '+'
  {
  }

  /** The value that a text stands for, for an option of this kind. */
  predicate ReadsAs(e: Entry, text: string, v: Value) {
    match e
    case BoolEntry(_, _) => (text == "true" && v == BoolValue(true)) || (text == "false" && v == BoolValue(false))
    case IntEntry(_, _, _, _) => v.IntValue? && Decimal(text, v.i) && Fitting(e, v)
    case StringEntry(_, _, _) => v == StringValue(text) && Fitting(e, v)
  }

  /** An option takes exactly the texts that stand for a value that fits it. */
  lemma AcceptExactly(e: Entry, text: string, v: Value)
    ensures Accept(e, text) == Some(v) <==> ReadsAs(e, text, v)
  {
    if e.IntEntry? {
      if v.IntValue? { ParseIntExactly(text, v.i); }
      if ParseInt(text).Some? { ParseIntExactly(text, ParseInt(text).value); }
    }
    hide ParseInt, Decimal;
  }

  // ---- lines --------------------------------------------------------------------------------------

  predicate AllBlank(s: string) { forall i :: 0 <= i < |s| ==> s[i] == ' ' || s[i] == '\t' }

  /** `t` is `s` without the blanks and tabs around it. */
  predicate IsTrimmed(s: string, t: string) {
    && (exists i, j :: 0 <= i <= j <= |s| && t == s[i..j] && AllBlank(s[..i]) && AllBlank(s[j..]))
    && (t != [] ==> !AllBlank([t[0]]) && !AllBlank([t[|t| - 1]]))
  }

  lemma {:induction false} StripStartIs(s: string)
    ensures var r := StripStart(s);
      |r| <= |s| && r == s[|s| - |r|..] && AllBlank(s[..|s| - |r|]) && (r != [] ==> !AllBlank([r[0]]))
  {
    if s != [] && IsBlank(s[0]) {
      StripStartIs(s[1..]);
      var r := StripStart(s[1..]);
      var k := |s| - |r|;
      assert StripStart(s) == r;
      hide StripStart;
      assert s[1..][k - 1..] == s[k..];
      forall i | 0 <= i < k ensures s[..k][i] == ' ' || s[..k][i] == '\t' {
        if i > 0 { assert s[1..][..k - 1][i - 1] == s[..k][i]; }
      }
    } else {
      assert StripStart(s) == s;
      assert s != [] ==> [s[0]][0] == s[0];
      hide StripStart;
    }
  }

  lemma {:induction false} StripEndIs(s: string)
    ensures var r := StripEnd(s, IsBlank); AllBlank(s[|r|..]) && (r != [] ==> !AllBlank([r[|r| - 1]]))
  {
    if s != [] && IsBlank(s[|s| - 1]) {
      StripEndIs(s[..|s| - 1]);
    } else if s != [] {
      assert [s[|s| - 1]][0] == s[|s| - 1];
    }
  }

  lemma TrimExactly(s: string)
    ensures IsTrimmed(s, Trim(s))
  {
    var a := StripStart(s);
    var t := Trim(s);
    StripStartIs(s);
    StripEndIs(a);
    var i := |s| - |a|;
    var j := i + |t|;
    hide AllBlank;
    assert t == s[i..j] && s[j..] == a[|t|..];
    assert t != [] ==> t[0] == a[0];
  }

  /** fgets takes a line with its newline, or what is left, but no more than 4095 characters. */
  lemma LineLengthExactly(content: string)
    requires content != []
    ensures var n := LineLength(content);
      && 0 < n <= |content| && n <= 4095 && '\n' !in content[..n - 1]
      && (content[n - 1] == '\n' || n == |content| || n == 4095)
  {
  }

  lemma {:induction false} EolExactly(raw: string)
    ensures var line := StripEnd(raw, IsEol);
      && line <= raw && (line != [] ==> line[|line| - 1] != '\n' && line[|line| - 1] != '\r')
      && forall i :: |line| <= i < |raw| ==> raw[i] == '\n' || raw[i] == '\r'
  {
    if raw != [] && IsEol(raw[|raw| - 1]) { EolExactly(raw[..|raw| - 1]); }
  }

  function RawLines(content: string): seq<string> {
    if content == [] then [] else [content[..LineLength(content)]] + RawLines(content[LineLength(content)..])
  }

  /** The text that a line has for option i: what is behind the first '=', if what is in front of it is
      the option's name; both without blanks around them, and the text cut to 1023 characters. */
  function TextFor(schema: Schema, raw: string, i: nat): Option<string> {
    var line := StripEnd(raw, IsEol);
    var eq := IndexOf(line, '=');
    if eq < |line| && IsFirst(schema, Trim(line[..eq]), i) then
      var text := Trim(line[eq + 1..]);
      Some(if |text| <= 1023 then text else text[..1023])
    else None
  }

  ghost predicate Readable(e: Entry, text: string) { exists v :: ReadsAs(e, text, v) }

  /** `v` is what the lines leave in option i: the value of the last readable text they have for it, or
      the one it started with. */
  ghost predicate IsLastWord(schema: Schema, start: Value, lines: seq<string>, i: nat, v: Value)
    requires i < |schema|
    decreases |lines|
  {
    if lines == [] then v == start
    else
      var text := TextFor(schema, lines[|lines| - 1], i);
      if text.Some? && Readable(schema[i], text.value) then ReadsAs(schema[i], text.value, v)
      else IsLastWord(schema, start, lines[..|lines| - 1], i, v)
  }

  /** The line has an unreadable text for some option. */
  ghost predicate Rejected(schema: Schema, raw: string) {
    exists i :: 0 <= i < |schema| && TextFor(schema, raw, i).Some?
                && !Readable(schema[i], TextFor(schema, raw, i).value)
  }

  ghost function NumRejected(schema: Schema, lines: seq<string>): nat {
    if lines == [] then 0
    else NumRejected(schema, lines[..|lines| - 1]) + if Rejected(schema, lines[|lines| - 1]) then 1 else 0
  }

  // ---- loads --------------------------------------------------------------------------------------

  function LoadLines(schema: Schema, l: Loaded, lines: seq<string>): (r: Loaded)
    requires |l.values| == |schema|
    ensures |r.values| == |schema|
    decreases |lines|
  {
    if lines == [] then l else LoadLine(schema, LoadLines(schema, l, lines[..|lines| - 1]), lines[|lines| - 1])
  }

  lemma {:induction false} LoadFirst(schema: Schema, l: Loaded, line: string, lines: seq<string>)
    requires |l.values| == |schema|
    ensures LoadLines(schema, l, [line] + lines) == LoadLines(schema, LoadLine(schema, l, line), lines)
    decreases |lines|
  {
    hide LoadLine;
    var all := [line] + lines;
    if lines == [] {
      assert all == [line] && [line][..0] == [];
    } else {
      assert all[..|all| - 1] == [line] + lines[..|lines| - 1];
      LoadFirst(schema, l, line, lines[..|lines| - 1]);
    }
  }

  lemma {:induction false} LoadIsByLines(schema: Schema, l: Loaded, content: string)
    requires |l.values| == |schema|
    ensures LoadFrom(schema, l, content) == LoadLines(schema, l, RawLines(content))
    decreases |content|
  {
    hide LoadLine;
    if content != [] {
      var n := LineLength(content);
      LoadIsByLines(schema, LoadLine(schema, l, content[..n]), content[n..]);
      LoadFirst(schema, l, content[..n], RawLines(content[n..]));
    }
  }

  lemma FirstIs(schema: Schema, name: string, i: nat)
    ensures IsFirst(schema, name, i) <==> FindOption(schema, name) == i
  {
  }

  lemma AcceptIsReadable(e: Entry, text: string)
    ensures Accept(e, text).Some? <==> Readable(e, text)
    ensures Accept(e, text).Some? ==> ReadsAs(e, text, Accept(e, text).value)
  {
    hide Accept, ReadsAs;
    if Accept(e, text).Some? { AcceptExactly(e, text, Accept(e, text).value); }
    if v :| ReadsAs(e, text, v) { AcceptExactly(e, text, v); }
  }

  /** What one line does to option i, and to the count of errors. */
  lemma LineSpeaks(schema: Schema, l: Loaded, raw: string, i: nat)
    requires |l.values| == |schema| && i < |schema|
    ensures var r := LoadLine(schema, l, raw); var text := TextFor(schema, raw, i);
      if text.Some? && Readable(schema[i], text.value) then ReadsAs(schema[i], text.value, r.values[i])
      else r.values[i] == l.values[i]
  {
    hide Trim, StripEnd, Accept, ReadsAs, Readable, FindOption, IsFirst;
    var line := StripEnd(raw, IsEol);
    var eq := IndexOf(line, '=');
    if eq < |line| {
      var name := Trim(line[..eq]);
      FirstIs(schema, name, i);
      AcceptIsReadable(schema[i], Cropped(Trim(line[eq + 1..])));
    }
  }

  lemma LineErrs(schema: Schema, l: Loaded, raw: string)
    requires |l.values| == |schema|
    ensures LoadLine(schema, l, raw).errors == l.errors + if Rejected(schema, raw) then 1 else 0
  {
    hide Trim, StripEnd, Accept, ReadsAs, Readable, FindOption, IsFirst;
    var line := StripEnd(raw, IsEol);
    var eq := IndexOf(line, '=');
    if eq < |line| {
      var name := Trim(line[..eq]);
      forall i: nat ensures IsFirst(schema, name, i) <==> FindOption(schema, name) == i { FirstIs(schema, name, i); }
      var k := FindOption(schema, name);
      if k != -1 {
        var text := Cropped(Trim(line[eq + 1..]));
        AcceptIsReadable(schema[k], text);
        assert TextFor(schema, raw, k) == Some(text);
      }
    }
  }

  /** A load of any file: every option ends with the value of the last line that has a readable text for
      it, or keeps its own; and the errors are the lines that have an unreadable text for an option. */
  lemma LoadTakesTheLastWord(schema: Schema, values: Values, content: string, i: nat)
    requires |values| == |schema|
    ensures var r := Load(schema, values, content);
      && (i < |schema| ==> IsLastWord(schema, values[i], RawLines(content), i, r.values[i]))
      && r.errors == NumRejected(schema, RawLines(content))
  {
    LoadIsByLines(schema, Loaded(values, 0), content);
    if i < |schema| { LinesSpeak(schema, Loaded(values, 0), RawLines(content), i); }
    LinesErr(schema, Loaded(values, 0), RawLines(content));
  }

  lemma {:induction false} LinesSpeak(schema: Schema, l: Loaded, lines: seq<string>, i: nat)
    requires |l.values| == |schema| && i < |schema|
    ensures IsLastWord(schema, l.values[i], lines, i, LoadLines(schema, l, lines).values[i])
    decreases |lines|
  {
    if lines != [] {
      var n := |lines| - 1;
      LinesSpeak(schema, l, lines[..n], i);
      LineSpeaks(schema, LoadLines(schema, l, lines[..n]), lines[n], i);
      hide LoadLine, ReadsAs, TextFor, Readable;
    }
  }

  lemma {:induction false} LinesErr(schema: Schema, l: Loaded, lines: seq<string>)
    requires |l.values| == |schema|
    ensures LoadLines(schema, l, lines).errors == l.errors + NumRejected(schema, lines)
    decreases |lines|
  {
    if lines != [] {
      var n := |lines| - 1;
      LinesErr(schema, l, lines[..n]);
      LineErrs(schema, LoadLines(schema, l, lines[..n]), lines[n]);
      hide LoadLine, Rejected;
    }
  }

  // ---- whole runs -----------------------------------------------------------------------------------

  /** `v` is what the calls leave in option i: the last setter call for it with a value that fits, or
      the last word of a later file. */
  ghost predicate IsLeft(schema: Schema, start: Value, calls: seq<Call>, i: nat, v: Value)
    requires i < |schema|
    decreases |calls|
  {
    if calls == [] then v == start
    else
      var pre := calls[..|calls| - 1];
      match calls[|calls| - 1]
      case SetValue(name, x) =>
        if IsFirst(schema, name, i) && Fitting(schema[i], x) then v == x else IsLeft(schema, start, pre, i, v)
      case LoadFile(content) =>
        exists m :: IsLeft(schema, start, pre, i, m) && IsLastWord(schema, m, RawLines(content), i, v)
  }

  /** Over every sequence of loads and setter calls every option ends with the last word on it. */
  lemma {:induction false} EveryRunTakesTheLastWord(schema: Schema, values: Values, calls: seq<Call>, i: nat)
    requires |values| == |schema| && i < |schema|
    ensures IsLeft(schema, values[i], calls, i, Run(schema, values, calls)[i])
    decreases |calls|
  {
    if calls != [] {
      var n := |calls| - 1;
      var before := Run(schema, values, calls[..n]);
      assert calls == calls[..n] + [calls[n]];
      RunSnoc(schema, values, calls[..n], calls[n]);
      EveryRunTakesTheLastWord(schema, values, calls[..n], i);
      match calls[n] {
        case LoadFile(content) => LoadTakesTheLastWord(schema, before, content, i);
        case SetValue(name, v) => SettersStoreExactly(schema, before, name, v);
      }
      hide Run, Set, Load, IsLastWord, Fitting, IsFirst;
    }
  }

  // ---- the saved file ---------------------------------------------------------------------------------

  /** The saved file has one line per option, in the order of the schema: name, "=", text, and a carriage
      return in front of the newline. */
  lemma SavedFileIsOneLineEach(schema: Schema, values: Values, i: nat)
    requires |values| == |schema|
    requires forall j :: 0 <= j < |schema| ==> '\n' !in schema[j].name && '\n' !in Text(values[j])
    ensures |SplitLines(Save(schema, values))| == |schema|
    ensures i < |schema| ==>
              SplitLines(Save(schema, values))[i] == schema[i].name + "=" + Text(values[i]) + "\r"
  {
    var lines := seq(|schema|, j requires 0 <= j < |schema| => schema[j].name + "=" + Text(values[j]) + "\r");
    SavedIsJoined(schema, values, lines, 0);
    assert lines[0..] == lines;
    hide Text;
    SplitJoined(lines);
  }

  lemma {:induction false} SavedIsJoined(schema: Schema, values: Values, lines: seq<string>, i: nat)
    requires |values| == |schema| == |lines| && i <= |schema|
    requires forall j :: 0 <= j < |schema| ==> lines[j] == schema[j].name + "=" + Text(values[j]) + "\r"
    ensures SaveFrom(schema, values, i) == JoinLines(lines[i..])
    decreases |schema| - i
  {
    hide Text;
    if i < |schema| {
      SavedIsJoined(schema, values, lines, i + 1);
      assert lines[i..][0] == lines[i] && lines[i..][1..] == lines[i + 1..];
      assert SaveLine(schema[i], values[i]) == lines[i] + ['\n'];
    }
  }
}
