/** The config object of platform/windows/gsr_config_win32.c: three parallel arrays, of which an
    option uses the one of its type, with the loops that load, save and set them. */
module ConfigStore {
  import opened Options
  import opened TextLines
  import opened CText
  import opened ConfigSchema
  import opened ConfigProofs

  lemma {:induction false} StripEndIsPrefix(s: string, n: nat, p: char -> bool)
    requires n <= |s| && forall j :: n <= j < |s| ==> p(s[j])
    ensures StripEnd(s, p) == StripEnd(s[..n], p)
    decreases |s|
  {
    if n < |s| {
      assert s[..|s| - 1][..n] == s[..n];
      StripEndIsPrefix(s[..|s| - 1], n, p);
    } else {
      assert s[..n] == s;
    }
  }

  lemma {:induction false} StripStartIsSuffix(s: string, n: nat)
    requires n <= |s| && forall j :: 0 <= j < n ==> IsBlank(s[j])
    ensures StripStart(s) == StripStart(s[n..])
  {
    if n > 0 {
      StripStartIsSuffix(s[1..], n - 1);
      assert s[1..][n - 1..] == s[n..];
    } else {
      assert s[n..] == s;
    }
  }

  /** The line end is cut off by moving the terminator. */
  method StripLineEnd(raw: string) returns (line: string)
    ensures line == StripEnd(raw, IsEol)
  {
    var len := |raw|;
    while len > 0 && (raw[len - 1] == '\n' || raw[len - 1] == '\r')
      invariant 0 <= len <= |raw|
      invariant forall j :: len <= j < |raw| ==> IsEol(raw[j])
    {
      len := len - 1;
    }
    StripEndIsPrefix(raw, len, IsEol);
    line := raw[..len];
  }

  lemma SpanFrontTrimmed(line: string, from: nat, start: nat, end: nat)
    requires from <= start <= end <= |line| && (forall j :: from <= j < start ==> IsBlank(line[j]))
    requires start < end ==> !IsBlank(line[start])
    ensures StripStart(line[from..end]) == line[start..end]
  {
    StripStartIsSuffix(line[from..end], start - from);
    assert line[from..end][start - from..] == line[start..end];
  }

  lemma SpanBackTrimmed(line: string, start: nat, end: nat, to: nat)
    requires start <= end <= to <= |line| && (forall j :: end <= j < to ==> IsBlank(line[j]))
    requires start < end ==> !IsBlank(line[end - 1])
    ensures StripEnd(line[start..to], IsBlank) == line[start..end]
  {
    StripEndIsPrefix(line[start..to], end - start, IsBlank);
    assert line[start..to][..end - start] == line[start..end];
  }

  /** The two pointers of a span move inwards over blanks. */
  method TrimSpan(line: string, from: nat, to: nat) returns (start: nat, end: nat)
    requires from <= to <= |line|
    ensures from <= start <= end <= to
    ensures line[start..end] == Trim(line[from..to])
  {
    hide StripStart, StripEnd;
    start, end := from, to;
    while start < end && (line[start] == ' ' || line[start] == '\t')
      invariant from <= start <= end
      invariant forall j :: from <= j < start ==> IsBlank(line[j])
    {
      start := start + 1;
    }
    SpanFrontTrimmed(line, from, start, to);
    while end > start && (line[end - 1] == ' ' || line[end - 1] == '\t')
      invariant start <= end <= to
      invariant forall j :: end <= j < to ==> IsBlank(line[j])
    {
      end := end - 1;
    }
    SpanBackTrimmed(line, start, end, to);
  }

  lemma KeyAndValue(line: string, eq: nat)
    requires eq < |line|
    ensures line[0..eq] == line[..eq] && line[eq + 1..|line|] == line[eq + 1..]
  {
  }

  lemma SpanCropped(line: string, start: nat, end: nat)
    requires start <= end <= |line|
    ensures var len := end - start;
      Cropped(line[start..end]) == line[start..start + if len >= VALUE_BUFFER then VALUE_BUFFER - 1 else len]
  {
  }

  /** What a line with '=' does, in terms of its key and its value. */
  lemma LineLoads(schema: Schema, values: Values, raw: string, line: string, eq: nat)
    requires |values| == |schema| && line == StripEnd(raw, IsEol) && eq == IndexOf(line, '=')
    ensures var l := Loaded(values, 0); var r := LoadLine(schema, l, raw);
      if eq == |line| then r == l
      else
        var i := FindOption(schema, Trim(line[..eq]));
        if i == -1 then r == l
        else
          var v := Accept(schema[i], Cropped(Trim(line[eq + 1..])));
          r == if v.Some? then Loaded(values[i := v.value], 0) else Loaded(values, 1)
  {
    hide StripEnd, Trim, Accept, FindOption;
  }

  /** One more line of the file, with the errors counted so far. */
  lemma LoadStep(schema: Schema, l: Loaded, content: string, at: nat)
    requires |l.values| == |schema| && at < |content|
    ensures var n := LineLength(content[at..]);
      && at + n <= |content|
      && var r := LoadLine(schema, Loaded(l.values, 0), content[at..at + n]);
        LoadFrom(schema, l, content[at..]) == LoadFrom(schema, Loaded(r.values, l.errors + r.errors), content[at + n..])
  {
    hide LineLength, LoadLine, LoadFrom;
    var rest := content[at..];
    var n := LineLength(rest);
    SuffixCut(content, at, n);
    ErrorsAdd(schema, l.values, l.errors, rest[..n]);
    LoadOne(schema, l, rest);
  }

  lemma LoadOne(schema: Schema, l: Loaded, content: string)
    requires |l.values| == |schema| && content != []
    ensures var n := LineLength(content);
      LoadFrom(schema, l, content) == LoadFrom(schema, LoadLine(schema, l, content[..n]), content[n..])
  {
  }

  lemma SuffixCut(s: string, at: nat, n: nat)
    requires at + n <= |s|
    ensures s[at..][..n] == s[at..at + n] && s[at..][n..] == s[at + n..]
  {
  }

  lemma NothingLeft(schema: Schema, l: Loaded, content: string)
    requires |l.values| == |schema|
    ensures LoadFrom(schema, l, content[|content|..]) == l
  {
  }

  lemma NothingToSave(schema: Schema, values: Values)
    requires |values| == |schema|
    ensures SaveFrom(schema, values, |schema|) == []
  {
  }

  lemma SaveStep(schema: Schema, values: Values, i: nat, done: string)
    requires |values| == |schema| && i < |schema|
    ensures done + SaveFrom(schema, values, i) ==
      done + SaveLine(schema[i], values[i]) + SaveFrom(schema, values, i + 1)
  {
  }

  class Config {
    const schema: Schema
    const boolValues: array<bool>
    const intValues: array<I64>
    const stringValues: array<string>

    ghost predicate Valid() {
      boolValues.Length == intValues.Length == stringValues.Length == |schema|
    }

    /** The value of each option, taken from the array of its type. */
    ghost function Values(): (r: Values)
      reads boolValues, intValues, stringValues
      requires Valid()
      ensures |r| == |schema|
    {
      seq(|schema|, i requires 0 <= i < |schema| reads boolValues, intValues, stringValues requires Valid() => Value(i))
    }

    ghost function Value(i: nat): Value
      reads boolValues, intValues, stringValues
      requires Valid() && i < |schema|
    {
      match schema[i]
      case BoolEntry(_, _) => BoolValue(boolValues[i])
      case IntEntry(_, _, _, _) => IntValue(intValues[i])
      case StringEntry(_, _, _) => StringValue(stringValues[i])
    }

    /** gsr_config_init. */
    constructor (schema: Schema)
      ensures Valid() && this.schema == schema
      ensures fresh(boolValues) && fresh(intValues) && fresh(stringValues)
      ensures Values() == Fresh(schema)
    {
      this.schema := schema;
      var bools := new bool[|schema|](_ => false);
      var ints := new I64[|schema|](_ => 0);
      var strings := new string[|schema|](_ => []);
      boolValues, intValues, stringValues := bools, ints, strings;
      new;
      for i := 0 to |schema|
        invariant Valid() && forall j :: 0 <= j < i ==> Value(j) == Default(schema[j])
      {
        match schema[i]
        case BoolEntry(_, d) => bools[i] := d;
        case IntEntry(_, d, _, _) => ints[i] := d;
        case StringEntry(_, d, _) => strings[i] := d;
      }
    }

    /** Stores a value in the array of its type; no other option changes. */
    method Store(i: nat, v: Value)
      requires Valid() && i < |schema|
      requires match schema[i]
        case BoolEntry(_, _) => v.BoolValue?
        case IntEntry(_, _, _, _) => v.IntValue?
        case StringEntry(_, _, _) => v.StringValue?
      modifies boolValues, intValues, stringValues
      ensures Values() == old(Values())[i := v]
    {
      match v {
        case BoolValue(b) => boolValues[i] := b;
        case IntValue(n) => intValues[i] := n;
        case StringValue(s) => stringValues[i] := s;
      }
      assert forall j :: 0 <= j < |schema| && j != i ==> Value(j) == old(Value(j));
    }

    method Find(name: string) returns (index: int)
      ensures index == FindOption(schema, name)
    {
      index := 0;
      while index < |schema|
        invariant 0 <= index <= |schema|
        invariant forall j :: 0 <= j < index ==> schema[j].name != name
      {
        if schema[index].name == name { return; }
        index := index + 1;
      }
      index := -1;
    }

    method IsAllowed(e: Entry, s: string) returns (ok: bool)
      requires e.StringEntry?
      ensures ok == Allowed(e, s)
    {
      if e.allowed.None? { return true; }
      for k := 0 to |e.allowed.value|
        invariant forall j :: 0 <= j < k ==> e.allowed.value[j] != s
      {
        if e.allowed.value[k] == s { return true; }
      }
      ok := false;
    }

    /** The switch of gsr_config_load: takes the text for option i, or reports an error. */
    method TakeText(i: nat, text: string) returns (ok: bool)
      requires Valid() && i < |schema|
      modifies boolValues, intValues, stringValues
      ensures ok == Accept(schema[i], text).Some?
      ensures Values() == if ok then old(Values())[i := Accept(schema[i], text).value] else old(Values())
    {
      ok := false;
      match schema[i]
      case BoolEntry(_, _) =>
        if text == "true" {
          Store(i, BoolValue(true));
          ok := true;
        } else if text == "false" {
          Store(i, BoolValue(false));
          ok := true;
        }
      case IntEntry(_, _, min, max) =>
        var parsed := ParseInt(text);
        if parsed.Some? && (min > max || (parsed.value >= min && parsed.value <= max)) {
          Store(i, IntValue(parsed.value));
          ok := true;
        }
      case StringEntry(_, _, _) =>
        ok := IsAllowed(schema[i], text);
        if ok { Store(i, StringValue(text)); }
    }

    /** One round of the fgets loop. */
    method TakeLine(raw: string) returns (failed: bool)
      requires Valid()
      modifies boolValues, intValues, stringValues
      ensures LoadLine(schema, Loaded(old(Values()), 0), raw) == Loaded(Values(), if failed then 1 else 0)
    {
      hide LoadLine, Trim, StripEnd, Accept, Values, Cropped, FindOption;
      failed := false;
      var line := StripLineEnd(raw);
      var eq := IndexOf(line, '=');
      LineLoads(schema, Values(), raw, line, eq);
      if eq == |line| { return; }
      var keyStart, keyEnd := TrimSpan(line, 0, eq);
      var valStart, valEnd := TrimSpan(line, eq + 1, |line|);
      KeyAndValue(line, eq);
      var index := Find(line[keyStart..keyEnd]);
      if index == -1 { return; }
      var len := valEnd - valStart;
      if len >= VALUE_BUFFER { len := VALUE_BUFFER - 1; }
      SpanCropped(line, valStart, valEnd);
      var ok := TakeText(index, line[valStart..valStart + len]);
      failed := !ok;
    }

    /** gsr_config_load of a file with this content. */
    method LoadFile(content: string) returns (errors: nat)
      requires Valid()
      modifies boolValues, intValues, stringValues
      ensures Load(schema, old(Values()), content) == Loaded(Values(), errors)
    {
      hide LoadFrom, LoadLine, LineLength, Values;
      errors := 0;
      var at := 0;
      assert content[0..] == content;
      while at < |content|
        invariant 0 <= at <= |content|
        invariant LoadFrom(schema, Loaded(Values(), errors), content[at..]) == Load(schema, old(Values()), content)
      {
        LoadStep(schema, Loaded(Values(), errors), content, at);
        var n := LineLength(content[at..]);
        var failed := TakeLine(content[at..at + n]);
        if failed { errors := errors + 1; }
        at := at + n;
      }
      NothingLeft(schema, Loaded(Values(), errors), content);
    }

    /** gsr_config_save: the content written. */
    method SaveFile() returns (content: string)
      requires Valid()
      ensures content == Save(schema, Values())
    {
      hide SaveFrom;
      content := [];
      assert content + Save(schema, Values()) == Save(schema, Values());
      for i := 0 to |schema|
        invariant content + SaveFrom(schema, Values(), i) == Save(schema, Values())
      {
        var text;
        match schema[i] {
          case BoolEntry(_, _) => text := if boolValues[i] then "true" else "false";
          case IntEntry(_, _, _, _) => text := PrintInt(intValues[i]);
          case StringEntry(_, _, _) => text := stringValues[i];
        }
        var line := schema[i].name + ['='] + text + ['\r', '\n'];
        assert line == SaveLine(schema[i], Values()[i]);
        SaveStep(schema, Values(), i, content);
        content := content + line;
      }
      NothingToSave(schema, Values());
    }

    method SetBool(name: string, value: bool) returns (ok: bool)
      requires Valid()
      modifies boolValues, intValues, stringValues
      ensures var r := Set(schema, old(Values()), name, BoolValue(value));
        ok == r.Some? && Values() == if ok then r.value else old(Values())
    {
      var index := Find(name);
      ok := index != -1 && schema[index].BoolEntry?;
      if ok { Store(index, BoolValue(value)); }
    }

    method SetInt(name: string, value: I64) returns (ok: bool)
      requires Valid()
      modifies boolValues, intValues, stringValues
      ensures var r := Set(schema, old(Values()), name, IntValue(value));
        ok == r.Some? && Values() == if ok then r.value else old(Values())
    {
      var index := Find(name);
      if index == -1 || !schema[index].IntEntry? { return false; }
      var e := schema[index];
      if e.min <= e.max && (value < e.min || value > e.max) { return false; }
      Store(index, IntValue(value));
      ok := true;
    }

    method SetString(name: string, value: string) returns (ok: bool)
      requires Valid()
      modifies boolValues, intValues, stringValues
      ensures var r := Set(schema, old(Values()), name, StringValue(value));
        ok == r.Some? && Values() == if ok then r.value else old(Values())
    {
      var index := Find(name);
      if index == -1 || !schema[index].StringEntry? { return false; }
      ok := IsAllowed(schema[index], value);
      if ok { Store(index, StringValue(value)); }
    }

    /** Any sequence of loads and setters is a run. */
    method Perform(calls: seq<Call>)
      requires Valid()
      modifies boolValues, intValues, stringValues
      ensures Values() == Run(schema, old(Values()), calls)
    {
      hide Run, Load, Set, Values;
      assert calls[0..] == calls;
      for i := 0 to |calls|
        invariant Run(schema, Values(), calls[i..]) == Run(schema, old(Values()), calls)
      {
        RunStep(schema, Values(), calls, i);
        match calls[i] {
          case LoadFile(content) => var _ := LoadFile(content);
          case SetValue(name, BoolValue(b)) => var _ := SetBool(name, b);
          case SetValue(name, IntValue(n)) => var _ := SetInt(name, n);
          case SetValue(name, StringValue(s)) => var _ := SetString(name, s);
        }
      }
      RunEnds(schema, Values(), calls);
    }
  }

  lemma RunStep(schema: Schema, values: Values, calls: seq<Call>, i: nat)
    requires |values| == |schema| && i < |calls|
    ensures Run(schema, values, calls[i..]) == Run(schema, Applied(schema, values, calls[i]), calls[i + 1..])
  {
    assert calls[i..][1..] == calls[i + 1..];
    hide Applied;
  }

  lemma RunEnds(schema: Schema, values: Values, calls: seq<Call>)
    requires |values| == |schema|
    ensures Run(schema, values, calls[|calls|..]) == values
  {
  }

  lemma ErrorsAdd(schema: Schema, values: Values, errors: nat, raw: string)
    requires |values| == |schema|
    ensures LoadLine(schema, Loaded(values, errors), raw) ==
      (var r := LoadLine(schema, Loaded(values, 0), raw); Loaded(r.values, errors + r.errors))
  {
  }
}
