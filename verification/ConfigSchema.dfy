/** The schema-driven config of the port (platform/windows/gsr_config_win32.c): "name=value"
    lines, read through a fixed line buffer and a fixed value buffer. A C string is a sequence
    of characters without NUL. */
module ConfigSchema {
  import opened Options
  import opened TextLines
  import opened CText

  const LINE_BUFFER: nat := 4096
  const VALUE_BUFFER: nat := 1024


  /** One schema entry; min > max means that there is no range. */
  datatype Entry =
    | BoolEntry(name: string, boolDefault: bool)
    | IntEntry(name: string, intDefault: I64, min: I64, max: I64)
    | StringEntry(name: string, stringDefault: string, allowed: Option<seq<string>>)

  datatype Value = BoolValue(b: bool) | IntValue(i: I64) | StringValue(s: string)

  type Schema = seq<Entry>

  /** The values, one per schema entry. */
  type Values = seq<Value>

  function Default(e: Entry): Value {
    match e
    case BoolEntry(_, d) => BoolValue(d)
    case IntEntry(_, d, _, _) => IntValue(d)
    case StringEntry(_, d, _) => StringValue(d)
  }

  function Fresh(schema: Schema): (r: Values)
    ensures |r| == |schema|
  {
    seq(|schema|, i requires 0 <= i < |schema| => Default(schema[i]))
  }

  predicate InRange(e: Entry, n: int)
    requires e.IntEntry?
  {
    e.min <= e.max ==> e.min <= n <= e.max
  }

  predicate Allowed(e: Entry, s: string)
    requires e.StringEntry?
  {
    e.allowed.None? || s in e.allowed.value
  }

  /** A value that the schema entry admits. */
  predicate Admits(e: Entry, v: Value) {
    match e
    case BoolEntry(_, _) => v.BoolValue?
    case IntEntry(_, _, _, _) => v.IntValue? && InRange(e, v.i)
    case StringEntry(_, _, _) => v.StringValue? && Allowed(e, v.s)
  }

  predicate SchemaValid(schema: Schema, values: Values) {
    |values| == |schema| && forall i :: 0 <= i < |schema| ==> Admits(schema[i], values[i])
  }

  /** find_option: the first entry of that name, or -1. */
  function FindOption(schema: Schema, name: string): (i: int)
    ensures i == -1 || (0 <= i < |schema| && schema[i].name == name)
    ensures forall j :: 0 <= j < (if i == -1 then |schema| else i) ==> schema[j].name != name
  {
    if schema == [] then -1
    else if schema[0].name == name then 0
    else
      var i := FindOption(schema[1..], name);
      assert forall j :: 1 <= j < |schema| ==> schema[j] == schema[1..][j - 1];
      if i == -1 then -1 else i + 1
  }

  // ---- reading --------------------------------------------------------------------------

  /** fgets: through the next newline, or as much as the buffer holds. */
  function LineLength(content: string): (n: nat)
    requires content != []
    ensures 0 < n <= |content|
  {
    var nl := IndexOf(content, '\n');
    var n := if nl < |content| then nl + 1 else |content|;
    if n <= LINE_BUFFER - 1 then n else LINE_BUFFER - 1
  }

  predicate IsEol(c: char) { c == '\n' || c == '\r' }
  predicate IsBlank(c: char) { c == ' ' || c == '\t' }

  function StripEnd(s: string, p: char -> bool): (r: string)
    ensures r <= s
  {
    if s != [] && p(s[|s| - 1]) then StripEnd(s[..|s| - 1], p) else s
  }

  function StripStart(s: string): string {
    if s != [] && IsBlank(s[0]) then StripStart(s[1..]) else s
  }

  function Trim(s: string): string { StripEnd(StripStart(s), IsBlank) }

  /** strtoll of the whole text in base 10; None when it does not parse or overflows. */
  function ParseInt(text: string): Option<int> {
    var scan := ScanU(text);
    if scan.NoScan? || scan.rest != [] then None
    else if -0x8000_0000_0000_0000 <= scan.value < 0x8000_0000_0000_0000 then Some(scan.value)
    else None
  }

  /** The value an option takes from a text, or None for an error. */
  function Accept(e: Entry, text: string): Option<Value> {
    match e
    case BoolEntry(_, _) =>
      if text == "true" then Some(BoolValue(true)) else if text == "false" then Some(BoolValue(false)) else None
    case IntEntry(_, _, _, _) =>
      var n := ParseInt(text);
      if n.Some? && InRange(e, n.value) then Some(IntValue(n.value)) else None
    case StringEntry(_, _, _) => if Allowed(e, text) then Some(StringValue(text)) else None
  }

  function Cropped(s: string): string { if |s| >= VALUE_BUFFER then s[..VALUE_BUFFER - 1] else s }

  datatype Loaded = Loaded(values: Values, errors: nat)

  /** One line: skipped without '=', ignored for an unknown name, an error for a bad value. */
  function LoadLine(schema: Schema, l: Loaded, raw: string): (r: Loaded)
    requires |l.values| == |schema|
    ensures |r.values| == |schema|
  {
    var line := StripEnd(raw, IsEol);
    var eq := IndexOf(line, '=');
    if eq == |line| then l
    else
      var i := FindOption(schema, Trim(line[..eq]));
      if i == -1 then l
      else
        match Accept(schema[i], Cropped(Trim(line[eq + 1..])))
        case Some(v) => l.(values := l.values[i := v])
        case None => l.(errors := l.errors + 1)
  }

  function LoadFrom(schema: Schema, l: Loaded, content: string): (r: Loaded)
    requires |l.values| == |schema|
    ensures |r.values| == |schema|
    decreases |content|
  {
    if content == [] then l
    else
      var n := LineLength(content);
      LoadFrom(schema, LoadLine(schema, l, content[..n]), content[n..])
  }

  /** gsr_config_load of a file with this content; a missing file loads as no content. */
  function Load(schema: Schema, values: Values, content: string): (r: Loaded)
    requires |values| == |schema|
    ensures |r.values| == |schema|
  {
    LoadFrom(schema, Loaded(values, 0), content)
  }

  // ---- writing ----------------------------------------------------------------------------

  function Text(v: Value): string {
    match v
    case BoolValue(b) => if b then "true" else "false"
    case IntValue(i) => PrintInt(i)
    case StringValue(s) => s
  }

  function SaveLine(e: Entry, v: Value): string { e.name + ['='] + Text(v) + ['\r', '\n'] }

  function SaveFrom(schema: Schema, values: Values, i: nat): string
    requires |values| == |schema| && i <= |schema|
    decreases |schema| - i
  {
    if i == |schema| then [] else SaveLine(schema[i], values[i]) + SaveFrom(schema, values, i + 1)
  }

  /** gsr_config_save. */
  function Save(schema: Schema, values: Values): string
    requires |values| == |schema|
  {
    SaveFrom(schema, values, 0)
  }

  // ---- setters -----------------------------------------------------------------------------

  /** The typed setters: the new values, or None when the call is refused. */
  function Set(schema: Schema, values: Values, name: string, v: Value): (r: Option<Values>)
    requires |values| == |schema|
    ensures r.Some? ==> |r.value| == |schema|
  {
    var i := FindOption(schema, name);
    if i == -1 || !Admits(schema[i], v) then None else Some(values[i := v])
  }

  // ---- what a schema has to look like -------------------------------------------------------

  /** Text that survives the way through a line of the file. */
  predicate Clean(s: string) { Trim(StripEnd(s, IsEol)) == s && '\n' !in s && |s| < VALUE_BUFFER }

  predicate GoodName(name: string) {
    '=' !in name && '\n' !in name && Trim(name) == name && |name| <= LINE_BUFFER - VALUE_BUFFER - 3
  }

  /** Distinct names the format can carry, admitted defaults, and clean fixed texts. */
  predicate GoodSchema(schema: Schema) {
    && (forall i :: 0 <= i < |schema| ==> GoodName(schema[i].name) && Admits(schema[i], Default(schema[i])))
    && (forall i, j :: 0 <= i < j < |schema| ==> schema[i].name != schema[j].name)
    && (forall i :: 0 <= i < |schema| && schema[i].StringEntry? ==>
         && Clean(schema[i].stringDefault)
         && (schema[i].allowed.Some? ==> forall s :: s in schema[i].allowed.value ==> Clean(s)))
  }
}
