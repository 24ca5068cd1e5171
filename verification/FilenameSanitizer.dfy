/** gsr_platform_path_sanitize_filename (platform/windows/gsr_filesystem_win32.c): a name that
    Win32 will open. Characters stand for bytes; a C string has no NUL inside. */
module FilenameSanitizer {
  import opened Options

  const BUFFER_SIZE: nat := 260

  const RESERVED := [
    "con", "prn", "aux", "nul",
    "com1", "com2", "com3", "com4", "com5", "com6", "com7", "com8", "com9",
    "lpt1", "lpt2", "lpt3", "lpt4", "lpt5", "lpt6", "lpt7", "lpt8", "lpt9"]

  predicate Forbidden(c: char) {
    c < ' ' || c == '<' || c == '>' || c == ':' || c == '"' || c == '/' || c == '\\' || c == '|' || c == '?' || c == '*'
  }

  function Safe(c: char): char { if Forbidden(c) then '_' else c }

  function Mapped(s: string): string { seq(|s|, i requires 0 <= i < |s| => Safe(s[i])) }

  predicate Trailing(c: char) { c == '.' || c == ' ' }

  function Trim(s: string): (r: string)
    ensures r <= s
    ensures r == [] || !Trailing(r[|r| - 1])
  {
    if s != [] && Trailing(s[|s| - 1]) then Trim(s[..|s| - 1]) else s
  }

  /** The part in front of the first dot. */
  function Base(s: string): (r: string)
    ensures r <= s && '.' !in r && (|r| < |s| ==> s[|r|] == '.')
  {
    if s == [] || s[0] == '.' then [] else [s[0]] + Base(s[1..])
  }

  function Lower(s: string): string {
    seq(|s|, i requires 0 <= i < |s| => if 'A' <= s[i] <= 'Z' then s[i] - 'A' + 'a' else s[i])
  }

  predicate IsReserved(base: string) { Lower(base) in RESERVED }

  /** The name before the reserved-name prefix; at most 259 bytes are looked at. */
  function Cleaned(name: string): string {
    Trim(Mapped(if |name| < BUFFER_SIZE - 1 then name else name[..BUFFER_SIZE - 1]))
  }

  /** Reserved names get an underscore in front. */
  function Protected(s: string): string { if IsReserved(Base(s)) then ['_'] + s else s }

  /** The sanitized name, or None when nothing is left of it. */
  function Sanitized(name: string): Option<string> {
    var r := Protected(Cleaned(name));
    if r == [] then None else Some(r)
  }

  /** snprintf into the caller's buffer. */
  function Cropped(s: string, outSize: nat): string
    requires outSize > 0
  {
    if |s| < outSize then s else s[..outSize - 1]
  }

  /** A name Win32 can open. */
  predicate Openable(s: string) {
    && s != []
    && (forall i :: 0 <= i < |s| ==> !Forbidden(s[i]))
    && !Trailing(s[|s| - 1])
    && !IsReserved(Base(s))
  }

  /** Equal up to the case of ASCII letters; `word` is in lower case. */
  predicate Spells(s: string, word: string) {
    |s| == |word| && forall i :: 0 <= i < |s| ==> s[i] == word[i] || ('A' <= s[i] <= 'Z' && s[i] - 'A' + 'a' == word[i])
  }

  /** What Win32 takes for a device: four names, and the ports COM1 to COM9 and LPT1 to LPT9. */
  predicate IsDevice(base: string) {
    || Spells(base, "con") || Spells(base, "prn") || Spells(base, "aux") || Spells(base, "nul")
    || (|base| == 4 && (Spells(base[..3], "com") || Spells(base[..3], "lpt")) && '1' <= base[3] <= '9')
  }

  /** A name that Win32 opens holds no control character, no quote and none of * / : < > ? \ |, does not
      end with a dot or a space, and is no device up to its first dot. */
  lemma OpenableExactly(s: string)
    ensures Openable(s) <==>
      && s != []
      && (forall i :: 0 <= i < |s| ==> !Illegal(s[i]))
      && (s[|s| - 1] as int) !in {32, 46}
      && !IsDevice(Base(s))
  {
    hide Base, IsReserved, IsDevice;
    ReservedExactly(Base(s));
    forall i | 0 <= i < |s|
      ensures Forbidden(s[i]) <==> Illegal(s[i])
    {
    }
  }

  lemma SpellsIsLower(s: string, word: string)
    requires forall i :: 0 <= i < |word| ==> !('A' <= word[i] <= 'Z')
    ensures Spells(s, word) <==> Lower(s) == word
  {
    if Spells(s, word) { assert Lower(s) == word; }
    if Lower(s) == word {
      forall i | 0 <= i < |s| ensures s[i] == word[i] || ('A' <= s[i] <= 'Z' && s[i] - 'A' + 'a' == word[i]) {
        assert Lower(s)[i] == word[i];
      }
    }
  }

  function Port(prefix: string, n: nat): string
    requires 1 <= n <= 9
  {
    prefix + ['0' + n as char]
  }

  lemma Reserved(s: string)
    ensures s in RESERVED <==>
      || s == "con" || s == "prn" || s == "aux" || s == "nul"
      || exists n: nat :: 1 <= n <= 9 && (s == Port("com", n) || s == Port("lpt", n))
  {
    assert RESERVED[0] == "con" && RESERVED[1] == "prn" && RESERVED[2] == "aux" && RESERVED[3] == "nul";
    forall n: nat | 1 <= n <= 9 ensures RESERVED[n + 3] == Port("com", n) && RESERVED[n + 12] == Port("lpt", n) {
      Ports(n);
    }
    hide Port;
    if s in RESERVED {
      var j :| 0 <= j < |RESERVED| && RESERVED[j] == s;
      if 4 <= j <= 12 { assert s == Port("com", j - 3); } else if j > 12 { assert s == Port("lpt", j - 12); }
    }
  }

  lemma Ports(n: nat)
    requires 1 <= n <= 9
    ensures RESERVED[n + 3] == Port("com", n) && RESERVED[n + 12] == Port("lpt", n)
  {
  }

  /** A port up to case: the prefix up to case, and the digit. */
  lemma PortIs(base: string, prefix: string, n: nat)
    requires |prefix| == 3 && 1 <= n <= 9 && forall i :: 0 <= i < 3 ==> !('A' <= prefix[i] <= 'Z')
    ensures Lower(base) == Port(prefix, n) <==> |base| == 4 && Spells(base[..3], prefix) && base[3] == '0' + n as char
  {
    if |base| == 4 {
      var lower, port := Lower(base), Port(prefix, n);
      SpellsIsLower(base[..3], prefix);
      hide Spells;
      assert port[..3] == prefix && port[3] == '0' + n as char;
      assert lower[..3] == Lower(base[..3]) && (lower[3] == port[3] <==> base[3] == port[3]);
      assert lower == lower[..3] + [lower[3]] && port == port[..3] + [port[3]];
    } else {
      assert |Lower(base)| == |base|;
    }
  }

  lemma ReservedExactly(base: string)
    ensures IsReserved(base) <==> IsDevice(base)
  {
    hide Spells, Lower, Port;
    SpellsIsLower(base, "con");
    SpellsIsLower(base, "prn");
    SpellsIsLower(base, "aux");
    SpellsIsLower(base, "nul");
    Reserved(Lower(base));
    forall n: nat | 1 <= n <= 9
      ensures Lower(base) == Port("com", n) <==> |base| == 4 && Spells(base[..3], "com") && base[3] == '0' + n as char
      ensures Lower(base) == Port("lpt", n) <==> |base| == 4 && Spells(base[..3], "lpt") && base[3] == '0' + n as char
    {
      PortIs(base, "com", n);
      PortIs(base, "lpt", n);
    }
    if IsDevice(base) && |base| == 4 && '1' <= base[3] <= '9' {
      var n: nat := (base[3] - '0') as int;
      assert base[3] == '0' + n as char;
      assert Lower(base) == Port("com", n) <==> Spells(base[..3], "com");
      assert Lower(base) == Port("lpt", n) <==> Spells(base[..3], "lpt");
    }
    var lower := Lower(base);
    if IsReserved(base) && lower != "con" && lower != "prn" && lower != "aux" && lower != "nul" {
      var n: nat :| 1 <= n <= 9 && (lower == Port("com", n) || lower == Port("lpt", n));
      assert '1' <= base[3] <= '9';
    }
  }

  lemma ReservedShape(base: string)
    ensures IsReserved(base) ==> 3 <= |base| <= 4 && base[0] != '_'
  {
    if IsReserved(base) {
      assert |Lower(base)| == |base|;
      if base[..1] == "_" { assert Lower(base)[0] == '_'; }
    }
  }

  lemma CleanedIsSafe(name: string)
    ensures |Cleaned(name)| <= BUFFER_SIZE - 1
    ensures forall i :: 0 <= i < |Cleaned(name)| ==> !Forbidden(Cleaned(name)[i])
  {
  }

  lemma PrefixedIsNotReserved(s: string)
    ensures !IsReserved(Base(['_'] + s))
  {
    assert (['_'] + s)[1..] == s;
    ReservedShape(Base(['_'] + s));
  }

  lemma ProtectedIsOpenable(s: string)
    requires s == [] || !Trailing(s[|s| - 1])
    requires forall i :: 0 <= i < |s| ==> !Forbidden(s[i])
    ensures Protected(s) == [] || Openable(Protected(s))
  {
    hide IsReserved, Base;
    PrefixedIsNotReserved(s);
    ReservedShape(Base(s));
    var r := ['_'] + s;
    assert forall i :: 0 <= i < |s| ==> r[i + 1] == s[i];
    assert s != [] ==> r[|r| - 1] == s[|s| - 1];
  }

  /** Whatever the name, what comes out can be opened. */
  lemma SanitizedIsOpenable(name: string)
    ensures Sanitized(name).Some? ==> Openable(Sanitized(name).value)
  {
    CleanedIsSafe(name);
    ProtectedIsOpenable(Cleaned(name));
    hide Protected, Openable, Forbidden;
  }

  /** A byte that a name must not hold, by its code. */
  predicate Illegal(c: char) { (c as int) < 32 || (c as int) in {34, 42, 47, 58, 60, 62, 63, 92, 124} }

  /** The first n characters with each illegal byte as an underscore. */
  function Legalized(name: string, n: nat): string
    requires n <= |name|
  {
    seq(n, i requires 0 <= i < n => if Illegal(name[i]) then '_' else name[i])
  }

  function Looked(name: string): nat { if |name| <= 259 then |name| else 259 }

  /** The dots and spaces at the end of what is looked at begin at n. */
  predicate EndsAt(name: string, n: nat) {
    && n <= Looked(name) && (forall i :: n <= i < Looked(name) ==> name[i] == '.' || name[i] == ' ')
    && (n > 0 ==> name[n - 1] != '.' && name[n - 1] != ' ')
  }

  /** What comes out, character by character: the name as far as it is looked at, without the dots and
      spaces at its end, each illegal byte as an underscore, and one underscore more in front exactly
      if that would be a device. */
  lemma SanitizedExactly(name: string) returns (n: nat)
    requires Sanitized(name).Some?
    ensures EndsAt(name, n)
    ensures var body := Legalized(name, n);
      Sanitized(name).value == if IsDevice(Base(body)) then ['_'] + body else body
  {
    hide Base, IsReserved, IsDevice, EndsAt;
    n := |Cleaned(name)|;
    CleanedIs(name);
    ReservedExactly(Base(Cleaned(name)));
    hide Cleaned;
  }

  lemma CleanedIs(name: string)
    ensures var n := |Cleaned(name)|; EndsAt(name, n) && Cleaned(name) == Legalized(name, n)
  {
    hide Trim;
    var kept := if |name| < BUFFER_SIZE - 1 then name else name[..BUFFER_SIZE - 1];
    TrimmedTail(Mapped(kept));
    forall i | 0 <= i < |kept|
      ensures Mapped(kept)[i] == if Illegal(name[i]) then '_' else name[i]
      ensures Trailing(Mapped(kept)[i]) <==> name[i] == '.' || name[i] == ' '
    {
    }
  }

  lemma {:induction false} TrimmedTail(s: string)
    ensures forall i :: |Trim(s)| <= i < |s| ==> Trailing(s[i])
  {
    if s != [] && Trailing(s[|s| - 1]) { TrimmedTail(s[..|s| - 1]); }
  }

  /** Nothing is left exactly when the part that is looked at is all dots and spaces. */
  lemma NothingLeftExactly(name: string)
    ensures Sanitized(name).None? <==> forall i :: 0 <= i < |name| && i < BUFFER_SIZE - 1 ==> Trailing(name[i])
  {
    var kept := if |name| < BUFFER_SIZE - 1 then name else name[..BUFFER_SIZE - 1];
    ReservedShape(Base(Cleaned(name)));
    TrimEmpty(Mapped(kept));
    hide IsReserved, Trim;
    forall i | 0 <= i < |kept| ensures Trailing(Mapped(kept)[i]) <==> Trailing(name[i]) { }
  }

  lemma {:induction false} TrimEmpty(s: string)
    ensures Trim(s) == [] <==> forall i :: 0 <= i < |s| ==> Trailing(s[i])
  {
    if s != [] && Trailing(s[|s| - 1]) { TrimEmpty(s[..|s| - 1]); }
  }

  lemma OpenableStays(s: string)
    requires Openable(s) && |s| < BUFFER_SIZE
    ensures Sanitized(s) == Some(s)
  {
    hide IsReserved, Base;
    assert s[..|s|] == s;
    assert Mapped(s) == s;
  }

  /** Sanitizing a sanitized name changes nothing. */
  lemma SanitizingTwiceIsSanitizingOnce(name: string)
    requires Sanitized(name).Some? && |Sanitized(name).value| < BUFFER_SIZE
    ensures Sanitized(Sanitized(name).value) == Sanitized(name)
  {
    SanitizedIsOpenable(name);
    OpenableStays(Sanitized(name).value);
  }

  /** The result and its terminator fit the local buffer exactly when the prefix is not added to
      a cleaned name that already fills it; names of at most 258 bytes always fit. */
  lemma ResultFitsExactly(name: string)
    ensures var s := Cleaned(name);
      (Sanitized(name).Some? ==> |Sanitized(name).value| < BUFFER_SIZE) <==>
      !(IsReserved(Base(s)) && |s| == BUFFER_SIZE - 1)
    ensures |name| <= 258 && Sanitized(name).Some? ==> |Sanitized(name).value| < BUFFER_SIZE
  {
  }

  /** What the caller's buffer leaves of a name can be opened exactly when it holds the whole name,
      or cuts it behind a character that may end a name, without making a device name of it. */
  lemma CroppedIsOpenableExactly(s: string, outSize: nat)
    requires Openable(s) && outSize > 0
    ensures Openable(Cropped(s, outSize)) <==>
      || |s| < outSize
      || (outSize > 1 && !Trailing(s[outSize - 2]) && !IsReserved(Base(s[..outSize - 1])))
  {
    hide IsReserved, Base;
  }

  lemma ConIsListed()
    ensures "con" in RESERVED
  {
    assert RESERVED[0] == "con";
  }

  lemma ConIsReserved(s: string)
    requires 3 <= |s| && s[0] == 'c' && s[1] == 'o' && s[2] == 'n' && (|s| > 3 ==> s[3] == '.')
    ensures IsReserved(Base(s))
  {
    hide RESERVED;
    BaseIs(s, 3);
    ConIsListed();
    hide Base;
    assert Lower(s[..3]) == "con";
  }

  lemma PlainStays(s: string)
    requires 4 < |s| < BUFFER_SIZE && '.' !in s && !Trailing(s[|s| - 1])
    requires forall i :: 0 <= i < |s| ==> !Forbidden(s[i])
    ensures Sanitized(s) == Some(s)
  {
    BaseIs(s, |s|);
    ReservedShape(Base(s));
    OpenableStays(s);
  }

  /** A buffer of four bytes makes the device name "con" of "console". */
  lemma CropMakesADeviceName()
    ensures Sanitized("console") == Some("console") && |Cropped("console", 4)| == 3
    ensures IsReserved(Base(Cropped("console", 4)))
  {
    hide Sanitized, IsReserved, Base;
    PlainStays("console");
    ConIsReserved(Cropped("console", 4));
  }

  /** A device name with a long extension: the cleaned name fills the local buffer, and the prefix
      pushes its terminator out. */
  lemma PrefixOverflows()
    ensures var name := "con." + seq(255, _ => 'a');
      |name| == 259 && Cleaned(name) == name && IsReserved(Base(name)) && |Protected(name)| == BUFFER_SIZE
  {
    hide IsReserved, Base;
    var name := "con." + seq(255, _ => 'a');
    ConIsReserved(name);
    forall i | 0 <= i < 259 ensures !Forbidden(name[i]) { assert i >= 4 ==> name[i] == 'a'; }
    SafeStays(name);
  }

  lemma SafeStays(s: string)
    requires 0 < |s| < BUFFER_SIZE && !Trailing(s[|s| - 1]) && forall i :: 0 <= i < |s| ==> !Forbidden(s[i])
    ensures Cleaned(s) == s
  {
    assert Mapped(s) == s && s[..|s|] == s;
  }

  // ---- the loops ------------------------------------------------------------------------

  /** name_is_reserved_device. */
  method NameIsReserved(base: string) returns (r: bool)
    ensures r == IsReserved(base)
  {
    for i := 0 to |RESERVED|
      invariant forall j :: 0 <= j < i ==> RESERVED[j] != Lower(base)
    {
      if |base| == |RESERVED[i]| && Lower(base) == RESERVED[i] { return true; }
    }
    return false;
  }

  lemma BaseIs(s: string, n: nat)
    requires n <= |s| && '.' !in s[..n] && (n < |s| ==> s[n] == '.')
    ensures Base(s) == s[..n]
  {
  }

  /** The first loop: copies the name, replacing what Win32 forbids. */
  method FillMapped(name: string, buf: array<char>) returns (write: nat)
    requires buf.Length == BUFFER_SIZE
    modifies buf
    ensures write <= buf.Length
    ensures buf[..write] == Mapped(if |name| < BUFFER_SIZE - 1 then name else name[..BUFFER_SIZE - 1])
  {
    var len := if |name| < BUFFER_SIZE - 1 then |name| else BUFFER_SIZE - 1;
    write := 0;
    for i := 0 to len
      invariant write == i
      invariant forall j :: 0 <= j < i ==> buf[j] == Safe(name[j])
    {
      buf[write] := Safe(name[i]);
      write := write + 1;
    }
  }

  /** The trimming loop over the local buffer. */
  method TrimTail(buf: array<char>, n: nat) returns (write: nat)
    requires n <= buf.Length
    ensures write <= n && buf[..write] == Trim(buf[..n])
  {
    write := n;
    while write > 0 && Trailing(buf[write - 1])
      invariant write <= n && Trim(buf[..write]) == Trim(buf[..n])
    {
      assert buf[..write][..write - 1] == buf[..write - 1];
      write := write - 1;
    }
  }

  /** Shifts the name up by one and puts an underscore in front. */
  method AddPrefix(buf: array<char>, n: nat)
    requires n < buf.Length
    modifies buf
    ensures buf[..n + 1] == ['_'] + old(buf[..n])
  {
    forall i | 1 <= i < n + 1 { buf[i] := buf[i - 1]; }
    buf[0] := '_';
  }

  /** The reserved-name check on the first n bytes of the local buffer. */
  method Protect(buf: array<char>, n: nat) returns (write: nat)
    requires n <= buf.Length && |Protected(buf[..n])| <= buf.Length
    modifies buf
    ensures write <= buf.Length && buf[..write] == Protected(old(buf[..n]))
  {
    hide IsReserved, Base;
    ghost var s := buf[..n];
    var baseLen := 0;
    while baseLen < n && buf[baseLen] != '.'
      invariant baseLen <= n && '.' !in buf[..baseLen]
    {
      baseLen := baseLen + 1;
    }
    assert buf[..baseLen] == s[..baseLen];
    BaseIs(s, baseLen);
    var reserved := NameIsReserved(buf[..baseLen]);
    write := n;
    if reserved {
      AddPrefix(buf, n);
      write := n + 1;
    }
  }

  /** gsr_platform_path_sanitize_filename with a non-null name and an output buffer. `overflow` is
      set when the terminator lands behind the local buffer; what the source does then is undefined. */
  method Sanitize(name: string, outSize: nat) returns (ok: bool, out: string, overflow: bool)
    requires outSize > 0
    ensures overflow <==> IsReserved(Base(Cleaned(name))) && |Cleaned(name)| == BUFFER_SIZE - 1
    ensures !overflow ==> ok == Sanitized(name).Some?
    ensures !overflow ==> out == if ok then Cropped(Sanitized(name).value, outSize) else []
    ensures !overflow && ok && |Sanitized(name).value| < outSize ==> Openable(out)
  {
    var buf := new char[BUFFER_SIZE](_ => '\0');
    var write := FillMapped(name, buf);
    write := TrimTail(buf, write);
    assert buf[..write] == Cleaned(name);
    ResultFitsExactly(name);
    CleanedIsSafe(name);
    SanitizedIsOpenable(name);
    hide Cleaned, Protected, IsReserved, Base, Openable;
    write := Protect(buf, write);
    if write == 0 { return false, [], false; }
    if write == BUFFER_SIZE { return true, [], true; }
    return true, Cropped(buf[..write], outSize), false;
  }
}
