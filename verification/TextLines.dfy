/** Text as lines: searching for a character, splitting at newlines (string_split_char in
    ui/src/Utils.cpp) and putting lines together. */
module TextLines {

  // ---- searching and splitting ----------------------------------------------------

  /** The first position of ch, or the length when it does not occur. */
  function IndexOf(s: string, ch: char): (i: nat)
    ensures i <= |s| && ch !in s[..i]
    ensures i < |s| ==> s[i] == ch
  {
    if s == [] || s[0] == ch then 0
    else
      assert s[..IndexOf(s[1..], ch) + 1] == [s[0]] + s[1..][..IndexOf(s[1..], ch)];
      IndexOf(s[1..], ch) + 1
  }

  lemma {:induction false} IndexOfIs(s: string, ch: char, i: nat)
    requires i < |s| && s[i] == ch && ch !in s[..i]
    ensures IndexOf(s, ch) == i
  {
    if i > 0 {
      assert s[0] == s[..i][0] && s[1..][..i - 1] == s[..i][1..];
      IndexOfIs(s[1..], ch, i - 1);
    }
  }

  lemma IndexOfConcat(a: string, ch: char, b: string)
    requires ch !in a
    ensures IndexOf(a + [ch] + b, ch) == |a|
    ensures (a + [ch] + b)[..|a|] == a && (a + [ch] + b)[|a| + 1..] == b
  {
    if a != [] {
      assert (a + [ch] + b)[1..] == a[1..] + [ch] + b;
      IndexOfConcat(a[1..], ch, b);
    }
  }

  predicate StartsWith(s: string, prefix: string) { prefix <= s }

  /** string_split_char: the pieces between separators, without an empty piece at the end. */
  function SplitLines(content: string): seq<string>
    decreases |content|
  {
    if content == [] then []
    else
      var i := IndexOf(content, '\n');
      [content[..i]] + (if i == |content| then [] else SplitLines(content[i + 1..]))
  }

  /** The lines, each with its newline. */
  function JoinLines(lines: seq<string>): string {
    if lines == [] then [] else lines[0] + ['\n'] + JoinLines(lines[1..])
  }

  lemma {:induction false} SplitJoined(lines: seq<string>)
    requires forall j :: 0 <= j < |lines| ==> '\n' !in lines[j]
    ensures SplitLines(JoinLines(lines)) == lines
  {
    if lines != [] {
      SplitJoined(lines[1..]);
      IndexOfConcat(lines[0], '\n', JoinLines(lines[1..]));
    }
  }

  /** The pieces have no newline, and no character that the content does not have. */
  lemma {:induction false} SplitAvoids(content: string, ch: char)
    requires ch == '\n' || ch !in content
    ensures forall j :: 0 <= j < |SplitLines(content)| ==> ch !in SplitLines(content)[j]
    decreases |content|
  {
    if content != [] {
      var i := IndexOf(content, '\n');
      if i < |content| { SplitAvoids(content[i + 1..], ch); }
    }
  }

  lemma {:induction false} JoinConcat(a: seq<string>, b: seq<string>)
    ensures JoinLines(a + b) == JoinLines(a) + JoinLines(b)
  {
    if a == [] {
      assert a + b == b;
    } else {
      JoinConcat(a[1..], b);
      assert (a + b)[0] == a[0] && (a + b)[1..] == a[1..] + b;
      var head := a[0] + ['\n'];
      assert head + (JoinLines(a[1..]) + JoinLines(b)) == head + JoinLines(a[1..]) + JoinLines(b);
    }
  }

  lemma JoinSnoc(lines: seq<string>, line: string)
    ensures JoinLines(lines + [line]) == JoinLines(lines) + (line + ['\n'])
  {
    JoinConcat(lines, [line]);
    assert [line][1..] == [];
    assert JoinLines([line]) == line + ['\n'] + JoinLines([]);
  }

  lemma Associative<T>(a: seq<T>, b: seq<T>, c: seq<T>)
    ensures a + b + c == a + (b + c)
  {
  }
}
