/** What the flat readers read, told of the lines and characters alone. */
module FrontmatterLaws {
  import opened Text
  import opened Frontmatter

  // ---- lines ----

  /** `splitlines` by cases: a text without breaks is its own line; a break ends a line, and CR LF is one break. */
  lemma LinesCases(a: string, c: char, rest: string)
    requires NoBreaks(a) && IsBreak(c)
    ensures Lines(a) == if a == "" then [] else [a]
    ensures Lines(a + "\r\n" + rest) == [a] + Lines(rest)
    ensures c != '\r' || rest == "" || rest[0] != '\n' ==> Lines(a + [c] + rest) == [a] + Lines(rest)
  {
    OneLineOnly(a);
    BreakAt(a, "\r\n", rest);
    if c != '\r' || rest == "" || rest[0] != '\n' {
      BreakAt(a, [c], rest);
    }
  }

  lemma BreakAt(a: string, br: string, rest: string)
    requires NoBreaks(a) && br != "" && IsBreak(br[0]) && BreakLen(br + rest) == |br|
    ensures Lines(a + br + rest) == [a] + Lines(rest)
  {
    var s := a + br + rest;
    FirstBreakAt(a, br + rest);
    assert s == a + (br + rest);
    assert s[|a|..] == br + rest && s[|a| + |br|..] == rest;
    assert s[..|a|] == a;
  }

  // ---- quotes ----

  /** A value in double quotes is what is between them; in single quotes, with each pair of quotes read as one; any
      other value is read as it is. */
  lemma UnquoteCases(v: string)
    ensures |v| >= 2 && v[0] == '"' && v[|v| - 1] == '"' ==> v == "\"" + Unquote(v) + "\""
    ensures |v| >= 2 && v[0] == '\'' && v[|v| - 1] == '\'' ==> Unquote(v) == Undouble(v[1..|v| - 1])
    ensures |v| < 2 || v[0] != v[|v| - 1] || (v[0] != '"' && v[0] != '\'') ==> Unquote(v) == v
  {
  }

  /** Pairs of quotes are read as one from the left, and everything else as it is. */
  lemma {:induction false} UndoubleCases(a: string, rest: string)
    requires !Contains(a + "'", "''")
    ensures Undouble(a + "''" + rest) == a + "'" + Undouble(rest)
    ensures Undouble(a) == a
  {
    if a == "" {
      assert a + "''" + rest == "''" + rest;
      assert ("''" + rest)[2..] == rest;
    } else {
      var more := a[1..];
      PairFree(a);
      UndoubleCases(more, rest);
      var s := a + "''" + rest;
      assert s[1..] == more + "''" + rest && s[0] == a[0];
      assert a[0] == '\'' ==> s[1] != '\'';
      assert s == [a[0]] + s[1..];
    }
  }

  lemma PairFree(a: string)
    requires a != "" && !Contains(a + "'", "''")
    ensures !Contains(a[1..] + "'", "''")
    ensures a[0] == '\'' ==> |a| > 1 && a[1] != '\''
  {
    var s := a + "'";
    assert s[1..] == a[1..] + "'" && s[0..] == s;
    FindIs(s, "''");
    FindIs(s[1..], "''");
    assert forall j | 0 <= j < |s| :: s[1..][j..] == s[j + 1..];
  }

  // ---- the body ----

  /** Newlines, and nothing else, are taken off the front of a body. */
  lemma {:induction false} NewlinesOff(s: string) returns (n: nat)
    ensures n <= |s| && LStripNewlines(s) == s[n..] && (forall i | 0 <= i < n :: s[i] == '\n')
    ensures n < |s| ==> s[n] != '\n'
  {
    if s != "" && s[0] == '\n' {
      var m := NewlinesOff(s[1..]);
      n := m + 1;
      assert s[1..][m..] == s[n..] && forall i | 1 <= i < n :: s[i] == s[1..][i - 1];
    } else {
      n := 0;
    }
  }

  // ---- what is written for a value ----

  lemma {:induction false} SpacedAt(v: string)
    ensures |Spaced(v)| == |v|
    ensures forall k | 0 <= k < |v| :: Spaced(v)[k] == if v[k] == '\n' || v[k] == '\r' then ' ' else v[k]
  {
    if v != "" {
      SpacedAt(v[1..]);
    }
  }

  /** A value is written, and read back, without the space around it and with a space for each newline and each carriage
      return. */
  lemma FlattenIs(v: string) returns (i: nat, j: nat)
    ensures i <= j <= |v| && |Flatten(v)| == j - i && Trim(Flatten(v))
    ensures forall k | i <= k < j :: Flatten(v)[k - i] == if v[k] == '\n' || v[k] == '\r' then ' ' else v[k]
    ensures forall k | 0 <= k < i || j <= k < |v| :: IsSpace(v[k])
  {
    var before, after := StripCore(Spaced(v));
    SpacedAt(v);
    i, j := |before|, |before| + |Flatten(v)|;
    forall k | 0 <= k < i ensures IsSpace(v[k]) {
      assert Spaced(v)[k] == before[k];
    }
    forall k | j <= k < |v| ensures IsSpace(v[k]) {
      assert Spaced(v)[k] == after[k - j];
    }
    forall k | i <= k < j ensures Flatten(v)[k - i] == Spaced(v)[k] {
    }
  }

  // ---- the line reader ----

  /** Line `end` is the first after the opening one that is a fence, spaces aside. */
  predicate Closes(lines: seq<string>, end: nat) {
    1 <= end < |lines| && Strip(lines[end]) == "---" && forall j | 1 <= j < end :: Strip(lines[j]) != "---"
  }

  /** The line reader gives the lines between the fences as they are, and the lines after them joined again, without
      newlines in front. */
  lemma RawClosed(text: string, end: nat)
    requires "---" <= text && Closes(Lines(text), end)
    ensures var raw := RawFrontmatter(text);
      raw.lines == Lines(text)[1..end] && raw.body == LStripNewlines(Join(Lines(text)[end + 1..]))
  {
    var found := FenceFrom(Lines(text), 1);
    assert found == end;
  }

  /** Without a fence at the very start and another after it, it gives no lines, and the text as it is. */
  lemma RawOpen(text: string)
    requires !("---" <= text) || forall end :: !Closes(Lines(text), end)
    ensures RawFrontmatter(text) == Raw([], text)
  {
    var lines := Lines(text);
    if FENCE <= text && lines != [] {
      var end := FenceFrom(lines, 1);
      assert end < |lines| <==> Closes(lines, end);
      assert !Closes(Lines(text), end);
    }
  }
}
