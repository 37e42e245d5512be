/** What splitting a text into lines and joining them with newlines does to it. */
module Normalize {
  import opened Text
  import opened Frontmatter

  /** Every line break as one newline. */
  function Normal(s: string): string {
    if s == "" then "" else [if IsBreak(s[0]) then '\n' else s[0]] + Normal(s[BreakLen(s)..])
  }

  predicate NewlinesOnly(s: string) {
    forall i | 0 <= i < |s| :: IsBreak(s[i]) ==> s[i] == '\n'
  }

  function FinalBreak(s: string): string {
    if s != "" && IsBreak(s[|s| - 1]) then "\n" else ""
  }

  lemma {:induction false} NormalConcat(a: string, b: string)
    requires a == "" || b == "" || a[|a| - 1] != '\r' || b[0] != '\n'
    ensures Normal(a + b) == Normal(a) + Normal(b)
    decreases |a|
  {
    if a == "" {
      assert a + b == b;
    } else {
      var x, k := a + b, BreakLen(a);
      assert BreakLen(x) == k && x[0] == a[0];
      assert x[k..] == a[k..] + b;
      NormalConcat(a[k..], b);
    }
  }

  lemma {:induction false} NormalClean(s: string)
    ensures NewlinesOnly(Normal(s))
    decreases |s|
  {
    if s != "" {
      NormalClean(s[BreakLen(s)..]);
    }
  }

  lemma {:induction false} NormalSame(s: string)
    requires NewlinesOnly(s)
    ensures Normal(s) == s
  {
    if s != "" {
      assert s[0] == '\r' ==> IsBreak(s[0]);
      NormalSame(s[1..]);
    }
  }

  /** Normalising leaves a text alone exactly when newlines are its only line breaks. */
  lemma NormalIff(s: string)
    ensures Normal(s) == s <==> NewlinesOnly(s)
  {
    NormalClean(s);
    if NewlinesOnly(s) {
      NormalSame(s);
    }
  }

  lemma NoBreaksNormal(s: string)
    requires NoBreaks(s)
    ensures Normal(s) == s
  {
    forall i | 0 <= i < |s| ensures !IsBreak(s[i]) {
      assert s[i] in s;
    }
    NormalSame(s);
  }

  lemma NormalCut(l: string, s: string)
    requires NoBreaks(l) && s != "" && IsBreak(s[0])
    ensures Normal(l + s) == l + "\n" + Normal(s[BreakLen(s)..])
  {
    NoBreaksNormal(l);
    if l != "" {
      assert l[|l| - 1] in l;
    }
    NormalConcat(l, s);
    assert Normal(s) == "\n" + Normal(s[BreakLen(s)..]);
  }

  lemma FinalBreakTail(l: string, s: string, k: nat)
    requires s != "" && 1 <= k <= |s| && IsBreak(s[0]) && k == BreakLen(s)
    ensures FinalBreak(l + s) == if s[k..] == "" then "\n" else FinalBreak(s[k..])
  {
  }

  /** `"\n".join(s.splitlines())` is the normal text without its final break. */
  lemma {:induction false} JoinLines(s: string)
    ensures Join(Lines(s)) + FinalBreak(s) == Normal(s)
    decreases |s|
  {
    if s != "" {
      var i := FirstBreak(s);
      var l, tail := s[..i], s[i..];
      assert s == l + tail;
      if i == |s| {
        assert l == s;
        assert s[|s| - 1] in s;
        NoBreaksNormal(s);
      } else {
        var rest := tail[BreakLen(tail)..];
        assert rest == s[i + BreakLen(tail)..];
        JoinLines(rest);
        JoinStep(l, tail);
      }
    }
  }

  lemma JoinStep(l: string, tail: string)
    requires NoBreaks(l) && tail != "" && IsBreak(tail[0])
    requires var rest := tail[BreakLen(tail)..]; Join(Lines(rest)) + FinalBreak(rest) == Normal(rest)
    ensures Join([l] + Lines(tail[BreakLen(tail)..])) + FinalBreak(l + tail) == Normal(l + tail)
  {
    var rest := tail[BreakLen(tail)..];
    NormalCut(l, tail);
    FinalBreakTail(l, tail, BreakLen(tail));
    JoinMore(l, rest);
    if rest != "" {
      assert l + "\n" + Join(Lines(rest)) + FinalBreak(rest) == l + "\n" + (Join(Lines(rest)) + FinalBreak(rest));
    }
  }

  lemma JoinMore(l: string, rest: string)
    ensures Join([l] + Lines(rest)) == if rest == "" then l else l + "\n" + Join(Lines(rest))
  {
    if rest != "" {
      assert ([l] + Lines(rest))[1..] == Lines(rest);
    } else {
      assert [l] + Lines(rest) == [l];
    }
  }

  // ---- strip and normal texts ----

  lemma StripPadded(before: string, s: string, after: string)
    requires forall c | c in before + after :: IsSpace(c)
    ensures Strip(before + s + after) == Strip(s)
  {
    var a, b := StripCore(s);
    var core := Strip(s);
    assert before + s + after == (before + a) + core + (b + after);
    forall c | c in (before + a) + (b + after) ensures IsSpace(c) {
      assert c in before + after || c in a + b;
    }
    StripOf(before + a, core, b + after);
  }

  lemma {:induction false} NormalSpaces(s: string)
    requires forall c | c in s :: IsSpace(c)
    ensures forall c | c in Normal(s) :: IsSpace(c)
    decreases |s|
  {
    if s != "" {
      var rest := s[BreakLen(s)..];
      assert s[0] in s && forall c | c in rest :: c in s;
      NormalSpaces(rest);
    }
  }

  lemma NormalTrim(s: string)
    requires Trim(s)
    ensures Trim(Normal(s))
  {
    if s != "" {
      var k := |s| - 1;
      assert s == s[..k] + [s[k]];
      NormalConcat(s[..k], [s[k]]);
      assert Normal([s[k]]) == [s[k]] by { assert [s[k]][1..] == ""; }
    }
  }

  /** Stripping and normalising commute. */
  lemma StripNormal(s: string)
    ensures Strip(Normal(s)) == Normal(Strip(s))
  {
    var before, after := StripCore(s);
    var core := Strip(s);
    forall c | c in before ensures IsSpace(c) { assert c in before + after; }
    forall c | c in after ensures IsSpace(c) { assert c in before + after; }
    NormalSpaces(before);
    NormalSpaces(after);
    NormalTrim(core);
    if core == "" {
      assert s == before + after;
      assert forall c | c in before + after :: c in before || c in after;
      NormalSpaces(before + after);
      StripOf(Normal(s), "", "");
      assert Normal(s) + "" + "" == Normal(s);
    } else {
      NormalConcat(before, core + after);
      NormalConcat(core, after);
      assert s == before + (core + after);
      assert Normal(s) == Normal(before) + Normal(core) + Normal(after);
      assert forall c | c in Normal(before) + Normal(after) :: c in Normal(before) || c in Normal(after);
      StripOf(Normal(before), Normal(core), Normal(after));
    }
  }

  lemma {:induction false} StripNewlinesLeft(s: string)
    ensures Strip(LStripNewlines(s)) == Strip(s)
  {
    if s != "" && s[0] == '\n' {
      StripNewlinesLeft(s[1..]);
      StripPadded("\n", s[1..], "");
      assert "\n" + s[1..] + "" == s;
    }
  }

  /** Stripping the joined lines gives the normal form of the stripped text. */
  lemma StripJoined(s: string)
    ensures Strip(LStripNewlines(Join(Lines(s)))) == Normal(Strip(s))
  {
    var j := Join(Lines(s));
    JoinLines(s);
    StripNewlinesLeft(j);
    StripPadded("", j, FinalBreak(s));
    assert "" + j + FinalBreak(s) == Normal(s);
    StripNormal(s);
  }
}
