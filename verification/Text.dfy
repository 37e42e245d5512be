/** Python string operations the tools rely on: `strip`, `splitlines`, `find`, `replace(.., 1)` and `join`. */
module Text {

  /** The characters at which `str.splitlines` breaks a line. */
  predicate IsBreak(c: char) {
    c == '\n' || c == '\r' || c == '\U{B}' || c == '\U{C}' || '\U{1C}' <= c <= '\U{1E}' ||
    c == '\U{85}' || c == '\U{2028}' || c == '\U{2029}'
  }

  /** The characters `str.strip` removes. */
  predicate IsSpace(c: char) {
    IsBreak(c) || c == ' ' || c == '\t' || c == '\U{1F}' || c == '\U{A0}' || c == '\U{1680}' ||
    '\U{2000}' <= c <= '\U{200A}' || c == '\U{202F}' || c == '\U{205F}' || c == '\U{3000}'
  }

  predicate NoBreaks(s: string) {
    forall c | c in s :: !IsBreak(c)
  }

  // ---- strip ----

  function LStrip(s: string): string {
    if s != "" && IsSpace(s[0]) then LStrip(s[1..]) else s
  }

  function RStrip(s: string): string {
    if s != "" && IsSpace(s[|s| - 1]) then RStrip(s[..|s| - 1]) else s
  }

  function Strip(s: string): string {
    RStrip(LStrip(s))
  }

  /** True of text that `strip` leaves alone. */
  predicate Trim(s: string) {
    s == "" || (!IsSpace(s[0]) && !IsSpace(s[|s| - 1]))
  }

  lemma {:induction false} LStripSuffix(s: string)
    ensures |LStrip(s)| <= |s| && LStrip(s) == s[|s| - |LStrip(s)|..]
    ensures LStrip(s) == "" || !IsSpace(LStrip(s)[0])
    ensures forall i | 0 <= i < |s| - |LStrip(s)| :: IsSpace(s[i])
  {
    if s != "" && IsSpace(s[0]) {
      LStripSuffix(s[1..]);
      var k := |s[1..]| - |LStrip(s[1..])|;
      forall i | 0 <= i < |s| - |LStrip(s)| ensures IsSpace(s[i]) {
        if i > 0 { assert s[i] == s[1..][i - 1]; }
      }
    }
  }

  lemma {:induction false} RStripPrefix(s: string)
    ensures |RStrip(s)| <= |s| && RStrip(s) == s[..|RStrip(s)|]
    ensures RStrip(s) == "" || !IsSpace(RStrip(s)[|RStrip(s)| - 1])
    ensures forall i | |RStrip(s)| <= i < |s| :: IsSpace(s[i])
  {
    if s != "" && IsSpace(s[|s| - 1]) {
      RStripPrefix(s[..|s| - 1]);
    }
  }

  /** `strip` returns the core of a text: a middle part with no space at either end and only spaces around it. */
  lemma StripCore(s: string) returns (before: string, after: string)
    ensures s == before + Strip(s) + after
    ensures Trim(Strip(s))
    ensures forall c | c in before + after :: IsSpace(c)
  {
    LStripSuffix(s);
    var l := LStrip(s);
    RStripPrefix(l);
    before, after := s[..|s| - |l|], l[|RStrip(l)|..];
    assert l == RStrip(l) + after;
    forall c | c in before + after ensures IsSpace(c) {
      if c in before {
        var i :| 0 <= i < |before| && before[i] == c;
      } else {
        var i :| 0 <= i < |after| && after[i] == c;
        assert l[|RStrip(l)| + i] == c;
      }
    }
    if RStrip(l) != "" {
      assert RStrip(l)[0] == l[0];
    }
  }

  /** The core is all that `strip` depends on. */
  lemma {:induction false} StripOf(before: string, core: string, after: string)
    requires Trim(core)
    requires forall c | c in before + after :: IsSpace(c)
    ensures Strip(before + core + after) == core
    decreases |before| + |after|
  {
    var s := before + core + after;
    if before != "" {
      assert before[0] in before + after;
      assert s[1..] == before[1..] + core + after;
      forall c | c in before[1..] + after ensures IsSpace(c) { assert c in before + after; }
      StripOf(before[1..], core, after);
    } else if core == "" {
      assert s == after;
      AllSpaces(after);
    } else {
      assert LStrip(s) == s;
      RStripTail(core, after);
      assert s == core + after;
    }
  }

  lemma {:induction false} AllSpaces(s: string)
    requires forall c | c in s :: IsSpace(c)
    ensures LStrip(s) == ""
  {
    if s != "" {
      assert s[0] in s;
      AllSpaces(s[1..]);
    }
  }

  lemma {:induction false} RStripTail(core: string, after: string)
    requires core != "" && !IsSpace(core[|core| - 1])
    requires forall c | c in after :: IsSpace(c)
    ensures RStrip(core + after) == core
  {
    if after == "" {
      assert core + after == core;
    } else {
      var k := |after| - 1;
      assert after[k] in after;
      assert (core + after)[..|core + after| - 1] == core + after[..k];
      RStripTail(core, after[..k]);
    }
  }

  lemma StripTrim(s: string)
    requires Trim(s)
    ensures Strip(s) == s && LStrip(s) == s
  {
    StripOf("", s, "");
    assert "" + s + "" == s;
  }

  lemma StripNonempty(s: string)
    requires s != "" && !IsSpace(s[0])
    ensures LStrip(s) == s && Strip(s) != ""
  {
    RStripPrefix(s);
  }

  /** Python's `v or default`. */
  function OrElse(v: string, default: string): string {
    if v == "" then default else v
  }

  // ---- find, replace ----

  /** Index of the first occurrence of `pat`, or -1. */
  function Find(s: string, pat: string): (i: int)
    ensures i == -1 || 0 <= i <= |s| - |pat|
  {
    if pat <= s then 0
    else if s == "" then -1
    else
      var r := Find(s[1..], pat);
      if r < 0 then -1 else r + 1
  }

  lemma {:induction false} FindIs(s: string, pat: string)
    ensures Find(s, pat) >= 0 ==> pat <= s[Find(s, pat)..]
    ensures forall j | 0 <= j <= |s| && (Find(s, pat) < 0 || j < Find(s, pat)) :: !(pat <= s[j..])
  {
    assert s[0..] == s;
    if !(pat <= s) && s != "" {
      FindIs(s[1..], pat);
      assert forall j | 1 <= j <= |s| :: s[j..] == s[1..][j - 1..];
    }
  }

  predicate Contains(s: string, pat: string) {
    Find(s, pat) != -1
  }

  /** `s.replace(a, b, 1)` */
  function ReplaceFirst(s: string, a: string, b: string): string {
    var i := Find(s, a);
    if i < 0 then s else s[..i] + b + s[i + |a|..]
  }

  lemma FindUnique(s: string, pat: string, i: nat)
    requires i <= |s| && pat <= s[i..]
    requires forall j | 0 <= j < i :: !(pat <= s[j..])
    ensures Find(s, pat) == i
  {
    FindIs(s, pat);
  }

  lemma ContainsAt(s: string, pat: string, i: nat)
    requires i <= |s| && pat <= s[i..]
    ensures Contains(s, pat)
  {
    FindIs(s, pat);
  }

  /** An occurrence inside `a` is also the first one of `a + b`. */
  lemma FindInPrefix(a: string, b: string, pat: string)
    requires Contains(a, pat)
    ensures Find(a + b, pat) == Find(a, pat)
  {
    FindIs(a, pat);
    var i := Find(a, pat);
    assert (a + b)[i..] == a[i..] + b;
    forall j | 0 <= j < i ensures !(pat <= (a + b)[j..]) {
      assert (a + b)[j..][..|pat|] == a[j..][..|pat|];
    }
    FindUnique(a + b, pat, i);
  }

  /** Without the separator `c` in the pattern, no occurrence spans it. */
  lemma {:induction false} FindPast(a: string, c: char, b: string, pat: string)
    requires !Contains(a, pat) && c !in pat && pat != ""
    ensures Find(a + [c] + b, pat) == if Contains(b, pat) then |a| + 1 + Find(b, pat) else -1
  {
    var s := a + [c] + b;
    NoStart(a, c, b, pat);
    if a == "" {
      assert s[1..] == b;
    } else {
      FindTail(a, pat);
      assert s[1..] == a[1..] + [c] + b;
      FindPast(a[1..], c, b, pat);
    }
  }

  lemma FindTail(a: string, pat: string)
    requires a != "" && !Contains(a, pat)
    ensures !Contains(a[1..], pat)
  {
    assert !(pat <= a);
  }

  lemma NoStart(a: string, c: char, b: string, pat: string)
    requires !Contains(a, pat) && c !in pat && pat != ""
    ensures !(pat <= a + [c] + b)
  {
    var s := a + [c] + b;
    FindIs(a, pat);
    if |pat| <= |a| {
      assert s[..|pat|] == a[..|pat|];
      assert a[0..] == a;
    } else {
      assert s[|a|] == c;
    }
  }

  // ---- splitlines, join ----

  function FirstBreak(s: string): (i: nat)
    ensures i <= |s| && NoBreaks(s[..i]) && (i < |s| ==> IsBreak(s[i]))
  {
    if s == "" || IsBreak(s[0]) then 0
    else
      var i := FirstBreak(s[1..]) + 1;
      assert s[..i] == [s[0]] + s[1..][..i - 1];
      i
  }

  /** Length of the line break that starts `s`: a CR LF pair is one break. */
  function BreakLen(s: string): (k: nat)
    requires s != ""
    ensures 1 <= k <= |s|
  {
    if |s| >= 2 && s[0] == '\r' && s[1] == '\n' then 2 else 1
  }

  /** `s.splitlines()` */
  function Lines(s: string): seq<string>
    decreases |s|
  {
    if s == "" then []
    else
      var i := FirstBreak(s);
      if i == |s| then [s]
      else [s[..i]] + Lines(s[i + BreakLen(s[i..])..])
  }

  /** `"\n".join(ls)` */
  function Join(ls: seq<string>): string {
    if |ls| == 0 then "" else if |ls| == 1 then ls[0] else ls[0] + "\n" + Join(ls[1..])
  }

  /** The lines `ls`, each ended by a newline. */
  function Block(ls: seq<string>): string {
    if |ls| == 0 then "" else ls[0] + "\n" + Block(ls[1..])
  }

  lemma {:induction false} FirstBreakAt(a: string, b: string)
    requires NoBreaks(a) && (b == "" || IsBreak(b[0]))
    ensures FirstBreak(a + b) == |a|
  {
    if a == "" {
      assert a + b == b;
    } else {
      assert a[0] in a;
      assert (a + b)[1..] == a[1..] + b;
      FirstBreakAt(a[1..], b);
    }
  }

  lemma {:induction false} LinesNoBreaks(s: string)
    ensures forall l | l in Lines(s) :: NoBreaks(l)
    decreases |s|
  {
    if s != "" {
      var i := FirstBreak(s);
      if i == |s| {
        assert s[..i] == s;
      } else {
        LinesNoBreaks(s[i + BreakLen(s[i..])..]);
      }
    }
  }

  lemma LinesCons(l: string, rest: string)
    requires NoBreaks(l)
    ensures Lines(l + "\n" + rest) == [l] + Lines(rest)
  {
    var s := l + "\n" + rest;
    FirstBreakAt(l, "\n" + rest);
    assert s == l + ("\n" + rest);
    assert s[|l|..] == "\n" + rest;
    assert s[|l| + 1..] == rest;
  }

  lemma {:induction false} LinesBlock(ls: seq<string>, tail: string)
    requires forall l | l in ls :: NoBreaks(l)
    ensures Lines(Block(ls) + tail) == ls + Lines(tail)
  {
    if ls == [] {
      assert Block(ls) + tail == tail;
    } else {
      var l, rest := ls[0], ls[1..];
      var after := Block(rest) + tail;
      assert l in ls && forall m | m in rest :: m in ls;
      calc {
        Lines(Block(ls) + tail);
        { assert Block(ls) + tail == l + "\n" + after; }
        Lines(l + "\n" + after);
        { LinesCons(l, after); }
        [l] + Lines(after);
        { LinesBlock(rest, tail); }
        [l] + (rest + Lines(tail));
        { assert ls == [l] + rest; }
        ls + Lines(tail);
      }
    }
  }

  lemma BlockOne(l: string)
    ensures Block([l]) == l + "\n"
  {
    assert [l][1..] == [];
  }

  lemma {:induction false} BlockJoin(ls: seq<string>)
    requires ls != []
    ensures Block(ls) == Join(ls) + "\n"
  {
    if |ls| > 1 {
      BlockJoin(ls[1..]);
    }
  }

  lemma {:induction false} BlockConcat(a: seq<string>, b: seq<string>)
    ensures Block(a + b) == Block(a) + Block(b)
  {
    if a == [] {
      assert a + b == b;
    } else {
      var x, rest := a[0], a[1..];
      BlockConcat(rest, b);
      assert a + b == [x] + (rest + b);
      assert Block(a + b) == x + "\n" + Block(rest + b);
    }
  }

  // ---- decimal numerals ----

  function Digit(d: nat): (c: char)
    requires d < 10
    ensures '0' <= c <= '9'
  {
    "0123456789"[d]
  }

  function Decimal(n: nat): (s: string)
    ensures s != "" && forall c | c in s :: '0' <= c <= '9'
  {
    if n < 10 then [Digit(n)] else Decimal(n / 10) + [Digit(n % 10)]
  }

  lemma {:induction false} DecimalInjective(m: nat, n: nat)
    requires Decimal(m) == Decimal(n)
    ensures m == n
  {
    assert forall a: nat, b: nat | a < 10 && b < 10 && Digit(a) == Digit(b) :: a == b;
    if m < 10 || n < 10 {
      assert |Decimal(m)| == 1 <==> m < 10;
      assert |Decimal(n)| == 1 <==> n < 10;
    } else {
      var p, q := Decimal(m / 10), Decimal(n / 10);
      assert p + [Digit(m % 10)] == q + [Digit(n % 10)];
      assert |p| == |q|;
      assert p == (p + [Digit(m % 10)])[..|p|] == q;
      assert Digit(m % 10) == (p + [Digit(m % 10)])[|p|] == (q + [Digit(n % 10)])[|q|];
      DecimalInjective(m / 10, n / 10);
    }
  }

  function DigitValue(c: char): nat {
    if '0' <= c <= '9' then c as nat - '0' as nat else 0
  }

  /** The number a numeral shows. */
  function Value(numeral: string): nat {
    if numeral == "" then 0
    else 10 * Value(numeral[..|numeral| - 1]) + DigitValue(numeral[|numeral| - 1])
  }

  /** A numeral shows its number, without a zero in front. */
  lemma {:induction false} DecimalValue(n: nat)
    ensures Value(Decimal(n)) == n
    ensures Decimal(n)[0] == '0' <==> n == 0
  {
    assert forall d: nat | d < 10 :: DigitValue(Digit(d)) == d && (Digit(d) == '0' <==> d == 0);
    if n >= 10 {
      DecimalValue(n / 10);
      assert (Decimal(n / 10) + [Digit(n % 10)])[..|Decimal(n / 10)|] == Decimal(n / 10);
    } else {
      assert [Digit(n)][..0] == [];
    }
  }
}
