/** Reading a rendered skill in text mode, where a carriage return, alone or before a newline, is read as a newline. */
module Reading {
  import opened Text
  import opened Frontmatter
  import opened Writer

  /** What `open(path).read()` makes of the text of a file. */
  function Universal(s: string): string {
    if s == "" then ""
    else if s[0] == '\r' then "\n" + Universal(if |s| > 1 && s[1] == '\n' then s[2..] else s[1..])
    else [s[0]] + Universal(s[1..])
  }

  lemma {:induction false} UniversalConcat(a: string, b: string)
    requires a == "" || a[|a| - 1] != '\r'
    ensures Universal(a + b) == Universal(a) + Universal(b)
    decreases |a|
  {
    if a == "" {
      assert a + b == b;
    } else {
      var k := if a[0] == '\r' && |a| > 1 && a[1] == '\n' then 2 else 1;
      assert (a + b)[0] == a[0] && (a[0] == '\r' ==> |a| > 1 && (a + b)[1] == a[1]);
      assert (a + b)[k..] == a[k..] + b;
      UniversalConcat(a[k..], b);
    }
  }

  lemma {:induction false} UniversalSame(s: string)
    requires '\r' !in s
    ensures Universal(s) == s
  {
    if s != "" {
      assert s[0] in s && forall c | c in s[1..] :: c in s;
      UniversalSame(s[1..]);
    }
  }

  lemma {:induction false} UniversalNone(s: string)
    ensures '\r' !in Universal(s)
    decreases |s|
  {
    if s != "" {
      if s[0] == '\r' && |s| > 1 && s[1] == '\n' {
        UniversalNone(s[2..]);
      } else {
        UniversalNone(s[1..]);
      }
    }
  }

  /** A text survives the reading exactly if it holds no carriage return. */
  lemma UniversalIff(s: string)
    ensures Universal(s) == s <==> '\r' !in s
  {
    UniversalNone(s);
    if '\r' !in s {
      UniversalSame(s);
    }
  }

  lemma UniversalTrim(s: string)
    requires s != "" && Trim(s)
    ensures Universal(s) != "" && Trim(Universal(s)) && Universal(s)[0] == s[0]
  {
    if |s| > 1 {
      var init, last := s[..|s| - 1], s[|s| - 1..];
      assert s == init + last && last == [s[|s| - 1]];
      UniversalLast(init, s[|s| - 1]);
    }
  }

  lemma {:induction false} UniversalLast(init: string, c: char)
    requires c != '\r' && c != '\n'
    ensures Universal(init + [c]) == Universal(init) + [c]
    decreases |init|
  {
    var s := init + [c];
    if init == "" {
      assert s == [c] && s[1..] == "";
    } else {
      var k := if init[0] == '\r' && |init| > 1 && init[1] == '\n' then 2 else 1;
      assert s[0] == init[0] && s[1] == if |init| > 1 then init[1] else c;
      assert s[k..] == init[k..] + [c];
      UniversalLast(init[k..], c);
    }
  }

  /** A rendered skill up to its body: nothing there that the reading would change. */
  lemma HeadClean(lines: seq<string>)
    requires forall l | l in lines :: NoBreaks(l)
    ensures '\r' !in FENCE + Block([""] + lines) + FENCE + "\n"
  {
    forall l | l in [""] + lines ensures NoBreaks(l) {
      assert l == "" || l in lines;
    }
    BlockClean([""] + lines);
  }

  lemma {:induction false} BlockClean(lines: seq<string>)
    requires forall l | l in lines :: NoBreaks(l)
    ensures '\r' !in Block(lines)
  {
    if lines != [] {
      assert lines[0] in lines && forall l | l in lines[1..] :: l in lines;
      assert IsBreak('\r');
      BlockClean(lines[1..]);
    }
  }

  lemma FencedRead(lines: seq<string>, body: string)
    requires forall l | l in lines :: NoBreaks(l)
    ensures Universal(Fenced(lines, "\n" + body)) == Fenced(lines, "\n" + Universal(body))
  {
    var head := FENCE + Block([""] + lines) + FENCE + "\n";
    HeadClean(lines);
    assert head[|head| - 1] == '\n';
    UniversalConcat(head, body);
    UniversalSame(head);
    assert Fenced(lines, "\n" + body) == head + body;
    assert Fenced(lines, "\n" + Universal(body)) == head + Universal(body);
  }

  lemma StripLine(b: string)
    requires b != "" && Trim(b)
    ensures LStripNewlines("\n" + (b + "\n")) == b + "\n" && Strip(b + "\n") == b
  {
    LStripNewlinesOf(b + "\n");
    StripOf("", b, "\n");
    assert "" + b + "\n" == b + "\n";
  }

  lemma FencedBody(lines: seq<string>, b: string)
    requires forall l | l in lines :: !Contains(l, FENCE)
    requires b != "" && Trim(b)
    ensures BodyOf(Fenced(lines, "\n" + (b + "\n"))) == b + "\n"
  {
    SplitFenced(lines, "\n" + (b + "\n"));
    StripLine(b);
  }

  lemma EndedRead(b: string)
    requires b != "" && Trim(b)
    ensures Universal(b + "\n") == Universal(b) + "\n"
  {
    assert b[|b| - 1] != '\r';
    UniversalConcat(b, "\n");
  }

  lemma BodyRead(lines: seq<string>, b: string, u: string)
    requires forall l | l in lines :: NoBreaks(l) && !Contains(l, FENCE)
    requires b != "" && Trim(b) && u == Universal(b)
    ensures Strip(BodyOf(Universal(Fenced(lines, "\n" + (b + "\n"))))) == u
  {
    UniversalTrim(b);
    FencedRead(lines, b + "\n");
    EndedRead(b);
    FencedBody(lines, u);
    StripLine(u);
  }

  /** The body read back from the file is the stamped one, between the spaces around it, if and only if that holds no
      carriage return; and then it hashes to what was stamped. */
  lemma RenderedBodyRead(s: Stamp, h: Digest)
    requires Hex(BodyHash(h, EffectiveBody(s))) && OneLine(s) && DashFree(s)
    ensures var body, stamped := BodyOf(Universal(Render(s, h))), Strip(EffectiveBody(s));
      (Strip(body) == stamped <==> '\r' !in stamped) && ('\r' !in stamped ==> BodyHash(h, body) == h(stamped))
  {
    var b := RStrip(EffectiveBody(s));
    EffectiveBodyShape(s);
    RenderedLines(s, h);
    RenderFenced(s, h);
    BodyRead(LinesOf(Pairs(s, h)), b, Universal(b));
    UniversalIff(b);
  }

  /** The reading changes no field of a rendered skill, so what is proved of the fields of its text is true of the file
      as it is read. */
  lemma RenderedFieldsRead(s: Stamp, h: Digest)
    requires Hex(BodyHash(h, EffectiveBody(s))) && OneLine(s)
    ensures Fm(Universal(Render(s, h))) == Fm(Render(s, h))
  {
    var lines := LinesOf(Pairs(s, h));
    var body := RStrip(EffectiveBody(s)) + "\n";
    PairsPlain(s, h);
    LinesPlain(Pairs(s, h));
    RenderFenced(s, h);
    FencedRead(lines, body);
    SameBlock(lines, "\n" + body, "\n" + Universal(body));
  }

  /** The fields of a fenced text do not depend on what follows the closing fence. */
  lemma SameBlock(lines: seq<string>, a: string, b: string)
    ensures Fm(Fenced(lines, a)) == Fm(Fenced(lines, b))
  {
    var inner := Block([""] + lines) + FENCE;
    assert inner[|inner| - 3..] == FENCE;
    ContainsAt(inner, FENCE, |inner| - 3);
    Regrouped(lines, inner, a);
    Regrouped(lines, inner, b);
    FirstBlock(inner, a);
    FirstBlock(inner, b);
  }

  lemma Regrouped(lines: seq<string>, inner: string, rest: string)
    requires inner == Block([""] + lines) + FENCE
    ensures Fenced(lines, rest) == FENCE + (inner + rest)
  {
  }

  lemma FirstBlock(inner: string, rest: string)
    requires Contains(inner, FENCE)
    ensures Fm(FENCE + (inner + rest)) == ReadLines(Lines(inner[..Find(inner, FENCE)]))
  {
    FindInPrefix(inner, rest, FENCE);
    SplitBody(inner + rest, Find(inner, FENCE));
    assert (inner + rest)[..Find(inner, FENCE)] == inner[..Find(inner, FENCE)];
  }
}
