/** The rewrite of a renamed copy: `text.replace("name: old", "name: new", 1)`. */
module Rename {
  import opened Text
  import opened Frontmatter
  import opened Writer
  import opened Trees
  import opened Collect

  const OPENING := FENCE + "\nname: "

  /** The text opens with its name line, and no later frontmatter line sets the name again. */
  predicate NameFirst(text: string, name: string) {
    OPENING + name + "\n" <= text &&
    var rest := text[|OPENING| + |name| + 1..];
    Contains(rest, FENCE) && "name" !in ReadLines(Lines(rest[..Find(rest, FENCE)]))
  }

  function NameLine(name: string): string {
    "name: " + name
  }

  /** A text that opens with a name line, cut into the part of the opening fence, that line and the rest. */
  function Opened(name: string, rest: string): string {
    FENCE + (Block(["", NameLine(name)]) + rest)
  }

  lemma OpenedBlock(name: string)
    ensures Block(["", NameLine(name)]) == "\nname: " + name + "\n"
  {
    BlockConcat([""], [NameLine(name)]);
    BlockOne("");
    BlockOne(NameLine(name));
    assert [""] + [NameLine(name)] == ["", NameLine(name)];
  }

  lemma NameFirstOpened(text: string, name: string)
    requires NameFirst(text, name)
    ensures text == Opened(name, text[|OPENING| + |name| + 1..])
  {
    OpenedBlock(name);
    assert text == OPENING + name + "\n" + text[|OPENING| + |name| + 1..];
  }

  lemma RenameOpened(name: string, target: string, rest: string)
    ensures Renamed(Opened(name, rest), name, target) == Opened(target, rest)
  {
    OpenedBlock(name);
    OpenedBlock(target);
    var text := Opened(name, rest);
    assert text == OPENING + name + "\n" + rest;
    assert text[4..] == NameLine(name) + ("\n" + rest);
    forall j | 0 <= j < 4 ensures !("name: " + name <= text[j..]) {
      assert text[j..][0] == text[j] != 'n';
    }
    FindUnique(text, "name: " + name, 4);
    assert text[..4] == FENCE + "\n";
    assert text[4 + |"name: " + name|..] == "\n" + rest;
  }

  lemma GoodPlain(v: string)
    requires Good(v)
    ensures NoBreaks(v) && Bare(v) && v != ""
  {
    StripTrim(v);
  }

  lemma NameKey()
    ensures PlainKey("name")
  {
  }

  lemma NameLineReads(name: string)
    requires Good(name)
    ensures NoBreaks(NameLine(name)) && (Contains(NameLine(name), FENCE) <==> Contains(name, FENCE))
    ensures ReadLines(["", NameLine(name)]) == map["name" := name]
  {
    NameKey();
    GoodPlain(name);
    assert LineOf(("name", name)) == NameLine(name);
    PairLine(("name", name));
    ContainsLine(("name", name));
    PlainKeyIs("name");
    FieldLine(map[], "name", name);
    ReadConcat([""], [NameLine(name)]);
    ReadOne("");
    BlankLine(map[]);
    ReadOne(NameLine(name));
    assert [""] + [NameLine(name)] == ["", NameLine(name)];
  }

  /** The text between the fences: a block of whole lines, then all of the rest up to its first `---`. */
  lemma SplitOpened(ls: seq<string>, rest: string)
    requires forall l | l in ls :: !Contains(l, FENCE)
    requires Contains(rest, FENCE)
    ensures SplitFences(FENCE + (Block(ls) + rest)).Parts?
    ensures SplitFences(FENCE + (Block(ls) + rest)).block == Block(ls) + rest[..Find(rest, FENCE)]
  {
    FindAfterBlock(ls, rest);
    SplitBody(Block(ls) + rest, |Block(ls)| + Find(rest, FENCE));
    TakePast(Block(ls), rest, Find(rest, FENCE));
  }

  lemma TakePast(a: string, b: string, k: nat)
    requires k <= |b|
    ensures (a + b)[..|a| + k] == a + b[..k]
  {
  }

  /** Reading a text that opens with a name line free of `---`. */
  lemma OpenedReads(name: string, rest: string)
    requires Good(name) && Fenceless(name) && Contains(rest, FENCE)
    ensures Fm(Opened(name, rest)) == map["name" := name] + ReadLines(Lines(rest[..Find(rest, FENCE)]))
  {
    var ls := ["", NameLine(name)];
    NameLineReads(name);
    NoDash("");
    SplitOpened(ls, rest);
    var part := rest[..Find(rest, FENCE)];
    LinesBlock(ls, part);
    ReadConcat(ls, Lines(part));
  }

  /** With a `---` in the name line the name is cut short and nothing else is read. */
  lemma OpenedCut(name: string, rest: string)
    requires Good(name) && !Fenceless(name)
    ensures Get(Fm(Opened(name, rest)), "name", "") != name
  {
    var l := NameLine(name);
    var cut := CutNameLine(name);
    NameLineReads(name);
    NoDash("");
    var ls := ["", l];
    var pos := Find(l, FENCE);
    CutText(ls, 1, l[..pos], rest);
    assert ls[..1] == [""];
    SplitBody(Block(ls) + rest, Find(Block(ls) + rest, FENCE));
    OpenedCutReads(l[..pos], cut, name);
  }

  lemma CutNameLine(name: string) returns (cut: string)
    requires Good(name) && !Fenceless(name)
    ensures Contains(NameLine(name), FENCE) && |cut| < |name|
    ensures NameLine(name)[..Find(NameLine(name), FENCE)] == LineOf(("name", cut))
    ensures NoBreaks(LineOf(("name", cut)))
  {
    NameKey();
    NameLineReads(name);
    assert LineOf(("name", name)) == NameLine(name);
    cut := TruncatedLine(("name", name));
    assert forall c | c in LineOf(("name", cut)) :: c in NameLine(name);
    assert |LineOf(("name", cut))| == 6 + |cut| && |NameLine(name)| == 6 + |name|;
  }

  lemma OpenedCutReads(piece: string, cut: string, name: string)
    requires piece == LineOf(("name", cut)) && NoBreaks(piece) && |cut| < |name|
    ensures Get(ReadLines(Lines(Block([""]) + piece)), "name", "") != name
  {
    PieceLines([""], piece);
    NameKey();
    PlainKeyIs("name");
    FieldLine(map[], "name", cut);
    ReadConcat([""], [piece]);
    ReadOne("");
    BlankLine(map[]);
    ReadOne(piece);
    UnquoteShorter(Strip(cut));
    LStripSuffix(cut);
    RStripPrefix(LStrip(cut));
  }

  lemma {:induction false} UndoubleShorter(s: string)
    ensures |Undouble(s)| <= |s|
    decreases |s|
  {
    if |s| >= 2 && s[0] == '\'' && s[1] == '\'' {
      UndoubleShorter(s[2..]);
    } else if s != "" {
      UndoubleShorter(s[1..]);
    }
  }

  lemma UnquoteShorter(v: string)
    ensures |Unquote(v)| <= |v|
  {
    if |v| >= 2 {
      UndoubleShorter(v[1..|v| - 1]);
    }
  }

  lemma MergeName(name: string, target: string, more: Fields)
    requires "name" !in more
    ensures (map["name" := name] + more)["name" := target] == map["name" := target] + more
    ensures (map["name" := target] + more)["name"] == target
  {
  }

  lemma OpenedReadBack(name: string, target: string, rest: string)
    requires Good(name) && Fenceless(name) && Good(target) && Contains(rest, FENCE)
    requires "name" !in ReadLines(Lines(rest[..Find(rest, FENCE)]))
    ensures Get(Fm(Opened(target, rest)), "name", "") == target <==> Fenceless(target)
    ensures Fenceless(target) ==> Fm(Opened(target, rest)) == Fm(Opened(name, rest))["name" := target]
  {
    OpenedReads(name, rest);
    if Fenceless(target) {
      OpenedReads(target, rest);
      MergeName(name, target, ReadLines(Lines(rest[..Find(rest, FENCE)])));
    } else {
      OpenedCut(target, rest);
    }
  }

  /** The copy reads as its new name if and only if that name holds no `---`, and then nothing else changes. */
  lemma RenameReadBack(text: string, name: string, target: string)
    requires NameFirst(text, name) && Good(name) && Fenceless(name) && Good(target)
    ensures Get(Fm(Renamed(text, name, target)), "name", "") == target <==> Fenceless(target)
    ensures Fenceless(target) ==> Fm(Renamed(text, name, target)) == Fm(text)["name" := target]
  {
    var rest := text[|OPENING| + |name| + 1..];
    NameFirstOpened(text, name);
    RenameOpened(name, target, rest);
    OpenedReadBack(name, target, rest);
  }

  // ---- targets of the probe ----

  /** No numbered copy of the skill can have a `---` in its name. */
  predicate DashSafe(fm: Fields) {
    Fenceless(CopyBase(fm) + "-")
  }

  lemma DashSafeTarget(fm: Fields, taken: set<string>)
    requires DashSafe(fm)
    ensures Fenceless(Get(fm, "name", "")) && Fenceless(Fresh(taken, CopyBase(fm)))
  {
    var base := CopyBase(fm);
    PrefixFenceless(base, "-");
    var name, author := Get(fm, "name", ""), OrElse(Get(fm, "created_by", "x"), "x");
    assert base == name + ("-" + author);
    PrefixFenceless(name, "-" + author);
    if base in taken {
      var k :| 2 <= k <= |taken| + 1 && Fresh(taken, base) == Numbered(base, k) && AllTaken(taken, base, k);
      NumberFenceless(base, k);
    }
  }

  lemma NumberFenceless(base: string, k: nat)
    requires Fenceless(base + "-")
    ensures Fenceless(Numbered(base, k))
  {
    var d := Decimal(k);
    assert d[0] in d;
    assert forall c | c in d[1..] :: c in d;
    NoDash(d[1..]);
    FindPast(base + "-", d[0], d[1..], FENCE);
    assert Numbered(base, k) == base + "-" + [d[0]] + d[1..];
  }

  lemma PrefixFenceless(a: string, b: string)
    requires Fenceless(a + b)
    ensures Fenceless(a)
  {
    if Contains(a, FENCE) {
      FindInPrefix(a, b, FENCE);
    }
  }

  /** What the writer renders opens with its name line. */
  lemma RenderNameFirst(s: Stamp, h: Digest)
    requires Hex(BodyHash(h, EffectiveBody(s))) && OneLine(s)
    ensures NameFirst(Render(s, h), s.name)
  {
    var ls := LinesOf(Pairs(s, h));
    var tail := "\n" + (RStrip(EffectiveBody(s)) + "\n");
    RenderFenced(s, h);
    OpenedBlock(s.name);
    var rest := Block(ls[1..]) + (FENCE + tail);
    FirstLine(s, h);
    assert [""] + ls == ["", NameLine(s.name)] + ls[1..];
    BlockConcat(["", NameLine(s.name)], ls[1..]);
    OpeningShape(s.name, Block(ls[1..]), FENCE + tail);
    assert Render(s, h) == OPENING + s.name + "\n" + rest;
    assert Render(s, h)[|OPENING| + |s.name| + 1..] == rest;
    RestHasNoName(s, h, tail);
  }

  lemma FirstLine(s: Stamp, h: Digest)
    ensures LinesOf(Pairs(s, h))[0] == NameLine(s.name)
  {
    NameLineIs(s.name);
    assert LinesOf(Pairs(s, h))[0] == LineOf(Pairs(s, h)[0]);
    assert Pairs(s, h)[0] == (KEYS[0], Raws(s, h)[0]);
  }

  lemma NameLineIs(name: string)
    ensures LineOf((KEYS[0], name)) == NameLine(name)
  {
    assert KEYS[0] == "name";
    assert LineOf(("name", name)) == NameLine(name);
  }

  lemma OpeningShape(name: string, block: string, after: string)
    ensures FENCE + ("\nname: " + name + "\n" + block) + after == OPENING + name + "\n" + (block + after)
  {
  }

  lemma RestHasNoName(s: Stamp, h: Digest, tail: string)
    requires Hex(BodyHash(h, EffectiveBody(s))) && OneLine(s)
    ensures var rest := Block(LinesOf(Pairs(s, h))[1..]) + (FENCE + tail);
      Contains(rest, FENCE) && "name" !in ReadLines(Lines(rest[..Find(rest, FENCE)]))
  {
    var pairs := Pairs(s, h)[1..];
    PairsPlain(s, h);
    assert forall p | p in pairs :: p in Pairs(s, h);
    assert LinesOf(Pairs(s, h))[1..] == LinesOf(pairs);
    var cut := BlockRead(pairs, FENCE + tail);
    forall j | 0 <= j < |cut| ensures cut[j].0 == KEYS[j + 1] {
      PairKey(s, h, j + 1);
    }
    NoFirstKey(cut);
  }

  lemma PairKey(s: Stamp, h: Digest, i: nat)
    requires i < 9
    ensures Pairs(s, h)[i].0 == KEYS[i]
  {
  }

  lemma NoFirstKey(cut: seq<Pair>)
    requires |cut| <= 8 && forall j | 0 <= j < |cut| :: cut[j].0 == KEYS[j + 1]
    ensures KEYS[0] !in Dict(cut)
  {
    DictKeys(cut, KEYS[0]);
    KeysDistinct();
  }

  /** Reading lines up to the first `---` yields an initial part of the pairs, the last perhaps cut short. */
  lemma BlockRead(pairs: seq<Pair>, rest: string) returns (cut: seq<Pair>)
    requires forall p | p in pairs :: PlainKey(p.0) && NoBreaks(p.1)
    requires FENCE <= rest
    ensures |cut| <= |pairs| && forall j | 0 <= j < |cut| :: cut[j].0 == pairs[j].0
    ensures var text := Block(LinesOf(pairs)) + rest;
      Contains(text, FENCE) && ReadLines(Lines(text[..Find(text, FENCE)])) == Dict(cut)
  {
    if i :| 0 <= i < |pairs| && Contains(pairs[i].1, FENCE) && forall j | 0 <= j < i :: !Contains(pairs[j].1, FENCE) {
      cut := BlockReadCut(pairs, i, rest);
    } else {
      NoneContains(pairs);
      BlockReadAll(pairs, rest);
      cut := pairs;
    }
  }

  lemma BlockThenFence(lines: seq<string>, rest: string)
    requires forall l | l in lines :: !Contains(l, FENCE)
    requires FENCE <= rest
    ensures var text := Block(lines) + rest; Contains(text, FENCE) && text[..Find(text, FENCE)] == Block(lines)
  {
    FindAfterBlock(lines, rest);
  }

  lemma BlockReadAll(pairs: seq<Pair>, rest: string)
    requires forall p | p in pairs :: PlainKey(p.0) && NoBreaks(p.1)
    requires FENCE <= rest && forall i | 0 <= i < |pairs| :: !Contains(pairs[i].1, FENCE)
    ensures var text := Block(LinesOf(pairs)) + rest;
      Contains(text, FENCE) && ReadLines(Lines(text[..Find(text, FENCE)])) == Dict(pairs)
  {
    var lines := LinesOf(pairs);
    LinesPlain(pairs);
    forall l | l in lines ensures !Contains(l, FENCE) {
      var i :| 0 <= i < |lines| && lines[i] == l;
    }
    BlockThenFence(lines, rest);
    LinesOfBlock(lines);
    ReadPairs(pairs);
  }

  lemma BlockReadCut(pairs: seq<Pair>, i: nat, rest: string) returns (cut: seq<Pair>)
    requires forall p | p in pairs :: PlainKey(p.0) && NoBreaks(p.1)
    requires i < |pairs| && Contains(pairs[i].1, FENCE) && forall j | 0 <= j < i :: !Contains(pairs[j].1, FENCE)
    ensures |cut| == i + 1 && forall j | 0 <= j < |cut| :: cut[j].0 == pairs[j].0
    ensures var text := Block(LinesOf(pairs)) + rest;
      Contains(text, FENCE) && ReadLines(Lines(text[..Find(text, FENCE)])) == Dict(cut)
  {
    var lines := LinesOf(pairs);
    LinesPlain(pairs);
    assert pairs[i] in pairs;
    var raw := TruncatedLine(pairs[i]);
    cut := pairs[..i] + [(pairs[i].0, raw)];
    CutText(lines, i, LineOf(cut[i]), rest);
    CutBlock(pairs, i, cut);
  }

  lemma CutText(lines: seq<string>, i: nat, piece: string, rest: string)
    requires i < |lines| && Contains(lines[i], FENCE) && forall j | 0 <= j < i :: !Contains(lines[j], FENCE)
    requires piece == lines[i][..Find(lines[i], FENCE)]
    ensures var text := Block(lines) + rest;
      Contains(text, FENCE) && text[..Find(text, FENCE)] == Block(lines[..i]) + piece
  {
    FindInLine(lines, i, rest);
    PrefixTake(Block(lines[..i]), lines[i], Block(lines), rest, Find(lines[i], FENCE));
  }

  lemma PrefixTake(a: string, b: string, c: string, d: string, k: nat)
    requires a + b <= c && k <= |b|
    ensures (c + d)[..|a| + k] == a + b[..k]
  {
    assert (c + d)[..|a| + k] == (a + b)[..|a| + k];
  }

  lemma NoneContains(pairs: seq<Pair>)
    requires !exists i :: 0 <= i < |pairs| && Contains(pairs[i].1, FENCE) && forall j | 0 <= j < i :: !Contains(pairs[j].1, FENCE)
    ensures forall i | 0 <= i < |pairs| :: !Contains(pairs[i].1, FENCE)
  {
    for i := 0 to |pairs|
      invariant forall j | 0 <= j < i :: !Contains(pairs[j].1, FENCE)
    {
    }
  }

  lemma CutBlock(pairs: seq<Pair>, i: nat, cut: seq<Pair>)
    requires i < |pairs| && |cut| == i + 1 && cut[..i] == pairs[..i] && cut[i].0 == pairs[i].0
    requires forall p | p in pairs :: PlainKey(p.0) && NoBreaks(p.1)
    requires LineOf(cut[i]) <= LineOf(pairs[i])
    ensures ReadLines(Lines(Block(LinesOf(pairs)[..i]) + LineOf(cut[i]))) == Dict(cut)
  {
    var lines := LinesOf(pairs);
    LinesPlain(pairs);
    CutLines(pairs, i, cut);
    PrefixPiece(lines, i, LineOf(cut[i]));
    ReadPairs(cut);
  }

  lemma PrefixPiece(lines: seq<string>, i: nat, piece: string)
    requires i < |lines| && forall l | l in lines :: NoBreaks(l)
    requires piece != "" && piece <= lines[i]
    ensures Lines(Block(lines[..i]) + piece) == lines[..i] + [piece]
  {
    assert lines[i] in lines;
    assert forall c | c in piece :: c in lines[i];
    assert forall l | l in lines[..i] :: l in lines;
    PieceLines(lines[..i], piece);
  }
}
