/** The two ways the tools read the frontmatter of a SKILL.md text.

auto_skill.py, collect_commit.py and sync_skills.py cut the text at the first two `---`;
server.py looks for a line that is `---`. Both then read flat `key: value` lines.
*/
module Frontmatter {
  import opened Text

  type Fields = map<string, string>

  const FENCE := "---"

  // ---- scalars ----

  /** `s.replace("'", "''")` */
  function Double(s: string): string {
    if s == "" then "" else (if s[0] == '\'' then "''" else [s[0]]) + Double(s[1..])
  }

  /** `s.replace("''", "'")` */
  function Undouble(s: string): string {
    if s == "" then ""
    else if |s| >= 2 && s[0] == '\'' && s[1] == '\'' then "'" + Undouble(s[2..])
    else [s[0]] + Undouble(s[1..])
  }

  lemma {:induction false} UndoubleDouble(s: string)
    ensures Undouble(Double(s)) == s
  {
    if s != "" {
      UndoubleDouble(s[1..]);
      if s[0] == '\'' {
        assert Double(s)[2..] == Double(s[1..]);
      } else {
        assert Double(s)[1..] == Double(s[1..]);
      }
    }
  }

  function Unquote(v: string): string {
    if |v| >= 2 && v[0] == v[|v| - 1] && (v[0] == '\'' || v[0] == '"') then
      if v[0] == '\'' then Undouble(v[1..|v| - 1]) else v[1..|v| - 1]
    else v
  }

  /** Line feeds and carriage returns become spaces, then `strip`. */
  function Spaced(v: string): string {
    if v == "" then "" else [if v[0] == '\n' || v[0] == '\r' then ' ' else v[0]] + Spaced(v[1..])
  }

  function Flatten(v: string): string {
    Strip(Spaced(v))
  }

  function YamlScalar(v: string): string {
    "'" + Double(Flatten(v)) + "'"
  }

  lemma UnquoteScalar(v: string)
    ensures Unquote(Strip(YamlScalar(v))) == Flatten(v)
  {
    StripTrim(YamlScalar(v));
    assert YamlScalar(v)[1..|YamlScalar(v)| - 1] == Double(Flatten(v));
    UndoubleDouble(Flatten(v));
  }

  // ---- flat lines ----

  /** A top-level `key: value` line: not blank, not indented, with a colon. */
  predicate IsField(line: string) {
    Strip(line) != "" && LStrip(line) == line && Contains(line, ":")
  }

  function KeyOf(line: string): string
    requires IsField(line)
  {
    Strip(line[..Find(line, ":")])
  }

  function ValueOf(line: string): string
    requires IsField(line)
  {
    Unquote(Strip(line[Find(line, ":") + 1..]))
  }

  function AddLine(fm: Fields, line: string): Fields {
    if IsField(line) then fm[KeyOf(line) := ValueOf(line)] else fm
  }

  /** Later lines win. */
  function ReadLines(lines: seq<string>): Fields {
    if lines == [] then map[] else AddLine(ReadLines(lines[..|lines| - 1]), lines[|lines| - 1])
  }

  lemma {:induction false} ReadConcat(a: seq<string>, b: seq<string>)
    ensures ReadLines(a + b) == ReadLines(a) + ReadLines(b)
  {
    if b == [] {
      assert a + b == a;
    } else {
      var n := |b| - 1;
      assert (a + b)[..|a + b| - 1] == a + b[..n];
      ReadConcat(a, b[..n]);
    }
  }

  lemma ReadOne(line: string)
    ensures ReadLines([line]) == AddLine(map[], line)
  {
    assert [line][..0] == [];
  }

  lemma BlankLine(fm: Fields)
    ensures AddLine(fm, "") == fm
  {
  }

  lemma ColonAfter(key: string, after: string)
    requires ':' !in key
    ensures Find(key + ":" + after, ":") == |key|
  {
    var line := key + ":" + after;
    assert line[|key|..] == ":" + after;
    forall j | 0 <= j < |key| ensures !(":" <= line[j..]) {
      assert line[j..][0] == key[j];
    }
    FindUnique(line, ":", |key|);
  }

  lemma ColonLine(key: string, after: string)
    requires key != "" && Trim(key) && ':' !in key
    ensures IsField(key + ":" + after)
    ensures KeyOf(key + ":" + after) == key && ValueOf(key + ":" + after) == Unquote(Strip(after))
  {
    var line := key + ":" + after;
    ColonAfter(key, after);
    assert line[0] == key[0];
    StripNonempty(line);
    assert line[..|key|] == key && line[|key| + 1..] == after;
    StripTrim(key);
  }

  /** What the reader makes of a line the writer stamps. */
  lemma FieldLine(fm: Fields, key: string, raw: string)
    requires key != "" && Trim(key) && ':' !in key
    ensures IsField(key + ": " + raw)
    ensures KeyOf(key + ": " + raw) == key && ValueOf(key + ": " + raw) == Unquote(Strip(raw))
    ensures AddLine(fm, key + ": " + raw) == fm[key := Unquote(Strip(raw))]
  {
    ColonLine(key, " " + raw);
    assert key + ":" + (" " + raw) == key + ": " + raw;
    assert (" " + raw)[1..] == raw;
  }

  // ---- which lines are read, told of their characters ----

  /** The line starts with no space, `c` is its first colon, and the text before it strips to the key. */
  predicate Sets(line: string, c: nat, key: string) {
    c < |line| && !IsSpace(line[0]) && line[c] == ':' && ':' !in line[..c] && Strip(line[..c]) == key
  }

  predicate SetsSome(line: string, key: string) {
    exists c :: 0 <= c < |line| && Sets(line, c, key)
  }

  lemma FirstColon(line: string, c: nat)
    requires c < |line| && line[c] == ':' && ':' !in line[..c]
    ensures Find(line, ":") == c
  {
    assert line[c..][..1] == ":";
    forall j | 0 <= j < c ensures !(":" <= line[j..]) {
      assert line[j..][0] == line[j] && line[j] in line[..c];
    }
    FindUnique(line, ":", c);
  }

  lemma ColonFound(line: string)
    requires Contains(line, ":")
    ensures var c := Find(line, ":"); 0 <= c < |line| && line[c] == ':' && ':' !in line[..c]
  {
    var c := Find(line, ":");
    FindIs(line, ":");
    assert line[c..][0] == ':';
    forall j | 0 <= j < c ensures line[..c][j] != ':' {
      assert !(":" <= line[j..]);
      assert line[j..][..1] == [line[j]];
    }
  }

  lemma SetsIsField(line: string, c: nat, key: string)
    requires Sets(line, c, key)
    ensures IsField(line) && KeyOf(line) == key && ValueOf(line) == Unquote(Strip(line[c + 1..]))
  {
    FirstColon(line, c);
    StripNonempty(line);
  }

  lemma FieldSets(line: string)
    requires IsField(line)
    ensures Sets(line, Find(line, ":"), KeyOf(line))
  {
    ColonFound(line);
    if IsSpace(line[0]) {
      LStripShorter(line);
    }
  }

  lemma {:induction false} LStripShorter(s: string)
    ensures |LStrip(s)| <= |s| && (s != "" && IsSpace(s[0]) ==> |LStrip(s)| < |s|)
  {
    if s != "" && IsSpace(s[0]) {
      LStripShorter(s[1..]);
    }
  }

  lemma AddLineSets(fm: Fields, line: string, key: string)
    ensures key in AddLine(fm, line) <==> key in fm || SetsSome(line, key)
    ensures !SetsSome(line, key) && key in fm ==> AddLine(fm, line)[key] == fm[key]
    ensures forall c :: 0 <= c < |line| && Sets(line, c, key) ==> AddLine(fm, line)[key] == Unquote(Strip(line[c + 1..]))
  {
    if IsField(line) {
      FieldSets(line);
      ColonFound(line);
    }
    forall c | 0 <= c < |line| && Sets(line, c, key)
      ensures IsField(line) && KeyOf(line) == key && ValueOf(line) == Unquote(Strip(line[c + 1..]))
    {
      SetsIsField(line, c, key);
    }
  }

  /** Line `i` sets the key with what follows its colon at `c`, and no later line sets the key. */
  ghost predicate SetsLast(lines: seq<string>, i: nat, c: nat, key: string) {
    i < |lines| && Sets(lines[i], c, key) && forall j | i < j < |lines| :: !SetsSome(lines[j], key)
  }

  /** The mapping has each key that some line sets, with the value of the last such line, and no other key. */
  ghost predicate ReadFrom(lines: seq<string>, fm: Fields) {
    (forall key :: key in fm <==> exists i :: 0 <= i < |lines| && SetsSome(lines[i], key)) &&
    (forall key, i: nat, c: nat | SetsLast(lines, i, c, key) ::
      key in fm && fm[key] == Unquote(Strip(lines[i][c + 1..])))
  }

  lemma ReadFromNext(lines: seq<string>, fm: Fields, line: string)
    requires ReadFrom(lines, fm)
    ensures ReadFrom(lines + [line], AddLine(fm, line))
  {
    var all, next := lines + [line], AddLine(fm, line);
    forall key ensures key in next <==> exists i :: 0 <= i < |all| && SetsSome(all[i], key) {
      AddLineSets(fm, line, key);
      SomeLine(lines, line, key);
    }
    forall key, i: nat, c: nat | SetsLast(all, i, c, key)
      ensures key in next && next[key] == Unquote(Strip(all[i][c + 1..]))
    {
      AddLineSets(fm, line, key);
      LastLine(lines, line, i, c, key);
    }
  }

  lemma SomeLine(lines: seq<string>, line: string, key: string)
    ensures var all := lines + [line];
      (exists i :: 0 <= i < |all| && SetsSome(all[i], key)) <==>
      (exists i :: 0 <= i < |lines| && SetsSome(lines[i], key)) || SetsSome(line, key)
  {
    var all := lines + [line];
    assert forall i | 0 <= i < |lines| :: all[i] == lines[i];
    assert all[|lines|] == line;
  }

  lemma LastLine(lines: seq<string>, line: string, i: nat, c: nat, key: string)
    requires SetsLast(lines + [line], i, c, key)
    ensures if i == |lines| then Sets(line, c, key) else SetsLast(lines, i, c, key) && !SetsSome(line, key)
  {
    var all := lines + [line];
    assert forall j | 0 <= j < |lines| :: all[j] == lines[j];
    assert all[|lines|] == line;
  }

  lemma {:induction false} ReadLinesFrom(lines: seq<string>)
    ensures ReadFrom(lines, ReadLines(lines))
  {
    if lines != [] {
      var init, last := lines[..|lines| - 1], lines[|lines| - 1];
      assert lines == init + [last];
      ReadLinesFrom(init);
      ReadFromNext(init, ReadLines(init), last);
    }
  }

  /** An empty or indented line, or one without a colon, can be put anywhere: it changes nothing. */
  lemma IrrelevantLine(a: seq<string>, line: string, b: seq<string>)
    requires line == "" || IsSpace(line[0]) || ':' !in line
    ensures ReadLines(a + [line] + b) == ReadLines(a + b)
  {
    assert !IsField(line) by {
      if IsField(line) {
        FieldSets(line);
        ColonFound(line);
        assert false;
      }
    }
    ReadConcat(a + [line], b);
    ReadConcat(a, b);
    ReadSnoc(a, line);
  }

  lemma ReadSnoc(lines: seq<string>, last: string)
    ensures ReadLines(lines + [last]) == AddLine(ReadLines(lines), last)
  {
    assert (lines + [last])[..|lines|] == lines;
  }

  // ---- the split reader ----

  /** `text.split("---", 2)` of a text that starts with the fence: the second and third parts. */
  datatype Split = NoBlock | Parts(block: string, rest: string)

  function SplitFences(text: string): Split {
    if !(FENCE <= text) then NoBlock
    else
      var i := Find(text[3..], FENCE);
      if i < 0 then NoBlock else Parts(text[3..3 + i], text[6 + i..])
  }

  /** `_fm` of collect_commit.py and sync_skills.py; the first result of `_read_frontmatter`. */
  function Fm(text: string): Fields {
    match SplitFences(text)
    case NoBlock => map[]
    case Parts(block, _) => ReadLines(Lines(block))
  }

  function LStripNewlines(s: string): string {
    if s != "" && s[0] == '\n' then LStripNewlines(s[1..]) else s
  }

  /** The second result of `_read_frontmatter`. */
  function BodyOf(text: string): string {
    match SplitFences(text)
    case NoBlock => text
    case Parts(_, rest) => LStripNewlines(rest)
  }

  lemma ReadNext(lines: seq<string>, i: nat)
    requires i < |lines|
    ensures ReadLines(lines[..i + 1]) == AddLine(ReadLines(lines[..i]), lines[i])
  {
    assert lines[..i + 1][..i] == lines[..i];
  }

  /** The block is what lies between the fence that opens the text and the first fence after it. */
  lemma SplitIs(text: string, block: string, rest: string)
    ensures SplitFences(text) == Parts(block, rest) <==>
      text == FENCE + (block + FENCE + rest) && Find(block + FENCE + rest, FENCE) == |block|
    ensures SplitFences(text) == NoBlock <==> !(FENCE <= text) || !Contains(text[3..], FENCE)
  {
    if text == FENCE + (block + FENCE + rest) && Find(block + FENCE + rest, FENCE) == |block| {
      SplitBody(block + FENCE + rest, |block|);
    }
    if SplitFences(text) == Parts(block, rest) {
      var inner := text[3..];
      FindIs(inner, FENCE);
      assert inner[|block|..][..3] == FENCE;
      assert inner == block + FENCE + rest;
    }
  }

  /** `_read_frontmatter`: the mapping and the body. */
  method ReadFrontmatter(text: string) returns (fm: Fields, body: string)
    ensures fm == Fm(text) && body == BodyOf(text)
    ensures match SplitFences(text)
      case NoBlock => fm == map[] && body == text
      case Parts(block, rest) =>
        ReadFrom(Lines(block), fm) && body == LStripNewlines(rest)
  {
    fm, body := map[], text;
    var split := SplitFences(text);
    if split.NoBlock? {
      return;
    }
    body := LStripNewlines(split.rest);
    var lines := Lines(split.block);
    for i := 0 to |lines|
      invariant fm == ReadLines(lines[..i])
    {
      var line := lines[i];
      ReadNext(lines, i);
      if Strip(line) == "" || LStrip(line) != line {
        continue;
      }
      if Contains(line, ":") {
        var colon := Find(line, ":");
        fm := fm[Strip(line[..colon]) := Unquote(Strip(line[colon + 1..]))];
      }
    }
    assert lines[..|lines|] == lines;
    ReadLinesFrom(lines);
  }

  // ---- the line reader ----

  /** Index of the first line from `i` on that is a fence, or the number of lines. */
  function FenceFrom(lines: seq<string>, i: nat): (end: nat)
    requires i <= |lines|
    ensures i <= end <= |lines|
    ensures end < |lines| ==> Strip(lines[end]) == FENCE
    ensures forall j | i <= j < end :: Strip(lines[j]) != FENCE
    decreases |lines| - i
  {
    if i == |lines| || Strip(lines[i]) == FENCE then i else FenceFrom(lines, i + 1)
  }

  datatype Raw = Raw(lines: seq<string>, body: string)

  /** `_raw_frontmatter` of server.py. */
  function RawFrontmatter(text: string): Raw {
    var lines := Lines(text);
    if !(FENCE <= text) || lines == [] then Raw([], text)
    else
      var end := FenceFrom(lines, 1);
      if end == |lines| then Raw([], text)
      else Raw(lines[1..end], LStripNewlines(Join(lines[end + 1..])))
  }

  /** The flat path of `_split_frontmatter_ex`. */
  function ServerFm(text: string): Fields {
    ReadLines(Lines(Join(RawFrontmatter(text).lines)))
  }

  function DropLastEmpty(ls: seq<string>): seq<string> {
    if ls != [] && ls[|ls| - 1] == "" then ls[..|ls| - 1] else ls
  }

  /** Joining lines and splitting again loses at most one empty last line. */
  lemma {:induction false} LinesJoin(ls: seq<string>)
    requires forall l | l in ls :: NoBreaks(l)
    ensures Lines(Join(ls)) == DropLastEmpty(ls)
  {
    if |ls| == 1 {
      OneLineOnly(ls[0]);
      assert ls == [ls[0]];
    } else if |ls| > 1 {
      var l, more := ls[0], ls[1..];
      assert l in ls && forall m | m in more :: m in ls;
      calc {
        Lines(Join(ls));
        { LinesCons(l, Join(more)); }
        [l] + Lines(Join(more));
        { LinesJoin(more); }
        [l] + DropLastEmpty(more);
        { assert ls == [l] + more; }
        DropLastEmpty(ls);
      }
    }
  }

  lemma OneLineOnly(l: string)
    requires NoBreaks(l)
    ensures Lines(l) == if l == "" then [] else [l]
  {
    FirstBreakAt(l, "");
    assert l + "" == l && l[..|l|] == l;
  }

  lemma ReadJoined(ls: seq<string>)
    requires forall l | l in ls :: NoBreaks(l)
    ensures ReadLines(Lines(Join(ls))) == ReadLines(ls)
  {
    LinesJoin(ls);
    if ls != [] && ls[|ls| - 1] == "" {
      BlankLine(ReadLines(ls[..|ls| - 1]));
    }
  }

  // ---- fenced texts ----

  /** `---`, the lines, `---`, the rest. */
  function Fenced(lines: seq<string>, rest: string): string {
    FENCE + Block([""] + lines) + FENCE + rest
  }

  /** Where the split reader finds a fence after lines that hold none. */
  lemma {:induction false} FindAfterBlock(lines: seq<string>, rest: string)
    requires forall l | l in lines :: !Contains(l, FENCE)
    ensures Find(Block(lines) + rest, FENCE) == if Contains(rest, FENCE) then |Block(lines)| + Find(rest, FENCE) else -1
  {
    if lines == [] {
      assert Block(lines) + rest == rest;
    } else {
      var l, more := lines[0], lines[1..];
      assert l in lines && forall m | m in more :: m in lines;
      FindAfterBlock(more, rest);
      FindPast(l, '\n', Block(more) + rest, FENCE);
      assert Block(lines) + rest == l + ['\n'] + (Block(more) + rest);
    }
  }

  lemma FindInBlock(lines: seq<string>, rest: string)
    requires forall l | l in lines :: !Contains(l, FENCE)
    ensures Find(Block(lines) + FENCE + rest, FENCE) == |Block(lines)|
  {
    FindAfterBlock(lines, FENCE + rest);
    assert Block(lines) + FENCE + rest == Block(lines) + (FENCE + rest);
  }

  lemma SplitBody(body: string, i: nat)
    requires Find(body, FENCE) == i
    ensures SplitFences(FENCE + body) == Parts(body[..i], body[i + 3..])
  {
    var text := FENCE + body;
    assert text[3..] == body;
    assert text[3..3 + i] == body[..i];
    assert text[6 + i..] == body[i + 3..];
  }

  lemma SplitAt(block: string, rest: string)
    requires Find(block + FENCE + rest, FENCE) == |block|
    ensures SplitFences(FENCE + block + FENCE + rest) == Parts(block, rest)
  {
    var body := block + FENCE + rest;
    SplitBody(body, |block|);
    assert FENCE + block + FENCE + rest == FENCE + body;
    assert body[..|block|] == block && body[|block| + 3..] == rest;
  }

  lemma SplitFenced(lines: seq<string>, rest: string)
    requires forall l | l in lines :: !Contains(l, FENCE)
    ensures SplitFences(Fenced(lines, rest)) == Parts(Block([""] + lines), rest)
  {
    assert !Contains("", FENCE);
    assert forall l | l in [""] + lines :: l == "" || l in lines;
    FindInBlock([""] + lines, rest);
    SplitAt(Block([""] + lines), rest);
  }

  lemma LinesOfBlock(lines: seq<string>)
    requires forall l | l in lines :: NoBreaks(l)
    ensures Lines(Block(lines)) == lines
  {
    LinesBlock(lines, "");
    assert Block(lines) + "" == Block(lines);
  }

  lemma FmFenced(lines: seq<string>, rest: string)
    requires forall l | l in lines :: NoBreaks(l) && !Contains(l, FENCE)
    ensures Fm(Fenced(lines, rest)) == ReadLines(lines)
  {
    SplitFenced(lines, rest);
    assert forall l | l in [""] + lines :: l == "" || l in lines;
    LinesOfBlock([""] + lines);
    ReadConcat([""], lines);
    ReadOne("");
    BlankLine(map[]);
  }

  lemma FencedBlock(lines: seq<string>, body: string)
    ensures Fenced(lines, "\n" + body) == Block([FENCE] + lines + [FENCE]) + body
  {
    var b := Block(lines);
    calc {
      Block([FENCE] + lines + [FENCE]) + body;
      { BlockConcat([FENCE] + lines, [FENCE]); BlockConcat([FENCE], lines); BlockOne(FENCE); }
      FENCE + "\n" + b + (FENCE + "\n") + body;
      FENCE + ("\n" + b) + FENCE + ("\n" + body);
      { BlockConcat([""], lines); BlockOne(""); }
      Fenced(lines, "\n" + body);
    }
  }

  lemma LinesFenced(lines: seq<string>, body: string)
    requires forall l | l in lines :: NoBreaks(l)
    ensures Lines(Fenced(lines, "\n" + body)) == [FENCE] + lines + [FENCE] + Lines(body)
  {
    var all := [FENCE] + lines + [FENCE];
    FencedBlock(lines, body);
    forall l | l in all ensures NoBreaks(l) {
      assert l == FENCE || l in lines;
    }
    LinesBlock(all, body);
  }

  lemma FenceAfter(lines: seq<string>, more: seq<string>)
    requires forall l | l in lines :: Strip(l) != FENCE
    ensures FenceFrom([FENCE] + lines + [FENCE] + more, 1) == |lines| + 1
  {
    var all := [FENCE] + lines + [FENCE] + more;
    var end := FenceFrom(all, 1);
    StripTrim(FENCE);
    assert all[|lines| + 1] == FENCE;
    forall j | 1 <= j <= |lines| ensures Strip(all[j]) != FENCE {
      assert all[j] == lines[j - 1];
      assert all[j] in lines;
    }
  }

  /** The line reader finds the closing fence where it was put. */
  lemma RawFenced(lines: seq<string>, body: string)
    requires forall l | l in lines :: NoBreaks(l) && Strip(l) != FENCE
    ensures RawFrontmatter(Fenced(lines, "\n" + body)) == Raw(lines, LStripNewlines(Join(Lines(body))))
  {
    LinesFenced(lines, body);
    FenceAfter(lines, Lines(body));
    RawBetween(Fenced(lines, "\n" + body), lines, Lines(body));
  }

  lemma RawBetween(text: string, lines: seq<string>, more: seq<string>)
    requires FENCE <= text && Lines(text) == [FENCE] + lines + [FENCE] + more
    requires FenceFrom([FENCE] + lines + [FENCE] + more, 1) == |lines| + 1
    ensures RawFrontmatter(text) == Raw(lines, LStripNewlines(Join(more)))
  {
    var all := [FENCE] + lines + [FENCE] + more;
    assert all[1..|lines| + 1] == lines;
    assert all[|lines| + 2..] == more;
  }

  lemma StripFenceContains(l: string)
    requires Strip(l) == FENCE
    ensures Contains(l, FENCE)
  {
    var before, after := StripCore(l);
    assert l[|before|..] == FENCE + after;
    ContainsAt(l, FENCE, |before|);
  }

  /** The split readers and the server's line reader agree when no line holds a `---`. */
  lemma ReadersAgree(lines: seq<string>, body: string)
    requires forall l | l in lines :: NoBreaks(l) && !Contains(l, FENCE)
    ensures Fm(Fenced(lines, "\n" + body)) == ServerFm(Fenced(lines, "\n" + body)) == ReadLines(lines)
  {
    FmFenced(lines, "\n" + body);
    forall l | l in lines ensures Strip(l) != FENCE {
      if Strip(l) == FENCE {
        StripFenceContains(l);
      }
    }
    RawFenced(lines, body);
    ReadJoined(lines);
  }
}
