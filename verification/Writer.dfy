/** The stamped SKILL.md text auto_skill.py renders, and what the readers get back from it. */
module Writer {
  import opened Text
  import opened Frontmatter

  /** SHA-256 hex digest of a UTF-8 text; nothing but its output alphabet is used. */
  type Digest = string -> string

  predicate Hex(s: string) {
    s != "" && forall c | c in s :: '0' <= c <= '9' || 'a' <= c <= 'f'
  }

  function BodyHash(h: Digest, body: string): string {
    h(Strip(body))
  }

  datatype Stamp = Stamp(name: string, desc: string, createdAt: string, session: string,
                         trigger: string, source: string, category: string, body: string)

  function EffectiveBody(s: Stamp): string {
    if Strip(s.body) != "" then Strip(s.body)
    else "# /" + s.name + "\n\n" + s.desc + "\n\n## Steps\n\n1. <fill in the procedure>\n"
  }

  type Pair = (string, string)

  const KEYS: seq<string> := ["name", "description", "installer", "created_at", "created_session", "trigger",
                              "created_by", "category", "content_hash"]

  /** The text written after each key. */
  function Raws(s: Stamp, h: Digest): seq<string> {
    [s.name, YamlScalar(s.desc), "auto-skill", s.createdAt, s.session, YamlScalar(s.trigger),
     YamlScalar(s.source), YamlScalar(s.category), BodyHash(h, EffectiveBody(s))]
  }

  /** The stamped keys with the text written after each colon. */
  function Pairs(s: Stamp, h: Digest): seq<Pair> {
    seq(9, i requires 0 <= i < 9 => (KEYS[i], Raws(s, h)[i]))
  }

  function LineOf(p: Pair): string {
    p.0 + ": " + p.1
  }

  function LinesOf(pairs: seq<Pair>): seq<string> {
    seq(|pairs|, i requires 0 <= i < |pairs| => LineOf(pairs[i]))
  }

  /** `_render` */
  function Render(s: Stamp, h: Digest): string {
    Join([FENCE] + LinesOf(Pairs(s, h)) + [FENCE, ""]) + RStrip(EffectiveBody(s)) + "\n"
  }

  // ---- reading back a list of pairs ----

  predicate PlainKey(k: string) {
    k != "" && forall i | 0 <= i < |k| :: 'a' <= k[i] <= 'z' || k[i] == '_'
  }

  lemma PlainKeyIs(k: string)
    requires PlainKey(k)
    ensures Trim(k) && ':' !in k && '-' !in k && NoBreaks(k)
  {
  }

  /** The mapping a reader is meant to get from the pairs. */
  function Dict(pairs: seq<Pair>): Fields {
    if pairs == [] then map[]
    else Dict(pairs[..|pairs| - 1])[pairs[|pairs| - 1].0 := Unquote(Strip(pairs[|pairs| - 1].1))]
  }

  lemma {:induction false} ReadPairs(pairs: seq<Pair>)
    requires forall p | p in pairs :: PlainKey(p.0)
    ensures ReadLines(LinesOf(pairs)) == Dict(pairs)
  {
    if pairs != [] {
      var n := |pairs| - 1;
      assert LinesOf(pairs)[..n] == LinesOf(pairs[..n]);
      ReadPairs(pairs[..n]);
      assert pairs[n] in pairs;
      PlainKeyIs(pairs[n].0);
      FieldLine(Dict(pairs[..n]), pairs[n].0, pairs[n].1);
    }
  }

  lemma {:induction false} DictKeys(pairs: seq<Pair>, k: string)
    ensures k in Dict(pairs) <==> exists i :: 0 <= i < |pairs| && pairs[i].0 == k
  {
    if pairs != [] {
      DictKeys(pairs[..|pairs| - 1], k);
    }
  }

  lemma {:induction false} DictAt(pairs: seq<Pair>, i: nat)
    requires i < |pairs| && forall j | i < j < |pairs| :: pairs[j].0 != pairs[i].0
    ensures pairs[i].0 in Dict(pairs) && Dict(pairs)[pairs[i].0] == Unquote(Strip(pairs[i].1))
  {
    if i < |pairs| - 1 {
      DictAt(pairs[..|pairs| - 1], i);
    }
  }

  // ---- where a `---` can hide ----

  lemma NoDoubleDash(a: string)
    requires forall i | 0 < i < |a| :: a[i - 1] != '-' || a[i] != '-'
    ensures !Contains(a, FENCE)
  {
    FindIs(a, FENCE);
    forall j | 0 <= j <= |a| ensures !(FENCE <= a[j..]) {
      if j + 1 < |a| {
        assert a[j..][0] == a[j] && a[j..][1] == a[j + 1];
      }
    }
  }

  lemma NoDash(a: string)
    requires '-' !in a
    ensures !Contains(a, FENCE)
  {
    NoDoubleDash(a);
  }

  lemma ContainsAfter(a: string, c: char, b: string)
    requires '-' !in a && c != '-'
    ensures Contains(a + [c] + b, FENCE) <==> Contains(b, FENCE)
  {
    NoDash(a);
    FindPast(a, c, b, FENCE);
  }

  lemma ContainsBefore(a: string, c: char)
    requires c != '-'
    ensures Contains(a + [c], FENCE) <==> Contains(a, FENCE)
  {
    if Contains(a, FENCE) {
      FindInPrefix(a, [c], FENCE);
    } else {
      NoDash("");
      FindPast(a, c, "", FENCE);
      assert a + [c] + "" == a + [c];
    }
  }

  lemma DoubleHead(s: string)
    ensures s == "" ==> Double(s) == ""
    ensures s != "" ==> Double(s) != "" && Double(s)[0] == s[0]
    ensures s != "" && s[0] != '\'' ==> Double(s)[1..] == Double(s[1..])
  {
  }

  lemma DoublePrefix(s: string)
    ensures FENCE <= Double(s) <==> FENCE <= s
  {
    DoubleHead(s);
    if s != "" && s[0] == '-' {
      DoubleHead(s[1..]);
      if |s| > 1 && s[1] == '-' {
        DoubleHead(s[1..][1..]);
        assert s[1..][1..] == s[2..];
      }
    }
  }

  lemma ContainsQuote(x: string)
    ensures Contains("'" + x, FENCE) <==> Contains(x, FENCE)
  {
    ContainsAfter("", '\'', x);
    assert "" + ['\''] + x == "'" + x;
  }

  lemma {:induction false} ContainsDouble(s: string)
    ensures Contains(Double(s), FENCE) <==> Contains(s, FENCE)
  {
    if s != "" {
      ContainsDouble(s[1..]);
      if s[0] == '\'' {
        var d := Double(s[1..]);
        ContainsQuote(s[1..]);
        ContainsQuote(d);
        ContainsQuote("'" + d);
        assert s == "'" + s[1..] && Double(s) == "'" + ("'" + d);
      } else {
        DoubleHead(s);
        DoublePrefix(s);
      }
    }
  }

  lemma ContainsScalar(v: string)
    ensures Contains(YamlScalar(v), FENCE) <==> Contains(Flatten(v), FENCE)
  {
    ContainsDouble(Flatten(v));
    ContainsBefore(Double(Flatten(v)), '\'');
    ContainsAfter("", '\'', Double(Flatten(v)) + "'");
    assert YamlScalar(v) == "" + ['\''] + (Double(Flatten(v)) + "'");
  }

  lemma ContainsLine(p: Pair)
    requires PlainKey(p.0)
    ensures Contains(LineOf(p), FENCE) <==> Contains(p.1, FENCE)
  {
    PlainKeyIs(p.0);
    ContainsAfter(p.0 + ":", ' ', p.1);
    assert LineOf(p) == p.0 + ":" + [' '] + p.1;
  }

  // ---- line breaks ----

  lemma NoBreaksConcat(a: string, b: string)
    requires NoBreaks(a) && NoBreaks(b)
    ensures NoBreaks(a + b)
  {
  }

  lemma {:induction false} NoBreaksDouble(s: string)
    requires NoBreaks(s)
    ensures NoBreaks(Double(s))
  {
    if s != "" {
      assert s[0] in s && forall c | c in s[1..] :: c in s;
      NoBreaksDouble(s[1..]);
    }
  }

  lemma NoBreaksScalar(v: string)
    requires NoBreaks(Flatten(v))
    ensures NoBreaks(YamlScalar(v))
  {
    NoBreaksDouble(Flatten(v));
  }

  // ---- stamped texts ----

  /** No value, as it is stamped, holds a character that `splitlines` would break at. */
  predicate OneLine(s: Stamp) {
    NoBreaks(s.name) && NoBreaks(Flatten(s.desc)) && NoBreaks(s.createdAt) && NoBreaks(s.session) &&
    NoBreaks(Flatten(s.trigger)) && NoBreaks(Flatten(s.source)) && NoBreaks(Flatten(s.category))
  }

  predicate Fenceless(v: string) {
    !Contains(v, FENCE)
  }

  /** No value, as it is stamped, holds a `---`. */
  predicate DashFree(s: Stamp) {
    Fenceless(s.name) && Fenceless(Flatten(s.desc)) && Fenceless(s.createdAt) && Fenceless(s.session) &&
    Fenceless(Flatten(s.trigger)) && Fenceless(Flatten(s.source)) && Fenceless(Flatten(s.category))
  }

  /** A value written bare that reads back as itself. */
  predicate Bare(v: string) {
    Unquote(Strip(v)) == v
  }

  lemma HexPlain(v: string)
    requires Hex(v)
    ensures NoBreaks(v) && !Contains(v, FENCE) && Bare(v)
  {
    NoDash(v);
    assert v[0] in v && v[|v| - 1] in v;
    StripTrim(v);
  }

  lemma {:induction false} JoinBlock(ls: seq<string>)
    ensures Join(ls + [""]) == Block(ls)
  {
    if ls != [] {
      JoinBlock(ls[1..]);
      assert (ls + [""])[1..] == ls[1..] + [""];
    }
  }

  /** A rendered text is its stamped lines between two fences, then the body. */
  lemma RenderFenced(s: Stamp, h: Digest)
    ensures Render(s, h) == Fenced(LinesOf(Pairs(s, h)), "\n" + (RStrip(EffectiveBody(s)) + "\n"))
  {
    var ls := LinesOf(Pairs(s, h));
    var body := RStrip(EffectiveBody(s)) + "\n";
    FencedBlock(ls, body);
    JoinBlock([FENCE] + ls + [FENCE]);
    assert [FENCE] + ls + [FENCE, ""] == [FENCE] + ls + [FENCE] + [""];
  }

  lemma PairLine(p: Pair)
    requires PlainKey(p.0) && NoBreaks(p.1)
    ensures NoBreaks(LineOf(p))
  {
    PlainKeyIs(p.0);
    NoBreaksConcat(p.0, ": ");
    NoBreaksConcat(p.0 + ": ", p.1);
  }

  lemma KeysPlain()
    ensures forall i | 0 <= i < 9 :: PlainKey(KEYS[i])
  {
  }

  lemma RawsPlain(s: Stamp, h: Digest)
    requires Hex(BodyHash(h, EffectiveBody(s))) && OneLine(s)
    ensures forall i | 0 <= i < 9 :: NoBreaks(Raws(s, h)[i])
  {
    HexPlain(BodyHash(h, EffectiveBody(s)));
    NoBreaksScalar(s.desc);
    NoBreaksScalar(s.trigger);
    NoBreaksScalar(s.source);
    NoBreaksScalar(s.category);
  }

  lemma PairsPlain(s: Stamp, h: Digest)
    requires Hex(BodyHash(h, EffectiveBody(s))) && OneLine(s)
    ensures forall p | p in Pairs(s, h) :: PlainKey(p.0) && NoBreaks(p.1)
  {
    KeysPlain();
    RawsPlain(s, h);
  }

  lemma LinesPlain(pairs: seq<Pair>)
    requires forall p | p in pairs :: PlainKey(p.0) && NoBreaks(p.1)
    ensures forall l | l in LinesOf(pairs) :: NoBreaks(l)
    ensures forall i | 0 <= i < |pairs| :: Contains(LinesOf(pairs)[i], FENCE) <==> Contains(pairs[i].1, FENCE)
  {
    forall i | 0 <= i < |pairs|
      ensures NoBreaks(LinesOf(pairs)[i]) && (Contains(LinesOf(pairs)[i], FENCE) <==> Contains(pairs[i].1, FENCE))
    {
      assert pairs[i] in pairs;
      PairLine(pairs[i]);
      ContainsLine(pairs[i]);
    }
  }

  lemma FencelessScalar(v: string)
    ensures Fenceless(YamlScalar(v)) <==> Fenceless(Flatten(v))
  {
    ContainsScalar(v);
  }

  lemma InstallerFenceless()
    ensures Fenceless("auto-skill")
  {
    NoDoubleDash("auto-skill");
  }

  lemma DashFreeIff(s: Stamp, r: seq<string>)
    requires |r| == 9 && r[0] == s.name && r[3] == s.createdAt && r[4] == s.session
    requires Fenceless(r[1]) <==> Fenceless(Flatten(s.desc))
    requires Fenceless(r[5]) <==> Fenceless(Flatten(s.trigger))
    requires Fenceless(r[6]) <==> Fenceless(Flatten(s.source))
    requires Fenceless(r[7]) <==> Fenceless(Flatten(s.category))
    requires Fenceless(r[2]) && Fenceless(r[8])
    ensures DashFree(s) <==> forall i | 0 <= i < 9 :: Fenceless(r[i])
  {
  }

  lemma RawsDashFree(s: Stamp, h: Digest, r: seq<string>)
    requires Hex(BodyHash(h, EffectiveBody(s))) && r == Raws(s, h)
    ensures DashFree(s) <==> forall i | 0 <= i < 9 :: Fenceless(r[i])
    ensures Fenceless(r[8])
  {
    assert Fenceless(r[1]) <==> Fenceless(Flatten(s.desc)) by { FencelessScalar(s.desc); }
    assert Fenceless(r[5]) <==> Fenceless(Flatten(s.trigger)) by { FencelessScalar(s.trigger); }
    assert Fenceless(r[6]) <==> Fenceless(Flatten(s.source)) by { FencelessScalar(s.source); }
    assert Fenceless(r[7]) <==> Fenceless(Flatten(s.category)) by { FencelessScalar(s.category); }
    assert Fenceless(r[8]) by { HexPlain(r[8]); }
    assert Fenceless(r[2]) by { InstallerFenceless(); }
    DashFreeIff(s, r);
  }

  // ---- round trip ----

  lemma RenderedLines(s: Stamp, h: Digest)
    requires Hex(BodyHash(h, EffectiveBody(s))) && OneLine(s) && DashFree(s)
    ensures forall l | l in LinesOf(Pairs(s, h)) :: NoBreaks(l) && !Contains(l, FENCE)
  {
    var ls := LinesOf(Pairs(s, h));
    PairsPlain(s, h);
    LinesPlain(Pairs(s, h));
    RawsDashFree(s, h, Raws(s, h));
    forall i | 0 <= i < 9 ensures NoBreaks(ls[i]) && !Contains(ls[i], FENCE) {
      assert Fenceless(Raws(s, h)[i]);
      assert ls[i] in ls;
    }
  }

  lemma RenderDict(s: Stamp, h: Digest)
    requires Hex(BodyHash(h, EffectiveBody(s))) && OneLine(s) && DashFree(s)
    ensures Fm(Render(s, h)) == Dict(Pairs(s, h))
  {
    RenderedLines(s, h);
    RenderFenced(s, h);
    FmFenced(LinesOf(Pairs(s, h)), "\n" + (RStrip(EffectiveBody(s)) + "\n"));
    PairsPlain(s, h);
    ReadPairs(Pairs(s, h));
  }

  /** A line of a key cannot be taken for a fence, whatever its value. */
  lemma KeyLineInside(key: string, value: string)
    requires PlainKey(key) && NoBreaks(value)
    ensures NoBreaks(key + ": " + value) && Strip(key + ": " + value) != FENCE
  {
    var line := key + ": " + value;
    PairLine((key, value));
    PlainKeyIs(key);
    StripNonempty(line);
    RStripPrefix(line);
    assert Strip(line)[0] == line[0] == key[0];
  }

  lemma KeyLinesInside(pairs: seq<Pair>)
    requires forall p | p in pairs :: PlainKey(p.0) && NoBreaks(p.1)
    ensures forall l | l in LinesOf(pairs) :: NoBreaks(l) && Strip(l) != FENCE
  {
    var ls := LinesOf(pairs);
    forall i | 0 <= i < |ls| ensures NoBreaks(ls[i]) && Strip(ls[i]) != FENCE {
      assert pairs[i] in pairs;
      KeyLineInside(pairs[i].0, pairs[i].1);
    }
  }

  /** The server's line reader reads every stamped pair, with or without a `---` in a value. */
  lemma ServerDict(s: Stamp, h: Digest)
    requires Hex(BodyHash(h, EffectiveBody(s))) && OneLine(s)
    ensures ServerFm(Render(s, h)) == Dict(Pairs(s, h))
  {
    var pairs := Pairs(s, h);
    PairsPlain(s, h);
    KeyLinesInside(pairs);
    RenderFenced(s, h);
    RawFenced(LinesOf(pairs), RStrip(EffectiveBody(s)) + "\n");
    ReadJoined(LinesOf(pairs));
    ReadPairs(pairs);
  }

  lemma KeysDistinct()
    ensures forall i, j | 0 <= i < j < 9 :: KEYS[i] != KEYS[j]
  {
  }

  lemma DictRaw(s: Stamp, h: Digest, i: nat)
    requires i < 9
    ensures KEYS[i] in Dict(Pairs(s, h)) && Dict(Pairs(s, h))[KEYS[i]] == Unquote(Strip(Raws(s, h)[i]))
  {
    KeysDistinct();
    DictAt(Pairs(s, h), i);
  }

  lemma DictKeySet(s: Stamp, h: Digest)
    ensures Dict(Pairs(s, h)).Keys == set k | k in KEYS
  {
    forall k: string ensures k in Dict(Pairs(s, h)) <==> k in KEYS {
      DictKeys(Pairs(s, h), k);
      if k in KEYS {
        var i :| 0 <= i < 9 && KEYS[i] == k;
        assert Pairs(s, h)[i].0 == k;
      }
    }
  }

  lemma DictScalar(s: Stamp, h: Digest, i: nat, v: string)
    requires i < 9 && Raws(s, h)[i] == YamlScalar(v)
    ensures KEYS[i] in Dict(Pairs(s, h)) && Dict(Pairs(s, h))[KEYS[i]] == Flatten(v)
  {
    DictRaw(s, h, i);
    UnquoteScalar(v);
  }

  /** What each key is meant to read as. */
  function ReadValues(s: Stamp, h: Digest): seq<string> {
    [s.name, Flatten(s.desc), "auto-skill", s.createdAt, Unquote(Strip(s.session)), Flatten(s.trigger),
     Flatten(s.source), Flatten(s.category), BodyHash(h, EffectiveBody(s))]
  }

  lemma ReadValue(s: Stamp, h: Digest, i: nat)
    requires i < 9 && Hex(BodyHash(h, EffectiveBody(s))) && Bare(s.name) && Bare(s.createdAt)
    ensures KEYS[i] in Dict(Pairs(s, h)) && Dict(Pairs(s, h))[KEYS[i]] == ReadValues(s, h)[i]
  {
    DictRaw(s, h, i);
    match i {
      case 1 => DictScalar(s, h, 1, s.desc);
      case 2 => InstallerBare();
      case 5 => DictScalar(s, h, 5, s.trigger);
      case 6 => DictScalar(s, h, 6, s.source);
      case 7 => DictScalar(s, h, 7, s.category);
      case 8 => HexPlain(BodyHash(h, EffectiveBody(s)));
      case _ =>
    }
  }

  /** Reading a rendered skill with the line reader gives back each stamped field, flattened, and no other. */
  lemma RenderRead(s: Stamp, h: Digest)
    requires Hex(BodyHash(h, EffectiveBody(s))) && OneLine(s) && Bare(s.name) && Bare(s.createdAt)
    ensures ServerFm(Render(s, h)).Keys == set k | k in KEYS
    ensures forall i | 0 <= i < 9 ::
              KEYS[i] in ServerFm(Render(s, h)) && ServerFm(Render(s, h))[KEYS[i]] == ReadValues(s, h)[i]
  {
    ServerDict(s, h);
    DictKeySet(s, h);
    forall i | 0 <= i < 9
      ensures KEYS[i] in Dict(Pairs(s, h)) && Dict(Pairs(s, h))[KEYS[i]] == ReadValues(s, h)[i]
    {
      ReadValue(s, h, i);
    }
  }

  lemma InstallerBare()
    ensures Bare("auto-skill")
  {
    StripTrim("auto-skill");
  }

  lemma LStripNewlinesOf(s: string)
    requires s != "" && s[0] != '\n'
    ensures LStripNewlines("\n" + s) == s
  {
    assert ("\n" + s)[1..] == s;
  }

  lemma EffectiveBodyShape(s: Stamp)
    ensures var b := RStrip(EffectiveBody(s)); b != "" && Trim(b) && b == Strip(EffectiveBody(s))
  {
    var e := EffectiveBody(s);
    if Strip(s.body) != "" {
      var before, after := StripCore(s.body);
      assert Trim(e);
    } else {
      assert e[0] == '#';
    }
    StripNonempty(e);
    RStripPrefix(e);
    assert RStrip(e)[0] == e[0];
  }

  /** The body read back hashes to what was stamped. */
  lemma RenderedBody(s: Stamp, h: Digest)
    requires Hex(BodyHash(h, EffectiveBody(s))) && OneLine(s) && DashFree(s)
    ensures BodyOf(Render(s, h)) == RStrip(EffectiveBody(s)) + "\n"
    ensures BodyHash(h, BodyOf(Render(s, h))) == BodyHash(h, EffectiveBody(s))
  {
    var b := RStrip(EffectiveBody(s));
    EffectiveBodyShape(s);
    RenderedLines(s, h);
    RenderFenced(s, h);
    SplitFenced(LinesOf(Pairs(s, h)), "\n" + (b + "\n"));
    LStripNewlinesOf(b + "\n");
    StripOf("", b, "\n");
    assert "" + b + "\n" == b + "\n";
  }

  // ---- when a stamped value holds a `---` ----

  /** The closing fence is then found inside the first line that holds one. */
  lemma FindInLine(lines: seq<string>, i: nat, rest: string)
    requires i < |lines| && Contains(lines[i], FENCE)
    requires forall j | 0 <= j < i :: !Contains(lines[j], FENCE)
    ensures Find(Block(lines) + rest, FENCE) == |Block(lines[..i])| + Find(lines[i], FENCE)
    ensures Block(lines[..i]) + lines[i] <= Block(lines)
  {
    var after := "\n" + Block(lines[i + 1..]);
    BlockSplit(lines, i);
    FindInPrefix(lines[i], after + rest, FENCE);
    FindAfterBlock(lines[..i], lines[i] + (after + rest));
    assert Block(lines) + rest == Block(lines[..i]) + (lines[i] + (after + rest));
  }

  lemma BlockSplit(lines: seq<string>, i: nat)
    requires i < |lines|
    ensures Block(lines) == Block(lines[..i]) + (lines[i] + ("\n" + Block(lines[i + 1..])))
  {
    assert lines == lines[..i] + lines[i..];
    BlockConcat(lines[..i], lines[i..]);
    BlockHead(lines[i..]);
    assert lines[i..][1..] == lines[i + 1..];
  }

  lemma BlockHead(tail: seq<string>)
    requires tail != []
    ensures Block(tail) == tail[0] + ("\n" + Block(tail[1..]))
  {
    Assoc(tail[0], "\n", Block(tail[1..]));
  }

  lemma Assoc(a: string, b: string, c: string)
    ensures a + b + c == a + (b + c)
  {
  }

  lemma PieceLines(lines: seq<string>, piece: string)
    requires piece != "" && NoBreaks(piece) && forall l | l in lines :: NoBreaks(l)
    ensures Lines(Block(lines) + piece) == lines + [piece]
  {
    LinesBlock(lines, piece);
    FirstBreakAt(piece, "");
    assert piece + "" == piece && piece[..|piece|] == piece;
  }

  lemma TruncatedSplit(lines: seq<string>, i: nat, rest: string)
    requires i < |lines| && Contains(lines[i], FENCE)
    requires forall j | 0 <= j < i :: !Contains(lines[j], FENCE)
    ensures SplitFences(Fenced(lines, rest)).Parts?
    ensures SplitFences(Fenced(lines, rest)).block == Block([""] + lines[..i]) + lines[i][..Find(lines[i], FENCE)]
  {
    var all := [""] + lines;
    NoDash("");
    FindInLine(all, i + 1, FENCE + rest);
    var k := |Block(all[..i + 1])| + Find(lines[i], FENCE);
    var text := Fenced(lines, rest);
    assert text[3..] == Block(all) + (FENCE + rest);
    assert text[3..3 + k] == Block(all)[..k];
    assert all[..i + 1] == [""] + lines[..i];
    assert Block(all)[..k] == (Block(all[..i + 1]) + lines[i])[..k];
  }

  lemma PieceOf(lines: seq<string>, i: nat, piece: string)
    requires i < |lines| && forall l | l in lines :: NoBreaks(l)
    requires piece != "" && piece <= lines[i]
    ensures Lines(Block([""] + lines[..i]) + piece) == [""] + (lines[..i] + [piece])
  {
    assert lines[i] in lines;
    assert forall c | c in piece :: c in lines[i];
    forall l | l in [""] + lines[..i] ensures NoBreaks(l) {
      assert l == "" || l in lines;
    }
    PieceLines([""] + lines[..i], piece);
    assert [""] + lines[..i] + [piece] == [""] + (lines[..i] + [piece]);
  }

  lemma TruncatedFm(lines: seq<string>, i: nat, rest: string, piece: string)
    requires forall l | l in lines :: NoBreaks(l)
    requires i < |lines| && Contains(lines[i], FENCE) && piece == lines[i][..Find(lines[i], FENCE)] && piece != ""
    requires forall j | 0 <= j < i :: !Contains(lines[j], FENCE)
    ensures Fm(Fenced(lines, rest)) == ReadLines([""] + (lines[..i] + [piece]))
  {
    TruncatedSplit(lines, i, rest);
    PieceOf(lines, i, piece);
  }

  /** The reader then sees only the fields before that line, and what is left of it. */
  lemma TruncatedRead(pairs: seq<Pair>, i: nat, rest: string) returns (cut: seq<Pair>)
    requires forall p | p in pairs :: PlainKey(p.0) && NoBreaks(p.1)
    requires i < |pairs| && Contains(pairs[i].1, FENCE)
    requires forall j | 0 <= j < i :: !Contains(pairs[j].1, FENCE)
    ensures |cut| == i + 1 && forall j | 0 <= j <= i :: cut[j].0 == pairs[j].0
    ensures Fm(Fenced(LinesOf(pairs), rest)) == Dict(cut)
  {
    var lines := LinesOf(pairs);
    LinesPlain(pairs);
    assert pairs[i] in pairs;
    var raw := TruncatedLine(pairs[i]);
    cut := pairs[..i] + [(pairs[i].0, raw)];
    TruncatedFm(lines, i, rest, LineOf(cut[i]));
    CutLines(pairs, i, cut);
    ReadAfterBlank(cut);
  }

  lemma CutLines(pairs: seq<Pair>, i: nat, cut: seq<Pair>)
    requires i < |pairs| && |cut| == i + 1 && cut[..i] == pairs[..i] && cut[i].0 == pairs[i].0
    requires forall p | p in pairs :: PlainKey(p.0)
    ensures LinesOf(pairs)[..i] + [LineOf(cut[i])] == LinesOf(cut)
    ensures forall p | p in cut :: PlainKey(p.0)
  {
    forall j | 0 <= j < |cut| ensures PlainKey(cut[j].0) {
      assert pairs[j] in pairs;
      assert j < i ==> cut[j] == cut[..i][j] == pairs[j];
    }
    assert forall j | 0 <= j < i :: LinesOf(cut)[j] == LineOf(cut[..i][j]);
  }

  lemma ReadAfterBlank(pairs: seq<Pair>)
    requires forall p | p in pairs :: PlainKey(p.0)
    ensures ReadLines([""] + LinesOf(pairs)) == Dict(pairs)
  {
    ReadConcat([""], LinesOf(pairs));
    ReadOne("");
    BlankLine(map[]);
    ReadPairs(pairs);
  }

  lemma TruncatedLine(p: Pair) returns (raw: string)
    requires PlainKey(p.0) && Contains(p.1, FENCE)
    ensures Contains(LineOf(p), FENCE)
    ensures LineOf(p)[..Find(LineOf(p), FENCE)] == LineOf((p.0, raw))
  {
    ContainsLine(p);
    PlainKeyIs(p.0);
    NoDash(p.0 + ":");
    FindPast(p.0 + ":", ' ', p.1, FENCE);
    assert LineOf(p) == p.0 + ":" + [' '] + p.1;
    raw := p.1[..Find(p.1, FENCE)];
  }

  /** A stamped value with a `---` hides the hash, which is stamped last. */
  lemma HashHidden(s: Stamp, h: Digest)
    requires Hex(BodyHash(h, EffectiveBody(s))) && OneLine(s) && !DashFree(s)
    ensures KEYS[8] !in Fm(Render(s, h))
  {
    RawsDashFree(s, h, Raws(s, h));
    var i := FirstFence(Raws(s, h));
    PairsPlain(s, h);
    RenderFenced(s, h);
    var cut := TruncatedRead(Pairs(s, h), i, "\n" + (RStrip(EffectiveBody(s)) + "\n"));
    DictKeys(cut, KEYS[8]);
    KeysDistinct();
  }

  /** Reading back finds the stamped hash if and only if no stamped value holds a `---`. */
  lemma HashReadBack(s: Stamp, h: Digest)
    requires Hex(BodyHash(h, EffectiveBody(s))) && OneLine(s)
    ensures KEYS[8] in Fm(Render(s, h)) <==> DashFree(s)
    ensures DashFree(s) ==> Fm(Render(s, h))[KEYS[8]] == BodyHash(h, EffectiveBody(s))
  {
    if DashFree(s) {
      RenderDict(s, h);
      DictRaw(s, h, 8);
      HexPlain(BodyHash(h, EffectiveBody(s)));
    } else {
      HashHidden(s, h);
    }
  }

  /** The split readers read a rendered skill as the line reader does if and only if no stamped value holds a `---`. */
  lemma RenderReadersAgree(s: Stamp, h: Digest)
    requires Hex(BodyHash(h, EffectiveBody(s))) && OneLine(s)
    ensures Fm(Render(s, h)) == ServerFm(Render(s, h)) <==> DashFree(s)
  {
    ServerDict(s, h);
    if DashFree(s) {
      RenderDict(s, h);
    } else {
      HashHidden(s, h);
      DictRaw(s, h, 8);
    }
  }

  lemma FirstFence(r: seq<string>) returns (i: nat)
    requires exists j :: 0 <= j < |r| && !Fenceless(r[j])
    ensures i < |r| && !Fenceless(r[i]) && forall j | 0 <= j < i :: Fenceless(r[j])
  {
    i := 0;
    while Fenceless(r[i])
      invariant i < |r| && forall j | 0 <= j < i :: Fenceless(r[j])
      decreases |r| - i
    {
      i := i + 1;
    }
  }
}
