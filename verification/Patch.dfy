/** The in-place edit of a SKILL.md body (`tool_skill_patch` of skills-mcp/server.py). */
module Patch {
  import opened Text
  import opened Frontmatter
  import opened Writer
  import opened Normalize

  // ---- setting a key ----

  /** A line `_set_fm_key` takes for the key: not indented, no space at either end, `key:` first. */
  predicate IsKeyLine(line: string, key: string) {
    Strip(line) == line && key + ":" <= line
  }

  predicate HasKeyLine(lines: seq<string>, key: string) {
    exists i :: 0 <= i < |lines| && IsKeyLine(lines[i], key)
  }

  /** Each line of the key replaced, the others kept. */
  function WithKey(lines: seq<string>, key: string, value: string): seq<string> {
    seq(|lines|, i requires 0 <= i < |lines| => if IsKeyLine(lines[i], key) then key + ": " + value else lines[i])
  }

  function SetKey(lines: seq<string>, key: string, value: string): seq<string> {
    WithKey(lines, key, value) + if HasKeyLine(lines, key) then [] else [key + ": " + value]
  }

  lemma KeyNext(lines: seq<string>, i: nat, key: string, value: string)
    requires i < |lines|
    ensures WithKey(lines[..i + 1], key, value) ==
      WithKey(lines[..i], key, value) + [if IsKeyLine(lines[i], key) then key + ": " + value else lines[i]]
    ensures HasKeyLine(lines[..i + 1], key) <==> HasKeyLine(lines[..i], key) || IsKeyLine(lines[i], key)
  {
    var before, after := lines[..i], lines[..i + 1];
    assert after == before + [lines[i]];
    if HasKeyLine(before, key) {
      var j :| 0 <= j < |before| && IsKeyLine(before[j], key);
      assert IsKeyLine(after[j], key);
    }
    if HasKeyLine(after, key) && !IsKeyLine(lines[i], key) {
      var j :| 0 <= j < |after| && IsKeyLine(after[j], key);
      assert IsKeyLine(before[j], key);
    }
    if IsKeyLine(lines[i], key) {
      assert IsKeyLine(after[i], key);
    }
  }

  /** `_set_fm_key`: a free-text value is quoted, any other loses its newlines. */
  method SetFmKey(lines: seq<string>, key: string, value: string, quote: bool) returns (out: seq<string>)
    ensures out == SetKey(lines, key, if quote then YamlScalar(value) else Spaced(value))
  {
    var v := if quote then YamlScalar(value) else Spaced(value);
    out := [];
    var replaced := false;
    for i := 0 to |lines|
      invariant out == WithKey(lines[..i], key, v)
      invariant replaced == HasKeyLine(lines[..i], key)
    {
      var stripped := Strip(lines[i]);
      KeyNext(lines, i, key, v);
      if stripped == lines[i] && (stripped == key + ":" || key + ":" <= stripped) {
        out := out + [key + ": " + v];
        replaced := true;
      } else {
        out := out + [lines[i]];
      }
    }
    assert lines[..|lines|] == lines;
    if !replaced {
      out := out + [key + ": " + v];
    }
  }

  /** The last line that reads as the key is one that `_set_fm_key` replaces. */
  predicate LastIsKeyLine(lines: seq<string>, key: string) {
    lines != [] &&
    var last := lines[|lines| - 1];
    IsKeyLine(last, key) || (!(IsField(last) && KeyOf(last) == key) && LastIsKeyLine(lines[..|lines| - 1], key))
  }

  lemma KeyLineReads(line: string, key: string)
    requires key != "" && Trim(key) && ':' !in key && IsKeyLine(line, key)
    ensures IsField(line) && KeyOf(line) == key
  {
    ColonLine(key, line[|key| + 1..]);
    assert line == key + ":" + line[|key| + 1..];
  }

  lemma {:induction false} WithKeyReads(lines: seq<string>, key: string, value: string)
    requires key != "" && Trim(key) && ':' !in key
    ensures ReadLines(WithKey(lines, key, value)) ==
      if LastIsKeyLine(lines, key) then ReadLines(lines)[key := Unquote(Strip(value))] else ReadLines(lines)
  {
    if lines != [] {
      var k := |lines| - 1;
      var last := lines[k];
      WithKeyReads(lines[..k], key, value);
      assert WithKey(lines, key, value)[..k] == WithKey(lines[..k], key, value);
      WithLast(WithKey(lines[..k], key, value), lines[..k], last, key, value);
      assert lines == lines[..k] + [last];
      assert WithKey(lines, key, value) == WithKey(lines[..k], key, value) + [if IsKeyLine(last, key) then key + ": " + value else last];
    }
  }

  lemma LastSnoc(lines: seq<string>, last: string, key: string)
    ensures LastIsKeyLine(lines + [last], key) <==>
      IsKeyLine(last, key) || (!(IsField(last) && KeyOf(last) == key) && LastIsKeyLine(lines, key))
  {
    assert (lines + [last])[..|lines|] == lines;
  }

  lemma WithLast(mapped: seq<string>, lines: seq<string>, last: string, key: string, value: string)
    requires key != "" && Trim(key) && ':' !in key
    requires ReadLines(mapped) ==
      if LastIsKeyLine(lines, key) then ReadLines(lines)[key := Unquote(Strip(value))] else ReadLines(lines)
    ensures ReadLines(mapped + [if IsKeyLine(last, key) then key + ": " + value else last]) ==
      if LastIsKeyLine(lines + [last], key) then ReadLines(lines + [last])[key := Unquote(Strip(value))]
      else ReadLines(lines + [last])
  {
    ReadSnoc(lines, last);
    LastSnoc(lines, last, key);
    if IsKeyLine(last, key) {
      ReadSnoc(mapped, key + ": " + value);
      FieldLine(ReadLines(mapped), key, value);
      KeyReplaced(ReadLines(mapped), ReadLines(lines), last, key, Unquote(Strip(value)));
    } else {
      ReadSnoc(mapped, last);
    }
  }

  lemma KeyReplaced(m: Fields, fm: Fields, last: string, key: string, v: string)
    requires key != "" && Trim(key) && ':' !in key && IsKeyLine(last, key)
    requires m == fm || m == fm[key := v]
    ensures m[key := v] == AddLine(fm, last)[key := v]
  {
    KeyLineReads(last, key);
  }

  /** What the key reads as afterwards: the new value, unless a line that reads as the key but is not one
      `_set_fm_key` would replace comes after the last one it does replace. No other key changes. */
  lemma SetKeyReads(lines: seq<string>, key: string, value: string)
    requires key != "" && Trim(key) && ':' !in key
    ensures ReadLines(SetKey(lines, key, value)) ==
      if HasKeyLine(lines, key) && !LastIsKeyLine(lines, key) then ReadLines(lines)
      else ReadLines(lines)[key := Unquote(Strip(value))]
  {
    WithKeyReads(lines, key, value);
    var added := key + ": " + value;
    if HasKeyLine(lines, key) {
      assert SetKey(lines, key, value) == WithKey(lines, key, value);
    } else {
      ReadConcat(WithKey(lines, key, value), [added]);
      ReadOne(added);
      FieldLine(map[], key, value);
      NoLastKeyLine(lines, key);
    }
  }

  lemma {:induction false} NoLastKeyLine(lines: seq<string>, key: string)
    requires !HasKeyLine(lines, key)
    ensures !LastIsKeyLine(lines, key)
  {
    if lines != [] {
      var k := |lines| - 1;
      KeyNext(lines, k, key, "");
      assert lines[..k + 1] == lines;
      NoLastKeyLine(lines[..k], key);
    }
  }

  // ---- the patch ----

  /** Non-overlapping occurrences, as `str.count`. */
  function Count(s: string, pat: string): nat
    requires pat != ""
  {
    if |s| < |pat| then 0
    else if pat <= s then 1 + Count(s[|pat|..], pat)
    else Count(s[1..], pat)
  }

  function FirstLine(s: string): string {
    if Lines(s) == [] then "" else Strip(Lines(s)[0])
  }

  /** The `edited_by` to stamp: one line, never empty. */
  function Source(editedBy: string, envSource: string): string {
    OrElse(FirstLine(Strip(OrElse(OrElse(editedBy, envSource), "skills-mcp"))), "skills-mcp")
  }

  function Stamped(lines: seq<string>, hash: string, now: string, source: string): seq<string> {
    SetKey(SetKey(SetKey(lines, "content_hash", Spaced(hash)), "edited_at", Spaced(now)), "edited_by", YamlScalar(source))
  }

  function Ended(text: string): string {
    if text != "" && text[|text| - 1] == '\n' then text else text + "\n"
  }

  datatype Outcome = EmptyOld | SameStrings | NotFound | Ambiguous(count: nat) | Unparseable | Patched(text: string)

  /** `tool_skill_patch` from the text it reads to the text it writes. `parses` is whether the frontmatter of a text
      parses without complaint; a patch that would lose this is refused. */
  method SkillPatch(text: string, oldString: string, newString: string, editedBy: string, envSource: string,
                    now: string, h: Digest, parses: string -> bool) returns (r: Outcome)
    ensures oldString == "" <==> r == EmptyOld
    ensures oldString != "" && oldString == newString <==> r == SameStrings
    ensures oldString != "" && oldString != newString ==>
      var raw := RawFrontmatter(text);
      var n := Count(raw.body, oldString);
      var patched := PatchedText(raw.lines, ReplaceFirst(raw.body, oldString, newString), now,
                                 Source(editedBy, envSource), h);
      r == if n == 0 then NotFound else if n > 1 then Ambiguous(n)
           else if parses(text) && !parses(patched) then Unparseable else Patched(patched)
    ensures r.Patched? && NoBreaks(now) ==>
      ReplacedOnce(text, oldString, newString, now, Source(editedBy, envSource), h, r.text)
    ensures r == NotFound <==>
      oldString != "" && oldString != newString && !Contains(RawFrontmatter(text).body, oldString)
  {
    if oldString == "" {
      return EmptyOld;
    }
    if oldString == newString {
      return SameStrings;
    }
    var raw := RawFrontmatter(text);
    var n := Count(raw.body, oldString);
    CountNone(raw.body, oldString);
    if n == 0 {
      return NotFound;
    }
    if n > 1 {
      return Ambiguous(n);
    }
    var body := ReplaceFirst(raw.body, oldString, newString);
    var lines := SetFmKey(raw.lines, "content_hash", BodyHash(h, body), false);
    lines := SetFmKey(lines, "edited_at", now, false);
    lines := SetFmKey(lines, "edited_by", Source(editedBy, envSource), true);
    var written := body;
    if lines != [] {
      written := "---\n" + Join(lines) + "\n---\n" + body;
    }
    StampedNotEmpty(raw.lines, BodyHash(h, body), now, Source(editedBy, envSource));
    WrittenFenced(lines, body);
    if parses(text) && !parses(Ended(written)) {
      return Unparseable;
    }
    if NoBreaks(now) {
      PatchedOnce(text, oldString, newString, now, editedBy, envSource, h, Ended(written));
    }
    return Patched(Ended(written));
  }

  /** The one place where the body holds the old string now holds the new one, and the text carries its stamps. */
  ghost predicate ReplacedOnce(text: string, oldString: string, newString: string, now: string, source: string, h: Digest,
                               patched: string) {
    exists a, b :: IsOnce(RawFrontmatter(text).body, oldString, a, b) &&
      (Hex(BodyHash(h, a + newString + b)) ==> Carries(text, patched, a + newString + b, now, source, h))
  }

  /** The text holds the string between `a` and `b`, not earlier, and not again in `b`. */
  predicate IsOnce(text: string, pat: string, a: string, b: string) {
    text == a + pat + b && Find(text, pat) == |a| && !Contains(b, pat)
  }

  lemma {:induction false} CountNone(s: string, pat: string)
    requires pat != ""
    ensures Count(s, pat) == 0 <==> !Contains(s, pat)
  {
    if |s| >= |pat| && !(pat <= s) {
      CountNone(s[1..], pat);
    }
  }

  /** Occurrences are counted from the left, each from the end of the one before. */
  lemma CountFirst(s: string, pat: string)
    requires pat != "" && Contains(s, pat)
    ensures Count(s, pat) == 1 + Count(s[Find(s, pat) + |pat|..], pat)
  {
    CountFrom(s, pat, Find(s, pat), s[Find(s, pat) + |pat|..]);
  }

  lemma {:induction false} CountFrom(s: string, pat: string, i: nat, rest: string)
    requires pat != "" && Find(s, pat) == i && rest == s[i + |pat|..]
    ensures Count(s, pat) == 1 + Count(rest, pat)
    decreases i
  {
    if i > 0 {
      var t := s[1..];
      assert rest == t[i - 1 + |pat|..];
      CountFrom(t, pat, i - 1, rest);
      assert !(pat <= s);
    }
  }

  lemma CountOne(s: string, pat: string, replacement: string)
    requires pat != "" && Count(s, pat) == 1
    ensures var i := Find(s, pat);
      0 <= i <= |s| - |pat| && IsOnce(s, pat, s[..i], s[i + |pat|..]) &&
      ReplaceFirst(s, pat, replacement) == s[..i] + replacement + s[i + |pat|..]
  {
    CountNone(s, pat);
    CountFirst(s, pat);
    FindIs(s, pat);
    var i := Find(s, pat);
    CountNone(s[i + |pat|..], pat);
    Around(s, i, pat);
  }

  lemma Around(s: string, i: nat, pat: string)
    requires i <= |s| && pat <= s[i..]
    ensures s == s[..i] + pat + s[i + |pat|..]
  {
  }

  lemma PatchedOnce(text: string, oldString: string, newString: string, now: string, editedBy: string, envSource: string,
                    h: Digest, patched: string)
    requires oldString != "" && Count(RawFrontmatter(text).body, oldString) == 1 && NoBreaks(now)
    requires patched == PatchedText(RawFrontmatter(text).lines,
      ReplaceFirst(RawFrontmatter(text).body, oldString, newString), now, Source(editedBy, envSource), h)
    ensures ReplacedOnce(text, oldString, newString, now, Source(editedBy, envSource), h, patched)
  {
    var body := RawFrontmatter(text).body;
    CountOne(body, oldString, newString);
    var i := Find(body, oldString);
    SourceOneLine(editedBy, envSource);
    SourceFlat(editedBy, envSource);
    OnceCarries(text, body, oldString, newString, body[..i], body[i + |oldString|..], now, Source(editedBy, envSource), h,
                patched);
  }

  lemma OnceCarries(text: string, body: string, oldString: string, newString: string, a: string, b: string, now: string,
                    source: string, h: Digest, patched: string)
    requires body == RawFrontmatter(text).body && IsOnce(body, oldString, a, b)
    requires NoBreaks(now) && NoBreaks(source) && Flatten(source) == source
    requires patched == PatchedText(RawFrontmatter(text).lines, a + newString + b, now, source, h)
    ensures ReplacedOnce(text, oldString, newString, now, source, h, patched)
  {
    if Hex(BodyHash(h, a + newString + b)) {
      PatchCarries(text, patched, a + newString + b, now, source, h);
    }
  }

  function PatchedText(lines: seq<string>, body: string, now: string, source: string, h: Digest): string {
    Ended(Fenced(Stamped(lines, BodyHash(h, body), now, source), "\n" + body))
  }

  lemma StampedNotEmpty(lines: seq<string>, hash: string, now: string, source: string)
    ensures Stamped(lines, hash, now, source) != []
  {
    SetNotEmpty(SetKey(SetKey(lines, "content_hash", Spaced(hash)), "edited_at", Spaced(now)), "edited_by", YamlScalar(source));
  }

  lemma SetNotEmpty(lines: seq<string>, key: string, value: string)
    ensures SetKey(lines, key, value) != []
  {
  }

  lemma WrittenFenced(lines: seq<string>, body: string)
    requires lines != []
    ensures "---\n" + Join(lines) + "\n---\n" + body == Fenced(lines, "\n" + body)
  {
    var b := Block(lines);
    BlockJoin(lines);
    BlockConcat([""], lines);
    BlockOne("");
    Regroup(Join(lines), body);
  }

  lemma Regroup(j: string, body: string)
    ensures "---\n" + j + "\n---\n" + body == FENCE + ("" + "\n" + (j + "\n")) + FENCE + ("\n" + body)
  {
  }

  // ---- reading the patched text back ----

  /** Frontmatter lines that stay inside their fences. */
  predicate Inside(lines: seq<string>) {
    forall i | 0 <= i < |lines| :: NoBreaks(lines[i]) && Strip(lines[i]) != FENCE
  }

  lemma RawInside(text: string)
    ensures Inside(RawFrontmatter(text).lines)
  {
    LinesNoBreaks(text);
    var lines := Lines(text);
    if FENCE <= text && lines != [] {
      var end := FenceFrom(lines, 1);
      forall i | 0 <= i < end - 1 ensures NoBreaks(lines[1..end][i]) && Strip(lines[1..end][i]) != FENCE {
        assert lines[i + 1] in lines;
      }
    }
  }

  lemma SetInside(lines: seq<string>, key: string, value: string)
    requires Inside(lines) && PlainKey(key) && NoBreaks(value)
    ensures Inside(SetKey(lines, key, value))
  {
    KeyLineInside(key, value);
  }

  lemma {:induction false} SpacedNoBreaks(v: string)
    requires NoBreaks(v)
    ensures Spaced(v) == v
  {
    if v != "" {
      assert v[0] in v && forall c | c in v[1..] :: c in v;
      SpacedNoBreaks(v[1..]);
    }
  }

  lemma StripNoBreaks(v: string)
    requires NoBreaks(v)
    ensures NoBreaks(Strip(v))
  {
    var before, after := StripCore(v);
    assert forall c | c in Strip(v) :: c in v;
  }

  /** Whatever text `edited_by` is, one line is stamped. */
  lemma SourceOneLine(editedBy: string, envSource: string)
    ensures NoBreaks(Source(editedBy, envSource))
  {
    var s := Strip(OrElse(OrElse(editedBy, envSource), "skills-mcp"));
    LinesNoBreaks(s);
    if Lines(s) != [] {
      assert Lines(s)[0] in Lines(s);
      StripNoBreaks(Lines(s)[0]);
    }
    DefaultSource();
  }

  lemma DefaultSource()
    ensures NoBreaks("skills-mcp")
  {
  }

  lemma StampKeys()
    ensures PlainKey("content_hash") && PlainKey("edited_at") && PlainKey("edited_by")
  {
  }

  lemma StampedInside(lines: seq<string>, hash: string, now: string, source: string)
    requires Inside(lines) && Hex(hash) && NoBreaks(now) && NoBreaks(source)
    ensures Inside(Stamped(lines, hash, now, source))
  {
    StampKeys();
    HexPlain(hash);
    SpacedNoBreaks(hash);
    SpacedNoBreaks(now);
    SpacedNoBreaks(source);
    StripNoBreaks(source);
    NoBreaksScalar(source);
    var a := SetKey(lines, "content_hash", Spaced(hash));
    var b := SetKey(a, "edited_at", Spaced(now));
    SetInside(lines, "content_hash", Spaced(hash));
    SetInside(a, "edited_at", Spaced(now));
    SetInside(b, "edited_by", YamlScalar(source));
  }

  lemma EndedFenced(lines: seq<string>, body: string)
    ensures Ended(Fenced(lines, "\n" + body)) == Fenced(lines, "\n" + if body == "" then "" else Ended(body))
  {
    var text := Fenced(lines, "\n" + body);
    assert text[|text| - 1] == if body == "" then '\n' else body[|body| - 1];
  }

  lemma PatchRaw(lines: seq<string>, body: string, now: string, source: string, h: Digest)
    requires Inside(lines) && Hex(BodyHash(h, body)) && NoBreaks(now) && NoBreaks(source)
    ensures RawFrontmatter(PatchedText(lines, body, now, source, h)) ==
      Raw(Stamped(lines, BodyHash(h, body), now, source), LStripNewlines(Join(Lines(if body == "" then "" else Ended(body)))))
  {
    var ls := Stamped(lines, BodyHash(h, body), now, source);
    StampedInside(lines, BodyHash(h, body), now, source);
    EndedFenced(ls, body);
    InsideFenced(ls, if body == "" then "" else Ended(body));
  }

  lemma InsideFenced(lines: seq<string>, body: string)
    requires Inside(lines)
    ensures RawFrontmatter(Fenced(lines, "\n" + body)) == Raw(lines, LStripNewlines(Join(Lines(body))))
  {
    forall l | l in lines ensures NoBreaks(l) && Strip(l) != FENCE {
      var i :| 0 <= i < |lines| && lines[i] == l;
    }
    RawFenced(lines, body);
  }

  /** Splitting the patched text again finds the closing fence where it was put: the stamped lines come back
      as they are, and the body comes back with its line breaks as newlines. */
  lemma PatchReadBack(lines: seq<string>, body: string, now: string, source: string, h: Digest)
    requires Inside(lines) && Hex(BodyHash(h, body)) && NoBreaks(now) && NoBreaks(source)
    ensures var raw := RawFrontmatter(PatchedText(lines, body, now, source, h));
      raw.lines == Stamped(lines, BodyHash(h, body), now, source) && Strip(raw.body) == Normal(Strip(body))
  {
    PatchRaw(lines, body, now, source, h);
    StripJoined(if body == "" then "" else Ended(body));
    EndedStrip(body);
  }

  lemma EndedStrip(body: string)
    ensures Strip(if body == "" then "" else Ended(body)) == Strip(body)
  {
    StripPadded("", body, "\n");
    assert "" + body + "\n" == body + "\n";
  }

  /** The body read back is the patched body, and hashes to the stamp, if and only if the patched body (between
      the spaces around it) breaks its lines with newlines alone. */
  lemma PatchRoundTrip(text: string, body: string, now: string, editedBy: string, envSource: string, h: Digest)
    requires Hex(BodyHash(h, body)) && NoBreaks(now)
    ensures var lines := RawFrontmatter(text).lines;
      var source := Source(editedBy, envSource);
      var raw := RawFrontmatter(PatchedText(lines, body, now, source, h));
      raw.lines == Stamped(lines, BodyHash(h, body), now, source) &&
      (Strip(raw.body) == Strip(body) <==> NewlinesOnly(Strip(body))) &&
      (NewlinesOnly(Strip(body)) ==> BodyHash(h, raw.body) == BodyHash(h, body))
  {
    RawInside(text);
    SourceOneLine(editedBy, envSource);
    PatchReadBack(RawFrontmatter(text).lines, body, now, Source(editedBy, envSource), h);
    NormalIff(Strip(body));
  }

  /** Up to surrounding newlines nothing of such a body changes. */
  lemma PatchBodyExact(lines: seq<string>, body: string, now: string, source: string, h: Digest)
    requires Inside(lines) && Hex(BodyHash(h, body)) && NoBreaks(now) && NoBreaks(source)
    requires NewlinesOnly(body)
    ensures RawFrontmatter(PatchedText(lines, body, now, source, h)).body ==
      LStripNewlines(if body != "" && body[|body| - 1] == '\n' then body[..|body| - 1] else body)
  {
    PatchRaw(lines, body, now, source, h);
    JoinedExact(body);
  }

  lemma JoinedExact(body: string)
    requires NewlinesOnly(body)
    ensures Join(Lines(if body == "" then "" else Ended(body))) ==
      if body != "" && body[|body| - 1] == '\n' then body[..|body| - 1] else body
  {
    var full := if body == "" then "" else Ended(body);
    JoinLines(full);
    NormalSame(full);
    var joined := Join(Lines(full));
    if full != "" {
      assert full == joined + "\n";
      assert joined == full[..|full| - 1];
    }
  }

  // ---- what a patch stamps ----

  predicate PlainKeyed(key: string) {
    key != "" && Trim(key) && ':' !in key
  }

  /** Setting the key is seen by the readers: it is not on any line the tool would replace, or the last line that reads
      as the key is one. */
  predicate Reaches(lines: seq<string>, key: string) {
    HasKeyLine(lines, key) ==> LastIsKeyLine(lines, key)
  }

  lemma OneKeyLine(line: string, key: string, other: string)
    requires PlainKeyed(key) && PlainKeyed(other) && key != other && IsKeyLine(line, key)
    ensures !IsKeyLine(line, other)
  {
    KeyLineReads(line, key);
    if IsKeyLine(line, other) {
      KeyLineReads(line, other);
      assert false;
    }
  }

  lemma ValueLine(key: string, value: string, other: string)
    requires PlainKeyed(key) && PlainKeyed(other) && key != other
    ensures var line := key + ": " + value; !IsKeyLine(line, other) && IsField(line) && KeyOf(line) == key
  {
    FieldLine(map[], key, value);
    var line := key + ": " + value;
    if IsKeyLine(line, other) {
      KeyLineReads(line, other);
      assert false;
    }
  }

  lemma {:induction false} WithKeyOther(lines: seq<string>, key: string, value: string, other: string)
    requires PlainKeyed(key) && PlainKeyed(other) && key != other
    ensures HasKeyLine(WithKey(lines, key, value), other) <==> HasKeyLine(lines, other)
    ensures LastIsKeyLine(WithKey(lines, key, value), other) <==> LastIsKeyLine(lines, other)
  {
    if lines != [] {
      var k := |lines| - 1;
      var init, last := lines[..k], lines[k];
      var out := if IsKeyLine(last, key) then key + ": " + value else last;
      WithKeyOther(init, key, value, other);
      KeyNext(lines, k, key, value);
      assert lines[..k + 1] == lines && lines == init + [last];
      LineOther(last, key, value, other);
      PushKeyLine(init, last, other);
      PushKeyLine(WithKey(init, key, value), out, other);
    }
  }

  lemma LineOther(last: string, key: string, value: string, other: string)
    requires PlainKeyed(key) && PlainKeyed(other) && key != other
    ensures var out := if IsKeyLine(last, key) then key + ": " + value else last;
      (IsKeyLine(out, other) <==> IsKeyLine(last, other)) &&
      (IsField(out) && KeyOf(out) == other <==> IsField(last) && KeyOf(last) == other)
  {
    if IsKeyLine(last, key) {
      OneKeyLine(last, key, other);
      ValueLine(key, value, other);
      KeyLineReads(last, key);
    }
  }

  lemma PushKeyLine(lines: seq<string>, last: string, key: string)
    ensures HasKeyLine(lines + [last], key) <==> HasKeyLine(lines, key) || IsKeyLine(last, key)
    ensures LastIsKeyLine(lines + [last], key) <==>
      IsKeyLine(last, key) || (!(IsField(last) && KeyOf(last) == key) && LastIsKeyLine(lines, key))
  {
    var all := lines + [last];
    assert all[..|lines|] == lines;
    KeyNext(all, |lines|, key, "");
    assert all[..|lines| + 1] == all;
  }

  lemma SetKeyOther(lines: seq<string>, key: string, value: string, other: string)
    requires PlainKeyed(key) && PlainKeyed(other) && key != other
    ensures Reaches(SetKey(lines, key, value), other) <==> Reaches(lines, other)
    ensures HasKeyLine(SetKey(lines, key, value), other) <==> HasKeyLine(lines, other)
  {
    WithKeyOther(lines, key, value, other);
    if HasKeyLine(lines, key) {
      assert SetKey(lines, key, value) == WithKey(lines, key, value);
    } else {
      ValueLine(key, value, other);
      PushKeyLine(WithKey(lines, key, value), key + ": " + value, other);
    }
  }

  /** The key reads as the value if setting it is seen, and as before if not. */
  ghost predicate KeyIs(fm: Fields, before: Fields, key: string, value: string, seen: bool) {
    if seen then key in fm && fm[key] == value
    else (key in fm <==> key in before) && (key in fm ==> fm[key] == before[key])
  }

  /** The key is as said, and every other key as it was. */
  ghost predicate OnlyKey(fm: Fields, before: Fields, key: string, value: string, seen: bool) {
    KeyIs(fm, before, key, value, seen) && forall k | k != key :: KeyIs(fm, before, k, "", false)
  }

  lemma SetOne(lines: seq<string>, key: string, value: string, out: seq<string>)
    requires PlainKeyed(key) && out == SetKey(lines, key, value)
    ensures OnlyKey(ReadLines(out), ReadLines(lines), key, Unquote(Strip(value)), Reaches(lines, key))
  {
    SetKeyReads(lines, key, value);
  }

  const STAMPED := ["content_hash", "edited_at", "edited_by"]

  /** The three stamped keys are as said, and every other key as it was. */
  ghost predicate StampsAre(fm: Fields, before: Fields, hash: string, now: string, source: string, lines: seq<string>) {
    && KeyIs(fm, before, "content_hash", hash, Reaches(lines, "content_hash"))
    && KeyIs(fm, before, "edited_at", now, Reaches(lines, "edited_at"))
    && KeyIs(fm, before, "edited_by", source, Reaches(lines, "edited_by"))
    && forall key | key !in STAMPED :: KeyIs(fm, before, key, "", false)
  }

  /** Three keys set one after the other, each leaving the other two alone. */
  lemma ThreeKeys(f0: Fields, f1: Fields, f2: Fields, f3: Fields, hash: string, now: string, source: string,
                  lines: seq<string>)
    requires OnlyKey(f1, f0, "content_hash", hash, Reaches(lines, "content_hash"))
    requires OnlyKey(f2, f1, "edited_at", now, Reaches(lines, "edited_at"))
    requires OnlyKey(f3, f2, "edited_by", source, Reaches(lines, "edited_by"))
    ensures StampsAre(f3, f0, hash, now, source, lines)
  {
    KeptTwice(f0, f1, f2, "edited_by");
    KeyThenKept(f0, f1, f2, f3, "content_hash", hash, Reaches(lines, "content_hash"));
    assert KeyIs(f1, f0, "edited_at", "", false) && KeyIs(f3, f2, "edited_at", "", false);
    forall key | key !in STAMPED ensures KeyIs(f3, f0, key, "", false) {
      assert key != STAMPED[0] && key != STAMPED[1] && key != STAMPED[2];
      KeyThenKept(f0, f1, f2, f3, key, "", false);
    }
  }

  lemma KeptTwice(f0: Fields, f1: Fields, f2: Fields, key: string)
    requires KeyIs(f1, f0, key, "", false) && KeyIs(f2, f1, key, "", false)
    ensures KeyIs(f2, f0, key, "", false)
  {
  }

  lemma KeyThenKept(f0: Fields, f1: Fields, f2: Fields, f3: Fields, key: string, value: string, seen: bool)
    requires KeyIs(f1, f0, key, value, seen) && KeyIs(f2, f1, key, "", false) && KeyIs(f3, f2, key, "", false)
    ensures KeyIs(f3, f0, key, value, seen)
  {
  }

  lemma StampedKeys()
    ensures PlainKeyed("content_hash") && PlainKeyed("edited_at") && PlainKeyed("edited_by")
  {
    PlainKeyIs("content_hash");
    PlainKeyIs("edited_at");
    PlainKeyIs("edited_by");
  }

  lemma StampsReach(lines: seq<string>, hash: string, now: string, a: seq<string>, b: seq<string>)
    requires a == SetKey(lines, "content_hash", hash) && b == SetKey(a, "edited_at", now)
    ensures Reaches(a, "edited_at") <==> Reaches(lines, "edited_at")
    ensures Reaches(b, "edited_by") <==> Reaches(lines, "edited_by")
  {
    StampedKeys();
    SetKeyOther(lines, "content_hash", hash, "edited_at");
    SetKeyOther(lines, "content_hash", hash, "edited_by");
    SetKeyOther(a, "edited_at", now, "edited_by");
  }

  lemma StampedRead(lines: seq<string>, hash: string, now: string, author: string, a: seq<string>, b: seq<string>,
                    out: seq<string>)
    requires a == SetKey(lines, "content_hash", hash) && b == SetKey(a, "edited_at", now)
    requires out == SetKey(b, "edited_by", author)
    ensures StampsAre(ReadLines(out), ReadLines(lines), Unquote(Strip(hash)), Unquote(Strip(now)),
                      Unquote(Strip(author)), lines)
  {
    StampedKeys();
    StampsReach(lines, hash, now, a, b);
    SetOne(lines, "content_hash", hash, a);
    SetOne(a, "edited_at", now, b);
    SetOne(b, "edited_by", author, out);
    ThreeKeys(ReadLines(lines), ReadLines(a), ReadLines(b), ReadLines(out), Unquote(Strip(hash)), Unquote(Strip(now)),
              Unquote(Strip(author)), lines);
  }

  /** No line is lost or moved, and none but those of the three keys is changed; at most three are added at the end. */
  ghost predicate LinesKept(lines: seq<string>, out: seq<string>) {
    |lines| <= |out| <= |lines| + 3 &&
    forall i | 0 <= i < |lines| :: out[i] == lines[i] || (exists k :: k in STAMPED && IsKeyLine(lines[i], k))
  }

  lemma SetLine(lines: seq<string>, key: string, value: string, i: nat)
    requires i < |lines|
    ensures SetKey(lines, key, value)[i] == if IsKeyLine(lines[i], key) then key + ": " + value else lines[i]
    ensures |lines| <= |SetKey(lines, key, value)| <= |lines| + 1
  {
  }

  lemma StampedLines(lines: seq<string>, hash: string, now: string, author: string, a: seq<string>, b: seq<string>,
                     out: seq<string>)
    requires a == SetKey(lines, "content_hash", hash) && b == SetKey(a, "edited_at", now)
    requires out == SetKey(b, "edited_by", author)
    ensures LinesKept(lines, out)
  {
    forall i | 0 <= i < |lines|
      ensures out[i] == lines[i] || (exists k :: k in STAMPED && IsKeyLine(lines[i], k))
    {
      StampedLine(lines, hash, now, author, a, b, out, i);
    }
  }

  lemma StampedLine(lines: seq<string>, hash: string, now: string, author: string, a: seq<string>, b: seq<string>,
                    out: seq<string>, i: nat)
    requires a == SetKey(lines, "content_hash", hash) && b == SetKey(a, "edited_at", now)
    requires out == SetKey(b, "edited_by", author) && i < |lines|
    ensures i < |out| && (out[i] == lines[i] || (exists k :: k in STAMPED && IsKeyLine(lines[i], k)))
  {
    SetLine(lines, "content_hash", hash, i);
    SetLine(a, "edited_at", now, i);
    SetLine(b, "edited_by", author, i);
    assert STAMPED[0] in STAMPED && STAMPED[1] in STAMPED && STAMPED[2] in STAMPED;
  }

  /** What a patched text says of the text before it: `content_hash` is the hash of the new body, `edited_at` the time and
      `edited_by` the source, unless a later line that the tool would not replace reads as the key; every other key is as
      it was, and so is every line but those of the three keys; and where newlines are its only line breaks, the body
      is the new one and hashes to the `content_hash`. */
  ghost predicate Carries(text: string, patched: string, body: string, now: string, source: string, h: Digest) {
    var before, after := RawFrontmatter(text), RawFrontmatter(patched);
    && StampsAre(ServerFm(patched), ServerFm(text), BodyHash(h, body), Unquote(Strip(now)), source, before.lines)
    && LinesKept(before.lines, after.lines)
    && patched != "" && patched[|patched| - 1] == '\n'
    && (Strip(after.body) == Strip(body) <==> NewlinesOnly(Strip(body)))
    && (NewlinesOnly(Strip(body)) && Reaches(before.lines, "content_hash") ==>
          "content_hash" in ServerFm(patched) && ServerFm(patched)["content_hash"] == BodyHash(h, after.body))
  }

  /** The source is one line without spaces around it, so it reads as itself. */
  lemma SourceFlat(editedBy: string, envSource: string)
    ensures Flatten(Source(editedBy, envSource)) == Source(editedBy, envSource)
  {
    var source := Source(editedBy, envSource);
    SourceOneLine(editedBy, envSource);
    SpacedNoBreaks(source);
    SourceTrim(editedBy, envSource);
    StripTrim(source);
  }

  lemma SourceTrim(editedBy: string, envSource: string)
    ensures Trim(Source(editedBy, envSource))
  {
    var first := FirstLine(Strip(OrElse(OrElse(editedBy, envSource), "skills-mcp")));
    var lines := Lines(Strip(OrElse(OrElse(editedBy, envSource), "skills-mcp")));
    if lines != [] {
      var before, after := StripCore(lines[0]);
    }
  }

  lemma ServerLines(text: string)
    ensures ServerFm(text) == ReadLines(RawFrontmatter(text).lines)
  {
    RawInside(text);
    var lines := RawFrontmatter(text).lines;
    forall l | l in lines ensures NoBreaks(l) {
      var i :| 0 <= i < |lines| && lines[i] == l;
    }
    ReadJoined(lines);
  }

  lemma StampedCarries(lines: seq<string>, hash: string, now: string, source: string, out: seq<string>)
    requires out == Stamped(lines, hash, now, source)
    requires Hex(hash) && NoBreaks(now) && Flatten(source) == source
    ensures StampsAre(ReadLines(out), ReadLines(lines), hash, Unquote(Strip(now)), source, lines) && LinesKept(lines, out)
  {
    HexPlain(hash);
    SpacedNoBreaks(hash);
    SpacedNoBreaks(now);
    UnquoteScalar(source);
    var a := SetKey(lines, "content_hash", hash);
    var b := SetKey(a, "edited_at", now);
    StampedRead(lines, hash, now, YamlScalar(source), a, b, out);
    StampedLines(lines, hash, now, YamlScalar(source), a, b, out);
  }

  lemma PatchCarries(text: string, patched: string, body: string, now: string, source: string, h: Digest)
    requires Hex(BodyHash(h, body)) && NoBreaks(now) && NoBreaks(source) && Flatten(source) == source
    requires patched == PatchedText(RawFrontmatter(text).lines, body, now, source, h)
    ensures Carries(text, patched, body, now, source, h)
  {
    var before, after := RawFrontmatter(text).lines, RawFrontmatter(patched);
    RawInside(text);
    PatchReadBack(before, body, now, source, h);
    CarriesHead(text, patched, before, after.lines, BodyHash(h, body), now, source);
    CarriesBody(body, after.body, h);
    Ends(Fenced(Stamped(before, BodyHash(h, body), now, source), "\n" + body));
  }

  lemma CarriesHead(text: string, patched: string, before: seq<string>, after: seq<string>, hash: string, now: string,
                    source: string)
    requires before == RawFrontmatter(text).lines && after == RawFrontmatter(patched).lines
    requires after == Stamped(before, hash, now, source)
    requires Hex(hash) && NoBreaks(now) && Flatten(source) == source
    ensures StampsAre(ServerFm(patched), ServerFm(text), hash, Unquote(Strip(now)), source, before)
    ensures LinesKept(before, after)
  {
    ServerLines(text);
    ServerLines(patched);
    StampedCarries(before, hash, now, source, after);
  }

  lemma CarriesBody(body: string, after: string, h: Digest)
    requires Strip(after) == Normal(Strip(body))
    ensures Strip(after) == Strip(body) <==> NewlinesOnly(Strip(body))
    ensures NewlinesOnly(Strip(body)) ==> BodyHash(h, after) == BodyHash(h, body)
  {
    NormalIff(Strip(body));
  }

  lemma Ends(text: string)
    ensures Ended(text) != "" && Ended(text)[|Ended(text)| - 1] == '\n'
  {
  }

  /** The author stamped is the first line of what was given, or of the default where nothing was. */
  lemma SourceIs(editedBy: string, envSource: string)
    ensures var given := if editedBy != "" then editedBy else envSource;
      if Strip(given) == "" then Source(editedBy, envSource) == "skills-mcp"
      else Source(editedBy, envSource) == Strip(Strip(given)[..FirstBreak(Strip(given))])
  {
    var given := if editedBy != "" then editedBy else envSource;
    var core := Strip(given);
    DefaultLine();
    if core != "" {
      var before, after := StripCore(given);
      assert FirstBreak(core) > 0;
      FirstOfLines(core);
      StripNonempty(core[..FirstBreak(core)]);
    }
  }

  lemma FirstOfLines(s: string)
    requires s != ""
    ensures Lines(s) != [] && Lines(s)[0] == s[..FirstBreak(s)]
  {
    assert s[..|s|] == s;
  }

  lemma DefaultLine()
    ensures FirstLine(Strip("skills-mcp")) == "skills-mcp"
  {
    StripTrim("skills-mcp");
    DefaultSource();
    OneLineOnly("skills-mcp");
  }
}
