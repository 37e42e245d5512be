/** Inputs on which the tools do less than one might expect: one for each condition that the laws make exact. */
module Witnesses {
  import opened Text
  import opened Frontmatter
  import opened Writer
  import opened Trees
  import opened Collect
  import opened Rename
  import opened CollectLaws
  import opened CollectRuns
  import opened Normalize
  import Create
  import Patch

  // ---- plain stamps ----

  /** Text that is stamped as it is: on one line, and without spaces around it. */
  predicate Plain(v: string) {
    v != "" && NoBreaks(v) && Trim(v) && v[0] != '\'' && v[0] != '"'
  }

  lemma {:induction false} SpacedPlain(v: string)
    requires NoBreaks(v)
    ensures Spaced(v) == v
  {
    if v != "" {
      assert IsBreak('\n') && IsBreak('\r') && v[0] in v;
      assert forall c | c in v[1..] :: c in v;
      SpacedPlain(v[1..]);
    }
  }

  lemma PlainText(v: string)
    requires Plain(v)
    ensures Flatten(v) == v && Strip(v) == v && Bare(v)
  {
    SpacedPlain(v);
    StripTrim(v);
  }

  predicate PlainStamp(s: Stamp) {
    Plain(s.name) && Plain(s.desc) && Plain(s.createdAt) && Plain(s.session) && Plain(s.trigger) && Plain(s.source) &&
    Plain(s.category) && Plain(s.body)
  }

  lemma PlainStampIs(s: Stamp, h: Digest)
    requires PlainStamp(s)
    ensures OneLine(s) && Bare(s.name) && Bare(s.createdAt) && BodyHash(h, EffectiveBody(s)) == h(s.body)
    ensures Flatten(s.desc) == s.desc && Flatten(s.source) == s.source && Flatten(s.category) == s.category
    ensures Flatten(s.trigger) == s.trigger
  {
    PlainText(s.name);
    PlainText(s.desc);
    PlainText(s.createdAt);
    PlainText(s.trigger);
    PlainText(s.source);
    PlainText(s.category);
    PlainText(s.body);
  }

  /** The fields of a rendered plain skill that collecting looks at. */
  lemma PlainFields(s: Stamp, h: Digest, fm: Fields)
    requires PlainStamp(s) && DashFree(s) && Hex(h(s.body)) && fm == Fm(Render(s, h))
    ensures Get(fm, "name", "") == s.name && IsAuto(fm) && Get(fm, "content_hash", "") == h(s.body)
    ensures "name" in fm && "created_by" in fm && fm["created_by"] == s.source && CategoryOf(fm) == s.category
    ensures AuthorOf(fm) == (s.source, s.createdAt)
  {
    PlainStampIs(s, h);
    RenderDict(s, h);
    ReadFields(s, h, fm);
  }

  lemma ReadFields(s: Stamp, h: Digest, fm: Fields)
    requires Hex(BodyHash(h, EffectiveBody(s))) && Bare(s.name) && Bare(s.createdAt) && s.category != ""
    requires fm == Dict(Pairs(s, h)) && Flatten(s.source) == s.source && Flatten(s.category) == s.category
    ensures "name" in fm && fm["name"] == s.name
    ensures "installer" in fm && fm["installer"] == "auto-skill"
    ensures "created_at" in fm && fm["created_at"] == s.createdAt
    ensures "created_by" in fm && fm["created_by"] == s.source
    ensures "category" in fm && fm["category"] == s.category
    ensures "content_hash" in fm && fm["content_hash"] == BodyHash(h, EffectiveBody(s))
  {
    assert KEYS[0] == "name" && KEYS[2] == "installer" && KEYS[3] == "created_at";
    assert KEYS[6] == "created_by" && KEYS[7] == "category" && KEYS[8] == "content_hash";
    ReadValue(s, h, 0);
    ReadValue(s, h, 2);
    ReadValue(s, h, 3);
    ReadValue(s, h, 6);
    ReadValue(s, h, 7);
    ReadValue(s, h, 8);
  }

  // ---- a tree with one skill ----

  lemma OneSkill(t: Tree, p: Path, text: string)
    requires t == map[Doc(p) := text] && Visible(p) && Name(Fm(text)) != ""
    ensures IsSkill(t, p) && FmAt(t, p) == Fm(text) && IsWalk(t, [p]) && Skills(t) == map[p := Fm(text)]
    ensures Alone(t, p)
  {
    assert |Doc(p)| == |p| + 1;
    forall q ensures IsSkill(t, q) <==> q == p {
      if q != p {
        DocInjective(q, p);
      }
    }
    forall q ensures q in Skills(t) <==> q == p {
      InSkills(t, q);
    }
    InSkills(t, p);
  }

  // ---- a copy that its own frontmatter does not name ----

  lemma CatalogOf(t: Tree, p: Path, fm: Fields)
    requires IsSkill(t, p) && IsWalk(t, [p]) && Skills(t) == map[p := fm] && FmAt(t, p) == fm
    requires |p| == 2 && p[1] == Name(fm)
    ensures Faithful(Start(t, [p])) && Start(t, [p]).existing == map[Name(fm) := EntryOf(p, fm)]
  {
    StartFaithful(t, [p]);
    assert [p][..0] == [];
    assert Index(t, []) == map[];
  }

  /** Another author's skill of a name that is taken, and a copy name that can be a folder name and is free. */
  lemma CopiedAs(existing: map<string, Entry>, fm: Fields, target: string)
    requires IsAuto(fm) && Good(Name(fm)) && Good(CategoryOf(fm)) && Name(fm) in existing
    requires existing[Name(fm)].hash != Get(fm, "content_hash", "") && existing[Name(fm)].author != AuthorOf(fm)
    requires target == CopyBase(fm) && target !in existing && Good(target)
    ensures Classify(existing, fm) == Copied(target)
  {
  }

  predicate Word(v: string) {
    0 < |v| <= 64 && forall i | 0 <= i < |v| :: 'a' <= v[i] <= 'z'
  }

  lemma WordIs(v: string)
    requires Word(v)
    ensures Plain(v) && Fenceless(v) && Good(v)
  {
    NoDash(v);
  }

  /** A skill whose other fields are of no interest. */
  function Made(name: string, desc: string, author: string, body: string): Stamp {
    Stamp(name, desc, name, name, name, author, name, body)
  }

  lemma MadePlain(name: string, desc: string, author: string, body: string)
    requires Word(name) && Plain(desc) && Plain(author) && Word(body)
    ensures var s := Made(name, desc, author, body);
      PlainStamp(s) && (DashFree(s) <==> Fenceless(desc) && Fenceless(author))
  {
    WordIs(name);
    WordIs(body);
    PlainText(name);
    PlainText(desc);
    PlainText(author);
  }

  lemma ShortFenceless(v: string)
    requires |v| == 3 && v != FENCE
    ensures Fenceless(v)
  {
    assert v[0..] == v;
    FindIs(v, FENCE);
  }

  lemma Unread(t: Tree, p: Path, ours: Fields, src: Tree, q: Path, theirs: Fields, target: string)
    requires IsWalk(t, [p]) && IsSkill(t, p) && Skills(t) == map[p := ours] && FmAt(t, p) == ours
    requires |p| == 2 && p[1] == Name(ours)
    requires IsSkill(src, q) && Alone(src, q) && FmAt(src, q) == theirs && NameFirst(src[Doc(q)], NameAt(src, q))
    requires Name(theirs) == Name(ours) && AuthorOf(theirs) != AuthorOf(ours) && Fenceless(Name(theirs))
    requires Get(theirs, "content_hash", "") != Get(ours, "content_hash", "")
    requires IsAuto(theirs) && Good(Name(theirs)) && Good(CategoryOf(theirs))
    requires target == CopyBase(theirs) && target != Name(ours) && Good(target) && !Fenceless(target)
    ensures Faithful(Start(t, [p])) && Classify(Start(t, [p]).existing, theirs) == Copied(target)
    ensures !Faithful(Step(Start(t, [p]), src, q))
  {
    CatalogOf(t, p, ours);
    CopiedAs(Start(t, [p]).existing, theirs, target);
    CopyFaithfulIff(Start(t, [p]), src, q);
  }

  const AUTHOR := "--x"

  lemma AuthorPlain()
    ensures Plain(AUTHOR) && Fenceless(AUTHOR)
  {
    ShortFenceless(AUTHOR);
  }

  lemma MadeTree(t: Tree, p: Path, s: Stamp, h: Digest, fm: Fields)
    requires PlainStamp(s) && DashFree(s) && Hex(h(s.body)) && Visible(p)
    requires t == map[Doc(p) := Render(s, h)] && fm == Fm(Render(s, h))
    ensures IsSkill(t, p) && FmAt(t, p) == fm && IsWalk(t, [p]) && Skills(t) == map[p := fm] && Alone(t, p)
    ensures Name(fm) == s.name && IsAuto(fm) && Get(fm, "content_hash", "") == h(s.body) && CategoryOf(fm) == s.category
    ensures "created_by" in fm && fm["created_by"] == s.source && AuthorOf(fm) == (s.source, s.createdAt)
    ensures NameFirst(t[Doc(p)], s.name)
  {
    PlainFields(s, h, fm);
    OneSkill(t, p, Render(s, h));
    PlainStampIs(s, h);
    RenderNameFirst(s, h);
  }

  /** The catalog holds a skill, and author `--x` brings another of the same name: it is copied as that name with
      `---x`, a legal folder name, and the catalog then holds a folder whose frontmatter does not give its name. */
  lemma DashedAuthor(name: string, author: string, one: string, two: string, h: Digest, t: Tree, src: Tree, p: Path,
                     q: Path)
    requires Word(name) && |name| <= 60 && Word(author) && Word(one) && Word(two)
    requires Hex(h(one)) && Hex(h(two)) && h(one) != h(two)
    requires p == [name, name] && t == map[Doc(p) := Render(Made(name, name, author, one), h)]
    requires q == [name] && src == map[Doc(q) := Render(Made(name, name, AUTHOR, two), h)]
    ensures IsWalk(t, [p]) && IsSkill(src, q) && Faithful(Start(t, [p]))
    ensures Classify(Start(t, [p]).existing, FmAt(src, q)) == Copied(name + "---x")
    ensures !Faithful(Step(Start(t, [p]), src, q))
  {
    WordIs(name);
    WordIs(author);
    AuthorPlain();
    MadePlain(name, name, author, one);
    MadePlain(name, name, AUTHOR, two);
    DashedStamps(Made(name, name, author, one), Made(name, name, AUTHOR, two), h, t, src, p, q);
  }

  lemma DashedStamps(ours: Stamp, theirs: Stamp, h: Digest, t: Tree, src: Tree, p: Path, q: Path)
    requires PlainStamp(ours) && PlainStamp(theirs) && DashFree(ours) && DashFree(theirs)
    requires ours.name == theirs.name && Word(theirs.name) && |theirs.name| <= 60 && Good(theirs.category)
    requires ours.source != AUTHOR && theirs.source == AUTHOR
    requires Hex(h(ours.body)) && Hex(h(theirs.body)) && h(ours.body) != h(theirs.body)
    requires |p| == 2 && p[1] == ours.name && Visible(p) && t == map[Doc(p) := Render(ours, h)]
    requires Visible(q) && src == map[Doc(q) := Render(theirs, h)]
    ensures IsWalk(t, [p]) && IsSkill(src, q) && Faithful(Start(t, [p]))
    ensures Classify(Start(t, [p]).existing, FmAt(src, q)) == Copied(theirs.name + "---x")
    ensures !Faithful(Step(Start(t, [p]), src, q))
  {
    WordIs(theirs.name);
    MadeTree(t, p, ours, h, Fm(Render(ours, h)));
    MadeTree(src, q, theirs, h, Fm(Render(theirs, h)));
    DashedName(Fm(Render(theirs, h)), theirs.name);
    Unread(t, p, Fm(Render(ours, h)), src, q, Fm(Render(theirs, h)), theirs.name + "---x");
  }

  lemma DashedName(fm: Fields, name: string)
    requires Name(fm) == name && Word(name) && |name| <= 60 && "created_by" in fm && fm["created_by"] == AUTHOR
    ensures CopyBase(fm) == name + "---x" && Good(name + "---x") && !Fenceless(name + "---x")
  {
    var target := name + "---x";
    assert target == name + "-" + "--x";
    assert target[|name|..] == "---x";
    ContainsAt(target, FENCE, |name|);
  }

  /** One such input: `foo` by `ann` in the catalog, and `foo` by `--x`. */
  lemma DashedFoo(h: Digest)
    requires Hex(h("one")) && Hex(h("two")) && h("one") != h("two")
    ensures var p, q: Path := ["foo", "foo"], ["foo"];
      var t: Tree := map[Doc(p) := Render(Made("foo", "foo", "ann", "one"), h)];
      var src: Tree := map[Doc(q) := Render(Made("foo", "foo", AUTHOR, "two"), h)];
      IsWalk(t, [p]) && IsSkill(src, q) && Faithful(Start(t, [p])) && !Faithful(Step(Start(t, [p]), src, q))
  {
    var p, q: Path := ["foo", "foo"], ["foo"];
    var t: Tree := map[Doc(p) := Render(Made("foo", "foo", "ann", "one"), h)];
    var src: Tree := map[Doc(q) := Render(Made("foo", "foo", AUTHOR, "two"), h)];
    DashedAuthor("foo", "ann", "one", "two", h, t, src, p, q);
  }

  // ---- the other conditions ----

  const DASHED := "a --- b"

  lemma DashedText()
    ensures Plain(DASHED) && !Fenceless(DASHED)
  {
    assert DASHED[2..] == "--- b";
    ContainsAt(DASHED, FENCE, 2);
  }

  /** A skill described as `a --- b` is refused when it is created again, word for word. */
  lemma DashedDescription(name: string, author: string, body: string, h: Digest)
    requires Word(name) && Word(author) && Word(body) && Hex(h(body))
    ensures var s := Made(name, DASHED, author, body); !Create.SameHash(Render(s, h), Create.HashOf(s, h))
  {
    var s := Made(name, DASHED, author, body);
    DashedText();
    WordIs(author);
    MadePlain(name, DASHED, author, body);
    PlainStampIs(s, h);
    Create.RepeatIdentical(s, s, h);
  }

  const RETURN := "a\rb"

  lemma ReturnText()
    ensures ReplaceFirst("a b", " ", "\r") == RETURN && Strip(RETURN) == RETURN && !NewlinesOnly(RETURN)
  {
    assert Find("a b"[1..], " ") == 0;
    assert "a b"[..1] == "a" && "a b"[2..] == "b";
    StripTrim(RETURN);
    assert IsBreak(RETURN[1]);
  }

  /** A patch that brings in a carriage return, here for the space in `a b`, does not read back as what was hashed. */
  lemma PatchedReturn(text: string, now: string, editedBy: string, envSource: string, h: Digest, patched: string)
    requires Hex(BodyHash(h, RETURN)) && NoBreaks(now)
    requires patched == Patch.PatchedText(RawFrontmatter(text).lines, RETURN, now, Patch.Source(editedBy, envSource), h)
    ensures ReplaceFirst("a b", " ", "\r") == RETURN && Strip(RawFrontmatter(patched).body) != Strip(RETURN)
  {
    ReturnText();
    Patch.PatchRoundTrip(text, RETURN, now, editedBy, envSource, h);
  }

  /** Of two lines that read as a key, `edited_by: a` and then `edited_by : b`, the tool replaces the first and the
      second goes on being read. */
  lemma SpacedKey(key: string, a: string, b: string, value: string)
    requires Plain(key) && ':' !in key && Word(a) && Word(b)
    ensures var fm := ReadLines(Patch.SetKey([key + ": " + a, key + " :" + (" " + b)], key, value));
      key in fm && fm[key] == b
  {
    WordIs(a);
    WordIs(b);
    KeyLineOf(key, a);
    SpacedLines(key, key + ": " + a, key + " :" + (" " + b), b, value);
  }

  lemma KeyLineOf(key: string, a: string)
    requires Plain(key) && Plain(a)
    ensures Patch.IsKeyLine(key + ": " + a, key)
  {
    StripTrim(key + ": " + a);
  }

  lemma SpacedLines(key: string, first: string, second: string, b: string, value: string)
    requires Plain(key) && ':' !in key && Plain(b) && Patch.IsKeyLine(first, key) && second == key + " :" + (" " + b)
    ensures var fm := ReadLines(Patch.SetKey([first, second], key, value)); key in fm && fm[key] == b
  {
    var lines := [first, second];
    SpacedLine(key, b);
    assert second[|key|] == ' ';
    assert Patch.IsKeyLine(lines[0], key) && !Patch.IsKeyLine(second, key);
    assert lines[..1] == [first];
    Patch.SetKeyReads(lines, key, value);
  }

  lemma SpacedLine(key: string, raw: string)
    requires key != "" && Trim(key) && ':' !in key && Plain(raw)
    ensures var line := key + " :" + (" " + raw);
      IsField(line) && KeyOf(line) == key && ValueOf(line) == raw
  {
    var line := key + " :" + (" " + raw);
    assert line == (key + " ") + ":" + (" " + raw);
    ColonAfter(key + " ", " " + raw);
    StripOf("", key, " ");
    assert "" + key + " " == key + " ";
    StripOf(" ", raw, "");
    assert " " + raw + "" == " " + raw;
    assert line[0] == key[0];
    StripNonempty(line);
    assert line[..|key| + 1] == key + " " && line[|key| + 2..] == " " + raw;
  }
}
