/** What one step of a collect does to the catalog, told of the frontmatter and the files it is given. */
module CollectCases {
  import opened Text
  import opened Frontmatter
  import opened Trees
  import opened Collect
  import opened CollectLaws

  predicate Alphanumeric(c: char) {
    'A' <= c <= 'Z' || 'a' <= c <= 'z' || '0' <= c <= '9'
  }

  /** `[A-Za-z0-9][A-Za-z0-9._-]{0,63}` */
  predicate Usable(v: string) {
    0 < |v| <= 64 && Alphanumeric(v[0]) &&
    forall i | 0 < i < |v| :: Alphanumeric(v[i]) || v[i] == '.' || v[i] == '_' || v[i] == '-'
  }

  function Read(fm: Fields, key: string): string {
    if key in fm then fm[key] else ""
  }

  /** An auto-skill with a name and a category that can be folder names. */
  predicate Acceptable(fm: Fields) {
    Read(fm, "installer") == "auto-skill" && Usable(Read(fm, "name")) && Usable(Category(fm))
  }

  function Category(fm: Fields): string {
    if Read(fm, "category") == "" then "uncategorized" else fm["category"]
  }

  function CopyName(fm: Fields): string {
    Read(fm, "name") + "-" + if Read(fm, "created_by") == "" then "x" else fm["created_by"]
  }

  predicate SameHash(a: Fields, b: Fields) {
    Read(a, "content_hash") == Read(b, "content_hash")
  }

  predicate SameAuthor(a: Fields, b: Fields) {
    Read(a, "created_by") == Read(b, "created_by") && Read(a, "created_at") == Read(b, "created_at")
  }

  /** The catalog has a skill of this name there. */
  ghost predicate Has(t: Tree, q: Path, name: string) {
    IsSkill(t, q) && Read(Fm(t[q + ["SKILL.md"]]), "name") == name
  }

  ghost predicate Taken(t: Tree, name: string) {
    exists q :: Has(t, q, name)
  }

  /** The first of base, base-2, base-3, .. that no catalog skill has. */
  ghost predicate FirstFree(t: Tree, base: string, target: string) {
    !Taken(t, target) &&
    (target == base ||
      (Taken(t, base) && exists n: nat :: n >= 2 && target == base + "-" + Decimal(n) && TakenBelow(t, base, n)))
  }

  ghost predicate TakenBelow(t: Tree, base: string, n: nat) {
    forall m: nat | 2 <= m < n :: Taken(t, base + "-" + Decimal(m))
  }

  /** The folder at `dest` has become that at `p`, but with this SKILL.md; nothing else has changed. */
  ghost predicate CopiedTo(t: Tree, r: Tree, src: Tree, p: Path, dest: Path, text: string) {
    && (forall rest: Path :: dest + rest in r <==> p + rest in src)
    && (forall rest: Path | p + rest in src :: r[dest + rest] == if rest == ["SKILL.md"] then text else src[p + rest])
    && (forall f | !(dest <= f) :: (f in r <==> f in t) && (f in r ==> r[f] == t[f]))
  }

  // ---- the files ----

  lemma RebaseRest(dest: Path, rest: Path, p: Path)
    ensures dest <= dest + rest && Rebase(dest + rest, dest, p) == p + rest
  {
    assert (dest + rest)[|dest|..] == rest;
  }

  lemma Replaced(t: Tree, src: Tree, p: Path, dest: Path)
    requires p + ["SKILL.md"] in src
    ensures CopiedTo(t, Replace(t, dest, src, p), src, p, dest, src[p + ["SKILL.md"]])
  {
    forall rest: Path
      ensures dest + rest in Replace(t, dest, src, p) <==> p + rest in src
      ensures p + rest in src ==> Replace(t, dest, src, p)[dest + rest] == src[p + rest]
    {
      RebaseRest(dest, rest, p);
    }
  }

  lemma Rewritten(t: Tree, r: Tree, src: Tree, p: Path, dest: Path, before: string, text: string)
    requires p + ["SKILL.md"] in src && CopiedTo(t, r, src, p, dest, before)
    ensures CopiedTo(t, r[dest + ["SKILL.md"] := text], src, p, dest, text)
  {
    var now := r[dest + ["SKILL.md"] := text];
    forall rest: Path ensures dest + rest == dest + ["SKILL.md"] <==> rest == ["SKILL.md"] {
      assert rest == (dest + rest)[|dest|..];
      assert ["SKILL.md"] == (dest + ["SKILL.md"])[|dest|..];
    }
    forall rest: Path ensures dest + rest in now <==> p + rest in src {
    }
  }

  /** The text of a copy placed under the name. */
  function CopyText(text: string, name: string, target: string): string {
    if target == name then text else ReplaceFirst(text, "name: " + name, "name: " + target)
  }

  lemma PlaceCopies(s: Run, src: Tree, p: Path, target: string, dest: Path)
    requires IsSkill(src, p)
    ensures CopiedTo(s.tree, Place(s, src, p, target, dest).tree, src, p, dest,
              CopyText(src[p + ["SKILL.md"]], NameAt(src, p), target))
  {
    Replaced(s.tree, src, p, dest);
    if target != NameAt(src, p) {
      Rewritten(s.tree, Replace(s.tree, dest, src, p), src, p, dest, src[p + ["SKILL.md"]],
        ReplaceFirst(src[p + ["SKILL.md"]], "name: " + NameAt(src, p), "name: " + target));
    }
  }

  // ---- the index ----

  lemma UsableIff(v: string)
    ensures Usable(v) <==> Good(v)
  {
  }

  /** An exact index has the names, places, hashes and authors of the catalog's skills. */
  lemma TakenIff(s: Run, name: string)
    requires Faithful(s)
    ensures name in s.existing <==> Taken(s.tree, name)
  {
    if name in s.existing {
      InSkills(s.tree, s.existing[name].path);
      assert Has(s.tree, s.existing[name].path, name);
    }
    if q :| Has(s.tree, q, name) {
      InSkills(s.tree, q);
    }
  }

  lemma Found(s: Run, q: Path, name: string)
    requires Faithful(s) && Has(s.tree, q, name)
    ensures name in s.existing && s.existing[name] == EntryOf(q, Fm(s.tree[q + ["SKILL.md"]]))
  {
    TakenIff(s, name);
    InSkills(s.tree, q);
    InSkills(s.tree, s.existing[name].path);
  }

  lemma FreshFirst(s: Run, base: string, target: string)
    requires Faithful(s) && target == Fresh(s.existing.Keys, base)
    ensures FirstFree(s.tree, base, target)
  {
    TakenIff(s, target);
    TakenIff(s, base);
    if base in s.existing.Keys {
      assert target == Probe(s.existing.Keys, base, 2);
      var k :| 2 <= k && target == Numbered(base, k) && AllTaken(s.existing.Keys, base, k);
      NumbersTaken(s, base, k);
    }
  }

  lemma NumbersTaken(s: Run, base: string, n: nat)
    requires Faithful(s) && AllTaken(s.existing.Keys, base, n)
    ensures TakenBelow(s.tree, base, n)
  {
    forall m: nat | 2 <= m < n ensures Taken(s.tree, base + "-" + Decimal(m)) {
      assert Numbered(base, m) in s.existing.Keys;
      TakenIff(s, Numbered(base, m));
    }
  }

  // ---- the cases ----

  /** A skill of another installer changes nothing. */
  lemma IgnoresOthers(s: Run, src: Tree, p: Path, fm: Fields)
    requires IsSkill(src, p) && fm == Fm(src[p + ["SKILL.md"]]) && Read(fm, "installer") != "auto-skill"
    ensures Step(s, src, p) == s
  {
  }

  /** One whose name or category cannot be a folder name is refused and changes nothing else. */
  lemma Refuses(s: Run, src: Tree, p: Path, fm: Fields)
    requires IsSkill(src, p) && fm == Fm(src[p + ["SKILL.md"]]) && Read(fm, "installer") == "auto-skill"
    requires !Usable(Read(fm, "name")) || !Usable(Category(fm))
    ensures var r := Step(s, src, p); |r.rejected| == |s.rejected| + 1 && r.(rejected := s.rejected) == s
  {
    UsableIff(Read(fm, "name"));
    UsableIff(Category(fm));
  }

  lemma Accepted(fm: Fields)
    requires Acceptable(fm)
    ensures IsAuto(fm) && Good(Get(fm, "name", "")) && Good(CategoryOf(fm)) && Category(fm) == CategoryOf(fm)
    ensures CopyBase(fm) == CopyName(fm)
  {
    UsableIff(Read(fm, "name"));
    UsableIff(Category(fm));
  }

  /** One whose name no catalog skill has goes to category/name. */
  lemma Adds(s: Run, src: Tree, p: Path, fm: Fields)
    requires Faithful(s) && IsSkill(src, p) && fm == Fm(src[p + ["SKILL.md"]])
    requires Acceptable(fm) && !Taken(s.tree, Read(fm, "name"))
    ensures var r := Step(s, src, p);
      && CopiedTo(s.tree, r.tree, src, p, [Category(fm), fm["name"]], src[p + ["SKILL.md"]])
      && r.committed == (if fm["name"] in s.updated then s.committed else s.committed + [fm["name"]])
      && (r.updated, r.skipped, r.renamed, r.rejected) == (s.updated, s.skipped, s.renamed, s.rejected)
  {
    Accepted(fm);
    TakenIff(s, fm["name"]);
    PlaceCopies(s, src, p, fm["name"], [Category(fm), fm["name"]]);
    StepPlaces(s, src, p, s, fm["name"], [Category(fm), fm["name"]]);
  }

  /** One that the catalog has with the same hash is skipped, whoever wrote it. */
  lemma Skips(s: Run, src: Tree, p: Path, fm: Fields, q: Path)
    requires Faithful(s) && IsSkill(src, p) && fm == Fm(src[p + ["SKILL.md"]])
    requires Acceptable(fm) && Has(s.tree, q, Read(fm, "name")) && SameHash(Fm(s.tree[q + ["SKILL.md"]]), fm)
    ensures Step(s, src, p) == s.(skipped := s.skipped + [fm["name"]])
  {
    Accepted(fm);
    Found(s, q, fm["name"]);
  }

  /** One that the catalog has with another hash replaces the folder it is in, wherever that is, if the name and time
      of its author are the same. */
  lemma Updates(s: Run, src: Tree, p: Path, fm: Fields, q: Path)
    requires Faithful(s) && IsSkill(src, p) && fm == Fm(src[p + ["SKILL.md"]])
    requires Acceptable(fm) && Has(s.tree, q, Read(fm, "name"))
    requires !SameHash(Fm(s.tree[q + ["SKILL.md"]]), fm) && SameAuthor(Fm(s.tree[q + ["SKILL.md"]]), fm)
    ensures var r := Step(s, src, p);
      && CopiedTo(s.tree, r.tree, src, p, q, src[p + ["SKILL.md"]])
      && (r.committed, r.updated, r.skipped, r.renamed, r.rejected) ==
        (s.committed, s.updated + [fm["name"]], s.skipped, s.renamed, s.rejected)
  {
    Accepted(fm);
    Found(s, q, fm["name"]);
    var listed := s.(updated := s.updated + [fm["name"]]);
    PlaceCopies(listed, src, p, fm["name"], q);
    StepPlaces(s, src, p, listed, fm["name"], q);
  }

  /** A copy was made under the name, or refused under it. */
  ghost predicate RenamedTo(s: Run, r: Run, src: Tree, p: Path, cat: string, name: string, target: string)
    requires p + ["SKILL.md"] in src
  {
    && (r.updated, r.skipped, r.renamed) == (s.updated, s.skipped, s.renamed + [(name, target)])
    && (if Usable(target)
        then r.rejected == s.rejected &&
             r.committed == (if target in s.updated then s.committed else s.committed + [target]) &&
             CopiedTo(s.tree, r.tree, src, p, [cat, target],
               ReplaceFirst(src[p + ["SKILL.md"]], "name: " + name, "name: " + target))
        else r.tree == s.tree && r.committed == s.committed && |r.rejected| == |s.rejected| + 1)
  }

  /** One whose name a skill of another author has is copied under the first free name that carries its author's, and
      called so, if that can be a folder name, and refused if not. */
  lemma Renames(s: Run, src: Tree, p: Path, fm: Fields, q: Path) returns (target: string)
    requires Faithful(s) && IsSkill(src, p) && fm == Fm(src[p + ["SKILL.md"]])
    requires Acceptable(fm) && Has(s.tree, q, Read(fm, "name"))
    requires !SameHash(Fm(s.tree[q + ["SKILL.md"]]), fm) && !SameAuthor(Fm(s.tree[q + ["SKILL.md"]]), fm)
    ensures FirstFree(s.tree, CopyName(fm), target)
    ensures RenamedTo(s, Step(s, src, p), src, p, Category(fm), fm["name"], target)
  {
    target := Collides(s, fm, q);
    Accepted(fm);
    if Usable(target) {
      CopiesUnder(s, src, p, fm, target, s.(renamed := s.renamed + [(fm["name"], target)]));
    } else {
      StepEnds(s, src, p, s.(renamed := s.renamed + [(fm["name"], target)],
        rejected := s.rejected + [RefusedCopy(fm["name"], target)]));
    }
  }

  lemma Collides(s: Run, fm: Fields, q: Path) returns (target: string)
    requires Faithful(s) && Acceptable(fm) && Has(s.tree, q, Read(fm, "name"))
    requires !SameHash(Fm(s.tree[q + ["SKILL.md"]]), fm) && !SameAuthor(Fm(s.tree[q + ["SKILL.md"]]), fm)
    ensures FirstFree(s.tree, CopyName(fm), target) && target != fm["name"]
    ensures Classify(s.existing, fm) == if Usable(target) then Copied(target) else CopyRejected(target)
  {
    var held := Fm(s.tree[q + ["SKILL.md"]]);
    Found(s, q, fm["name"]);
    target := CopyTarget(s.existing, fm, EntryOf(q, held), held);
    Accepted(fm);
    FreshFirst(s, CopyName(fm), target);
  }

  lemma CopyTarget(existing: map<string, Entry>, fm: Fields, entry: Entry, held: Fields) returns (target: string)
    requires Acceptable(fm) && fm["name"] in existing && existing[fm["name"]] == entry
    requires entry.hash == Read(held, "content_hash") && entry.author == (Read(held, "created_by"), Read(held, "created_at"))
    requires !SameHash(held, fm) && !SameAuthor(held, fm)
    ensures target == Fresh(existing.Keys, CopyBase(fm)) && target != fm["name"]
    ensures Classify(existing, fm) == if Usable(target) then Copied(target) else CopyRejected(target)
  {
    Accepted(fm);
    target := Fresh(existing.Keys, CopyBase(fm));
    UsableIff(target);
    assert target !in existing.Keys;
  }

  lemma CopiesUnder(s: Run, src: Tree, p: Path, fm: Fields, target: string, listed: Run)
    requires IsSkill(src, p) && fm == FmAt(src, p) && Category(fm) == CategoryOf(fm)
    requires Classify(s.existing, fm) == Copied(target) && target != fm["name"]
    requires listed == s.(renamed := s.renamed + [(fm["name"], target)])
    ensures var r := Step(s, src, p);
      && r.committed == (if target in s.updated then s.committed else s.committed + [target])
      && (r.updated, r.skipped, r.renamed, r.rejected) == (s.updated, s.skipped, listed.renamed, s.rejected)
      && CopiedTo(s.tree, r.tree, src, p, [Category(fm), target],
           ReplaceFirst(src[p + ["SKILL.md"]], "name: " + fm["name"], "name: " + target))
  {
    PlaceCopies(listed, src, p, target, [Category(fm), target]);
    StepPlaces(s, src, p, listed, target, [Category(fm), target]);
  }
}
