/** What every collect run keeps, and what a second run over the same source does. */
module CollectLaws {
  import opened Text
  import opened Frontmatter
  import opened Writer
  import opened Trees
  import opened Collect
  import opened Rename

  type Folders = map<Path, Fields>

  function Name(fm: Fields): string {
    Get(fm, "name", "")
  }

  // ---- the catalog ----

  /** Every skill lies at category/name, and no two share a name. */
  ghost predicate WellFormed(k: Folders) {
    (forall p | p in k :: |p| == 2 && p[1] == Name(k[p])) &&
    (forall p, q | p in k && q in k && Name(k[p]) == Name(k[q]) :: p == q)
  }

  function EntryOf(p: Path, fm: Fields): Entry {
    Entry(Get(fm, "content_hash", ""), p, AuthorOf(fm))
  }

  /** The index holds exactly the skills of the catalog. */
  ghost predicate Indexed(k: Folders, existing: map<string, Entry>) {
    (forall n | n in existing ::
      existing[n].path in k && Name(k[existing[n].path]) == n &&
      existing[n] == EntryOf(existing[n].path, k[existing[n].path])) &&
    (forall p | p in k :: Name(k[p]) in existing)
  }

  ghost predicate Faithful(s: Run) {
    WellFormed(Skills(s.tree)) && Indexed(Skills(s.tree), s.existing)
  }

  /** The folder holds no second skill. */
  ghost predicate Alone(src: Tree, p: Path) {
    forall q | q in Skills(src) && p <= q :: q == p
  }

  lemma {:induction false} IndexHas(t: Tree, walk: seq<Path>, n: string)
    requires forall p | p in walk :: IsSkill(t, p)
    ensures n in Index(t, walk) <==> exists p :: p in walk && NameAt(t, p) == n
    ensures n in Index(t, walk) ==> exists p :: p in walk && NameAt(t, p) == n && Index(t, walk)[n] == EntryAt(t, p)
  {
    if walk != [] {
      var k := |walk| - 1;
      IndexHas(t, walk[..k], n);
      assert walk == walk[..k] + [walk[k]];
      assert forall p :: p in walk <==> p in walk[..k] || p == walk[k];
    }
  }

  lemma StartFaithful(t: Tree, walk: seq<Path>)
    requires WellFormed(Skills(t)) && IsWalk(t, walk)
    ensures Faithful(Start(t, walk))
  {
    var existing, k := Index(t, walk), Skills(t);
    forall n | n in existing
      ensures existing[n].path in k && Name(k[existing[n].path]) == n &&
        existing[n] == EntryOf(existing[n].path, k[existing[n].path])
    {
      IndexHas(t, walk, n);
      InSkills(t, existing[n].path);
    }
    forall p | p in k ensures Name(k[p]) in existing {
      InSkills(t, p);
      assert p in walk;
      IndexHas(t, walk, NameAt(t, p));
    }
  }

  /** A catalog has only one index. */
  lemma IndexUnique(k: Folders, a: map<string, Entry>, b: map<string, Entry>)
    requires WellFormed(k) && Indexed(k, a) && Indexed(k, b)
    ensures a == b
  {
    forall n | n in a || n in b ensures n in a && n in b && a[n] == b[n] {
      var p := if n in a then a[n].path else b[n].path;
      assert p in k && Name(k[p]) == n;
    }
  }

  // ---- placing one skill ----

  /** The folder may be replaced: it is the skill's own, or it is a free place for a free name. */
  predicate MayPlace(existing: map<string, Entry>, target: string, dest: Path) {
    |dest| == 2 && Visible(dest) && dest[1] == target &&
    (target in existing ==> dest == existing[target].path)
  }

  lemma GoodVisible(v: string)
    requires Good(v)
    ensures !Hidden(v)
  {
  }

  lemma PairVisible(a: string, b: string)
    requires Good(a) && Good(b)
    ensures Visible([a, b])
  {
    GoodVisible(a);
    GoodVisible(b);
  }

  lemma DocInjective(x: Path, y: Path)
    requires x != y
    ensures Doc(x) != Doc(y)
  {
    assert Doc(x)[..|Doc(x)| - 1] == x && Doc(y)[..|Doc(y)| - 1] == y;
  }

  /** Copying a folder that holds one skill over a place that holds no other one. */
  lemma CopyBelow(t: Tree, dest: Path, src: Tree, p: Path, x: Path)
    requires IsSkill(src, p) && Visible(dest) && dest <= x
    requires IsSkill(src, Rebase(x, dest, p)) ==> Rebase(x, dest, p) == p
    ensures IsSkill(Replace(t, dest, src, p), x) <==> x == dest
    ensures IsSkill(Replace(t, dest, src, p), x) ==> FmAt(Replace(t, dest, src, p), x) == FmAt(src, p)
  {
    ReplaceSkills(t, dest, src, p, x);
    RebaseBack(x, dest, p);
    assert x == dest ==> Rebase(x, dest, p) == p;
    assert Rebase(x, dest, p) == p ==> |x| == |dest|;
  }

  lemma CopyElsewhere(t: Tree, dest: Path, src: Tree, p: Path, x: Path)
    requires IsSkill(src, p) && Visible(dest) && !(dest <= x)
    requires IsSkill(t, x) ==> |x| == |dest|
    ensures IsSkill(Replace(t, dest, src, p), x) <==> IsSkill(t, x)
    ensures IsSkill(Replace(t, dest, src, p), x) ==> FmAt(Replace(t, dest, src, p), x) == FmAt(t, x)
  {
    ReplaceSkills(t, dest, src, p, x);
    assert |Doc(x)| == |x| + 1;
  }

  lemma CopySkills(t: Tree, dest: Path, src: Tree, p: Path)
    requires IsSkill(src, p) && Visible(dest)
    requires forall x | x in Skills(t) :: |x| == |dest|
    requires forall q | q in Skills(src) && p <= q :: q == p
    ensures Skills(Replace(t, dest, src, p)) == Skills(t)[dest := FmAt(src, p)]
  {
    var r := Replace(t, dest, src, p);
    forall x: Path
      ensures x in Skills(r) <==> x in Skills(t)[dest := FmAt(src, p)]
      ensures x in Skills(r) ==> Skills(r)[x] == Skills(t)[dest := FmAt(src, p)][x]
    {
      InSkills(t, x);
      InSkills(r, x);
      if dest <= x {
        InSkills(src, Rebase(x, dest, p));
        RebaseBack(x, dest, p);
        CopyBelow(t, dest, src, p, x);
      } else {
        CopyElsewhere(t, dest, src, p, x);
      }
    }
  }

  lemma RewriteElsewhere(t: Tree, dest: Path, text: string, x: Path)
    requires Doc(dest) in t && x != dest
    ensures IsSkill(t[Doc(dest) := text], x) <==> IsSkill(t, x)
    ensures IsSkill(t, x) ==> FmAt(t[Doc(dest) := text], x) == FmAt(t, x)
  {
    DocInjective(x, dest);
  }

  /** Rewriting the SKILL.md of one skill folder. */
  lemma RewriteSkills(t: Tree, dest: Path, text: string)
    requires IsSkill(t, dest) && Name(Fm(text)) != ""
    ensures Skills(t[Doc(dest) := text]) == Skills(t)[dest := Fm(text)]
  {
    var r := t[Doc(dest) := text];
    forall x: Path
      ensures x in Skills(r) <==> x in Skills(t)[dest := Fm(text)]
      ensures x in Skills(r) ==> Skills(r)[x] == Skills(t)[dest := Fm(text)][x]
    {
      InSkills(t, x);
      InSkills(r, x);
      if x != dest {
        RewriteElsewhere(t, dest, text, x);
      }
    }
  }

  function CopyFields(src: Tree, p: Path, target: string): Fields
    requires IsSkill(src, p)
  {
    Fm(Renamed(src[Doc(p)], NameAt(src, p), target))
  }

  /** The fields a folder placed as `target` ends up with. */
  function PlacedFields(src: Tree, p: Path, target: string): Fields
    requires IsSkill(src, p)
  {
    if target != NameAt(src, p) then CopyFields(src, p, target) else FmAt(src, p)
  }

  /** A placed folder reads as its new name, and still as the same skill with the same body. */
  predicate ReadsAs(src: Tree, p: Path, target: string)
    requires IsSkill(src, p)
  {
    var fm, placed := FmAt(src, p), PlacedFields(src, p, target);
    Name(placed) == target && AuthorOf(placed) == AuthorOf(fm) &&
    Get(placed, "content_hash", "") == Get(fm, "content_hash", "")
  }

  lemma RewriteCopied(copied: Tree, k: Folders, dest: Path, fm: Fields, text: string)
    requires Skills(copied) == k[dest := fm] && Name(Fm(text)) != ""
    ensures Skills(copied[Doc(dest) := text]) == k[dest := Fm(text)]
  {
    InSkills(copied, dest);
    RewriteSkills(copied, dest, text);
  }

  /** After placing a skill the catalog has it at its place; every other skill is as it was. */
  lemma PlaceSkills(s: Run, src: Tree, p: Path, target: string, dest: Path)
    requires IsSkill(src, p) && Alone(src, p) && |dest| == 2 && Visible(dest)
    requires Name(PlacedFields(src, p, target)) != ""
    requires forall x | x in Skills(s.tree) :: |x| == 2
    ensures Skills(Place(s, src, p, target, dest).tree) == Skills(s.tree)[dest := PlacedFields(src, p, target)]
  {
    CopySkills(s.tree, dest, src, p);
    if target != NameAt(src, p) {
      var text := Renamed(src[Doc(p)], NameAt(src, p), target);
      RewriteCopied(Replace(s.tree, dest, src, p), Skills(s.tree), dest, FmAt(src, p), text);
    }
  }

  lemma AddFaithful(k: Folders, existing: map<string, Entry>, target: string, dest: Path, fm: Fields)
    requires WellFormed(k) && Indexed(k, existing) && MayPlace(existing, target, dest)
    requires Name(fm) == target
    ensures WellFormed(k[dest := fm]) && Indexed(k[dest := fm], existing[target := EntryOf(dest, fm)])
  {
    var k2 := k[dest := fm];
    forall x, y | x in k2 && y in k2 && Name(k2[x]) == Name(k2[y]) ensures x == y {
    }
  }

  lemma PlaceFaithful(s: Run, src: Tree, p: Path, target: string, dest: Path)
    requires Faithful(s) && MayPlace(s.existing, target, dest) && target != ""
    requires IsSkill(src, p) && Alone(src, p) && ReadsAs(src, p, target)
    ensures Faithful(Place(s, src, p, target, dest))
  {
    var fm := PlacedFields(src, p, target);
    PlaceSkills(s, src, p, target, dest);
    AddFaithful(Skills(s.tree), s.existing, target, dest, fm);
    assert EntryOf(dest, fm) == Place(s, src, p, target, dest).existing[target];
  }

  lemma PlacedTree(s: Run, src: Tree, p: Path, target: string, dest: Path, copied: Tree, placed: Tree)
    requires IsSkill(src, p) && copied == Replace(s.tree, dest, src, p)
    requires placed == Place(s, src, p, target, dest).tree
    ensures Doc(dest) in copied && FmAt(copied, dest) == FmAt(src, p)
    ensures placed ==
      if target == NameAt(src, p) then copied else copied[Doc(dest) := Renamed(src[Doc(p)], NameAt(src, p), target)]
  {
    RebaseDoc(dest, dest, p);
    assert Rebase(dest, dest, p) == p;
  }

  /** A second skill in the folder ends up deeper than a catalog skill may lie. */
  lemma NestedCopied(t: Tree, src: Tree, p: Path, dest: Path, q: Path) returns (x: Path)
    requires IsSkill(src, p) && Visible(dest) && IsSkill(src, q) && p <= q && q != p
    ensures |x| > |dest| && IsSkill(Replace(t, dest, src, p), x)
  {
    x := Rebase(q, p, dest);
    RebaseBack(q, p, dest);
    ReplaceSkills(t, dest, src, p, x);
  }

  lemma NestedUnfaithful(s: Run, src: Tree, p: Path, target: string, dest: Path)
    requires IsSkill(src, p) && !Alone(src, p) && |dest| == 2 && Visible(dest)
    ensures !Faithful(Place(s, src, p, target, dest))
  {
    var q :| q in Skills(src) && p <= q && q != p;
    InSkills(src, q);
    var x := NestedCopied(s.tree, src, p, dest, q);
    var copied, placed := Replace(s.tree, dest, src, p), Place(s, src, p, target, dest).tree;
    PlacedTree(s, src, p, target, dest, copied, placed);
    StaysDeep(copied, placed, dest, x, Renamed(src[Doc(p)], NameAt(src, p), target));
  }

  lemma StaysDeep(copied: Tree, placed: Tree, dest: Path, x: Path, text: string)
    requires Doc(dest) in copied && IsSkill(copied, x) && |x| > |dest| == 2
    requires placed == copied || placed == copied[Doc(dest) := text]
    ensures !WellFormed(Skills(placed))
  {
    RewriteElsewhere(copied, dest, text, x);
    InSkills(placed, x);
  }

  /** The index leads to a place that reads as another name, author or hash, or as no skill at all. */
  lemma MisreadUnfaithful(s: Run, src: Tree, p: Path, target: string, dest: Path)
    requires IsSkill(src, p) && !ReadsAs(src, p, target)
    ensures !Faithful(Place(s, src, p, target, dest))
  {
    var r := Place(s, src, p, target, dest);
    PlacedTree(s, src, p, target, dest, Replace(s.tree, dest, src, p), r.tree);
    Misread(r, target, dest, PlacedFields(src, p, target), FmAt(src, p));
  }

  lemma Misread(s: Run, target: string, dest: Path, placed: Fields, fm: Fields)
    requires Doc(dest) in s.tree && FmAt(s.tree, dest) == placed
    requires target in s.existing && s.existing[target] == EntryOf(dest, fm)
    requires Name(placed) != target || EntryOf(dest, placed) != EntryOf(dest, fm)
    ensures !Faithful(s)
  {
    InSkills(s.tree, dest);
  }

  predicate Places(o: Outcome) {
    o.Added? || o.Updated? || o.Copied?
  }

  lemma StepStays(s: Run, src: Tree, p: Path)
    requires IsSkill(src, p) && !Places(Classify(s.existing, FmAt(src, p)))
    ensures Step(s, src, p).tree == s.tree && Step(s, src, p).existing == s.existing
  {
  }

  /** The name a placed skill gets. */
  ghost function TargetOf(existing: map<string, Entry>, fm: Fields): string {
    match Classify(existing, fm)
    case Copied(target) => target
    case _ => Name(fm)
  }

  ghost function DestOf(existing: map<string, Entry>, fm: Fields): Path {
    if Classify(existing, fm).Updated? then existing[Name(fm)].path
    else [CategoryOf(fm), TargetOf(existing, fm)]
  }

  lemma ClassifyGood(existing: map<string, Entry>, fm: Fields)
    requires Places(Classify(existing, fm))
    ensures IsAuto(fm) && Good(Name(fm)) && Good(CategoryOf(fm)) && Good(TargetOf(existing, fm))
    ensures TargetOf(existing, fm) in {Name(fm), Fresh(existing.Keys, CopyBase(fm))}
    ensures TargetOf(existing, fm) in existing ==> Classify(existing, fm).Updated?
  {
  }

  lemma TargetPlace(k: Folders, existing: map<string, Entry>, fm: Fields)
    requires Places(Classify(existing, fm)) && WellFormed(k) && Indexed(k, existing) && forall p | p in k :: Visible(p)
    ensures MayPlace(existing, TargetOf(existing, fm), DestOf(existing, fm))
  {
    ClassifyGood(existing, fm);
    PairVisible(CategoryOf(fm), TargetOf(existing, fm));
  }

  lemma StepIsPlace(s: Run, src: Tree, p: Path) returns (listed: Run)
    requires IsSkill(src, p) && Places(Classify(s.existing, FmAt(src, p)))
    ensures listed.tree == s.tree && listed.existing == s.existing
    ensures Step(s, src, p) == Place(listed, src, p, TargetOf(s.existing, FmAt(src, p)), DestOf(s.existing, FmAt(src, p)))
  {
    var fm, name := FmAt(src, p), NameAt(src, p);
    listed := match Classify(s.existing, fm)
      case Updated => s.(updated := s.updated + [name])
      case Copied(t) => s.(renamed := s.renamed + [(name, t)])
      case _ => s;
    StepPlaces(s, src, p, listed, TargetOf(s.existing, fm), DestOf(s.existing, fm));
  }

  /** A folder that is placed holds one skill and reads as the name it is placed under; of a folder that is
      skipped or refused nothing is asked. */
  ghost predicate StepOk(existing: map<string, Entry>, src: Tree, p: Path) {
    IsSkill(src, p) &&
    (Places(Classify(existing, FmAt(src, p))) ==>
      Alone(src, p) && ReadsAs(src, p, TargetOf(existing, FmAt(src, p))))
  }

  /** A merge step keeps the catalog well-formed and its index exact if and only if it places nothing, or a folder
      that holds one skill and reads as the name it is placed under. */
  lemma StepFaithful(s: Run, src: Tree, p: Path)
    requires Faithful(s) && IsSkill(src, p)
    ensures Faithful(Step(s, src, p)) <==> StepOk(s.existing, src, p)
  {
    var fm := FmAt(src, p);
    if Places(Classify(s.existing, fm)) {
      var listed := StepIsPlace(s, src, p);
      SkillsVisible(s.tree);
      TargetPlace(Skills(s.tree), s.existing, fm);
      ClassifyGood(s.existing, fm);
      PlaceFaithfulIff(listed, src, p, TargetOf(s.existing, fm), DestOf(s.existing, fm));
    } else {
      StepStays(s, src, p);
    }
  }

  lemma PlaceFaithfulIff(s: Run, src: Tree, p: Path, target: string, dest: Path)
    requires Faithful(s) && MayPlace(s.existing, target, dest) && target != "" && IsSkill(src, p)
    ensures Faithful(Place(s, src, p, target, dest)) <==> Alone(src, p) && ReadsAs(src, p, target)
  {
    if !Alone(src, p) {
      NestedUnfaithful(s, src, p, target, dest);
    } else if !ReadsAs(src, p, target) {
      MisreadUnfaithful(s, src, p, target, dest);
    } else {
      PlaceFaithful(s, src, p, target, dest);
    }
  }

  lemma SamePlaceReads(src: Tree, p: Path)
    requires IsSkill(src, p)
    ensures ReadsAs(src, p, NameAt(src, p))
  {
  }

  /** A copy of a text that opens with its name line reads as its new name if and only if that holds no `---`. */
  lemma CopyReadsIff(src: Tree, p: Path, target: string)
    requires IsSkill(src, p) && NameFirst(src[Doc(p)], NameAt(src, p)) && target != NameAt(src, p)
    requires Good(NameAt(src, p)) && Fenceless(NameAt(src, p)) && Good(target)
    ensures ReadsAs(src, p, target) <==> Fenceless(target)
  {
    RenameReadBack(src[Doc(p)], NameAt(src, p), target);
  }

  /** What can be seen in the source alone, whatever the catalog: one skill to a folder, and texts that open with
      their name line and can be copied under any number. */
  ghost predicate Collectable(src: Tree, p: Path) {
    IsSkill(src, p) &&
    (IsAuto(FmAt(src, p)) ==>
      Alone(src, p) && NameFirst(src[Doc(p)], NameAt(src, p)) && DashSafe(FmAt(src, p)))
  }

  lemma CollectableOk(existing: map<string, Entry>, src: Tree, p: Path)
    requires Collectable(src, p)
    ensures StepOk(existing, src, p)
  {
    var fm := FmAt(src, p);
    if Places(Classify(existing, fm)) {
      ClassifyGood(existing, fm);
      DashSafeTarget(fm, existing.Keys);
      CopyOrSame(src, p, TargetOf(existing, fm));
    }
  }

  lemma CopyOrSame(src: Tree, p: Path, target: string)
    requires IsSkill(src, p) && NameFirst(src[Doc(p)], NameAt(src, p))
    requires Good(NameAt(src, p)) && Fenceless(NameAt(src, p)) && Good(target) && Fenceless(target)
    ensures ReadsAs(src, p, target)
  {
    if target == NameAt(src, p) {
      SamePlaceReads(src, p);
    } else {
      CopyReadsIff(src, p, target);
    }
  }

  /** The folder the loop deletes holds no catalog skill but the one it replaces, the one indexed under its name. */
  lemma DeletesOnlyOwn(s: Run, src: Tree, p: Path, q: Path)
    requires Faithful(s) && IsSkill(src, p) && Places(Classify(s.existing, FmAt(src, p)))
    requires q in Skills(s.tree) && DestOf(s.existing, FmAt(src, p)) <= q
    ensures var target := TargetOf(s.existing, FmAt(src, p));
      q == DestOf(s.existing, FmAt(src, p)) && target in s.existing && q == s.existing[target].path
  {
    SkillsVisible(s.tree);
    TargetPlace(Skills(s.tree), s.existing, FmAt(src, p));
    assert |q| == 2;
  }

  lemma SkillsVisible(t: Tree)
    ensures forall p | p in Skills(t) :: Visible(p)
  {
    forall p | p in Skills(t) ensures Visible(p) {
      InSkills(t, p);
    }
  }
}
