/** The merge of an author's skill folders into the catalog (tools/collect_commit.py). */
module Collect {
  import opened Text
  import opened Frontmatter
  import opened Trees

  // ---- names ----

  predicate WordChar(c: char) {
    'A' <= c <= 'Z' || 'a' <= c <= 'z' || '0' <= c <= '9'
  }

  /** `_bad_segment(v)` is None: the value can be one folder name. */
  predicate Good(v: string) {
    1 <= |v| <= 64 && WordChar(v[0]) &&
    forall i | 0 <= i < |v| :: WordChar(v[i]) || v[i] == '.' || v[i] == '_' || v[i] == '-'
  }

  /** Why the value cannot be one folder name; empty if it can. */
  function BadSegment(v: string): string {
    if v == "" || v == "." || v == ".." then "empty or a dot segment"
    else if '/' in v || '\\' in v || '\0' in v then "contains a path separator (join would leave the root)"
    else if !Good(v) then "not [A-Za-z0-9._-], 1-64 chars"
    else ""
  }

  /** No usable value is taken for a dot segment or a path. */
  lemma BadSegmentIff(v: string)
    ensures BadSegment(v) == "" <==> Good(v)
  {
  }

  function Numbered(base: string, n: nat): string {
    base + "-" + Decimal(n)
  }

  /** What the probe has seen when it asks for number `n`. */
  ghost predicate AllTaken(taken: set<string>, base: string, n: nat) {
    base in taken && forall m | 2 <= m < n :: Numbered(base, m) in taken
  }

  lemma NumberedInjective(base: string, m: nat, n: nat)
    requires Numbered(base, m) == Numbered(base, n)
    ensures m == n
  {
    assert Numbered(base, m)[|base| + 1..] == Decimal(m);
    assert Numbered(base, n)[|base| + 1..] == Decimal(n);
    DecimalInjective(m, n);
  }

  lemma NumberedNotBase(base: string, n: nat)
    ensures Numbered(base, n) != base
  {
    assert |Numbered(base, n)| > |base|;
  }

  lemma {:induction false} SeenNames(taken: set<string>, base: string, n: nat) returns (seen: set<string>)
    requires n >= 2 && AllTaken(taken, base, n)
    ensures |seen| == n - 1 && seen <= taken
    ensures forall x | x in seen :: x == base || exists m :: 2 <= m < n && x == Numbered(base, m)
  {
    if n == 2 {
      seen := {base};
    } else {
      var before := SeenNames(taken, base, n - 1);
      var last := Numbered(base, n - 1);
      if last in before {
        NumberedNotBase(base, n - 1);
        var m :| 2 <= m < n - 1 && last == Numbered(base, m);
        NumberedInjective(base, m, n - 1);
        assert false;
      }
      seen := before + {last};
    }
  }

  /** The probe cannot have asked for more numbers than there are names taken. */
  lemma TakenBound(taken: set<string>, base: string, n: nat)
    requires n >= 2 && AllTaken(taken, base, n)
    ensures n <= |taken| + 1
  {
    var seen := SeenNames(taken, base, n);
    SubsetSize(seen, taken);
  }

  lemma {:induction false} SubsetSize(a: set<string>, b: set<string>)
    requires a <= b
    ensures |a| <= |b|
  {
    if a != {} {
      var x :| x in a;
      SubsetSize(a - {x}, b - {x});
    }
  }

  ghost function Probe(taken: set<string>, base: string, n: nat): (target: string)
    requires n >= 2 && AllTaken(taken, base, n)
    ensures target !in taken
    ensures exists k :: n <= k <= |taken| + 1 && target == Numbered(base, k) && AllTaken(taken, base, k)
    decreases |taken| + 1 - n
  {
    TakenBound(taken, base, n);
    if Numbered(base, n) in taken then
      TakenBound(taken, base, n + 1);
      Probe(taken, base, n + 1)
    else Numbered(base, n)
  }

  /** `base` if it is free, else the first free one of base-2, base-3, .. */
  ghost function Fresh(taken: set<string>, base: string): string {
    if base in taken then Probe(taken, base, 2) else base
  }

  /** The `while target in existing` loop; `asked` counts its tests. */
  method FreshName(taken: set<string>, base: string) returns (target: string, asked: nat)
    ensures target == Fresh(taken, base) && target !in taken
    ensures asked <= |taken| + 1
  {
    target := base;
    var n := 2;
    asked := 1;
    while target in taken
      invariant n >= 2 && asked == n - 1
      invariant target == if n == 2 then base else Numbered(base, n - 1)
      invariant forall m | 2 <= m < n - 1 :: Numbered(base, m) in taken
      invariant n > 2 ==> base in taken
      invariant n > 2 ==> AllTaken(taken, base, n - 1) && Fresh(taken, base) == Probe(taken, base, n - 1)
      invariant asked <= |taken| + 1
      decreases |taken| + 2 - n
    {
      assert AllTaken(taken, base, n);
      TakenBound(taken, base, n);
      target := Numbered(base, n);
      n := n + 1;
      asked := asked + 1;
    }
  }

  // ---- one source skill ----

  type Author = (string, string)

  datatype Entry = Entry(hash: string, path: Path, author: Author)

  function AuthorOf(fm: Fields): Author {
    (Get(fm, "created_by", ""), Get(fm, "created_at", ""))
  }

  function CategoryOf(fm: Fields): string {
    OrElse(Get(fm, "category", ""), "uncategorized")
  }

  /** What a renamed copy is called before any number is put on it. */
  function CopyBase(fm: Fields): string {
    Get(fm, "name", "") + "-" + OrElse(Get(fm, "created_by", "x"), "x")
  }

  predicate IsAuto(fm: Fields) {
    Get(fm, "installer", "") == "auto-skill"
  }

  datatype Outcome =
    | Ignored
    | Rejected
    | Skipped
    | Updated
    | Added
    | Copied(target: string)
    | CopyRejected(target: string)

  ghost function Classify(existing: map<string, Entry>, fm: Fields): (o: Outcome)
    ensures o.Updated? ==> Get(fm, "name", "") in existing
  {
    var name := Get(fm, "name", "");
    if !IsAuto(fm) then Ignored
    else if !Good(name) || !Good(CategoryOf(fm)) then Rejected
    else if name !in existing then Added
    else if existing[name].hash == Get(fm, "content_hash", "") then Skipped
    else if existing[name].author == AuthorOf(fm) then Updated
    else
      var target := Fresh(existing.Keys, CopyBase(fm));
      if Good(target) then Copied(target) else CopyRejected(target)
  }

  /** What is reported of a skill that is refused: for its own name or category, or for what its copy would be called. */
  datatype Refusal =
    | BadSkill(name: string, reason: string, category: string, dir: Path)
    | BadCopy(name: string, reason: string, target: string)

  function RefusedSkill(fm: Fields, p: Path): Refusal {
    var name, cat := Get(fm, "name", ""), CategoryOf(fm);
    BadSkill(name, OrElse(BadSegment(name), BadSegment(cat)), cat, p)
  }

  function RefusedCopy(name: string, target: string): Refusal {
    BadCopy(name, "created_by makes an unusable folder name: " + BadSegment(target), target)
  }

  /** The catalog, the index of it and the lists that are reported. */
  datatype Run = Run(tree: Tree, existing: map<string, Entry>, committed: seq<string>, updated: seq<string>,
                     skipped: seq<string>, renamed: seq<(string, string)>, rejected: seq<Refusal>)

  /** Replaces the folder, rewrites the first `name: ` of a renamed copy, and indexes the result. */
  function Place(s: Run, src: Tree, p: Path, target: string, dest: Path): Run
    requires IsSkill(src, p)
  {
    var fm := FmAt(src, p);
    var name := NameAt(src, p);
    var copied := Replace(s.tree, dest, src, p);
    var tree := if target == name then copied else copied[Doc(dest) := Renamed(src[Doc(p)], name, target)];
    s.(tree := tree,
       existing := s.existing[target := Entry(Get(fm, "content_hash", ""), dest, AuthorOf(fm))],
       committed := if target in s.updated then s.committed else s.committed + [target])
  }

  function Renamed(text: string, name: string, target: string): string {
    ReplaceFirst(text, "name: " + name, "name: " + target)
  }

  ghost function Step(s: Run, src: Tree, p: Path): Run
    requires IsSkill(src, p)
  {
    var fm := FmAt(src, p);
    var name := NameAt(src, p);
    match Classify(s.existing, fm)
    case Ignored => s
    case Rejected => s.(rejected := s.rejected + [RefusedSkill(fm, p)])
    case Skipped => s.(skipped := s.skipped + [name])
    case Updated => Place(s.(updated := s.updated + [name]), src, p, name, s.existing[name].path)
    case Added => Place(s, src, p, name, [CategoryOf(fm), name])
    case Copied(target) =>
      Place(s.(renamed := s.renamed + [(name, target)]), src, p, target, [CategoryOf(fm), target])
    case CopyRejected(target) =>
      s.(renamed := s.renamed + [(name, target)], rejected := s.rejected + [RefusedCopy(name, target)])
  }

  lemma StepPlaces(s: Run, src: Tree, p: Path, listed: Run, target: string, dest: Path)
    requires IsSkill(src, p)
    requires var name, fm := NameAt(src, p), FmAt(src, p);
      match Classify(s.existing, fm)
      case Updated => listed == s.(updated := s.updated + [name]) && target == name && dest == s.existing[name].path
      case Added => listed == s && target == name && dest == [CategoryOf(fm), name]
      case Copied(t) => listed == s.(renamed := s.renamed + [(name, t)]) && target == t && dest == [CategoryOf(fm), t]
      case _ => false
    ensures Step(s, src, p) == Place(listed, src, p, target, dest)
  {
  }

  lemma StepEnds(s: Run, src: Tree, p: Path, r: Run)
    requires IsSkill(src, p)
    requires var name, fm := NameAt(src, p), FmAt(src, p);
      match Classify(s.existing, fm)
      case Ignored => r == s
      case Rejected => r == s.(rejected := s.rejected + [RefusedSkill(fm, p)])
      case Skipped => r == s.(skipped := s.skipped + [name])
      case CopyRejected(t) =>
        r == s.(renamed := s.renamed + [(name, t)], rejected := s.rejected + [RefusedCopy(name, t)])
      case _ => false
    ensures Step(s, src, p) == r
  {
  }

  // ---- a whole run ----

  function EntryAt(t: Tree, p: Path): Entry
    requires Doc(p) in t
  {
    Entry(Get(FmAt(t, p), "content_hash", ""), p, AuthorOf(FmAt(t, p)))
  }

  /** The index of the catalog; on a repeated name the last folder wins. */
  function Index(t: Tree, walk: seq<Path>): map<string, Entry>
    requires forall p | p in walk :: IsSkill(t, p)
  {
    if walk == [] then map[]
    else
      var last := walk[|walk| - 1];
      Index(t, walk[..|walk| - 1])[NameAt(t, last) := EntryAt(t, last)]
  }

  function Start(t: Tree, walk: seq<Path>): Run
    requires forall p | p in walk :: IsSkill(t, p)
  {
    Run(t, Index(t, walk), [], [], [], [], [])
  }

  ghost function Merge(s: Run, src: Tree, walk: seq<Path>): Run
    requires forall p | p in walk :: IsSkill(src, p)
  {
    if walk == [] then s
    else Step(Merge(s, src, walk[..|walk| - 1]), src, walk[|walk| - 1])
  }

  /** The catalog folder with the index and the lists `main` updates as it merges into it. */
  class Catalog {
    var files: Tree
    var existing: map<string, Entry>
    var committed: seq<string>
    var updated: seq<string>
    var skipped: seq<string>
    var renamed: seq<(string, string)>
    var rejected: seq<Refusal>

    function State(): Run
      reads this
    {
      Run(files, existing, committed, updated, skipped, renamed, rejected)
    }

    /** Indexes the skills already in the catalog. */
    constructor (files: Tree, walk: seq<Path>)
      requires forall p | p in walk :: IsSkill(files, p)
      ensures State() == Start(files, walk)
    {
      this.files := files;
      committed, updated, skipped, renamed, rejected := [], [], [], [], [];
      existing := map[];
      new;
      for i := 0 to |walk|
        invariant State() == Start(files, walk).(existing := Index(files, walk[..i]))
      {
        existing := existing[NameAt(files, walk[i]) := EntryAt(files, walk[i])];
        assert walk[..i + 1][..i] == walk[..i];
      }
      assert walk[..|walk|] == walk;
    }

    /** The end of the loop body: replace the folder, rewrite the name, index the skill. */
    method PlaceSkill(src: Tree, p: Path, target: string, dest: Path)
      requires IsSkill(src, p)
      modifies this
      ensures State() == Place(old(State()), src, p, target, dest)
    {
      var fm := FmAt(src, p);
      files := Replace(files, dest, src, p);
      if target != fm["name"] {
        files := files[Doc(dest) := Renamed(src[Doc(p)], fm["name"], target)];
      }
      existing := existing[target := Entry(Get(fm, "content_hash", ""), dest, AuthorOf(fm))];
      if target !in updated {
        committed := committed + [target];
      }
    }

    /** The body of the merge loop for one source folder. */
    method MergeOne(src: Tree, p: Path)
      requires IsSkill(src, p)
      modifies this
      ensures State() == Step(old(State()), src, p)
    {
      var fm := FmAt(src, p);
      var name := fm["name"];
      if !IsAuto(fm) {
        StepEnds(old(State()), src, p, State());
        return;
      }
      var cat := CategoryOf(fm);
      var why := OrElse(BadSegment(name), BadSegment(cat));
      BadSegmentIff(name);
      BadSegmentIff(cat);
      if why != "" {
        rejected := rejected + [RefusedSkill(fm, p)];
        StepEnds(old(State()), src, p, State());
        return;
      }
      var target := name;
      var dest := [cat, target];
      if name in existing {
        var found := existing[name];
        if found.hash == Get(fm, "content_hash", "") {
          skipped := skipped + [name];
          StepEnds(old(State()), src, p, State());
          return;
        }
        if found.author == AuthorOf(fm) {
          dest := found.path;
          updated := updated + [name];
        } else {
          var asked;
          target, asked := FreshName(existing.Keys, CopyBase(fm));
          renamed := renamed + [(name, target)];
          dest := [cat, target];
        }
      }
      BadSegmentIff(target);
      if BadSegment(target) != "" {
        rejected := rejected + [RefusedCopy(name, target)];
        StepEnds(old(State()), src, p, State());
        return;
      }
      StepPlaces(old(State()), src, p, State(), target, dest);
      PlaceSkill(src, p, target, dest);
    }

    /** The merge loop of `main`. */
    method CollectFrom(src: Tree, walk: seq<Path>)
      requires IsWalk(src, walk)
      modifies this
      ensures State() == Merge(old(State()), src, walk)
    {
      for i := 0 to |walk|
        invariant State() == Merge(old(State()), src, walk[..i])
      {
        assert walk[i] in walk;
        MergeOne(src, walk[i]);
        assert walk[..i + 1][..i] == walk[..i];
      }
      assert walk[..|walk|] == walk;
    }
  }
}
