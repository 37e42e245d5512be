/** Directory trees as maps from file path to text, and the skill folders found in them. */
module Trees {
  import opened Text
  import opened Frontmatter

  type Path = seq<string>
  type Tree = map<Path, string>

  /** The path `q`, which is below `d`, taken to the same place below `p`. */
  function Rebase(q: Path, d: Path, p: Path): Path
    requires d <= q
  {
    p + q[|d|..]
  }

  lemma RebaseBack(q: Path, d: Path, p: Path)
    requires d <= q
    ensures p <= Rebase(q, d, p) && Rebase(Rebase(q, d, p), p, d) == q
  {
  }

  /** `shutil.rmtree(d)` if `d` exists, then `shutil.copytree(p, d)` from another tree. */
  function Replace(t: Tree, d: Path, src: Tree, p: Path): (r: Tree)
    ensures forall q :: q in r <==> if d <= q then Rebase(q, d, p) in src else q in t
    ensures forall q | q in r :: r[q] == if d <= q then src[Rebase(q, d, p)] else t[q]
  {
    var kept := map q | q in t && !(d <= q) :: t[q];
    var names := set q | q in src && p <= q :: Rebase(q, p, d);
    forall q | d <= q && Rebase(q, d, p) in src ensures q in names {
      RebaseBack(q, d, p);
    }
    forall q | q in names ensures d <= q && Rebase(q, d, p) in src {
      var s :| s in src && p <= s && q == Rebase(s, p, d);
      RebaseBack(s, p, d);
    }
    kept + map q | q in names :: src[Rebase(q, d, p)]
  }

  /** The two trees hold the same files below `d` and below `p`. */
  ghost predicate SameBelow(t: Tree, d: Path, src: Tree, p: Path) {
    forall q | d <= q :: (q in t <==> Rebase(q, d, p) in src) && (q in t ==> t[q] == src[Rebase(q, d, p)])
  }

  /** Replacing a folder by an equal one changes nothing. */
  lemma ReplaceSame(t: Tree, d: Path, src: Tree, p: Path)
    requires SameBelow(t, d, src, p)
    ensures Replace(t, d, src, p) == t
  {
  }

  // ---- skill folders ----

  function Doc(p: Path): Path {
    p + ["SKILL.md"]
  }

  /** `os.walk` prunes folders whose name starts with a dot. */
  predicate Hidden(segment: string) {
    segment != "" && segment[0] == '.'
  }

  predicate Visible(p: Path) {
    forall i | 0 <= i < |p| :: !Hidden(p[i])
  }

  function Get(fm: Fields, key: string, default: string): string {
    if key in fm then fm[key] else default
  }

  function FmAt(t: Tree, p: Path): Fields
    requires Doc(p) in t
  {
    Fm(t[Doc(p)])
  }

  /** A folder `_skill_dirs` yields: visible, with a SKILL.md whose frontmatter has a name. */
  predicate IsSkill(t: Tree, p: Path) {
    Visible(p) && p !in t && Doc(p) in t && Get(FmAt(t, p), "name", "") != ""
  }

  function NameAt(t: Tree, p: Path): (name: string)
    requires IsSkill(t, p)
  {
    FmAt(t, p)["name"]
  }

  /** An order in which `_skill_dirs` may yield the skill folders of a tree. */
  ghost predicate IsWalk(t: Tree, walk: seq<Path>) {
    (forall p :: p in walk <==> IsSkill(t, p)) &&
    (forall i, j | 0 <= i < j < |walk| :: walk[i] != walk[j])
  }

  /** The folders have pairwise distinct names. */
  ghost predicate DistinctNames(t: Tree, walk: seq<Path>)
    requires forall p | p in walk :: IsSkill(t, p)
  {
    forall i, j | 0 <= i < j < |walk| :: NameAt(t, walk[i]) != NameAt(t, walk[j])
  }

  lemma RebaseDoc(x: Path, d: Path, p: Path)
    requires d <= x
    ensures d <= Doc(x) && Rebase(Doc(x), d, p) == Doc(Rebase(x, d, p))
  {
    assert Doc(x)[|d|..] == x[|d|..] + ["SKILL.md"];
  }

  lemma RebaseVisible(x: Path, d: Path, p: Path)
    requires d <= x && Visible(d) && Visible(p)
    ensures Visible(x) <==> Visible(Rebase(x, d, p))
  {
    var y := Rebase(x, d, p);
    assert forall i | |d| <= i < |x| :: x[i] == y[i - |d| + |p|];
    assert forall i | |p| <= i < |y| :: y[i] == x[i - |p| + |d|];
    assert forall i | 0 <= i < |d| :: x[i] == d[i];
    assert forall i | 0 <= i < |p| :: y[i] == p[i];
  }

  lemma DocPrefix(x: Path, d: Path)
    requires !(d <= x) && Doc(x) != d
    ensures !(d <= Doc(x))
  {
    if |d| <= |x| {
      assert Doc(x)[..|d|] == x[..|d|];
    }
  }

  /** Below the replaced folder the skills are those of the copied one; elsewhere they stay. */
  lemma ReplaceSkills(t: Tree, d: Path, src: Tree, p: Path, x: Path)
    requires Visible(d) && Visible(p) && p !in src
    ensures var r := Replace(t, d, src, p);
      if d <= x then
        (IsSkill(r, x) <==> IsSkill(src, Rebase(x, d, p))) &&
        (Doc(x) in r ==> Doc(Rebase(x, d, p)) in src && FmAt(r, x) == FmAt(src, Rebase(x, d, p)))
      else
        (IsSkill(r, x) <==> IsSkill(t, x) && Doc(x) != d) &&
        (Doc(x) in r ==> Doc(x) in t && FmAt(r, x) == FmAt(t, x))
  {
    var r := Replace(t, d, src, p);
    if d <= x {
      RebaseDoc(x, d, p);
      RebaseVisible(x, d, p);
    } else if Doc(x) == d {
      assert Rebase(d, d, p) == p;
    } else {
      DocPrefix(x, d);
    }
  }

  /** The skill folders of a tree with their frontmatter fields. */
  ghost function Skills(t: Tree): map<Path, Fields> {
    var folders := set f | f in t && |f| > 0 && IsSkill(t, f[..|f| - 1]) :: f[..|f| - 1];
    map p | p in folders && IsSkill(t, p) :: FmAt(t, p)
  }

  lemma InSkills(t: Tree, p: Path)
    ensures p in Skills(t) <==> IsSkill(t, p)
    ensures p in Skills(t) ==> Skills(t)[p] == FmAt(t, p) && Skills(t)[p]["name"] == NameAt(t, p)
  {
    if IsSkill(t, p) {
      assert Doc(p)[..|Doc(p)| - 1] == p;
      assert Doc(p) in t && |Doc(p)| > 0;
    }
  }
}
