/** Whole collect runs: accounting, stable identities, and what a second run over the same source does. */
module CollectRuns {
  import opened Text
  import opened Frontmatter
  import opened Writer
  import opened Trees
  import opened Collect
  import opened Rename
  import opened CollectLaws

  // ---- every source skill is accounted for ----

  function AutoCount(src: Tree, walk: seq<Path>): nat
    requires forall p | p in walk :: IsSkill(src, p)
  {
    if walk == [] then 0
    else
      assert IsSkill(src, walk[|walk| - 1]);
      AutoCount(src, walk[..|walk| - 1]) + if IsAuto(FmAt(src, walk[|walk| - 1])) then 1 else 0
  }

  function Reported(s: Run): nat {
    |s.committed| + |s.updated| + |s.skipped| + |s.rejected|
  }

  lemma StepReports(s: Run, src: Tree, p: Path)
    requires IsSkill(src, p) && forall n | n in s.updated :: n in s.existing
    ensures Reported(Step(s, src, p)) == Reported(s) + if IsAuto(FmAt(src, p)) then 1 else 0
    ensures forall n | n in Step(s, src, p).updated :: n in Step(s, src, p).existing
  {
    var fm := FmAt(src, p);
    if Places(Classify(s.existing, fm)) {
      ClassifyGood(s.existing, fm);
      var listed := StepIsPlace(s, src, p);
      ListedReports(s, listed, src, p);
    } else {
      StepStays(s, src, p);
    }
  }

  lemma ListedReports(s: Run, listed: Run, src: Tree, p: Path)
    requires IsSkill(src, p) && Places(Classify(s.existing, FmAt(src, p)))
    ensures Step(s, src, p).updated ==
      if Classify(s.existing, FmAt(src, p)).Updated? then s.updated + [NameAt(src, p)] else s.updated
    ensures Step(s, src, p).committed ==
      if TargetOf(s.existing, FmAt(src, p)) in Step(s, src, p).updated then s.committed
      else s.committed + [TargetOf(s.existing, FmAt(src, p))]
    ensures Step(s, src, p).skipped == s.skipped && Step(s, src, p).rejected == s.rejected
    ensures Step(s, src, p).existing.Keys == s.existing.Keys + {TargetOf(s.existing, FmAt(src, p))}
  {
  }

  /** The auto-skill folders of any source are the committed, updated, skipped and rejected ones together. */
  lemma {:induction false} Accounting(s: Run, src: Tree, walk: seq<Path>)
    requires forall p | p in walk :: IsSkill(src, p)
    requires forall n | n in s.updated :: n in s.existing
    ensures Reported(Merge(s, src, walk)) == Reported(s) + AutoCount(src, walk)
    ensures forall n | n in Merge(s, src, walk).updated :: n in Merge(s, src, walk).existing
  {
    if walk != [] {
      var k := |walk| - 1;
      Accounting(s, src, walk[..k]);
      StepReports(Merge(s, src, walk[..k]), src, walk[k]);
    }
  }

  // ---- identities ----

  /** An indexed name keeps its place and author; only a skill of that very name changes anything else. */
  lemma StepKeepsEntry(s: Run, src: Tree, p: Path, n: string)
    requires IsSkill(src, p) && n in s.existing
    ensures n in Step(s, src, p).existing
    ensures Step(s, src, p).existing[n].path == s.existing[n].path
    ensures Step(s, src, p).existing[n].author == s.existing[n].author
    ensures n != NameAt(src, p) ==> Step(s, src, p).existing[n] == s.existing[n]
  {
    var fm := FmAt(src, p);
    if Places(Classify(s.existing, fm)) {
      ClassifyGood(s.existing, fm);
      var listed := StepIsPlace(s, src, p);
    } else {
      StepStays(s, src, p);
    }
  }

  lemma {:induction false} MergeKeepsEntry(s: Run, src: Tree, walk: seq<Path>, n: string)
    requires (forall p | p in walk :: IsSkill(src, p)) && n in s.existing
    ensures n in Merge(s, src, walk).existing
    ensures Merge(s, src, walk).existing[n].path == s.existing[n].path
    ensures Merge(s, src, walk).existing[n].author == s.existing[n].author
    ensures (forall p | p in walk :: NameAt(src, p) != n) ==> Merge(s, src, walk).existing[n] == s.existing[n]
  {
    if walk != [] {
      var k := |walk| - 1;
      MergeKeepsEntry(s, src, walk[..k], n);
      StepKeepsEntry(Merge(s, src, walk[..k]), src, walk[k], n);
    }
  }

  /** Every step of the run is one that keeps the catalog well-formed; only folders that are placed can fail it. */
  ghost predicate AllOk(s: Run, src: Tree, walk: seq<Path>)
    requires forall p | p in walk :: IsSkill(src, p)
  {
    walk != [] ==>
      var earlier := walk[..|walk| - 1];
      AllOk(s, src, earlier) && StepOk(Merge(s, src, earlier).existing, src, walk[|walk| - 1])
  }

  /** The catalog is well-formed and its index exact before, during and after the run. */
  ghost predicate AlwaysFaithful(s: Run, src: Tree, walk: seq<Path>)
    requires forall p | p in walk :: IsSkill(src, p)
  {
    Faithful(Merge(s, src, walk)) && (walk != [] ==> AlwaysFaithful(s, src, walk[..|walk| - 1]))
  }

  /** A run keeps the catalog well-formed throughout if and only if each folder it places holds one skill and reads
      as the name it is placed under. */
  lemma {:induction false} MergeFaithful(s: Run, src: Tree, walk: seq<Path>)
    requires Faithful(s) && forall p | p in walk :: IsSkill(src, p)
    ensures AlwaysFaithful(s, src, walk) <==> AllOk(s, src, walk)
  {
    if walk != [] {
      var k := |walk| - 1;
      assert IsSkill(src, walk[k]) && forall p | p in walk[..k] :: p in walk;
      MergeFaithful(s, src, walk[..k]);
      if AllOk(s, src, walk[..k]) {
        StepFaithful(Merge(s, src, walk[..k]), src, walk[k]);
      }
    }
  }

  /** After any part of a run, the folder deleted next holds no catalog skill but the one it replaces. */
  lemma RunDeletesOnlyOwn(s: Run, src: Tree, earlier: seq<Path>, r: Run, p: Path, q: Path)
    requires Faithful(s) && (forall x | x in earlier :: IsSkill(src, x)) && AllOk(s, src, earlier)
    requires r == Merge(s, src, earlier) && IsSkill(src, p) && Places(Classify(r.existing, FmAt(src, p)))
    requires q in Skills(r.tree) && DestOf(r.existing, FmAt(src, p)) <= q
    ensures var target := TargetOf(r.existing, FmAt(src, p));
      q == DestOf(r.existing, FmAt(src, p)) && target in r.existing && q == r.existing[target].path
  {
    MergeFaithful(s, src, earlier);
    DeletesOnlyOwn(r, src, p, q);
  }

  /** A source of folders that hold one skill each, open with their name line and can be copied under any number,
      as the writer's can, is fit for any catalog. */
  lemma {:induction false} CollectableAllOk(s: Run, src: Tree, walk: seq<Path>)
    requires forall p | p in walk :: IsSkill(src, p) && Collectable(src, p)
    ensures AllOk(s, src, walk)
  {
    if walk != [] {
      var k := |walk| - 1;
      assert walk[k] in walk && forall p | p in walk[..k] :: p in walk;
      CollectableAllOk(s, src, walk[..k]);
      CollectableOk(Merge(s, src, walk[..k]).existing, src, walk[k]);
    }
  }

  /** A run that renames nothing needs no more than one skill to a folder. */
  lemma {:induction false} UnrenamedAllOk(s: Run, src: Tree, walk: seq<Path>)
    requires forall p | p in walk :: IsSkill(src, p) && (IsAuto(FmAt(src, p)) ==> Alone(src, p))
    requires Merge(s, src, walk).renamed == []
    ensures AllOk(s, src, walk)
  {
    if walk != [] {
      var k := |walk| - 1;
      assert walk[k] in walk && forall p | p in walk[..k] :: p in walk;
      UnrenamedStep(Merge(s, src, walk[..k]), src, walk[k]);
      UnrenamedAllOk(s, src, walk[..k]);
    }
  }

  lemma UnrenamedStep(s: Run, src: Tree, p: Path)
    requires IsSkill(src, p) && (IsAuto(FmAt(src, p)) ==> Alone(src, p)) && Step(s, src, p).renamed == []
    ensures s.renamed == [] && StepOk(s.existing, src, p)
  {
    var fm := FmAt(src, p);
    if Places(Classify(s.existing, fm)) {
      ClassifyGood(s.existing, fm);
      var listed := StepIsPlace(s, src, p);
      SamePlaceReads(src, p);
    }
  }

  /** One run of the tool: the order in which it lists the catalog, the source, and the order there. */
  datatype Input = Input(catalogWalk: seq<Path>, src: Tree, walk: seq<Path>)

  ghost predicate Runnable(t: Tree, input: Input) {
    IsWalk(t, input.catalogWalk) && IsWalk(input.src, input.walk) &&
    AllOk(Start(t, input.catalogWalk), input.src, input.walk)
  }

  ghost function CollectOnce(t: Tree, input: Input): Run
    requires Runnable(t, input)
  {
    Merge(Start(t, input.catalogWalk), input.src, input.walk)
  }

  ghost predicate AllRunnable(t: Tree, inputs: seq<Input>)
    decreases |inputs|
  {
    inputs == [] || (Runnable(t, inputs[0]) && AllRunnable(CollectOnce(t, inputs[0]).tree, inputs[1..]))
  }

  ghost function CollectAll(t: Tree, inputs: seq<Input>): Tree
    requires AllRunnable(t, inputs)
    decreases |inputs|
  {
    if inputs == [] then t else CollectAll(CollectOnce(t, inputs[0]).tree, inputs[1..])
  }

  lemma OnceKeeps(t: Tree, input: Input, p: Path)
    requires WellFormed(Skills(t)) && Runnable(t, input) && p in Skills(t)
    ensures var k := Skills(CollectOnce(t, input).tree);
      WellFormed(k) && p in k && Name(k[p]) == Name(Skills(t)[p]) && AuthorOf(k[p]) == AuthorOf(Skills(t)[p])
  {
    var s := Start(t, input.catalogWalk);
    StartFaithful(t, input.catalogWalk);
    MergeFaithful(s, input.src, input.walk);
    var n := Name(Skills(t)[p]);
    MergeKeepsEntry(s, input.src, input.walk, n);
    assert s.existing[n].path == p;
  }

  /** Over any runs over any sources, a skill of the catalog stays where it is, with its name and author. */
  lemma {:induction false} IdentityStable(t: Tree, inputs: seq<Input>, p: Path)
    requires WellFormed(Skills(t)) && AllRunnable(t, inputs) && p in Skills(t)
    ensures var k := Skills(CollectAll(t, inputs));
      WellFormed(k) && p in k && Name(k[p]) == Name(Skills(t)[p]) && AuthorOf(k[p]) == AuthorOf(Skills(t)[p])
    decreases |inputs|
  {
    if inputs != [] {
      OnceKeeps(t, inputs[0], p);
      IdentityStable(CollectOnce(t, inputs[0]).tree, inputs[1..], p);
    }
  }

  // ---- when a copy breaks the index ----

  /** A copy of a text that opens with its name line keeps the catalog well-formed if and only if its new name holds
      no `---`. */
  lemma CopyFaithfulIff(s: Run, src: Tree, p: Path)
    requires Faithful(s) && IsSkill(src, p) && Classify(s.existing, FmAt(src, p)).Copied?
    requires Alone(src, p) && NameFirst(src[Doc(p)], NameAt(src, p)) && Fenceless(NameAt(src, p))
    ensures Faithful(Step(s, src, p)) <==> Fenceless(TargetOf(s.existing, FmAt(src, p)))
  {
    var fm := FmAt(src, p);
    var target := TargetOf(s.existing, fm);
    ClassifyGood(s.existing, fm);
    CopyIsNew(s.existing, fm, target);
    CopyReadsIff(src, p, target);
    StepFaithful(s, src, p);
  }

  lemma CopyIsNew(existing: map<string, Entry>, fm: Fields, target: string)
    requires Classify(existing, fm) == Copied(target)
    ensures target != Name(fm)
  {
  }

  // ---- the second run ----

  predicate Accepted(fm: Fields) {
    IsAuto(fm) && Good(Name(fm)) && Good(CategoryOf(fm))
  }

  predicate Settled(existing: map<string, Entry>, fm: Fields) {
    Name(fm) in existing && existing[Name(fm)].hash == Get(fm, "content_hash", "")
  }

  predicate Collides(existing: map<string, Entry>, fm: Fields) {
    Name(fm) in existing && existing[Name(fm)].hash != Get(fm, "content_hash", "") &&
    existing[Name(fm)].author != AuthorOf(fm)
  }

  ghost predicate AllDecided(src: Tree, walk: seq<Path>, existing: map<string, Entry>)
    requires forall p | p in walk :: IsSkill(src, p)
  {
    forall p | p in walk && IsSkill(src, p) && Accepted(FmAt(src, p)) ::
      Settled(existing, FmAt(src, p)) || Collides(existing, FmAt(src, p))
  }

  /** The names of the accepted skills whose entry in the index has their hash, in order. */
  function SettledNames(src: Tree, walk: seq<Path>, existing: map<string, Entry>): seq<string>
    requires forall p | p in walk :: IsSkill(src, p)
  {
    if walk == [] then []
    else
      assert IsSkill(src, walk[|walk| - 1]);
      var fm := FmAt(src, walk[|walk| - 1]);
      SettledNames(src, walk[..|walk| - 1], existing) +
      if Accepted(fm) && Settled(existing, fm) then [Name(fm)] else []
  }

  /** The names of the accepted skills whose entry is a different skill's, in order. */
  function CollidingNames(src: Tree, walk: seq<Path>, existing: map<string, Entry>): seq<string>
    requires forall p | p in walk :: IsSkill(src, p)
  {
    if walk == [] then []
    else
      assert IsSkill(src, walk[|walk| - 1]);
      var fm := FmAt(src, walk[|walk| - 1]);
      CollidingNames(src, walk[..|walk| - 1], existing) +
      if Accepted(fm) && Collides(existing, fm) then [Name(fm)] else []
  }

  function Firsts(pairs: seq<(string, string)>): seq<string> {
    seq(|pairs|, i requires 0 <= i < |pairs| => pairs[i].0)
  }

  /** When every entry is decided, a step skips the settled and copies the colliding ones, and nothing else. */
  lemma DecidedStep(s: Run, src: Tree, p: Path, e: map<string, Entry>)
    requires IsSkill(src, p) && forall n | n in e :: n in s.existing && s.existing[n] == e[n]
    requires Accepted(FmAt(src, p)) ==> Settled(e, FmAt(src, p)) || Collides(e, FmAt(src, p))
    ensures var r, fm := Step(s, src, p), FmAt(src, p);
      r.updated == s.updated &&
      r.skipped == s.skipped + (if Accepted(fm) && Settled(e, fm) then [Name(fm)] else []) &&
      Firsts(r.renamed) == Firsts(s.renamed) + (if Accepted(fm) && Collides(e, fm) then [Name(fm)] else []) &&
      (!(Accepted(fm) && Collides(e, fm)) ==> r.tree == s.tree && r.existing == s.existing && r.committed == s.committed)
    ensures forall n | n in e :: n in Step(s, src, p).existing && Step(s, src, p).existing[n] == e[n]
  {
    var fm := FmAt(src, p);
    var o := Classify(s.existing, fm);
    assert o.Ignored? || o.Rejected? || o.Skipped? || o.Copied? || o.CopyRejected?;
    if o.Copied? {
      ClassifyGood(s.existing, fm);
      var listed := StepIsPlace(s, src, p);
      forall n | n in e ensures n in Step(s, src, p).existing && Step(s, src, p).existing[n] == e[n] {
        assert n != o.target;
      }
    }
  }

  lemma DecidedGrows(s: Run, src: Tree, p: Path, e: map<string, Entry>)
    requires IsSkill(src, p) && (forall n | n in e :: n in s.existing && s.existing[n] == e[n])
    requires Accepted(FmAt(src, p)) ==> Settled(e, FmAt(src, p)) || Collides(e, FmAt(src, p))
    requires s.updated == []
    ensures |Step(s, src, p).existing| - |s.existing| == |Step(s, src, p).committed| - |s.committed|
  {
    var fm := FmAt(src, p);
    if Places(Classify(s.existing, fm)) {
      ClassifyGood(s.existing, fm);
      var listed := StepIsPlace(s, src, p);
      ListedReports(s, listed, src, p);
    } else {
      StepStays(s, src, p);
    }
  }

  /** The new names of the renamed skills that can be folder names, in order. */
  function UsableCopies(pairs: seq<(string, string)>): seq<string> {
    if pairs == [] then []
    else UsableCopies(pairs[..|pairs| - 1]) + if Good(pairs[|pairs| - 1].1) then [pairs[|pairs| - 1].1] else []
  }

  lemma UsablePush(pairs: seq<(string, string)>, name: string, target: string)
    ensures UsableCopies(pairs + [(name, target)]) == UsableCopies(pairs) + if Good(target) then [target] else []
  {
    assert (pairs + [(name, target)])[..|pairs|] == pairs;
  }

  /** Where every entry is decided, what a step commits is the usable copy it makes. */
  lemma DecidedCommits(s: Run, src: Tree, p: Path, e: map<string, Entry>)
    requires IsSkill(src, p) && (forall n | n in e :: n in s.existing && s.existing[n] == e[n])
    requires Accepted(FmAt(src, p)) ==> Settled(e, FmAt(src, p)) || Collides(e, FmAt(src, p))
    requires s.updated == [] && s.committed == UsableCopies(s.renamed)
    ensures Step(s, src, p).committed == UsableCopies(Step(s, src, p).renamed)
  {
    var o := Classify(s.existing, FmAt(src, p));
    assert o.Ignored? || o.Rejected? || o.Skipped? || o.Copied? || o.CopyRejected?;
    if o.Copied? || o.CopyRejected? {
      UsablePush(s.renamed, NameAt(src, p), o.target);
    }
  }

  lemma {:induction false} DecidedMerge(s: Run, src: Tree, walk: seq<Path>)
    requires (forall p | p in walk :: IsSkill(src, p)) && AllDecided(src, walk, s.existing)
    requires s.committed == s.updated == s.skipped == [] && s.renamed == []
    ensures var r := Merge(s, src, walk);
      r.updated == [] && r.skipped == SettledNames(src, walk, s.existing) &&
      Firsts(r.renamed) == CollidingNames(src, walk, s.existing) &&
      |r.existing| == |s.existing| + |r.committed| && r.committed == UsableCopies(r.renamed) &&
      (CollidingNames(src, walk, s.existing) == [] ==> r.tree == s.tree && r.committed == []) &&
      forall n | n in s.existing :: n in r.existing && r.existing[n] == s.existing[n]
  {
    if walk != [] {
      var k := |walk| - 1;
      assert forall p | p in walk[..k] :: p in walk;
      assert walk[k] in walk;
      DecidedMerge(s, src, walk[..k]);
      var before := Merge(s, src, walk[..k]);
      DecidedStep(before, src, walk[k], s.existing);
      DecidedGrows(before, src, walk[k], s.existing);
      DecidedCommits(before, src, walk[k], s.existing);
    }
  }

  /** After its step a skill is settled, unless the step took it for another author's. */
  lemma StepDecides(s: Run, src: Tree, p: Path)
    requires IsSkill(src, p) && Accepted(FmAt(src, p))
    ensures var r, o := Step(s, src, p), Classify(s.existing, FmAt(src, p));
      if o.Copied? || o.CopyRejected? then Collides(r.existing, FmAt(src, p)) else Settled(r.existing, FmAt(src, p))
    ensures Firsts(Step(s, src, p).renamed) == Firsts(s.renamed) +
      (var o := Classify(s.existing, FmAt(src, p)); if o.Copied? || o.CopyRejected? then [NameAt(src, p)] else [])
  {
    var fm := FmAt(src, p);
    var o := Classify(s.existing, fm);
    if Places(o) {
      ClassifyGood(s.existing, fm);
      var listed := StepIsPlace(s, src, p);
      if o.Copied? {
        CopyIsNew(s.existing, fm, o.target);
      }
    } else {
      StepStays(s, src, p);
    }
  }

  lemma {:induction false} SameDecisions(src: Tree, walk: seq<Path>, a: map<string, Entry>, b: map<string, Entry>)
    requires forall p | p in walk :: IsSkill(src, p)
    requires forall p | p in walk && IsSkill(src, p) && Accepted(FmAt(src, p)) ::
      NameAt(src, p) in a && NameAt(src, p) in b && a[NameAt(src, p)] == b[NameAt(src, p)]
    ensures CollidingNames(src, walk, a) == CollidingNames(src, walk, b)
  {
    if walk != [] {
      var k := |walk| - 1;
      assert walk[k] in walk;
      assert forall p | p in walk[..k] :: p in walk;
      SameDecisions(src, walk[..k], a, b);
    }
  }

  /** After a run over distinct names every source skill is settled or collides; the renamed ones collide. */
  lemma {:induction false} FirstRunDecides(s: Run, src: Tree, walk: seq<Path>)
    requires (forall p | p in walk :: IsSkill(src, p)) && DistinctNames(src, walk) && s.renamed == []
    ensures var r := Merge(s, src, walk);
      AllDecided(src, walk, r.existing) && Firsts(r.renamed) == CollidingNames(src, walk, r.existing)
  {
    if walk != [] {
      var k := |walk| - 1;
      var p, earlier := walk[k], walk[..k];
      assert p in walk && forall q | q in earlier :: q in walk;
      FirstRunDecides(s, src, earlier);
      var before := Merge(s, src, earlier);
      var after := Step(before, src, p);
      forall q | q in earlier && IsSkill(src, q) && Accepted(FmAt(src, q))
        ensures NameAt(src, q) in before.existing && NameAt(src, q) in after.existing
        ensures before.existing[NameAt(src, q)] == after.existing[NameAt(src, q)]
      {
        StepKeepsEntry(before, src, p, NameAt(src, q));
      }
      SameDecisions(src, earlier, before.existing, after.existing);
      LastDecides(before, src, p, earlier);
    }
  }

  lemma LastDecides(before: Run, src: Tree, p: Path, earlier: seq<Path>)
    requires IsSkill(src, p) && forall q | q in earlier :: IsSkill(src, q)
    requires var after := Step(before, src, p);
      (forall q | q in earlier && IsSkill(src, q) && Accepted(FmAt(src, q)) ::
        NameAt(src, q) in before.existing && NameAt(src, q) in after.existing &&
        before.existing[NameAt(src, q)] == after.existing[NameAt(src, q)]) &&
      CollidingNames(src, earlier, before.existing) == CollidingNames(src, earlier, after.existing)
    requires AllDecided(src, earlier, before.existing)
    requires Firsts(before.renamed) == CollidingNames(src, earlier, before.existing)
    ensures var after, all := Step(before, src, p), earlier + [p];
      AllDecided(src, all, after.existing) && Firsts(after.renamed) == CollidingNames(src, all, after.existing)
  {
    var all := earlier + [p];
    assert all[..|all| - 1] == earlier && all[|all| - 1] == p;
    if Accepted(FmAt(src, p)) {
      StepDecides(before, src, p);
    } else {
      NotAccepted(before, src, p);
    }
  }

  lemma NotAccepted(s: Run, src: Tree, p: Path)
    requires IsSkill(src, p) && !Accepted(FmAt(src, p))
    ensures Step(s, src, p).renamed == s.renamed
  {
  }

  /** A run and the next over an unchanged source with distinct names: the next skips what is settled, copies again
      what collides, and updates nothing; each of its copies with a usable name is one more catalog skill. */
  lemma SecondRun(t: Tree, catalogWalk: seq<Path>, src: Tree, walk: seq<Path>, catalogWalk2: seq<Path>)
    requires WellFormed(Skills(t)) && Runnable(t, Input(catalogWalk, src, walk)) && DistinctNames(src, walk)
    requires IsWalk(Merge(Start(t, catalogWalk), src, walk).tree, catalogWalk2)
    ensures var first := Merge(Start(t, catalogWalk), src, walk);
      var second := Merge(Start(first.tree, catalogWalk2), src, walk);
      second.updated == [] && second.skipped == SettledNames(src, walk, first.existing) &&
      Firsts(second.renamed) == Firsts(first.renamed) &&
      |second.existing| == |first.existing| + |second.committed| &&
      second.committed == UsableCopies(second.renamed) &&
      (first.renamed == [] ==> second.tree == first.tree && second.committed == [] && second.renamed == [])
  {
    var start := Start(t, catalogWalk);
    StartFaithful(t, catalogWalk);
    MergeFaithful(start, src, walk);
    var first := Merge(start, src, walk);
    FirstRunDecides(start, src, walk);
    StartFaithful(first.tree, catalogWalk2);
    var again := Start(first.tree, catalogWalk2);
    IndexUnique(Skills(first.tree), first.existing, again.existing);
    DecidedMerge(again, src, walk);
  }

  /** If nothing was renamed the second run skips every accepted skill. */
  lemma {:induction false} AllSettled(src: Tree, walk: seq<Path>, existing: map<string, Entry>)
    requires (forall p | p in walk :: IsSkill(src, p)) && AllDecided(src, walk, existing)
    requires CollidingNames(src, walk, existing) == []
    ensures SettledNames(src, walk, existing) == AcceptedNames(src, walk)
  {
    if walk != [] {
      var k := |walk| - 1;
      assert walk[k] in walk && forall p | p in walk[..k] :: p in walk;
      AllSettled(src, walk[..k], existing);
    }
  }

  function AcceptedNames(src: Tree, walk: seq<Path>): seq<string>
    requires forall p | p in walk :: IsSkill(src, p)
  {
    if walk == [] then []
    else
      assert IsSkill(src, walk[|walk| - 1]);
      var fm := FmAt(src, walk[|walk| - 1]);
      AcceptedNames(src, walk[..|walk| - 1]) + if Accepted(fm) then [Name(fm)] else []
  }

  /** The idempotence law: a run that renamed nothing is repeated without effect. */
  lemma Idempotent(t: Tree, catalogWalk: seq<Path>, src: Tree, walk: seq<Path>, catalogWalk2: seq<Path>)
    requires WellFormed(Skills(t)) && IsWalk(t, catalogWalk) && IsWalk(src, walk) && DistinctNames(src, walk)
    requires forall p | p in walk && IsSkill(src, p) && IsAuto(FmAt(src, p)) :: Alone(src, p)
    requires IsWalk(Merge(Start(t, catalogWalk), src, walk).tree, catalogWalk2)
    requires Merge(Start(t, catalogWalk), src, walk).renamed == []
    ensures var first := Merge(Start(t, catalogWalk), src, walk);
      var second := Merge(Start(first.tree, catalogWalk2), src, walk);
      second.tree == first.tree && second.skipped == AcceptedNames(src, walk) &&
      second.committed == second.updated == [] && second.renamed == []
  {
    UnrenamedAllOk(Start(t, catalogWalk), src, walk);
    SecondRun(t, catalogWalk, src, walk, catalogWalk2);
    FirstRunDecides(Start(t, catalogWalk), src, walk);
    AllSettled(src, walk, Merge(Start(t, catalogWalk), src, walk).existing);
  }
}
