/** Collect from a live folder and sync back into it: one round reaches a fixpoint. */
module Pipeline {
  import opened Frontmatter
  import opened Trees
  import opened Collect
  import opened CollectLaws
  import opened CollectRuns
  import Sync

  /** The live folder is a folder, and every auto-skill in it lies at its own name. */
  ghost predicate LiveOk(live: Tree) {
    [] !in live && forall p | p in Skills(live) && IsAuto(Skills(live)[p]) :: p == [Name(Skills(live)[p])]
  }

  /** The first collect keeps the catalog well-formed; only folders it places can fail this. */
  ghost predicate CollectOk(catalog: Tree, live: Tree, o: Orders)
    requires IsWalk(catalog, o.catalog) && IsWalk(live, o.live)
  {
    AllOk(Start(catalog, o.catalog), live, o.live)
  }

  /** The orders in which one round lists the folders it visits. */
  datatype Orders = Orders(catalog: seq<Path>, live: seq<Path>, merged: seq<Path>, entries: seq<string>)

  ghost function Collected(catalog: Tree, live: Tree, o: Orders): Run
    requires IsWalk(catalog, o.catalog) && IsWalk(live, o.live)
  {
    Merge(Start(catalog, o.catalog), live, o.live)
  }

  ghost function Flat(catalog: Tree, live: Tree, o: Orders): Sync.State
    requires IsWalk(catalog, o.catalog) && IsWalk(live, o.live)
    requires IsWalk(Collected(catalog, live, o).tree, o.merged)
  {
    Sync.SyncAll(Sync.Begin(live), Collected(catalog, live, o).tree, o.merged)
  }

  ghost predicate Possible(catalog: Tree, live: Tree, o: Orders) {
    IsWalk(catalog, o.catalog) && IsWalk(live, o.live) && IsWalk(Collected(catalog, live, o).tree, o.merged) &&
    Sync.IsListing(Flat(catalog, live, o).live, o.entries)
  }

  /** The live side after a round. */
  ghost function Synced(catalog: Tree, live: Tree, o: Orders): Sync.State
    requires Possible(catalog, live, o)
  {
    Sync.ArchiveAll(Flat(catalog, live, o), o.entries)
  }

  // ---- after the first round ----

  /** What one sync leaves: the provided folders equal the catalog's, and no stray auto-skill. */
  ghost predicate InStep(catalog: Tree, live: Tree, names: set<string>) {
    (forall n | n in names :: exists p :: Sync.Provides(catalog, p, n)) &&
    (forall p, n | Sync.Provides(catalog, p, n) :: n in names && SameBelow(live, [n], catalog, p)) &&
    (forall e | !Hidden(e) :: !Sync.Archivable(Sync.State(live, names, [], [], []), e))
  }

  lemma WalkDistinct(t: Tree, walk: seq<Path>)
    requires WellFormed(Skills(t)) && IsWalk(t, walk)
    ensures forall p | p in walk :: IsSkill(t, p)
    ensures DistinctNames(t, walk)
  {
    forall i, j | 0 <= i < j < |walk| ensures NameAt(t, walk[i]) != NameAt(t, walk[j]) {
      assert walk[i] in walk && walk[j] in walk;
      InSkills(t, walk[i]);
      InSkills(t, walk[j]);
    }
  }

  lemma FlatProvides(catalog: Tree, walk: seq<Path>, live: Tree, p: Path, n: string)
    requires WellFormed(Skills(catalog)) && IsWalk(catalog, walk) && Sync.Provides(catalog, p, n)
    ensures n in Sync.SyncAll(Sync.Begin(live), catalog, walk).names
    ensures SameBelow(Sync.SyncAll(Sync.Begin(live), catalog, walk).live, [n], catalog, p)
  {
    WalkDistinct(catalog, walk);
    assert p in walk;
    var i :| 0 <= i < |walk| && walk[i] == p;
    Sync.Flattened(Sync.Begin(live), catalog, walk, i);
    Sync.FlattenNames(Sync.Begin(live), catalog, walk, n);
  }

  lemma StableSame(t: Tree, r: Tree, n: string, catalog: Tree, p: Path)
    requires SameBelow(t, [n], catalog, p) && Sync.Stable(t, r, n)
    ensures SameBelow(r, [n], catalog, p)
  {
    forall q | [n] <= q
      ensures (q in r <==> Rebase(q, [n], p) in catalog) && (q in r ==> r[q] == catalog[Rebase(q, [n], p)])
    {
      assert q[0] == n;
    }
  }

  /** A provided entry is never archived. */
  lemma ProvidedKept(s: Sync.State, entries: seq<string>, n: string)
    requires Good(n) && n in s.names
    ensures Sync.Stable(s.live, Sync.ArchiveAll(s, entries).live, n)
  {
    GoodVisible(n);
    NeverArchived(s, entries, n);
  }

  lemma {:induction false} NeverArchived(s: Sync.State, entries: seq<string>, n: string)
    requires !Hidden(n) && n in s.names
    ensures Sync.Stable(s.live, Sync.ArchiveAll(s, entries).live, n)
    ensures Sync.ArchiveAll(s, entries).names == s.names
  {
    if entries != [] {
      var k := |entries| - 1;
      var before := Sync.ArchiveAll(s, entries[..k]);
      NeverArchived(s, entries[..k], n);
      Sync.NotTrash(n);
      forall q: Path | |q| > 0 && q[0] == n && Sync.Archivable(before, entries[k])
        ensures q in Sync.MoveToTrash(before.live, entries[k]) <==> q in before.live
        ensures q in before.live ==> Sync.MoveToTrash(before.live, entries[k])[q] == before.live[q]
      {
        Sync.MoveFrame(before.live, entries[k], q);
      }
    }
  }

  lemma SyncInStep(catalog: Tree, live: Tree, walk: seq<Path>, entries: seq<string>)
    requires WellFormed(Skills(catalog)) && IsWalk(catalog, walk)
    requires Sync.IsListing(Sync.SyncAll(Sync.Begin(live), catalog, walk).live, entries)
    ensures var s := Sync.SyncAll(Sync.Begin(live), catalog, walk);
      var r := Sync.ArchiveAll(s, entries);
      r.names == s.names && InStep(catalog, r.live, s.names)
  {
    var s := Sync.SyncAll(Sync.Begin(live), catalog, walk);
    var r := Sync.ArchiveAll(s, entries);
    Sync.ArchivedOrKept(s, entries, "a");
    WalkDistinct(catalog, walk);
    forall n | n in s.names ensures exists p :: Sync.Provides(catalog, p, n) {
      Sync.FlattenNames(Sync.Begin(live), catalog, walk, n);
    }
    forall p, n | Sync.Provides(catalog, p, n) ensures n in s.names && SameBelow(r.live, [n], catalog, p) {
      FlatProvides(catalog, walk, live, p, n);
      ProvidedKept(s, entries, n);
      StableSame(s.live, r.live, n, catalog, p);
    }
    forall e | !Hidden(e) ensures !Sync.Archivable(Sync.State(r.live, s.names, [], [], []), e) {
      NoStray(s, entries, e);
    }
  }

  lemma NoStray(s: Sync.State, entries: seq<string>, e: string)
    requires Sync.IsListing(s.live, entries) && !Hidden(e)
    ensures !Sync.Archivable(Sync.State(Sync.ArchiveAll(s, entries).live, s.names, [], [], []), e)
  {
    Sync.ArchivedOrKept(s, entries, e);
    assert Doc([e])[0] == e;
    if Doc([e]) in s.live {
      assert e in entries;
    }
  }

  /** A skill found below a provided folder is the catalog skill itself. */
  lemma BelowProvided(catalog: Tree, live: Tree, p: Path, c: Path, n: string)
    requires WellFormed(Skills(catalog)) && Sync.Provides(catalog, c, n) && SameBelow(live, [n], catalog, c)
    requires IsSkill(live, p) && [n] <= p
    ensures p == [n] && FmAt(live, p) == FmAt(catalog, c)
  {
    var y := Rebase(p, [n], c);
    RebaseDoc(p, [n], c);
    GoodVisible(n);
    RebaseVisible(p, [n], c);
    assert IsSkill(catalog, y);
    InSkills(catalog, y);
    InSkills(catalog, c);
    assert |y| == 2 && |c| == 2;
  }

  /** What is left elsewhere was there before the sync. */
  lemma BeforeSync(catalog: Tree, walk: seq<Path>, live: Tree, entries: seq<string>, p: Path, e: string)
    requires WellFormed(Skills(catalog)) && IsWalk(catalog, walk)
    requires var s := Sync.SyncAll(Sync.Begin(live), catalog, walk);
      Sync.IsListing(s.live, entries) && e !in s.names && IsSkill(Sync.ArchiveAll(s, entries).live, p)
    requires !Hidden(e) && Doc(p)[0] == e && [] !in live
    ensures IsSkill(live, p)
    ensures FmAt(live, p) == FmAt(Sync.ArchiveAll(Sync.SyncAll(Sync.Begin(live), catalog, walk), entries).live, p)
  {
    var s := Sync.SyncAll(Sync.Begin(live), catalog, walk);
    Sync.ArchivedOrKept(s, entries, e);
    WalkDistinct(catalog, walk);
    Sync.FlattenElsewhere(Sync.Begin(live), catalog, walk, Doc(p));
    Sync.FlattenElsewhere(Sync.Begin(live), catalog, walk, p);
    if p != [] {
      assert p[0] == Doc(p)[0];
    }
  }

  lemma RootNotProvided(catalog: Tree, live: Tree, c: Path)
    requires Sync.Provides(catalog, c, "SKILL.md") && SameBelow(live, ["SKILL.md"], catalog, c)
    ensures Doc([]) !in live
  {
    assert Doc([]) == ["SKILL.md"];
    assert Rebase(Doc([]), ["SKILL.md"], c) == c;
  }

  lemma SkillSegment(live: Tree, p: Path)
    requires IsSkill(live, p)
    ensures !Hidden(Doc(p)[0])
  {
    if p == [] {
      assert Doc(p)[0] == "SKILL.md";
    } else {
      assert Doc(p)[0] == p[0];
    }
  }

  /** After a sync every auto-skill of the live folder is a provided one, with the catalog's fields. */
  lemma Survivors(catalog: Tree, walk: seq<Path>, live: Tree, entries: seq<string>, p: Path)
    requires WellFormed(Skills(catalog)) && IsWalk(catalog, walk) && LiveOk(live)
    requires Sync.IsListing(Sync.SyncAll(Sync.Begin(live), catalog, walk).live, entries)
    requires var r := Sync.ArchiveAll(Sync.SyncAll(Sync.Begin(live), catalog, walk), entries).live;
      IsSkill(r, p) && IsAuto(FmAt(r, p))
    ensures var r := Sync.ArchiveAll(Sync.SyncAll(Sync.Begin(live), catalog, walk), entries).live;
      exists c :: Sync.Provides(catalog, c, NameAt(r, p)) && p == [NameAt(r, p)] && FmAt(r, p) == FmAt(catalog, c)
  {
    var s := Sync.SyncAll(Sync.Begin(live), catalog, walk);
    var r := Sync.ArchiveAll(s, entries).live;
    SyncInStep(catalog, live, walk, entries);
    SkillSegment(r, p);
    var e := Doc(p)[0];
    if e !in s.names {
      BeforeSync(catalog, walk, live, entries, p, e);
      InSkills(live, p);
      StrayName(r, s.names, p, e);
    } else {
      var c :| Sync.Provides(catalog, c, e);
      if p == [] {
        RootNotProvided(catalog, r, c);
      } else {
        BelowProvided(catalog, r, p, c, e);
      }
    }
  }

  lemma StrayName(live: Tree, names: set<string>, p: Path, e: string)
    requires IsSkill(live, p) && IsAuto(FmAt(live, p)) && p == [NameAt(live, p)] && Doc(p)[0] == e && !Hidden(e)
    requires !Sync.Archivable(Sync.State(live, names, [], [], []), e)
    ensures e in names
  {
    assert p == [e];
  }

  // ---- the second round ----

  lemma {:induction false} NoCollisions(src: Tree, walk: seq<Path>, existing: map<string, Entry>)
    requires forall p | p in walk :: IsSkill(src, p)
    requires forall p | p in walk && IsSkill(src, p) && Accepted(FmAt(src, p)) :: Settled(existing, FmAt(src, p))
    ensures CollidingNames(src, walk, existing) == [] && SettledNames(src, walk, existing) == AcceptedNames(src, walk)
  {
    if walk != [] {
      var k := |walk| - 1;
      assert walk[k] in walk && forall p | p in walk[..k] :: p in walk;
      NoCollisions(src, walk[..k], existing);
    }
  }

  lemma FirstRound(catalog: Tree, live: Tree, o: Orders)
    requires WellFormed(Skills(catalog)) && IsWalk(catalog, o.catalog) && IsWalk(live, o.live)
    requires CollectOk(catalog, live, o)
    ensures Faithful(Collected(catalog, live, o))
  {
    StartFaithful(catalog, o.catalog);
    MergeFaithful(Start(catalog, o.catalog), live, o.live);
  }

  /** A live folder of the writer's skills, one to a folder and free of names with a `---`, is fit for any catalog. */
  lemma CollectableRound(catalog: Tree, live: Tree, o: Orders)
    requires IsWalk(catalog, o.catalog) && IsWalk(live, o.live)
    requires forall p | p in Skills(live) :: Collectable(live, p)
    ensures CollectOk(catalog, live, o)
  {
    forall p | p in o.live ensures IsSkill(live, p) && Collectable(live, p) {
      InSkills(live, p);
    }
    CollectableAllOk(Start(catalog, o.catalog), live, o.live);
  }

  lemma SettledAgain(catalog: Tree, existing: map<string, Entry>, fm: Fields, c: Path)
    requires WellFormed(Skills(catalog)) && Indexed(Skills(catalog), existing)
    requires Sync.Provides(catalog, c, Name(fm)) && FmAt(catalog, c) == fm
    ensures Settled(existing, fm)
  {
    InSkills(catalog, c);
  }

  /** Collecting again from the synced folder changes nothing and skips every acceptable skill. */
  lemma CollectAgain(catalog: Tree, walk: seq<Path>, live: Tree, entries: seq<string>,
                     catalogWalk: seq<Path>, liveWalk: seq<Path>)
    requires WellFormed(Skills(catalog)) && IsWalk(catalog, walk) && LiveOk(live)
    requires Sync.IsListing(Sync.SyncAll(Sync.Begin(live), catalog, walk).live, entries)
    requires IsWalk(catalog, catalogWalk)
    requires IsWalk(Sync.ArchiveAll(Sync.SyncAll(Sync.Begin(live), catalog, walk), entries).live, liveWalk)
    ensures var r := Sync.ArchiveAll(Sync.SyncAll(Sync.Begin(live), catalog, walk), entries).live;
      var again := Merge(Start(catalog, catalogWalk), r, liveWalk);
      again.tree == catalog && again.skipped == AcceptedNames(r, liveWalk) &&
      again.committed == again.updated == [] && again.renamed == []
  {
    var r := Sync.ArchiveAll(Sync.SyncAll(Sync.Begin(live), catalog, walk), entries).live;
    var start := Start(catalog, catalogWalk);
    StartFaithful(catalog, catalogWalk);
    forall p | p in liveWalk && IsSkill(r, p) && Accepted(FmAt(r, p)) ensures Settled(start.existing, FmAt(r, p)) {
      Survivors(catalog, walk, live, entries, p);
      var c :| Sync.Provides(catalog, c, NameAt(r, p)) && p == [NameAt(r, p)] && FmAt(r, p) == FmAt(catalog, c);
      SettledAgain(catalog, start.existing, FmAt(r, p), c);
    }
    NoCollisions(r, liveWalk, start.existing);
    DecidedMerge(start, r, liveWalk);
  }

  /** Syncing again from the same catalog changes nothing and archives nothing. */
  lemma SyncAgain(catalog: Tree, live: Tree, names: set<string>, walk: seq<Path>, entries: seq<string>)
    requires IsWalk(catalog, walk) && InStep(catalog, live, names)
    ensures var s := Sync.SyncAll(Sync.Begin(live), catalog, walk);
      s.live == live && Sync.ArchiveAll(s, entries) == s && s.archived == [] && s.names == names
  {
    assert forall p | p in walk :: IsSkill(catalog, p);
    forall p | p in walk && IsSkill(catalog, p) && Good(NameAt(catalog, p))
      ensures SameBelow(live, [NameAt(catalog, p)], catalog, p)
    {
      assert Sync.Provides(catalog, p, NameAt(catalog, p));
    }
    Sync.FlattenAgain(Sync.Begin(live), catalog, walk);
    var s := Sync.SyncAll(Sync.Begin(live), catalog, walk);
    forall n ensures n in s.names <==> n in names {
      Sync.FlattenNames(Sync.Begin(live), catalog, walk, n);
      if n in names {
        var p :| Sync.Provides(catalog, p, n);
        assert p in walk;
      }
    }
    forall e | e in entries ensures !Sync.Archivable(s, e) {
      assert !Hidden(e) ==> !Sync.Archivable(Sync.State(live, names, [], [], []), e);
    }
    Sync.NothingToArchive(s, entries);
  }

  /** One round of collect-from-live and sync-to-live reaches a fixpoint: whatever the first round renamed,
      the second renames, updates, commits and archives nothing and leaves both trees as they are. */
  lemma RoundConverges(catalog: Tree, live: Tree, o: Orders, o2: Orders)
    requires WellFormed(Skills(catalog)) && LiveOk(live) && Possible(catalog, live, o) && CollectOk(catalog, live, o)
    requires Possible(Collected(catalog, live, o).tree, Synced(catalog, live, o).live, o2)
    ensures var c1, l1 := Collected(catalog, live, o).tree, Synced(catalog, live, o).live;
      var again := Collected(c1, l1, o2);
      again.tree == c1 && again.committed == again.updated == [] && again.renamed == [] &&
      again.skipped == AcceptedNames(l1, o2.live) &&
      Synced(c1, l1, o2).live == l1 && Synced(c1, l1, o2).archived == []
  {
    var c1, l1 := Collected(catalog, live, o).tree, Synced(catalog, live, o).live;
    FirstRound(catalog, live, o);
    SyncInStep(c1, live, o.merged, o.entries);
    CollectAgain(c1, o.merged, live, o.entries, o2.catalog, o2.live);
    SyncAgain(c1, l1, Flat(catalog, live, o).names, o2.merged, o2.entries);
  }

  // ---- any number of rounds ----

  ghost predicate AllPossible(catalog: Tree, live: Tree, rounds: seq<Orders>)
    decreases |rounds|
  {
    rounds == [] ||
    (Possible(catalog, live, rounds[0]) &&
     AllPossible(Collected(catalog, live, rounds[0]).tree, Synced(catalog, live, rounds[0]).live, rounds[1..]))
  }

  ghost function Rounds(catalog: Tree, live: Tree, rounds: seq<Orders>): (Tree, Tree)
    requires AllPossible(catalog, live, rounds)
    decreases |rounds|
  {
    if rounds == [] then (catalog, live)
    else Rounds(Collected(catalog, live, rounds[0]).tree, Synced(catalog, live, rounds[0]).live, rounds[1..])
  }

  lemma {:induction false} StaysPut(catalog: Tree, live: Tree, o: Orders, rounds: seq<Orders>)
    requires WellFormed(Skills(catalog)) && LiveOk(live) && Possible(catalog, live, o) && CollectOk(catalog, live, o)
    requires AllPossible(Collected(catalog, live, o).tree, Synced(catalog, live, o).live, rounds)
    ensures var c1, l1 := Collected(catalog, live, o).tree, Synced(catalog, live, o).live;
      Rounds(c1, l1, rounds) == (c1, l1)
    decreases |rounds|
  {
    if rounds != [] {
      RoundConverges(catalog, live, o, rounds[0]);
      StaysPut(catalog, live, o, rounds[1..]);
    }
  }

  /** However many rounds follow, catalog and live folder are what the first round made them. */
  lemma PipelineConverges(catalog: Tree, live: Tree, rounds: seq<Orders>)
    requires WellFormed(Skills(catalog)) && LiveOk(live) && rounds != [] && AllPossible(catalog, live, rounds)
    requires CollectOk(catalog, live, rounds[0])
    ensures Rounds(catalog, live, rounds) == (Collected(catalog, live, rounds[0]).tree, Synced(catalog, live, rounds[0]).live)
  {
    StaysPut(catalog, live, rounds[0], rounds[1..]);
  }
}
