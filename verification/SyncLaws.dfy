/** What one whole sync does to each live folder, told of the catalog and the live tree before it. */
module SyncLaws {
  import opened Frontmatter
  import opened Trees
  import opened Collect
  import opened Sync

  /** Some catalog skill has the name, and it can be a folder name. */
  ghost predicate Offered(repo: Tree, n: string) {
    exists p :: IsSkill(repo, p) && NameAt(repo, p) == n && Good(n)
  }

  /** The live folder is listed, visible and stamped by the auto-skill installer, and the catalog has neither the name
      it reads, which is the folder's if it reads none, nor the folder's. */
  ghost predicate Leaves(repo: Tree, live: Tree, e: string) {
    && (e == "" || e[0] != '.') && [e, "SKILL.md"] in live
    && var fm := Fm(live[[e, "SKILL.md"]]);
       && "installer" in fm && fm["installer"] == "auto-skill"
       && !Offered(repo, if "name" in fm then fm["name"] else e)
  }

  ghost predicate Same(t: Tree, r: Tree, e: string) {
    forall q: Path | [e] <= q :: (q in r <==> q in t) && (q in r ==> r[q] == t[q])
  }

  lemma NamesOffered(repo: Tree, walk: seq<Path>, live: Tree, n: string)
    requires IsWalk(repo, walk)
    ensures n in SyncAll(Begin(live), repo, walk).names <==> Offered(repo, n)
  {
    FlattenNames(Begin(live), repo, walk, n);
    if Offered(repo, n) {
      var p :| IsSkill(repo, p) && NameAt(repo, p) == n && Good(n);
      assert p in walk && Provides(repo, p, n);
    }
  }

  /** Flattening leaves a folder whose name the catalog does not offer as it is. */
  lemma NotFlattened(repo: Tree, walk: seq<Path>, live: Tree, e: string)
    requires IsWalk(repo, walk) && !Offered(repo, e)
    ensures Same(live, SyncAll(Begin(live), repo, walk).live, e)
  {
    NamesOffered(repo, walk, live, e);
    forall q: Path | [e] <= q
      ensures q in SyncAll(Begin(live), repo, walk).live <==> q in live
      ensures q in live ==> SyncAll(Begin(live), repo, walk).live[q] == live[q]
    {
      assert q[0] == e;
      FlattenElsewhere(Begin(live), repo, walk, q);
    }
  }

  lemma LeavesArchivable(repo: Tree, walk: seq<Path>, live: Tree, e: string)
    requires IsWalk(repo, walk) && !Offered(repo, e)
    ensures Archivable(SyncAll(Begin(live), repo, walk), e) <==> Leaves(repo, live, e)
  {
    NotFlattened(repo, walk, live, e);
    NamesOffered(repo, walk, live, e);
    assert Doc([e]) == [e, "SKILL.md"] && [e] <= Doc([e]);
    if [e, "SKILL.md"] in live {
      var fm := Fm(live[[e, "SKILL.md"]]);
      NamesOffered(repo, walk, live, if "name" in fm then fm["name"] else e);
    }
  }

  lemma MoveKeeps(live: Tree, entry: string, e: string)
    requires entry != e && e != TRASH
    ensures Same(live, MoveToTrash(live, entry), e)
  {
    forall q: Path | [e] <= q
      ensures q in MoveToTrash(live, entry) <==> q in live
      ensures q in live ==> MoveToTrash(live, entry)[q] == live[q]
    {
      assert q[0] == e;
      MoveFrame(live, entry, q);
    }
  }

  /** The archive loop takes exactly the folders that are to be archived, and leaves every other as it is. */
  lemma {:induction false} ArchiveTakes(s: State, entries: seq<string>, e: string)
    requires e != TRASH
    ensures var r := ArchiveAll(s, entries);
      r.names == s.names &&
      if e in entries && Archivable(s, e) then forall q: Path | [e] <= q :: q !in r.live else Same(s.live, r.live, e)
  {
    if entries != [] {
      var k := |entries| - 1;
      var before := ArchiveAll(s, entries[..k]);
      ArchiveTakes(s, entries[..k], e);
      assert entries == entries[..k] + [entries[k]];
      assert e in entries <==> e in entries[..k] || e == entries[k];
      TakeOne(s, before, entries[k], e, e in entries[..k] && Archivable(s, e));
    }
  }

  lemma SameArchivable(s: State, before: State, e: string)
    requires before.names == s.names && Same(s.live, before.live, e)
    ensures Archivable(before, e) <==> Archivable(s, e)
  {
    assert [e] <= Doc([e]);
  }

  lemma TakeOne(s: State, before: State, entry: string, e: string, gone: bool)
    requires e != TRASH && before.names == s.names
    requires if gone then forall q: Path | [e] <= q :: q !in before.live else Same(s.live, before.live, e)
    requires gone ==> Archivable(s, e)
    ensures var r := ArchiveOne(before, entry);
      r.names == s.names &&
      if gone || (e == entry && Archivable(s, e)) then forall q: Path | [e] <= q :: q !in r.live
      else Same(s.live, r.live, e)
  {
    if !gone {
      SameArchivable(s, before, e);
    }
    if Archivable(before, entry) && entry != e {
      MoveKeeps(before.live, entry, e);
    } else if Archivable(before, entry) {
      forall q: Path | [e] <= q ensures q !in MoveToTrash(before.live, e) {
        assert q[0] == e;
        MoveFrame(before.live, e, q);
      }
    }
  }

  lemma {:induction false} ArchivedListed(s: State, entries: seq<string>, e: string)
    requires e != TRASH && e !in s.archived
    ensures e in ArchiveAll(s, entries).archived <==> e in entries && Archivable(s, e)
  {
    if entries != [] {
      var k := |entries| - 1;
      ArchivedListed(s, entries[..k], e);
      ArchiveTakes(s, entries[..k], e);
      assert entries == entries[..k] + [entries[k]];
      assert e in entries <==> e in entries[..k] || e == entries[k];
      if !(e in entries[..k] && Archivable(s, e)) {
        SameArchivable(s, ArchiveAll(s, entries[..k]), e);
      }
    }
  }

  lemma {:induction false} FlattenArchivesNone(s: State, repo: Tree, walk: seq<Path>)
    requires forall p | p in walk :: IsSkill(repo, p)
    ensures SyncAll(s, repo, walk).archived == s.archived
  {
    if walk != [] {
      assert IsSkill(repo, walk[|walk| - 1]);
      FlattenArchivesNone(s, repo, walk[..|walk| - 1]);
    }
  }

  lemma Trashed(s: State, live: Tree, entries: seq<string>, e: string)
    requires e in entries && Archivable(s, e) && Same(live, s.live, e)
    requires forall i, j | 0 <= i < j < |entries| :: entries[i] != entries[j]
    ensures SameBelow(ArchiveAll(s, entries).live, [TRASH, e], live, [e])
  {
    TrashKeeps(s, entries, e);
    forall q: Path | |q| > 0 && q[0] == e
      ensures (q in s.live <==> q in live) && (q in s.live ==> s.live[q] == live[q])
    {
      assert [e] <= q;
    }
    SameThrough(ArchiveAll(s, entries).live, [TRASH, e], s.live, live, e);
  }

  /** A live folder whose name the catalog does not offer leaves the live folder exactly if it is listed, does not
      start with a dot, has a SKILL.md that names the auto-skill installer, and reads a name that the catalog does not
      offer; it is then in the trash, file for file, and reported. Every other one is left as it was, file for file. */
  lemma ArchivedIff(repo: Tree, walk: seq<Path>, live: Tree, entries: seq<string>, e: string)
    requires IsWalk(repo, walk) && IsListing(SyncAll(Begin(live), repo, walk).live, entries)
    requires !Offered(repo, e) && e != ".auto-skill-trash"
    ensures var r := ArchiveAll(SyncAll(Begin(live), repo, walk), entries).live;
      if Leaves(repo, live, e) then
        (forall q: Path | [e] <= q :: q !in r) && SameBelow(r, [".auto-skill-trash", e], live, [e])
      else Same(live, r, e)
    ensures e in ArchiveAll(SyncAll(Begin(live), repo, walk), entries).archived <==> Leaves(repo, live, e)
  {
    var s := SyncAll(Begin(live), repo, walk);
    NotFlattened(repo, walk, live, e);
    LeavesArchivable(repo, walk, live, e);
    ArchiveTakes(s, entries, e);
    FlattenArchivesNone(Begin(live), repo, walk);
    ArchivedListed(s, entries, e);
    if Leaves(repo, live, e) {
      assert [e] <= [e, "SKILL.md"] && [e, "SKILL.md"] in s.live;
      assert e in entries;
      Trashed(s, live, entries, e);
    }
  }

  /** A catalog skill whose name can be a folder name is in the live folder of that name after the whole sync, file for
      file, and is not archived, whoever installed it and whatever it reads as. */
  lemma ProvidedKept(repo: Tree, walk: seq<Path>, live: Tree, entries: seq<string>, p: Path)
    requires IsWalk(repo, walk) && DistinctNames(repo, walk) && IsSkill(repo, p) && Good(NameAt(repo, p))
    ensures var r := ArchiveAll(SyncAll(Begin(live), repo, walk), entries);
      SameBelow(r.live, [NameAt(repo, p)], repo, p) && NameAt(repo, p) !in r.archived
  {
    var s, e := SyncAll(Begin(live), repo, walk), NameAt(repo, p);
    assert p in walk;
    var i :| 0 <= i < |walk| && walk[i] == p;
    Flattened(Begin(live), repo, walk, i);
    NamesOffered(repo, walk, live, e);
    assert Offered(repo, e);
    ArchiveTakes(s, entries, e);
    FlattenArchivesNone(Begin(live), repo, walk);
    ArchivedListed(s, entries, e);
    KeptBelow(ArchiveAll(s, entries).live, s.live, e, repo, p);
  }

  lemma KeptBelow(r: Tree, live: Tree, e: string, repo: Tree, p: Path)
    requires Same(live, r, e) && SameBelow(live, [e], repo, p)
    ensures SameBelow(r, [e], repo, p)
  {
  }

  ghost predicate Told(rejected: seq<(string, Path, string)>, n: string, p: Path) {
    exists why :: (n, p, why) in rejected
  }

  /** A folder of the catalog is reported as refused, with its name, exactly if that cannot be a folder name, and a name
      is reported as synced exactly if it can and a folder has it. */
  lemma {:induction false} SyncReports(s: State, repo: Tree, walk: seq<Path>, n: string, p: Path)
    requires forall q | q in walk :: IsSkill(repo, q)
    ensures var r := SyncAll(s, repo, walk);
      && (Told(r.rejected, n, p) <==> Told(s.rejected, n, p) || (p in walk && NameAt(repo, p) == n && !Good(n)))
      && (n in r.synced <==> n in s.synced || exists q :: q in walk && NameAt(repo, q) == n && Good(n))
  {
    if walk != [] {
      var k := |walk| - 1;
      assert IsSkill(repo, walk[k]) && walk == walk[..k] + [walk[k]];
      assert forall q :: q in walk <==> q in walk[..k] || q == walk[k];
      SyncReports(s, repo, walk[..k], n, p);
      OneReports(SyncAll(s, repo, walk[..k]), repo, walk[k], n, p);
    }
  }

  lemma OneReports(s: State, repo: Tree, q: Path, n: string, p: Path)
    requires IsSkill(repo, q)
    ensures var r := SyncOne(s, repo, q);
      && (Told(r.rejected, n, p) <==> Told(s.rejected, n, p) || (p == q && NameAt(repo, q) == n && !Good(n)))
      && (n in r.synced <==> n in s.synced || (NameAt(repo, q) == n && Good(n)))
  {
    var name, why := NameAt(repo, q), BadSegment(NameAt(repo, q));
    if !Good(name) {
      assert (name, q, why) in SyncOne(s, repo, q).rejected;
      if was :| (n, p, was) in s.rejected {
        assert (n, p, was) in SyncOne(s, repo, q).rejected;
      }
    }
  }
}
