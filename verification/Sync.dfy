/** The flattening of the catalog into a live skills folder (tools/sync_skills.py). */
module Sync {
  import opened Frontmatter
  import opened Trees
  import opened Collect

  const TRASH := ".auto-skill-trash"

  /** The live folder, the names the catalog provides, and the lists that are reported. */
  datatype State = State(live: Tree, names: set<string>, synced: seq<string>,
                         rejected: seq<(string, Path, string)>, archived: seq<string>)

  /** The first loop: one catalog skill replaces the live folder of its name. */
  function SyncOne(s: State, repo: Tree, p: Path): State
    requires IsSkill(repo, p)
  {
    var name := NameAt(repo, p);
    if !Good(name) then s.(rejected := s.rejected + [(name, p, BadSegment(name))])
    else s.(live := Replace(s.live, [name], repo, p), names := s.names + {name}, synced := s.synced + [name])
  }

  function SyncAll(s: State, repo: Tree, walk: seq<Path>): State
    requires forall p | p in walk :: IsSkill(repo, p)
  {
    if walk == [] then s
    else
      assert IsSkill(repo, walk[|walk| - 1]);
      SyncOne(SyncAll(s, repo, walk[..|walk| - 1]), repo, walk[|walk| - 1])
  }

  function Remove(t: Tree, d: Path): Tree {
    map q | q in t && !(d <= q) :: t[q]
  }

  /** A visible live folder with an auto-skill stamp that the catalog does not provide. */
  predicate Archivable(s: State, entry: string) {
    !Hidden(entry) && Doc([entry]) in s.live && IsAuto(FmAt(s.live, [entry])) &&
    Get(FmAt(s.live, [entry]), "name", entry) !in s.names && entry !in s.names
  }

  /** `shutil.move` into the trash, over what an earlier run left there. */
  function MoveToTrash(live: Tree, entry: string): Tree {
    Remove(Replace(live, [TRASH, entry], live, [entry]), [entry])
  }

  /** The second loop. */
  function ArchiveOne(s: State, entry: string): State {
    if Archivable(s, entry) then s.(live := MoveToTrash(s.live, entry), archived := s.archived + [entry]) else s
  }

  function ArchiveAll(s: State, entries: seq<string>): State {
    if entries == [] then s
    else ArchiveOne(ArchiveAll(s, entries[..|entries| - 1]), entries[|entries| - 1])
  }

  /** `os.listdir` of the live folder. */
  ghost predicate IsListing(live: Tree, entries: seq<string>) {
    (forall e :: e in entries <==> exists q :: q in live && |q| > 0 && q[0] == e) &&
    (forall i, j | 0 <= i < j < |entries| :: entries[i] != entries[j])
  }

  function Begin(live: Tree): State {
    State(live, {}, [], [], [])
  }

  class LiveFolder {
    var files: Tree
    var names: set<string>
    var synced: seq<string>
    var rejected: seq<(string, Path, string)>
    var archived: seq<string>

    function Now(): State
      reads this
    {
      State(files, names, synced, rejected, archived)
    }

    constructor (files: Tree)
      ensures Now() == Begin(files)
    {
      this.files := files;
      names, synced, rejected, archived := {}, [], [], [];
    }

    /** The flatten loop of `main`. */
    method Flatten(repo: Tree, walk: seq<Path>)
      requires IsWalk(repo, walk)
      modifies this
      ensures Now() == SyncAll(old(Now()), repo, walk)
    {
      for i := 0 to |walk|
        invariant Now() == SyncAll(old(Now()), repo, walk[..i])
      {
        assert walk[i] in walk;
        assert walk[..i + 1][..i] == walk[..i];
        var name := NameAt(repo, walk[i]);
        var why := BadSegment(name);
        BadSegmentIff(name);
        if why != "" {
          rejected := rejected + [(name, walk[i], why)];
          continue;
        }
        names := names + {name};
        files := Replace(files, [name], repo, walk[i]);
        synced := synced + [name];
      }
      assert walk[..|walk|] == walk;
    }

    /** The archive loop of `main`. */
    method Archive(entries: seq<string>)
      modifies this
      ensures Now() == ArchiveAll(old(Now()), entries)
    {
      for i := 0 to |entries|
        invariant Now() == ArchiveAll(old(Now()), entries[..i])
      {
        var entry := entries[i];
        assert entries[..i + 1][..i] == entries[..i];
        if Hidden(entry) || Doc([entry]) !in files {
          continue;
        }
        var fm := FmAt(files, [entry]);
        if IsAuto(fm) && Get(fm, "name", entry) !in names && entry !in names {
          files := MoveToTrash(files, entry);
          archived := archived + [entry];
        }
      }
      assert entries[..|entries|] == entries;
    }
  }

  // ---- what the flatten loop does to the live folder ----

  lemma FlattenFrame(s: State, repo: Tree, p: Path, n: string, q: Path)
    requires IsSkill(repo, p)
    requires n != NameAt(repo, p) && SameBelow(s.live, [n], repo, q)
    ensures SameBelow(SyncOne(s, repo, p).live, [n], repo, q)
  {
    var r := SyncOne(s, repo, p).live;
    forall x: Path | [n] <= x
      ensures (x in r <==> Rebase(x, [n], q) in repo) && (x in r ==> r[x] == repo[Rebase(x, [n], q)])
    {
      assert x[0] == n;
      assert x in s.live <==> Rebase(x, [n], q) in repo;
    }
  }

  lemma FlattenOwn(s: State, repo: Tree, p: Path)
    requires IsSkill(repo, p) && Good(NameAt(repo, p))
    ensures SameBelow(SyncOne(s, repo, p).live, [NameAt(repo, p)], repo, p)
  {
  }

  /** Every catalog skill with a usable name ends up in the live folder of that name, file for file. */
  lemma {:induction false} Flattened(s: State, repo: Tree, walk: seq<Path>, i: nat)
    requires (forall p | p in walk :: IsSkill(repo, p)) && DistinctNames(repo, walk)
    requires i < |walk| && Good(NameAt(repo, walk[i]))
    ensures SameBelow(SyncAll(s, repo, walk).live, [NameAt(repo, walk[i])], repo, walk[i])
  {
    var k := |walk| - 1;
    assert IsSkill(repo, walk[k]) && forall p | p in walk[..k] :: p in walk;
    var before := SyncAll(s, repo, walk[..k]);
    if i == k {
      FlattenOwn(before, repo, walk[k]);
    } else {
      Flattened(s, repo, walk[..k], i);
      FlattenFrame(before, repo, walk[k], NameAt(repo, walk[i]), walk[i]);
    }
  }

  /** A folder of the walk that provides the live name `n`. */
  ghost predicate Provides(repo: Tree, p: Path, n: string) {
    IsSkill(repo, p) && NameAt(repo, p) == n && Good(n)
  }

  lemma {:induction false} FlattenNames(s: State, repo: Tree, walk: seq<Path>, n: string)
    requires forall p | p in walk :: IsSkill(repo, p)
    ensures n in SyncAll(s, repo, walk).names <==> n in s.names || exists p :: p in walk && Provides(repo, p, n)
  {
    if walk != [] {
      var k := |walk| - 1;
      FlattenNames(s, repo, walk[..k], n);
      assert walk == walk[..k] + [walk[k]];
      assert forall p :: p in walk <==> p in walk[..k] || p == walk[k];
      assert IsSkill(repo, walk[k]);
      assert n in SyncAll(s, repo, walk).names <==> n in SyncAll(s, repo, walk[..k]).names || Provides(repo, walk[k], n);
    }
  }

  /** Outside the folders the catalog provides, nothing changes. */
  lemma {:induction false} FlattenElsewhere(s: State, repo: Tree, walk: seq<Path>, q: Path)
    requires forall p | p in walk :: IsSkill(repo, p)
    requires q == [] || q[0] !in SyncAll(s, repo, walk).names
    ensures q in SyncAll(s, repo, walk).live <==> q in s.live
    ensures q in s.live ==> SyncAll(s, repo, walk).live[q] == s.live[q]
  {
    if walk != [] {
      var k := |walk| - 1;
      assert IsSkill(repo, walk[k]) && forall p | p in walk[..k] :: p in walk;
      FlattenElsewhere(s, repo, walk[..k], q);
    }
  }

  /** A live folder that already agrees with the catalog is left as it is. */
  lemma {:induction false} FlattenAgain(s: State, repo: Tree, walk: seq<Path>)
    requires forall p | p in walk :: IsSkill(repo, p)
    requires forall p | p in walk && IsSkill(repo, p) && Good(NameAt(repo, p)) ::
               SameBelow(s.live, [NameAt(repo, p)], repo, p)
    ensures SyncAll(s, repo, walk).live == s.live && SyncAll(s, repo, walk).archived == s.archived
  {
    if walk != [] {
      var k := |walk| - 1;
      var p := walk[k];
      assert p in walk && forall q | q in walk[..k] :: q in walk;
      FlattenAgain(s, repo, walk[..k]);
      if Good(NameAt(repo, p)) {
        ReplaceSame(s.live, [NameAt(repo, p)], repo, p);
      }
    }
  }

  // ---- what the archive loop does to the live folder ----

  ghost predicate Stable(t: Tree, r: Tree, e: string) {
    forall q | |q| > 0 && q[0] == e :: (q in r <==> q in t) && (q in r ==> r[q] == t[q])
  }

  ghost predicate Gone(r: Tree, e: string) {
    forall q | q in r && |q| > 0 :: q[0] != e
  }

  lemma MoveFrame(live: Tree, entry: string, q: Path)
    requires q == [] || q[0] != TRASH
    ensures q in MoveToTrash(live, entry) <==> q in live && !([entry] <= q)
    ensures q in MoveToTrash(live, entry) ==> MoveToTrash(live, entry)[q] == live[q]
  {
  }

  lemma MoveTrash(live: Tree, entry: string)
    requires entry != TRASH
    ensures SameBelow(MoveToTrash(live, entry), [TRASH, entry], live, [entry])
  {
    var r := MoveToTrash(live, entry);
    forall q: Path | [TRASH, entry] <= q
      ensures (q in r <==> Rebase(q, [TRASH, entry], [entry]) in live)
      ensures (q in r ==> r[q] == live[Rebase(q, [TRASH, entry], [entry])])
    {
      assert q[0] == TRASH;
    }
  }

  lemma MoveOtherTrash(live: Tree, entry: string, e: string)
    requires entry != TRASH && e != entry
    ensures SameBelow(MoveToTrash(live, entry), [TRASH, e], live, [TRASH, e])
  {
    var r := MoveToTrash(live, entry);
    forall q: Path | [TRASH, e] <= q
      ensures (q in r <==> Rebase(q, [TRASH, e], [TRASH, e]) in live)
      ensures (q in r ==> r[q] == live[Rebase(q, [TRASH, e], [TRASH, e])])
    {
      assert Rebase(q, [TRASH, e], [TRASH, e]) == q;
      assert q[0] == TRASH && q[1] == e;
    }
  }

  lemma NotTrash(e: string)
    requires !Hidden(e)
    ensures e != TRASH
  {
  }

  /** A visible entry is either moved away whole, or untouched and not one to archive. */
  lemma {:induction false} ArchivedOrKept(s: State, entries: seq<string>, e: string)
    requires !Hidden(e)
    ensures ArchiveAll(s, entries).names == s.names
    ensures Gone(ArchiveAll(s, entries).live, e) ||
      (Stable(s.live, ArchiveAll(s, entries).live, e) && (e in entries ==> !Archivable(s, e)))
  {
    if entries != [] {
      var k := |entries| - 1;
      ArchivedOrKept(s, entries[..k], e);
      var before := ArchiveAll(s, entries[..k]);
      assert entries == entries[..k] + [entries[k]];
      assert e in entries <==> e in entries[..k] || e == entries[k];
      ArchiveOneEntry(s, before, entries[k], e);
    }
  }

  lemma ArchiveOneEntry(s: State, before: State, entry: string, e: string)
    requires !Hidden(e) && before.names == s.names
    requires Gone(before.live, e) || Stable(s.live, before.live, e)
    ensures Gone(before.live, e) ==> Gone(ArchiveOne(before, entry).live, e)
    ensures Stable(s.live, before.live, e) && !Gone(ArchiveOne(before, entry).live, e) ==>
      Stable(s.live, ArchiveOne(before, entry).live, e) && (e == entry ==> !Archivable(s, e))
  {
    var r := ArchiveOne(before, entry).live;
    NotTrash(e);
    forall q: Path | |q| > 0 && q[0] == e
      ensures q in r <==> q in before.live && !(e == entry && Archivable(before, entry))
      ensures q in r ==> r[q] == before.live[q]
    {
      MoveFrame(before.live, entry, q);
    }
    if Stable(s.live, before.live, e) {
      assert Doc([e])[0] == e;
      assert Archivable(s, e) <==> Archivable(before, e);
    }
  }

  lemma {:induction false} NothingToArchive(s: State, entries: seq<string>)
    requires forall e | e in entries :: !Archivable(s, e)
    ensures ArchiveAll(s, entries) == s
  {
    if entries != [] {
      NothingToArchive(s, entries[..|entries| - 1]);
    }
  }

  /** Nothing is deleted: an archived folder is in the trash, file for file. */
  lemma {:induction false} TrashKeeps(s: State, entries: seq<string>, e: string)
    requires forall i, j | 0 <= i < j < |entries| :: entries[i] != entries[j]
    requires e in entries && Archivable(s, e)
    ensures SameBelow(ArchiveAll(s, entries).live, [TRASH, e], s.live, [e])
  {
    var k := |entries| - 1;
    var last, earlier := entries[k], entries[..k];
    var before := ArchiveAll(s, earlier);
    if e == last {
      UntouchedUntil(s, earlier, e);
      assert Doc([e])[0] == e;
      assert Archivable(before, e);
      NotTrash(e);
      MoveTrash(before.live, e);
      SameThrough(ArchiveOne(before, e).live, [TRASH, e], before.live, s.live, e);
    } else {
      TrashKeeps(s, earlier, e);
      if Archivable(before, last) {
        NotTrash(last);
        MoveOtherTrash(before.live, last, e);
        SameTrans(ArchiveOne(before, last).live, [TRASH, e], before.live, s.live, [e]);
      }
    }
  }

  lemma {:induction false} UntouchedUntil(s: State, entries: seq<string>, e: string)
    requires !Hidden(e) && e !in entries
    ensures Stable(s.live, ArchiveAll(s, entries).live, e) && ArchiveAll(s, entries).names == s.names
  {
    if entries != [] {
      var k := |entries| - 1;
      UntouchedUntil(s, entries[..k], e);
      var before := ArchiveAll(s, entries[..k]);
      NotTrash(e);
      forall q: Path | |q| > 0 && q[0] == e
        ensures q in ArchiveOne(before, entries[k]).live <==> q in before.live
        ensures q in before.live ==> ArchiveOne(before, entries[k]).live[q] == before.live[q]
      {
        MoveFrame(before.live, entries[k], q);
      }
    }
  }

  lemma SameThrough(r: Tree, d: Path, mid: Tree, t: Tree, e: string)
    requires SameBelow(r, d, mid, [e]) && Stable(t, mid, e)
    ensures SameBelow(r, d, t, [e])
  {
    forall q | d <= q
      ensures (q in r <==> Rebase(q, d, [e]) in t) && (q in r ==> r[q] == t[Rebase(q, d, [e])])
    {
      assert Rebase(q, d, [e])[0] == e;
    }
  }

  lemma SameTrans(r: Tree, d: Path, mid: Tree, t: Tree, p: Path)
    requires SameBelow(r, d, mid, d) && SameBelow(mid, d, t, p)
    ensures SameBelow(r, d, t, p)
  {
    forall q | d <= q
      ensures (q in r <==> Rebase(q, d, p) in t) && (q in r ==> r[q] == t[Rebase(q, d, p)])
    {
      assert Rebase(q, d, d) == q;
    }
  }
}
