/** The skill index of the server and its parse cache (skills-mcp/server.py, `_parse_entry` to `_resolve_skill_dir`).

What a SKILL.md says is a parameter here, so that the results hold with either frontmatter parser; `SkillEntry`
has the one for the flat parser. */
module SkillIndex {

  import opened Wrappers

  /** A skill folder, by its root and its name there. */
  datatype Path = Path(root: string, dir: string)

  datatype Reading = Text(text: string) | Unreadable(reason: string)

  datatype File = File(mtime: int, size: nat, reading: Reading)

  /** A folder that discovery found; its SKILL.md may be gone by the time it is examined. */
  datatype Slot = Slot(path: Path, file: Option<File>)

  datatype Entry = Entry(path: Path, name: string, description: Option<string>, category: Option<string>,
                         trigger: Option<string>)

  datatype Parsed = Listed(entry: Entry) | Refused(reason: string)

  type Parser = (Path, string) -> Parsed

  datatype Key = Key(path: Path, mtime: int, size: nat)

  datatype Reason = Because(reason: string) | Shadowed(holder: string)

  /** A record of the exclusion list: the folder or the name, the root, and the reason. */
  datatype Exclusion = Exclusion(skill: string, root: string, reason: Reason)

  type Cache = map<Key, Entry>

  const CACHE_MAX := 2000

  // ---- without a cache ----

  function Read(parse: Parser, path: Path, reading: Reading): Parsed {
    match reading
    case Text(text) => parse(path, text)
    case Unreadable(reason) => Refused(reason)
  }

  function Parse(parse: Parser, slot: Slot): Parsed {
    match slot.file
    case None => Refused("SKILL.md could not be stat'd")
    case Some(f) => Read(parse, slot.path, f.reading)
  }

  /** The slot offers a skill of this name. */
  predicate Offers(parse: Parser, slot: Slot, name: string) {
    Parse(parse, slot).Listed? && Parse(parse, slot).entry.name == name
  }

  /** The slot offers a skill whose name no earlier slot offers. */
  predicate Wins(parse: Parser, disk: seq<Slot>, k: nat)
    requires k < |disk|
  {
    Parse(parse, disk[k]).Listed? && forall j | 0 <= j < k :: !Offers(parse, disk[j], Parse(parse, disk[k]).entry.name)
  }

  /** The slots up to `n` that win, or that do not, in order. */
  function Positions(parse: Parser, disk: seq<Slot>, n: nat, wins: bool): (ks: seq<nat>)
    requires n <= |disk|
    ensures forall i | 0 <= i < |ks| :: ks[i] < n
  {
    if n == 0 then []
    else
      var before := Positions(parse, disk, n - 1, wins);
      if Wins(parse, disk, n - 1) == wins then before + [n - 1] else before
  }

  /** Together the two lists hold every slot once: those that win in one, the others in the other. */
  lemma {:induction false} PositionsAre(parse: Parser, disk: seq<Slot>, n: nat, wins: bool)
    requires n <= |disk|
    ensures var ks := Positions(parse, disk, n, wins);
            && (forall i | 0 <= i < |ks| :: Wins(parse, disk, ks[i]) == wins)
            && (forall k | 0 <= k < n && Wins(parse, disk, k) == wins :: k in ks)
            && (forall i, j | 0 <= i < j < |ks| :: ks[i] < ks[j])
  {
    if n > 0 {
      PositionsAre(parse, disk, n - 1, wins);
    }
  }

  /** The record says why slot `k` is not listed: what was wrong with it, or which root has the name. */
  ghost predicate Explains(parse: Parser, disk: seq<Slot>, k: nat, x: Exclusion)
    requires k < |disk|
  {
    var path := disk[k].path;
    match Parse(parse, disk[k])
    case Refused(reason) => x == Exclusion(path.dir, path.root, Because(reason))
    case Listed(entry) =>
      exists j :: 0 <= j < k && Wins(parse, disk, j) && Offers(parse, disk[j], entry.name)
                  && x == Exclusion(entry.name, path.root, Shadowed(disk[j].path.root))
  }

  /** The listing and the exclusions of the first `n` slots: every slot is in exactly one of them, in order. */
  ghost predicate Built(parse: Parser, disk: seq<Slot>, n: nat, entries: seq<Entry>, excluded: seq<Exclusion>)
    requires n <= |disk|
  {
    var kept, dropped := Positions(parse, disk, n, true), Positions(parse, disk, n, false);
    && |entries| == |kept| && |excluded| == |dropped|
    && (forall i | 0 <= i < |kept| :: Listed(entries[i]) == Parse(parse, disk[kept[i]]))
    && (forall i | 0 <= i < |dropped| :: Explains(parse, disk, dropped[i], excluded[i]))
  }

  // ---- the cache ----

  function KeyOf(slot: Slot): Key
    requires slot.file.Some?
  {
    Key(slot.path, slot.file.value.mtime, slot.file.value.size)
  }

  ghost predicate Holds(content: Key -> Reading, slot: Slot) {
    slot.file.Some? ==> slot.file.value.reading == content(KeyOf(slot))
  }

  /** Path, time and size determine what a SKILL.md holds. */
  ghost predicate Determined(content: Key -> Reading, disk: seq<Slot>) {
    forall k | 0 <= k < |disk| :: Holds(content, disk[k])
  }

  ghost predicate Agrees(parse: Parser, content: Key -> Reading, cache: Cache) {
    forall key | key in cache :: Read(parse, key.path, content(key)) == Listed(cache[key])
  }

  /** What is parsed given the cache. */
  function Answer(parse: Parser, cache: Cache, slot: Slot): Parsed {
    if slot.file.Some? && KeyOf(slot) in cache then Listed(cache[KeyOf(slot)]) else Parse(parse, slot)
  }

  /** The cache after a slot: only a skill that was parsed is added, after a clear if there are too many. */
  function Remember(parse: Parser, cache: Cache, slot: Slot): Cache {
    if slot.file.None? || KeyOf(slot) in cache || Parse(parse, slot).Refused? then cache
    else (if |cache| > CACHE_MAX then map[] else cache)[KeyOf(slot) := Parse(parse, slot).entry]
  }

  function RememberAll(parse: Parser, cache: Cache, disk: seq<Slot>): Cache {
    if disk == [] then cache
    else Remember(parse, RememberAll(parse, cache, disk[..|disk| - 1]), disk[|disk| - 1])
  }

  /** Every entry remembered is what its file says, and there are never more than one over the limit. */
  ghost predicate Sound(parse: Parser, content: Key -> Reading, cache: Cache) {
    Agrees(parse, content, cache) && |cache| <= CACHE_MAX + 1
  }

  /** Looking into a sound cache changes no answer, and remembering keeps it sound, through its clear. */
  lemma CacheKeeps(parse: Parser, content: Key -> Reading, cache: Cache, slot: Slot)
    requires Sound(parse, content, cache) && Holds(content, slot)
    ensures Answer(parse, cache, slot) == Parse(parse, slot)
    ensures Sound(parse, content, Remember(parse, cache, slot))
  {
    if slot.file.Some? && KeyOf(slot) !in cache {
      var key := KeyOf(slot);
      var kept: Cache := if |cache| > CACHE_MAX then map[] else cache;
      assert |kept| <= CACHE_MAX;
      if Parse(parse, slot).Listed? {
        assert Remember(parse, cache, slot).Keys == kept.Keys + {key};
      }
    }
  }

  lemma {:induction false} CacheKeepsAll(parse: Parser, content: Key -> Reading, cache: Cache, disk: seq<Slot>)
    requires Sound(parse, content, cache) && Determined(content, disk)
    ensures Sound(parse, content, RememberAll(parse, cache, disk))
  {
    if disk != [] {
      var n := |disk| - 1;
      assert forall k | 0 <= k < n :: disk[..n][k] == disk[k];
      CacheKeepsAll(parse, content, cache, disk[..n]);
      CacheKeeps(parse, content, RememberAll(parse, cache, disk[..n]), disk[n]);
    }
  }

  lemma AnswerAt(parse: Parser, content: Key -> Reading, cache: Cache, disk: seq<Slot>, k: nat)
    requires Sound(parse, content, cache) && Determined(content, disk) && k < |disk|
    ensures Answer(parse, RememberAll(parse, cache, disk[..k]), disk[k]) == Parse(parse, disk[k])
    ensures RememberAll(parse, cache, disk[..k + 1]) == Remember(parse, RememberAll(parse, cache, disk[..k]), disk[k])
  {
    assert disk[..k + 1][..k] == disk[..k];
    assert forall i | 0 <= i < k :: disk[..k][i] == disk[i];
    CacheKeepsAll(parse, content, cache, disk[..k]);
    CacheKeeps(parse, content, RememberAll(parse, cache, disk[..k]), disk[k]);
  }

  /** The cache of a server that has indexed these disks one after the other. */
  function AfterBuilds(parse: Parser, disks: seq<seq<Slot>>): Cache {
    if disks == [] then map[] else RememberAll(parse, AfterBuilds(parse, disks[..|disks| - 1]), disks[|disks| - 1])
  }

  /** In every cache state that builds can lead to, over disks that change as they like as long as path, time and
      size tell contents apart, every answer is that of a fresh parse. */
  lemma {:induction false} Transparent(parse: Parser, content: Key -> Reading, disks: seq<seq<Slot>>, slot: Slot)
    requires (forall i | 0 <= i < |disks| :: Determined(content, disks[i])) && Holds(content, slot)
    ensures Sound(parse, content, AfterBuilds(parse, disks)) && |AfterBuilds(parse, disks)| <= 2001
    ensures Answer(parse, AfterBuilds(parse, disks), slot) == Parse(parse, slot)
  {
    if disks != [] {
      var n := |disks| - 1;
      assert forall i | 0 <= i < n :: disks[..n][i] == disks[i];
      Transparent(parse, content, disks[..n], slot);
      CacheKeepsAll(parse, content, AfterBuilds(parse, disks[..n]), disks[n]);
    }
    CacheKeeps(parse, content, AfterBuilds(parse, disks), slot);
  }

  /** The name already taken, and by which root. */
  ghost predicate SeenIs(parse: Parser, disk: seq<Slot>, n: nat, seen: map<string, string>)
    requires n <= |disk|
  {
    && (forall k | 0 <= k < n && Parse(parse, disk[k]).Listed? :: Parse(parse, disk[k]).entry.name in seen)
    && (forall name | name in seen ::
          exists j :: 0 <= j < n && Wins(parse, disk, j) && Offers(parse, disk[j], name)
                      && seen[name] == disk[j].path.root)
  }

  lemma WinsUnseen(parse: Parser, disk: seq<Slot>, n: nat, seen: map<string, string>, name: string)
    requires n < |disk| && SeenIs(parse, disk, n, seen) && Offers(parse, disk[n], name)
    ensures Wins(parse, disk, n) <==> name !in seen
  {
  }

  lemma SeenRefused(parse: Parser, disk: seq<Slot>, n: nat, seen: map<string, string>)
    requires n < |disk| && SeenIs(parse, disk, n, seen)
    requires Parse(parse, disk[n]).Refused? || Parse(parse, disk[n]).entry.name in seen
    ensures SeenIs(parse, disk, n + 1, seen)
  {
  }

  lemma SeenListed(parse: Parser, disk: seq<Slot>, n: nat, seen: map<string, string>, name: string)
    requires n < |disk| && SeenIs(parse, disk, n, seen) && Offers(parse, disk[n], name) && name !in seen
    ensures SeenIs(parse, disk, n + 1, seen[name := disk[n].path.root])
  {
    WinsUnseen(parse, disk, n, seen, name);
    var more := seen[name := disk[n].path.root];
    forall other | other in more
      ensures exists j :: 0 <= j < n + 1 && Wins(parse, disk, j) && Offers(parse, disk[j], other)
                          && more[other] == disk[j].path.root
    {
      if other == name {
        assert Wins(parse, disk, n) && Offers(parse, disk[n], other);
      }
    }
  }

  lemma BuiltKept(parse: Parser, disk: seq<Slot>, n: nat, entries: seq<Entry>, excluded: seq<Exclusion>, entry: Entry)
    requires n < |disk| && Built(parse, disk, n, entries, excluded)
    requires Wins(parse, disk, n) && Parse(parse, disk[n]) == Listed(entry)
    ensures Built(parse, disk, n + 1, entries + [entry], excluded)
  {
  }

  lemma BuiltDropped(parse: Parser, disk: seq<Slot>, n: nat, entries: seq<Entry>, excluded: seq<Exclusion>, x: Exclusion)
    requires n < |disk| && Built(parse, disk, n, entries, excluded)
    requires !Wins(parse, disk, n) && Explains(parse, disk, n, x)
    ensures Built(parse, disk, n + 1, entries, excluded + [x])
  {
  }

  lemma ShadowExplained(parse: Parser, disk: seq<Slot>, n: nat, seen: map<string, string>, entry: Entry)
    requires n < |disk| && SeenIs(parse, disk, n, seen)
    requires Parse(parse, disk[n]) == Listed(entry) && entry.name in seen
    ensures Explains(parse, disk, n, Exclusion(entry.name, disk[n].path.root, Shadowed(seen[entry.name])))
  {
  }

  /** What `build_index` has gathered. */
  datatype Index = Index(entries: seq<Entry>, excluded: seq<Exclusion>, seen: map<string, string>)

  function Add(ix: Index, path: Path, p: Parsed): Index {
    var kept := p.Listed? && p.entry.name !in ix.seen;
    ix.(entries := if kept then ix.entries + [p.entry] else ix.entries,
        seen := if kept then ix.seen[p.entry.name := path.root] else ix.seen,
        excluded := if kept then ix.excluded else ix.excluded + [Excluded(ix.seen, path, p)])
  }

  /** The record for a slot that is not listed, given the names taken and by which root. */
  function Excluded(seen: map<string, string>, path: Path, p: Parsed): Exclusion
    requires p.Listed? ==> p.entry.name in seen
  {
    match p
    case Refused(reason) => Exclusion(path.dir, path.root, Because(reason))
    case Listed(entry) => Exclusion(entry.name, path.root, Shadowed(seen[entry.name]))
  }

  ghost predicate Progress(parse: Parser, disk: seq<Slot>, n: nat, ix: Index)
    requires n <= |disk|
  {
    Built(parse, disk, n, ix.entries, ix.excluded) && SeenIs(parse, disk, n, ix.seen)
  }

  lemma AddRefused(parse: Parser, disk: seq<Slot>, n: nat, ix: Index, reason: string)
    requires n < |disk| && Progress(parse, disk, n, ix) && Parse(parse, disk[n]) == Refused(reason)
    ensures Progress(parse, disk, n + 1, Add(ix, disk[n].path, Refused(reason)))
  {
    var x := Exclusion(disk[n].path.dir, disk[n].path.root, Because(reason));
    BuiltDropped(parse, disk, n, ix.entries, ix.excluded, x);
    SeenRefused(parse, disk, n, ix.seen);
  }

  lemma AddShadowed(parse: Parser, disk: seq<Slot>, n: nat, ix: Index, entry: Entry)
    requires n < |disk| && Progress(parse, disk, n, ix) && Parse(parse, disk[n]) == Listed(entry)
    requires entry.name in ix.seen
    ensures Progress(parse, disk, n + 1, Add(ix, disk[n].path, Listed(entry)))
  {
    var x := Exclusion(entry.name, disk[n].path.root, Shadowed(ix.seen[entry.name]));
    WinsUnseen(parse, disk, n, ix.seen, entry.name);
    ShadowExplained(parse, disk, n, ix.seen, entry);
    BuiltDropped(parse, disk, n, ix.entries, ix.excluded, x);
    SeenRefused(parse, disk, n, ix.seen);
  }

  lemma AddKept(parse: Parser, disk: seq<Slot>, n: nat, ix: Index, entry: Entry)
    requires n < |disk| && Progress(parse, disk, n, ix) && Parse(parse, disk[n]) == Listed(entry)
    requires entry.name !in ix.seen
    ensures Progress(parse, disk, n + 1, Add(ix, disk[n].path, Listed(entry)))
  {
    WinsUnseen(parse, disk, n, ix.seen, entry.name);
    BuiltKept(parse, disk, n, ix.entries, ix.excluded, entry);
    SeenListed(parse, disk, n, ix.seen, entry.name);
  }

  lemma AddKeeps(parse: Parser, disk: seq<Slot>, n: nat, ix: Index, p: Parsed)
    requires n < |disk| && Progress(parse, disk, n, ix) && p == Parse(parse, disk[n])
    ensures Progress(parse, disk, n + 1, Add(ix, disk[n].path, p))
  {
    if p.Refused? {
      AddRefused(parse, disk, n, ix, p.reason);
    } else if p.entry.name in ix.seen {
      AddShadowed(parse, disk, n, ix, p.entry);
    } else {
      AddKept(parse, disk, n, ix, p.entry);
    }
  }

  /** `build_index` without its cache, over the first `n` slots. */
  function Build(parse: Parser, disk: seq<Slot>, n: nat): Index
    requires n <= |disk|
  {
    if n == 0 then Index([], [], map[])
    else Add(Build(parse, disk, n - 1), disk[n - 1].path, Parse(parse, disk[n - 1]))
  }

  lemma NextProgress(parse: Parser, disk: seq<Slot>, n: nat, ix: Index, next: Index)
    requires n < |disk| && Progress(parse, disk, n, ix)
    requires next == Add(ix, disk[n].path, Parse(parse, disk[n]))
    ensures Progress(parse, disk, n + 1, next)
  {
    AddKeeps(parse, disk, n, ix, Parse(parse, disk[n]));
  }

  lemma NothingBuilt(parse: Parser, disk: seq<Slot>)
    ensures Progress(parse, disk, 0, Index([], [], map[]))
  {
  }

  lemma {:induction false} BuildProgress(parse: Parser, disk: seq<Slot>, n: nat, ix: Index)
    requires n <= |disk| && ix == Build(parse, disk, n)
    ensures Progress(parse, disk, n, ix)
  {
    if n == 0 {
      NothingBuilt(parse, disk);
    } else {
      var before := Build(parse, disk, n - 1);
      BuildProgress(parse, disk, n - 1, before);
      NextProgress(parse, disk, n - 1, before, ix);
    }
  }

  class Server {
    const parse: Parser
    var cache: Cache

    constructor (parse: Parser)
      ensures this.parse == parse && cache == map[]
    {
      this.parse := parse;
      cache := map[];
    }

    method ParseEntry(slot: Slot) returns (p: Parsed)
      modifies this
      ensures p == Answer(parse, old(cache), slot)
      ensures cache == Remember(parse, old(cache), slot)
    {
      if slot.file.None? {
        return Refused("SKILL.md could not be stat'd");
      }
      var key := KeyOf(slot);
      if key in cache {
        return Listed(cache[key]);
      }
      var reading := slot.file.value.reading;
      if reading.Unreadable? {
        return Refused(reading.reason);
      }
      p := parse(slot.path, reading.text);
      if p.Listed? {
        if |cache| > CACHE_MAX {
          cache := map[];
        }
        cache := cache[key := p.entry];
      }
    }

    /** The rest of the loop body of `build_index`. */
    static method Gather(path: Path, p: Parsed, entries: seq<Entry>, excluded: seq<Exclusion>, seen: map<string, string>)
      returns (entries': seq<Entry>, excluded': seq<Exclusion>, seen': map<string, string>)
      ensures Index(entries', excluded', seen') == Add(Index(entries, excluded, seen), path, p)
    {
      entries', excluded', seen' := entries, excluded, seen;
      match p {
        case Refused(reason) =>
          excluded' := excluded + [Exclusion(path.dir, path.root, Because(reason))];
        case Listed(entry) =>
          if entry.name in seen {
            excluded' := excluded + [Exclusion(entry.name, path.root, Shadowed(seen[entry.name]))];
          } else {
            seen' := seen[entry.name := path.root];
            entries' := entries + [entry];
          }
      }
    }

    method BuildIndex(disk: seq<Slot>, ghost content: Key -> Reading)
      returns (entries: seq<Entry>, excluded: seq<Exclusion>)
      requires Determined(content, disk) && Sound(parse, content, cache)
      modifies this
      ensures entries == Build(parse, disk, |disk|).entries && excluded == Build(parse, disk, |disk|).excluded
      ensures cache == RememberAll(parse, old(cache), disk) && Sound(parse, content, cache)
    {
      entries, excluded := [], [];
      var seen: map<string, string> := map[];
      for k := 0 to |disk|
        invariant Index(entries, excluded, seen) == Build(parse, disk, k)
        invariant cache == RememberAll(parse, old(cache), disk[..k])
      {
        var slot := disk[k];
        AnswerAt(parse, content, old(cache), disk, k);
        var p := ParseEntry(slot);
        entries, excluded, seen := Gather(slot.path, p, entries, excluded, seen);
      }
      assert disk[..|disk|] == disk;
      CacheKeepsAll(parse, content, old(cache), disk);
    }

    method ResolveSkillDir(disk: seq<Slot>, name: string, ghost content: Key -> Reading) returns (found: Option<Path>)
      requires Determined(content, disk) && Sound(parse, content, cache)
      modifies this
      ensures found == Resolve(Build(parse, disk, |disk|).entries, name)
      ensures cache == RememberAll(parse, old(cache), disk) && Sound(parse, content, cache)
    {
      var entries, _ := BuildIndex(disk, content);
      for i := 0 to |entries|
        invariant Resolve(entries, name) == Resolve(entries[i..], name)
      {
        assert entries[i..][1..] == entries[i + 1..];
        if entries[i].name == name {
          return Some(entries[i].path);
        }
      }
      return None;
    }
  }

  function Resolve(entries: seq<Entry>, name: string): Option<Path> {
    if entries == [] then None
    else if entries[0].name == name then Some(entries[0].path)
    else Resolve(entries[1..], name)
  }

  // ---- what the index says ----

  /** Entries carry the path they were parsed from. */
  ghost predicate Honest(parse: Parser) {
    forall path, text :: parse(path, text).Listed? ==> parse(path, text).entry.path == path
  }

  /** Every discovered slot is listed or excluded, exactly one of the two, in order, and every exclusion says why. */
  lemma BuildExact(parse: Parser, disk: seq<Slot>)
    ensures var ix := Build(parse, disk, |disk|); Built(parse, disk, |disk|, ix.entries, ix.excluded)
  {
    BuildProgress(parse, disk, |disk|, Build(parse, disk, |disk|));
  }

  lemma UniqueNames(parse: Parser, disk: seq<Slot>)
    ensures var es := Build(parse, disk, |disk|).entries;
            forall i, j | 0 <= i < j < |es| :: es[i].name != es[j].name
  {
    BuildExact(parse, disk);
    PositionsAre(parse, disk, |disk|, true);
    var es := Build(parse, disk, |disk|).entries;
    var kept := Positions(parse, disk, |disk|, true);
    forall i, j | 0 <= i < j < |es| ensures es[i].name != es[j].name {
      assert Wins(parse, disk, kept[j]) && kept[i] < kept[j];
      assert !Offers(parse, disk[kept[i]], es[j].name);
    }
  }

  lemma {:induction false} ResolveFinds(es: seq<Entry>, name: string)
    ensures var r := Resolve(es, name);
            && (r.Some? <==> exists i :: 0 <= i < |es| && es[i].name == name)
            && (r.Some? ==> exists i :: 0 <= i < |es| && es[i].name == name && r.value == es[i].path)
  {
    if es != [] && es[0].name != name {
      ResolveFinds(es[1..], name);
      assert forall i :: 0 < i < |es| ==> es[i] == es[1..][i - 1];
    }
  }

  ghost predicate FirstOffer(parse: Parser, disk: seq<Slot>, name: string, k: int) {
    0 <= k < |disk| && Offers(parse, disk[k], name) && forall j | 0 <= j < k :: !Offers(parse, disk[j], name)
  }

  lemma {:induction false} SomeFirst(parse: Parser, disk: seq<Slot>, name: string, k: nat) returns (first: nat)
    requires k < |disk| && Offers(parse, disk[k], name)
    ensures FirstOffer(parse, disk, name, first)
  {
    if j :| 0 <= j < k && Offers(parse, disk[j], name) {
      first := SomeFirst(parse, disk, name, j);
    } else {
      first := k;
    }
  }

  lemma EntryAt(parse: Parser, disk: seq<Slot>, i: nat) returns (k: nat)
    requires Honest(parse) && i < |Build(parse, disk, |disk|).entries|
    ensures var e := Build(parse, disk, |disk|).entries[i];
            FirstOffer(parse, disk, e.name, k) && e.path == disk[k].path
  {
    BuildExact(parse, disk);
    PositionsAre(parse, disk, |disk|, true);
    var es, kept := Build(parse, disk, |disk|).entries, Positions(parse, disk, |disk|, true);
    k := kept[i];
    assert Wins(parse, disk, k) && Listed(es[i]) == Parse(parse, disk[k]);
    HonestPath(parse, disk[k]);
  }

  lemma HonestPath(parse: Parser, slot: Slot)
    requires Honest(parse) && Parse(parse, slot).Listed?
    ensures Parse(parse, slot).entry.path == slot.path
  {
  }

  lemma FirstListed(parse: Parser, disk: seq<Slot>, name: string, k: nat) returns (i: nat)
    requires FirstOffer(parse, disk, name, k)
    ensures var es := Build(parse, disk, |disk|).entries; i < |es| && es[i].name == name
  {
    BuildExact(parse, disk);
    PositionsAre(parse, disk, |disk|, true);
    var kept := Positions(parse, disk, |disk|, true);
    assert Wins(parse, disk, k);
    i :| 0 <= i < |kept| && kept[i] == k;
  }

  /** A name resolves exactly if some slot offers it, and then to the first slot that does. */
  lemma ResolvesFirst(parse: Parser, disk: seq<Slot>, name: string)
    requires Honest(parse)
    ensures match Resolve(Build(parse, disk, |disk|).entries, name)
            case None => forall k | 0 <= k < |disk| :: !Offers(parse, disk[k], name)
            case Some(path) => exists k :: FirstOffer(parse, disk, name, k) && path == disk[k].path
  {
    var es := Build(parse, disk, |disk|).entries;
    ResolveFinds(es, name);
    match Resolve(es, name)
    case None =>
      forall k | 0 <= k < |disk| ensures !Offers(parse, disk[k], name) {
        if Offers(parse, disk[k], name) {
          var first := SomeFirst(parse, disk, name, k);
          var i := FirstListed(parse, disk, name, first);
          assert false;
        }
      }
    case Some(path) =>
      var i :| 0 <= i < |es| && es[i].name == name && path == es[i].path;
      var k := EntryAt(parse, disk, i);
  }

  // ---- roots ----

  /** `_iter_skill_dirs`: the folders of every root, in order of precedence. */
  function Discovered(roots: seq<string>, found: map<string, seq<(string, Option<File>)>>): seq<Slot> {
    if roots == [] then []
    else SlotsOf(roots[0], if roots[0] in found then found[roots[0]] else []) + Discovered(roots[1..], found)
  }

  function SlotsOf(root: string, folders: seq<(string, Option<File>)>): (slots: seq<Slot>)
    ensures |slots| == |folders|
    ensures forall i | 0 <= i < |slots| :: slots[i] == Slot(Path(root, folders[i].0), folders[i].1)
  {
    seq(|folders|, i requires 0 <= i < |folders| => Slot(Path(root, folders[i].0), folders[i].1))
  }

  /** `_split_roots` keeps one of each. */
  ghost predicate Distinct(roots: seq<string>) {
    forall i, j | 0 <= i < j < |roots| :: roots[i] != roots[j]
  }

  /** The place of a root in the order of precedence. */
  function Rank(roots: seq<string>, root: string): nat {
    if roots == [] || roots[0] == root then 0 else 1 + Rank(roots[1..], root)
  }

  lemma {:induction false} DiscoveredIn(roots: seq<string>, found: map<string, seq<(string, Option<File>)>>, k: nat)
    requires k < |Discovered(roots, found)|
    ensures Discovered(roots, found)[k].path.root in roots
  {
    if roots != [] {
      var here := SlotsOf(roots[0], if roots[0] in found then found[roots[0]] else []);
      if k >= |here| {
        DiscoveredIn(roots[1..], found, k - |here|);
      }
    }
  }

  lemma RankLater(roots: seq<string>, root: string)
    requires Distinct(roots) && roots != [] && root in roots[1..]
    ensures Rank(roots, root) == 1 + Rank(roots[1..], root)
  {
    var i :| 0 <= i < |roots[1..]| && roots[1..][i] == root;
    assert roots[i + 1] == root;
  }

  lemma {:induction false} InPrecedence(roots: seq<string>, found: map<string, seq<(string, Option<File>)>>,
                                        j: nat, k: nat)
    requires Distinct(roots) && j <= k < |Discovered(roots, found)|
    ensures Rank(roots, Discovered(roots, found)[j].path.root) <= Rank(roots, Discovered(roots, found)[k].path.root)
  {
    if roots != [] {
      var here := SlotsOf(roots[0], if roots[0] in found then found[roots[0]] else []);
      var rest := Discovered(roots[1..], found);
      assert Discovered(roots, found) == here + rest;
      if j >= |here| {
        DiscoveredIn(roots[1..], found, j - |here|);
        DiscoveredIn(roots[1..], found, k - |here|);
        InPrecedence(roots[1..], found, j - |here|, k - |here|);
        RankLater(roots, rest[j - |here|].path.root);
        RankLater(roots, rest[k - |here|].path.root);
      }
    }
  }

  /** The copy a name resolves to is from the earliest root that offers the name. */
  lemma EarliestRoot(parse: Parser, roots: seq<string>, found: map<string, seq<(string, Option<File>)>>, name: string,
                     path: Path, slot: Slot)
    requires Honest(parse) && Distinct(roots)
    requires Resolve(Build(parse, Discovered(roots, found), |Discovered(roots, found)|).entries, name) == Some(path)
    requires slot in Discovered(roots, found) && Offers(parse, slot, name)
    ensures Rank(roots, path.root) <= Rank(roots, slot.path.root)
  {
    var disk := Discovered(roots, found);
    ResolvesFirst(parse, disk, name);
    var k :| FirstOffer(parse, disk, name, k) && path == disk[k].path;
    var j :| 0 <= j < |disk| && disk[j] == slot;
    assert k <= j;
    InPrecedence(roots, found, k, j);
  }

  /** The slots are the folders found below the roots. */
  lemma {:induction false} DiscoveredIff(roots: seq<string>, found: map<string, seq<(string, Option<File>)>>, slot: Slot)
    ensures slot in Discovered(roots, found) <==>
      slot.path.root in roots && slot.path.root in found && (slot.path.dir, slot.file) in found[slot.path.root]
  {
    if roots != [] {
      var root := roots[0];
      DiscoveredIff(roots[1..], found, slot);
      assert slot.path.root in roots <==> slot.path.root == root || slot.path.root in roots[1..];
      if root in found {
        SlotIff(root, found[root], slot);
      }
    }
  }

  lemma SlotIff(root: string, folders: seq<(string, Option<File>)>, slot: Slot)
    ensures slot in SlotsOf(root, folders) <==> slot.path.root == root && (slot.path.dir, slot.file) in folders
  {
    if slot.path.root == root && (slot.path.dir, slot.file) in folders {
      var i :| 0 <= i < |folders| && folders[i] == (slot.path.dir, slot.file);
      assert SlotsOf(root, folders)[i] == slot;
    }
  }

  // ---- what is remembered ----

  /** The skill of a file that is not in the cache yet, if it can be read and is one. */
  predicate NewSkill(parse: Parser, cache: Cache, slot: Slot) {
    match slot.file
    case None => false
    case Some(File(mtime, size, Unreadable(_))) => false
    case Some(File(mtime, size, Text(text))) => Key(slot.path, mtime, size) !in cache && parse(slot.path, text).Listed?
  }

  /** A skill examined for the first time is remembered, and nothing but a skill is; what was remembered before stays,
      but goes where a new skill finds more than two thousand. */
  lemma RememberIff(parse: Parser, cache: Cache, slot: Slot, key: Key)
    ensures var now := Remember(parse, cache, slot);
      var added := NewSkill(parse, cache, slot) && key == Key(slot.path, slot.file.value.mtime, slot.file.value.size);
      && (key in now <==> added || (key in cache && !(NewSkill(parse, cache, slot) && |cache| > 2000)))
      && (key in now && key in cache ==> now[key] == cache[key])
      && (added ==> parse(slot.path, slot.file.value.reading.text) == Listed(now[key]))
  {
  }
}
