/** What the index makes of one SKILL.md, with the flat frontmatter reader (skills-mcp/server.py, `_parse_entry`). */
module SkillEntry {
  import opened Text
  import opened Frontmatter
  import opened Writer
  import opened SkillIndex
  import opened Wrappers

  function LowerChar(c: char): char {
    if 'A' <= c <= 'Z' then (c as int + 32) as char else c
  }

  function Lower(s: string): string {
    seq(|s|, i requires 0 <= i < |s| => LowerChar(s[i]))
  }

  function Platform(declared: string): string {
    var p := Lower(Strip(declared));
    if p == "darwin" || p == "osx" || p == "mac" then "macos"
    else if p == "win32" then "windows"
    else p
  }

  function Optional(fm: Fields, key: string): Option<string> {
    var v := if key in fm then Strip(fm[key]) else "";
    if v == "" then None else Some(v)
  }

  function SkillName(fm: Fields, dir: string): string {
    Strip(if "name" in fm && fm["name"] != "" then fm["name"] else dir)
  }

  function EntryOf(host: string, path: Path, fm: Fields): Parsed {
    var name := SkillName(fm, path.dir);
    if name == "" then Refused("missing 'name' and no usable directory name")
    else if "platforms" in fm && Platform(fm["platforms"]) != host then
      Refused("platform gate: declares " + Platform(fm["platforms"]) + ", host is " + host)
    else
      Listed(Entry(path, name, Optional(fm, "description"), Optional(fm, "category"), Optional(fm, "trigger")))
  }

  /** A skill that declares the platform, in lower case, runs on the host. */
  predicate RunsOn(declared: string, host: string) {
    match host
    case "macos" => declared in {"macos", "darwin", "osx", "mac"}
    case "windows" => declared in {"windows", "win32"}
    case _ => declared == host && declared !in {"darwin", "osx", "mac", "win32"}
  }

  /** A skill is listed exactly if it has a name, its own or else that of its folder, and runs on the host or does not
      say where it runs; it is listed by that name, and with what it says of itself that is not blank. */
  lemma ListedIff(host: string, path: Path, fm: Fields)
    ensures var own := "name" in fm && fm["name"] != "";
      var name := Strip(if own then fm["name"] else path.dir);
      var r := EntryOf(host, path, fm);
      && (r.Listed? <==> name != "" && ("platforms" in fm ==> RunsOn(Lower(Strip(fm["platforms"])), host)))
      && (r.Listed? ==> r.entry.path == path && r.entry.name == name)
      && (r.Listed? ==> forall v :: r.entry.description == Some(v) <==>
            v != "" && "description" in fm && v == Strip(fm["description"]))
      && (r.Listed? ==> forall v :: r.entry.category == Some(v) <==>
            v != "" && "category" in fm && v == Strip(fm["category"]))
      && (r.Listed? ==> forall v :: r.entry.trigger == Some(v) <==>
            v != "" && "trigger" in fm && v == Strip(fm["trigger"]))
  {
    if "platforms" in fm {
      PlatformIff(fm["platforms"], host);
    }
  }

  lemma PlatformIff(declared: string, host: string)
    ensures Platform(declared) == host <==> RunsOn(Lower(Strip(declared)), host)
  {
  }

  function FlatParser(host: string): Parser {
    (path, text) => EntryOf(host, path, ServerFm(text))
  }

  lemma FlatHonest(host: string)
    ensures Honest(FlatParser(host))
  {
  }

  lemma FlattenTrim(v: string)
    ensures Strip(Flatten(v)) == Flatten(v)
  {
    var before, after := StripCore(Spaced(v));
    StripTrim(Flatten(v));
  }

  function OrNone(v: string): Option<string> {
    if v == "" then None else Some(v)
  }

  /** What a rendered skill is listed as. */
  function EntryFor(path: Path, s: Stamp): Entry {
    Entry(path, s.name, OrNone(Flatten(s.desc)), OrNone(Flatten(s.category)), OrNone(Flatten(s.trigger)))
  }

  lemma EntryFrom(host: string, path: Path, fm: Fields, s: Stamp)
    requires "name" in fm && fm["name"] == s.name && Strip(s.name) == s.name != ""
    requires "description" in fm && fm["description"] == Flatten(s.desc)
    requires "category" in fm && fm["category"] == Flatten(s.category)
    requires "trigger" in fm && fm["trigger"] == Flatten(s.trigger)
    requires "platforms" !in fm
    ensures EntryOf(host, path, fm) == Listed(EntryFor(path, s))
  {
    FlattenTrim(s.desc);
    FlattenTrim(s.category);
    FlattenTrim(s.trigger);
  }

  lemma NamedFields(fm: Fields, s: Stamp, h: Digest)
    requires fm.Keys == set k | k in KEYS
    requires forall i | 0 <= i < 9 :: KEYS[i] in fm && fm[KEYS[i]] == ReadValues(s, h)[i]
    ensures "name" in fm && fm["name"] == s.name
    ensures "description" in fm && fm["description"] == Flatten(s.desc)
    ensures "category" in fm && fm["category"] == Flatten(s.category)
    ensures "trigger" in fm && fm["trigger"] == Flatten(s.trigger)
    ensures "platforms" !in fm
  {
    assert KEYS[0] == "name" && KEYS[1] == "description" && KEYS[5] == "trigger" && KEYS[7] == "category";
  }

  lemma RenderedFields(s: Stamp, h: Digest, text: string)
    requires Hex(BodyHash(h, EffectiveBody(s))) && OneLine(s) && Bare(s.name) && Bare(s.createdAt)
    requires text == Render(s, h)
    ensures var fm := ServerFm(text);
            && "name" in fm && fm["name"] == s.name
            && "description" in fm && fm["description"] == Flatten(s.desc)
            && "category" in fm && fm["category"] == Flatten(s.category)
            && "trigger" in fm && fm["trigger"] == Flatten(s.trigger)
            && "platforms" !in fm
  {
    RenderRead(s, h);
    NamedFields(ServerFm(text), s, h);
  }

  /** A rendered skill is listed by its name, description, category and trigger, whatever the host. */
  lemma RenderedEntry(host: string, path: Path, s: Stamp, h: Digest)
    requires Hex(BodyHash(h, EffectiveBody(s))) && OneLine(s) && Bare(s.name) && Bare(s.createdAt)
    requires Strip(s.name) == s.name != ""
    ensures FlatParser(host)(path, Render(s, h)) == Listed(EntryFor(path, s))
  {
    RenderedFields(s, h, Render(s, h));
    EntryFrom(host, path, ServerFm(Render(s, h)), s);
  }

  /** A skill that was created is served: its name resolves to its folder unless an earlier slot has the name. */
  lemma CreatedIsServed(host: string, disk: seq<Slot>, k: nat, s: Stamp, h: Digest)
    requires Hex(BodyHash(h, EffectiveBody(s))) && OneLine(s) && Bare(s.name) && Bare(s.createdAt)
    requires Strip(s.name) == s.name != ""
    requires k < |disk| && disk[k].file.Some? && disk[k].file.value.reading == Text(Render(s, h))
    ensures var r := Resolve(Build(FlatParser(host), disk, |disk|).entries, s.name);
            r == Some(disk[k].path) || (exists j :: 0 <= j < k && Offers(FlatParser(host), disk[j], s.name))
  {
    var parse := FlatParser(host);
    RenderedEntry(host, disk[k].path, s, h);
    assert Offers(parse, disk[k], s.name);
    FlatHonest(host);
    ResolvesFirst(parse, disk, s.name);
  }
}
