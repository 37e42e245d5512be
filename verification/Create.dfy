/** `auto_skill.py create`: one process alone, and any number of them racing for one name. */
module Create {
  import opened Text
  import opened Frontmatter
  import opened Writer
  import opened Wrappers

  datatype Status = Created | Identical | Refused

  const HASH := KEYS[8]

  function HashOf(s: Stamp, h: Digest): string {
    BodyHash(h, EffectiveBody(s))
  }

  /** `existing_fm.get("content_hash") == new_hash` */
  predicate SameHash(text: string, hash: string) {
    HASH in Fm(text) && Fm(text)[HASH] == hash
  }

  // ---- one process ----

  /** One SKILL.md path, and the ledger of the staging area. */
  class SkillFile {
    var text: Option<string>
    var ledger: seq<string>

    constructor ()
      ensures text == None && ledger == []
    {
      text, ledger := None, [];
    }

    /** `cmd_create` from the exclusive create on; a staged write also logs the name. */
    method Create(s: Stamp, h: Digest, stage: bool, force: bool) returns (status: Status)
      modifies this
      ensures status == Created <==> old(text) == None || (force && !SameHash(old(text).value, HashOf(s, h)))
      ensures status == Identical <==> old(text).Some? && SameHash(old(text).value, HashOf(s, h))
      ensures status == Created ==> text == Some(Render(s, h)) && ledger == old(ledger) + if stage then [s.name] else []
      ensures status != Created ==> text == old(text) && ledger == old(ledger)
    {
      if text == None {
        text := Some(Render(s, h));
        if stage {
          ledger := ledger + [s.name];
        }
        return Created;
      }
      if SameHash(text.value, HashOf(s, h)) {
        return Identical;
      }
      if !force {
        return Refused;
      }
      text := Some(Render(s, h));
      if stage {
        ledger := ledger + [s.name];
      }
      return Created;
    }
  }

  /** Creating the same body again finds an identical skill if and only if no stamped value held a `---`. */
  lemma RepeatIdentical(first: Stamp, again: Stamp, h: Digest)
    requires Hex(HashOf(first, h)) && OneLine(first) && HashOf(first, h) == HashOf(again, h)
    ensures SameHash(Render(first, h), HashOf(again, h)) <==> DashFree(first)
  {
    HashReadBack(first, h);
  }

  // ---- any number of processes ----

  /** Where a non-force process is: before the exclusive create, writing with `k` characters out, about to
      append to the ledger, about to read what another one created, or done. */
  datatype Point = Start | Writing(k: nat) | Logging | Lost | Done(status: Status)

  datatype World = World(file: Option<string>, points: seq<Point>, ledger: seq<nat>)

  /** The processes, what each would render, and whether they stage. */
  datatype Race = Race(stamps: seq<Stamp>, h: Digest, stage: bool) {
    function Text(i: nat): string
      requires i < |stamps|
    {
      Render(stamps[i], h)
    }

    function Hash(i: nat): string
      requires i < |stamps|
    {
      HashOf(stamps[i], h)
    }

    predicate Sound() {
      forall i | 0 <= i < |stamps| :: Hex(Hash(i)) && OneLine(stamps[i])
    }
  }

  function Begin(race: Race, before: Option<string>): World {
    World(before, seq(|race.stamps|, _ => Start), [])
  }

  /** Process `i` takes its next step; a write puts out up to `amount` more characters. */
  function Next(race: Race, w: World, i: nat, amount: nat): World
    requires |w.points| == |race.stamps|
  {
    if i >= |w.points| then w
    else match w.points[i]
      case Start =>
        if w.file == None then World(Some(""), w.points[i := Writing(0)], w.ledger)
        else w.(points := w.points[i := Lost])
      case Writing(k) =>
        var text := race.Text(i);
        if k >= |text| then w.(points := w.points[i := if race.stage then Logging else Done(Created)])
        else
          var upto := if k + amount < |text| then k + amount else |text|;
          World(Some((if w.file.Some? then w.file.value else "") + text[k..upto]), w.points[i := Writing(upto)], w.ledger)
      case Logging => World(w.file, w.points[i := Done(Created)], w.ledger + [i])
      case Lost =>
        var text := if w.file.Some? then w.file.value else "";
        w.(points := w.points[i := Done(if SameHash(text, race.Hash(i)) then Identical else Refused)])
      case Done(_) => w
  }

  /** A schedule: which process steps, and how much it writes if it writes. */
  type Schedule = seq<(nat, nat)>

  function Play(race: Race, before: Option<string>, schedule: Schedule): (w: World)
    ensures |w.points| == |race.stamps|
  {
    if schedule == [] then Begin(race, before)
    else
      var last := schedule[|schedule| - 1];
      Next(race, Play(race, before, schedule[..|schedule| - 1]), last.0, last.1)
  }

  // ---- what every step keeps ----

  predicate Holds(p: Point) {
    p.Writing? || p.Logging? || p == Done(Created)
  }

  /** What process `i` has put out so far. */
  function Output(race: Race, p: Point, i: nat): string
    requires i < |race.stamps|
  {
    if p.Writing? && p.k <= |race.Text(i)| then race.Text(i)[..p.k] else race.Text(i)
  }

  /** At most one process holds the file, and the file is what it has put out. */
  ghost predicate FileInv(race: Race, before: Option<string>, w: World)
    requires |w.points| == |race.stamps|
  {
    (forall i | 0 <= i < |w.points| && w.points[i].Writing? :: w.points[i].k <= |race.Text(i)|) &&
    (forall i, j | 0 <= i < |w.points| && 0 <= j < |w.points| && Holds(w.points[i]) && Holds(w.points[j]) :: i == j) &&
    (forall i | 0 <= i < |w.points| && Holds(w.points[i]) ::
      before == None && w.file == Some(Output(race, w.points[i], i))) &&
    ((forall i | 0 <= i < |w.points| :: !Holds(w.points[i])) ==> w.file == before) &&
    (forall i | 0 <= i < |w.points| && w.points[i] != Start && !Holds(w.points[i]) :: w.file.Some?)
  }

  ghost predicate Inv(race: Race, before: Option<string>, w: World) {
    |w.points| == |race.stamps| && FileInv(race, before, w) && LedgerInv(race, w) &&
    (forall j | 0 <= j < |w.points| && w.points[j] == Done(Identical) :: SameAsWinner(race, before, w, j))
  }

  /** The file that was there had the hash, or a process that holds the file has it. */
  ghost predicate SameAsWinner(race: Race, before: Option<string>, w: World, j: nat)
    requires |w.points| == |race.stamps| && j < |w.points|
  {
    if before.Some? then SameHash(before.value, race.Hash(j))
    else exists i :: 0 <= i < |w.points| && Holds(w.points[i]) && race.Hash(i) == race.Hash(j)
  }

  /** The ledger has one line for each finished staged write, and none otherwise. */
  ghost predicate LedgerInv(race: Race, w: World)
    requires |w.points| == |race.stamps|
  {
    (!race.stage ==> w.ledger == [] && forall i | 0 <= i < |w.points| :: !w.points[i].Logging?) &&
    (race.stage ==> forall i | 0 <= i < |w.points| :: w.points[i] == Done(Created) ==> w.ledger == [i]) &&
    ((forall i | 0 <= i < |w.points| :: w.points[i] != Done(Created)) ==> w.ledger == [])
  }

  /** A text cut anywhere reads as nothing or as the whole text does. */
  lemma CutRead(text: string, k: nat)
    requires k <= |text|
    ensures Fm(text[..k]) == map[] || Fm(text[..k]) == Fm(text)
  {
    var cut := text[..k];
    if FENCE <= cut && Contains(cut[3..], FENCE) {
      FindInPrefix(cut[3..], text[k..], FENCE);
      assert cut[3..] + text[k..] == text[3..];
      FindIs(cut[3..], FENCE);
      var i := Find(cut[3..], FENCE);
      assert cut[3..3 + i] == text[3..3 + i];
    }
  }

  /** The length of a rendering up to the end of its closing fence. */
  function FenceEnd(s: Stamp, h: Digest): nat {
    |FENCE + Block([""] + LinesOf(Pairs(s, h))) + FENCE|
  }

  lemma RenderShape(s: Stamp, h: Digest) returns (block: string, rest: string)
    requires Hex(HashOf(s, h)) && OneLine(s) && DashFree(s)
    ensures Render(s, h) == FENCE + (block + FENCE + rest) && FenceEnd(s, h) == |block| + 6
    ensures Find(block + FENCE + rest, FENCE) == |block|
  {
    var ls := LinesOf(Pairs(s, h));
    RenderedLines(s, h);
    FencedShape(ls, "\n" + (RStrip(EffectiveBody(s)) + "\n"));
    RenderFenced(s, h);
    block, rest := Block([""] + ls), "\n" + (RStrip(EffectiveBody(s)) + "\n");
  }

  lemma FencedShape(ls: seq<string>, rest: string)
    requires forall l | l in ls :: !Contains(l, FENCE)
    ensures Fenced(ls, rest) == FENCE + (Block([""] + ls) + FENCE + rest)
    ensures Find(Block([""] + ls) + FENCE + rest, FENCE) == |Block([""] + ls)|
  {
    NoDash("");
    assert forall l | l in [""] + ls :: l == "" || l in ls;
    FindInBlock([""] + ls, rest);
  }

  /** Cut before its closing fence is complete, such a text reads as nothing. */
  lemma CutBefore(text: string, inner: string, n: nat, k: nat)
    requires text == FENCE + inner && Find(inner, FENCE) == n && k <= |text| && k < n + 6
    ensures Fm(text[..k]) == map[]
  {
    if k >= 3 {
      var cut := inner[..k - 3];
      CutText(text, inner, k);
      assert (FENCE + cut)[3..] == cut && inner == cut + inner[k - 3..];
      if Contains(cut, FENCE) {
        FindInPrefix(cut, inner[k - 3..], FENCE);
        assert false;
      }
    }
  }

  lemma CutTail(inner: string, n: nat, m: nat)
    requires n + 3 <= m <= |inner| && FENCE <= inner[n..]
    ensures FENCE <= inner[..m][n..]
  {
    var a, b := inner[n..], inner[..m][n..];
    assert b == a[..m - n];
  }

  lemma FindInCut(inner: string, n: nat, m: nat)
    requires Find(inner, FENCE) == n && n + 3 <= m <= |inner|
    ensures Find(inner[..m], FENCE) == n
  {
    var cut := inner[..m];
    assert inner == cut + inner[m..];
    FindIs(inner, FENCE);
    CutTail(inner, n, m);
    ContainsAt(cut, FENCE, n);
    FindInPrefix(cut, inner[m..], FENCE);
  }

  lemma CutText(text: string, inner: string, k: nat)
    requires text == FENCE + inner && 3 <= k <= |text|
    ensures text[..k] == FENCE + inner[..k - 3]
  {
  }

  /** Cut after it, it reads as the whole. */
  lemma CutAfter(text: string, inner: string, n: nat, k: nat)
    requires text == FENCE + inner && Find(inner, FENCE) == n && k <= |text| && k >= n + 6
    ensures Fm(text[..k]) == Fm(text)
  {
    FindInCut(inner, n, k - 3);
    SplitBody(inner, n);
    SplitBody(inner[..k - 3], n);
    CutText(text, inner, k);
    assert inner[..k - 3][..n] == inner[..n];
  }

  /** A partly written rendering shows a hash if and only if it is the writer's, no stamped value holds a `---`, and
      the closing fence is written. */
  lemma CutHashIff(s: Stamp, h: Digest, k: nat, hash: string)
    requires Hex(HashOf(s, h)) && OneLine(s) && k <= |Render(s, h)|
    ensures SameHash(Render(s, h)[..k], hash) <==> hash == HashOf(s, h) && DashFree(s) && k >= FenceEnd(s, h)
  {
    HashReadBack(s, h);
    if DashFree(s) {
      var block, rest := RenderShape(s, h);
      if k < FenceEnd(s, h) {
        CutBefore(Render(s, h), block + FENCE + rest, |block|, k);
      } else {
        CutAfter(Render(s, h), block + FENCE + rest, |block|, k);
      }
    } else {
      CutRead(Render(s, h), k);
    }
  }

  lemma OutputHash(race: Race, p: Point, i: nat, hash: string)
    requires race.Sound() && i < |race.stamps| && SameHash(Output(race, p, i), hash)
    ensures race.Hash(i) == hash
  {
    var text := race.Text(i);
    var k := if p.Writing? && p.k <= |text| then p.k else |text|;
    assert Output(race, p, i) == text[..k];
    CutHashIff(race.stamps[i], race.h, k, hash);
  }

  lemma FileWrite(race: Race, before: Option<string>, w: World, i: nat, amount: nat)
    requires |w.points| == |race.stamps| && FileInv(race, before, w) && i < |w.points| && w.points[i].Writing?
    ensures FileInv(race, before, Next(race, w, i, amount))
  {
    WriteGrows(race, w.points[i], i, amount);
    assert race.Text(i)[..|race.Text(i)|] == race.Text(i);
  }

  lemma FileStart(race: Race, before: Option<string>, w: World, i: nat, amount: nat)
    requires |w.points| == |race.stamps| && FileInv(race, before, w) && i < |w.points| && w.points[i] == Start
    ensures FileInv(race, before, Next(race, w, i, amount))
  {
    var n := Next(race, w, i, amount);
    if w.file == None {
      assert Output(race, n.points[i], i) == "";
      assert forall j | 0 <= j < |n.points| && j != i :: n.points[j] == w.points[j];
      assert forall j | 0 <= j < |n.points| && j != i :: !Holds(n.points[j]);
    } else {
      assert forall j | 0 <= j < |n.points| :: Holds(n.points[j]) <==> Holds(w.points[j]);
    }
  }

  lemma FileRest(race: Race, before: Option<string>, w: World, i: nat, amount: nat)
    requires |w.points| == |race.stamps| && FileInv(race, before, w)
    requires i < |w.points| && (w.points[i] == Logging || w.points[i] == Lost)
    ensures FileInv(race, before, Next(race, w, i, amount))
  {
  }

  lemma FileStep(race: Race, before: Option<string>, w: World, i: nat, amount: nat)
    requires |w.points| == |race.stamps| && FileInv(race, before, w)
    ensures FileInv(race, before, Next(race, w, i, amount))
  {
    if i < |w.points| {
      match w.points[i]
      case Start => FileStart(race, before, w, i, amount);
      case Writing(_) => FileWrite(race, before, w, i, amount);
      case Done(_) =>
      case _ => FileRest(race, before, w, i, amount);
    }
  }

  lemma WriteGrows(race: Race, p: Point, i: nat, amount: nat)
    requires i < |race.stamps| && p.Writing? && p.k <= |race.Text(i)|
    ensures var text := race.Text(i);
      var upto := if p.k + amount < |text| then p.k + amount else |text|;
      Output(race, p, i) + text[p.k..upto] == Output(race, Writing(upto), i)
  {
  }

  lemma LedgerStep(race: Race, before: Option<string>, w: World, i: nat, amount: nat)
    requires |w.points| == |race.stamps| && FileInv(race, before, w) && LedgerInv(race, w)
    ensures LedgerInv(race, Next(race, w, i, amount))
  {
  }

  /** Whoever holds the file goes on holding it. */
  lemma HolderStays(race: Race, w: World, i: nat, amount: nat, j: nat)
    requires |w.points| == |race.stamps| && j < |w.points| && Holds(w.points[j])
    ensures Holds(Next(race, w, i, amount).points[j])
  {
  }

  lemma IdenticalStays(race: Race, before: Option<string>, w: World, i: nat, amount: nat, j: nat)
    requires |w.points| == |race.stamps| && j < |w.points| && SameAsWinner(race, before, w, j)
    ensures SameAsWinner(race, before, Next(race, w, i, amount), j)
  {
    if before == None {
      var k :| 0 <= k < |w.points| && Holds(w.points[k]) && race.Hash(k) == race.Hash(j);
      HolderStays(race, w, i, amount, k);
      StillWinner(race, before, Next(race, w, i, amount), j, k);
    }
  }

  lemma StillWinner(race: Race, before: Option<string>, w: World, j: nat, k: nat)
    requires |w.points| == |race.stamps| && j < |w.points| && k < |w.points|
    requires before == None && Holds(w.points[k]) && race.Hash(k) == race.Hash(j)
    ensures SameAsWinner(race, before, w, j)
  {
  }

  lemma ReadIdentical(race: Race, before: Option<string>, w: World, j: nat)
    requires race.Sound() && |w.points| == |race.stamps| && FileInv(race, before, w)
    requires j < |w.points| && w.points[j] == Lost && SameHash(w.file.value, race.Hash(j))
    ensures SameAsWinner(race, before, w, j)
  {
    if i :| 0 <= i < |w.points| && Holds(w.points[i]) {
      OutputHash(race, w.points[i], i, race.Hash(j));
    }
  }

  lemma IdenticalStep(race: Race, before: Option<string>, w: World, i: nat, amount: nat, j: nat)
    requires race.Sound() && Inv(race, before, w)
    requires j < |w.points| && Next(race, w, i, amount).points[j] == Done(Identical)
    ensures SameAsWinner(race, before, Next(race, w, i, amount), j)
  {
    if w.points[j] != Done(Identical) {
      assert i == j && w.points[j] == Lost;
      ReadIdentical(race, before, w, j);
    }
    IdenticalStays(race, before, w, i, amount, j);
  }

  lemma InvStep(race: Race, before: Option<string>, w: World, i: nat, amount: nat)
    requires race.Sound() && Inv(race, before, w)
    ensures Inv(race, before, Next(race, w, i, amount))
  {
    FileStep(race, before, w, i, amount);
    LedgerStep(race, before, w, i, amount);
    forall j | 0 <= j < |w.points| && Next(race, w, i, amount).points[j] == Done(Identical)
      ensures SameAsWinner(race, before, Next(race, w, i, amount), j)
    {
      IdenticalStep(race, before, w, i, amount, j);
    }
  }

  lemma {:induction false} InvHolds(race: Race, before: Option<string>, schedule: Schedule)
    requires race.Sound()
    ensures Inv(race, before, Play(race, before, schedule))
  {
    if schedule != [] {
      var last := schedule[|schedule| - 1];
      InvHolds(race, before, schedule[..|schedule| - 1]);
      InvStep(race, before, Play(race, before, schedule[..|schedule| - 1]), last.0, last.1);
    }
  }

  // ---- first writer wins ----

  /** Under every schedule at most one process reports `created`, only on a name that was free, and the file is
      then exactly its rendering; `exists-identical` goes only to a hash the file's owner has; a file that was
      there stays as it was; a staged name is logged at most once, by its creator. */
  lemma FirstWriterWins(race: Race, before: Option<string>, schedule: Schedule)
    requires race.Sound()
    ensures var w := Play(race, before, schedule);
      (forall i, j | 0 <= i < |w.points| && 0 <= j < |w.points| &&
        w.points[i] == Done(Created) && w.points[j] == Done(Created) :: i == j) &&
      (forall i | 0 <= i < |w.points| && w.points[i] == Done(Created) ::
        before == None && w.file == Some(race.Text(i)) && w.ledger == if race.stage then [i] else []) &&
      (forall j | 0 <= j < |w.points| && w.points[j] == Done(Identical) :: SameAsWinner(race, before, w, j)) &&
      (before.Some? ==> w.file == before)
  {
    InvHolds(race, before, schedule);
  }

  /** When all processes are done on a free name, one of them created the file. */
  lemma SomeoneCreates(race: Race, schedule: Schedule)
    requires race.Sound() && race.stamps != []
    requires forall i | 0 <= i < |race.stamps| :: Play(race, None, schedule).points[i].Done?
    ensures exists i :: 0 <= i < |race.stamps| && Play(race, None, schedule).points[i] == Done(Created)
  {
    InvHolds(race, None, schedule);
    assert Play(race, None, schedule).points[0].Done?;
  }

  lemma DoneStep(race: Race, w: World, i: nat, amount: nat, j: nat)
    requires |w.points| == |race.stamps| && j < |w.points| && w.points[j].Done?
    ensures Next(race, w, i, amount).points[j] == w.points[j]
  {
  }

  lemma {:induction false} DoneStays(race: Race, before: Option<string>, schedule: Schedule, more: Schedule, i: nat)
    requires i < |race.stamps| && Play(race, before, schedule).points[i].Done?
    ensures Play(race, before, schedule + more).points[i] == Play(race, before, schedule).points[i]
  {
    if more == [] {
      assert schedule + more == schedule;
    } else {
      var k := |more| - 1;
      assert (schedule + more)[..|schedule + more| - 1] == schedule + more[..k];
      DoneStays(race, before, schedule, more[..k], i);
      DoneStep(race, Play(race, before, schedule + more[..k]), more[k].0, more[k].1, i);
    }
  }

  /** Once a process has reported created, the file is its rendering however the others go on. */
  lemma CreatedStays(race: Race, before: Option<string>, schedule: Schedule, more: Schedule, i: nat)
    requires race.Sound() && i < |race.stamps| && Play(race, before, schedule).points[i] == Done(Created)
    ensures Play(race, before, schedule + more).file == Some(race.Text(i))
  {
    DoneStays(race, before, schedule, more, i);
    FirstWriterWins(race, before, schedule + more);
  }

  /** A process that reads after the write is complete is told `identical` if and only if its hash is the
      writer's and no value the writer stamped holds a `---`. */
  lemma LateReader(race: Race, before: Option<string>, schedule: Schedule, i: nat, j: nat, amount: nat)
    requires race.Sound() && i < |race.stamps| && j < |race.stamps|
    requires var w := Play(race, before, schedule); w.points[i] == Done(Created) && w.points[j] == Lost
    ensures Next(race, Play(race, before, schedule), j, amount).points[j] ==
      Done(if race.Hash(i) == race.Hash(j) && DashFree(race.stamps[i]) then Identical else Refused)
  {
    FirstWriterWins(race, before, schedule);
    HashReadBack(race.stamps[i], race.h);
  }

  /** One that reads while another writes is told `identical` if and only if its hash is the writer's, no value the
      writer stamped holds a `---`, and the writer has got past its closing fence. */
  lemma MidReader(race: Race, before: Option<string>, schedule: Schedule, i: nat, k: nat, j: nat, amount: nat)
    requires race.Sound() && i < |race.stamps| && j < |race.stamps|
    requires var w := Play(race, before, schedule); w.points[i] == Writing(k) && w.points[j] == Lost
    ensures Next(race, Play(race, before, schedule), j, amount).points[j] ==
      Done(if race.Hash(i) == race.Hash(j) && DashFree(race.stamps[i]) && k >= FenceEnd(race.stamps[i], race.h)
           then Identical else Refused)
  {
    InvHolds(race, before, schedule);
    CutHashIff(race.stamps[i], race.h, k, race.Hash(j));
  }

  /** So a loser with the very same skill can be refused: it reads before anything is written. */
  lemma EarlyReader(race: Race)
    requires race.Sound() && |race.stamps| >= 2
    ensures Play(race, None, [(0, 0), (1, 0), (1, 0)]).points[1] == Done(Refused)
  {
    var a, b := [(0, 0)], [(0, 0), (1, 0)];
    var w := Begin(race, None);
    assert a[..0] == [] && b[..1] == a && [(0, 0), (1, 0), (1, 0)][..2] == b;
    assert Play(race, None, a) == Next(race, w, 0, 0);
    assert Play(race, None, b).points[1] == Lost && Play(race, None, b).points[0] == Writing(0);
    MidReader(race, None, b, 0, 0, 1, 0);
  }

  /** What a process is told of a file that was there. */
  function ToldOf(race: Race, text: string, j: nat): Point
    requires j < |race.stamps|
  {
    var hash := BodyHash(race.h, EffectiveBody(race.stamps[j]));
    Done(if "content_hash" in Fm(text) && Fm(text)["content_hash"] == hash then Identical else Refused)
  }

  ghost predicate OnlyReaders(race: Race, text: string, w: World) {
    && w.file == Some(text) && w.ledger == [] && |w.points| == |race.stamps|
    && forall j | 0 <= j < |w.points| :: w.points[j] == Start || w.points[j] == Lost || w.points[j] == ToldOf(race, text, j)
  }

  lemma ReaderStep(race: Race, text: string, w: World, i: nat, amount: nat)
    requires OnlyReaders(race, text, w)
    ensures OnlyReaders(race, text, Next(race, w, i, amount))
  {
    assert HASH == "content_hash";
  }

  /** Where a file was there, whatever it holds, it stays; every process that ends is told `identical` exactly if the
      `content_hash` it reads in the file is its own, and refused if not; and nothing is logged. */
  lemma ExistingReader(race: Race, text: string, schedule: Schedule)
    ensures var w := Play(race, Some(text), schedule);
      && w.file == Some(text) && w.ledger == []
      && forall j | 0 <= j < |w.points| && w.points[j].Done? :: w.points[j] == ToldOf(race, text, j)
  {
    OnlyRead(race, text, schedule);
  }

  lemma {:induction false} OnlyRead(race: Race, text: string, schedule: Schedule)
    ensures OnlyReaders(race, text, Play(race, Some(text), schedule))
  {
    if schedule != [] {
      var n := |schedule| - 1;
      OnlyRead(race, text, schedule[..n]);
      ReaderStep(race, text, Play(race, Some(text), schedule[..n]), schedule[n].0, schedule[n].1);
    }
  }
}
