/** Whole runs of the watcher: no change and no index run is ever forgotten, and the watcher comes to rest. */
module WatcherRuns {
  import opened Watcher
  import opened WatcherLaws
  import opened Wrappers

  ghost predicate Possible(s: State, es: seq<Event>)
    decreases |es|
  {
    es != [] ==> Enabled(s, es[0]) && Possible(Next(s, es[0]), es[1..])
  }

  function After(s: State, es: seq<Event>): State
    requires Possible(s, es)
    decreases |es|
  {
    if es == [] then s else After(Next(s, es[0]), es[1..])
  }

  lemma {:induction false} RunKeeps(s: State, es: seq<Event>)
    requires Inv(s) && Possible(s, es)
    ensures Inv(After(s, es))
    decreases |es|
  {
    if es != [] {
      NextKeeps(s, es[0]);
      RunKeeps(Next(s, es[0]), es[1..]);
    }
  }

  lemma Member<T>(s: set<T>) returns (a: T)
    requires s != {}
    ensures a in s
  {
    a :| a in s;
  }

  lemma AtMostOne(s: set<int>)
    requires forall a, b :: a in s && b in s ==> a == b
    ensures |s| <= 1
  {
    if s != {} {
      var a := Member(s);
      if s - {a} != {} {
        var b := Member(s - {a});
        assert false;
      }
      assert |s| == |s - {a}| + 1;
    }
  }

  lemma SingleFlight(s: State)
    requires OneRun(s) && OnePass(s)
    ensures |s.runs.Keys| == (if s.indexing then 1 else 0)
    ensures |s.passes| == (if s.embedding then 1 else 0)
  {
    assert forall r, q :: r in s.runs.Keys && q in s.runs.Keys ==> r in s.runs && q in s.runs && r == q;
    AtMostOne(s.runs.Keys);
    AtMostOne(s.passes);
    assert s.indexing ==> s.runs.Keys != {};
    assert s.embedding ==> s.passes != {};
    if s.passes != {} {
      var p := Member(s.passes);
    }
  }

  lemma NewestKept(s: State)
    requires NoneLost(s)
    ensures forall v :: v in s.noted && (v in s.started ==> s.started[v] <= s.noted[v]) ==>
              v in s.debounce || v in s.queue
  {
    forall v | v in s.noted && (v in s.started ==> s.started[v] <= s.noted[v])
      ensures v in s.debounce || v in s.queue
    {
      assert Kept(s, v);
    }
  }

  /** In every state any interleaving can reach: a change newer than the last index run of its vault is waiting
      on a timer or in the queue; nothing queued is stranded or queued twice; at most one index run and one embed
      pass are under way, as the flags say; and an index run newer than the last embed pass has one to come. */
  lemma {:induction false} Safe(es: seq<Event>)
    requires Possible(INITIAL, es)
    ensures var s := After(INITIAL, es);
            && (forall v :: v in s.noted && (v in s.started ==> s.started[v] <= s.noted[v]) ==>
                 v in s.debounce || v in s.queue)
            && (s.queue != [] ==> s.indexing)
            && (forall i, j :: 0 <= i < j < |s.queue| ==> s.queue[i] != s.queue[j])
            && |s.runs.Keys| == (if s.indexing then 1 else 0)
            && |s.passes| == (if s.embedding then 1 else 0)
            && (s.embedPending ==> s.embedding)
            && (s.indexedAt > s.embedAt ==> s.embedTimer.Some? || s.embedPending)
  {
    InitialInv();
    RunKeeps(INITIAL, es);
    SingleFlight(After(INITIAL, es));
    NewestKept(After(INITIAL, es));
  }

  // ---- no change is forgotten, told by events alone ----

  predicate Waiting(s: State, v: Vault) {
    v in s.debounce || v in s.queue
  }

  /** The event begins an index run of `v`. */
  ghost predicate Begins(s: State, e: Event, v: Vault) {
    Enabled(s, e) && exists r :: r !in s.runs && r in Next(s, e).runs && Next(s, e).runs[r] == v
  }

  lemma DrainTakes(s: State, v: Vault)
    requires v in s.queue && s.nextId !in s.runs
    ensures var t := Drain(s);
            || v in t.queue
            || (s.nextId in t.runs && t.runs[s.nextId] == v)
  {
    if !s.indexing && v != s.queue[0] {
      assert v in s.queue[1..];
    }
  }

  lemma FiredWaits(s: State, id: int, w: Vault, t: State, u: State, v: Vault)
    requires Waiting(s, v) && t == Fired(s, id, w) && u == Queued(t, w)
    ensures v in s.debounce && v != w ==> v in u.debounce
    ensures v in s.queue || v == w ==> v in u.queue
    ensures u.runs == s.runs && u.nextId == s.nextId
  {
  }

  lemma FireTakes(s: State, id: int, w: Vault, v: Vault)
    requires Inv(s) && id in s.armed && s.armed[id] == IndexTimer(w) && Waiting(s, v)
    ensures var e := Fire(id); Waiting(Next(s, e), v) || Begins(s, e, v)
  {
    var t := Fired(s, id, w);
    var u := Queued(t, w);
    FireDrains(s, id, w, t, u);
    FiredWaits(s, id, w, t, u, v);
    DrainWaits(u, Drain(u), v);
    assert s.nextId !in s.runs;
  }

  lemma DrainWaits(u: State, n: State, v: Vault)
    requires n == Drain(u) && (v in u.debounce || v in u.queue) && u.nextId !in u.runs
    ensures Waiting(n, v) || (u.nextId in n.runs && n.runs[u.nextId] == v)
  {
    DrainFrame(u);
    if v in u.queue {
      DrainTakes(u, v);
    }
  }

  lemma EndIndexTakes(s: State, run: int, ok: bool, v: Vault)
    requires Inv(s) && run in s.runs && Waiting(s, v)
    ensures var e := IndexEnded(run, ok); Waiting(Next(s, e), v) || Begins(s, e, v)
  {
    var t := s.(clock := s.clock + 1, runs := s.runs - {run});
    var u := (if ok then ScheduleEmbed(t).(indexedAt := t.clock) else t).(indexing := false);
    EndThenDrain(s, t, run, ok, u);
    DrainWaits(u, Drain(u), v);
  }

  lemma ChangeWaits(s: State, w: Vault, v: Vault)
    requires Waiting(s, v)
    ensures Waiting(Next(s, Change(w)), v)
  {
  }

  lemma PollNext(s: State, w: Vault, mtime: int, t: State, n: State)
    requires n == Next(s, Poll(w, mtime))
    requires t == s.(clock := s.clock + 1, lastSeen := n.lastSeen)
    ensures n == if Newer(s, w, mtime) then ScheduleIndex(t, w) else t
  {
  }

  lemma PollWaits(s: State, w: Vault, mtime: int, v: Vault)
    requires Waiting(s, v)
    ensures Waiting(Next(s, Poll(w, mtime)), v)
  {
    var n := Next(s, Poll(w, mtime));
    PollNext(s, w, mtime, s.(clock := s.clock + 1, lastSeen := n.lastSeen), n);
  }

  lemma EmbedEndWaits(s: State, pass: int, v: Vault)
    requires Waiting(s, v) && pass in s.passes
    ensures Waiting(Next(s, EmbedEnded(pass)), v)
  {
  }

  lemma WaitingOn(s: State, e: Event, v: Vault)
    requires Inv(s) && Enabled(s, e) && Waiting(s, v)
    ensures Waiting(Next(s, e), v) || Begins(s, e, v)
  {
    match e
    case Change(w) => ChangeWaits(s, w, v);
    case Poll(w, mtime) => PollWaits(s, w, mtime, v);
    case Fire(id) =>
      match s.armed[id] {
        case IndexTimer(w) => FireTakes(s, id, w, v);
        case EmbedTimer => FireEmbed(s, id);
      }
    case IndexEnded(run, ok) => EndIndexTakes(s, run, ok, v);
    case EmbedEnded(pass) => EmbedEndWaits(s, pass, v);
  }

  /** Some event of the run begins an index run of `v`. */
  ghost predicate Indexes(s: State, es: seq<Event>, v: Vault)
    requires Possible(s, es)
    decreases |es|
  {
    es != [] && (Begins(s, es[0], v) || Indexes(Next(s, es[0]), es[1..], v))
  }

  /** A vault that is waiting keeps waiting until an index run of it begins. */
  lemma {:induction false} WaitsOrIndexes(s: State, es: seq<Event>, v: Vault)
    requires Inv(s) && Possible(s, es) && Waiting(s, v)
    ensures Waiting(After(s, es), v) || Indexes(s, es, v)
    decreases |es|
  {
    if es != [] {
      NextKeeps(s, es[0]);
      WaitingOn(s, es[0], v);
      if !Begins(s, es[0], v) {
        WaitsOrIndexes(Next(s, es[0]), es[1..], v);
      }
    }
  }

  /** The event begins an embed pass. */
  ghost predicate BeginsPass(s: State, e: Event) {
    Enabled(s, e) && exists p :: p !in s.passes && p in Next(s, e).passes
  }

  ghost predicate Embeds(s: State, es: seq<Event>)
    requires Possible(s, es)
    decreases |es|
  {
    es != [] && (BeginsPass(s, es[0]) || Embeds(Next(s, es[0]), es[1..]))
  }

  predicate PassToCome(s: State) {
    s.embedTimer.Some? || s.embedPending
  }

  lemma FirePass(s: State, id: int)
    requires Inv(s) && id in s.armed && PassToCome(s)
    ensures var e := Fire(id); PassToCome(Next(s, e)) || BeginsPass(s, e)
  {
    match s.armed[id]
    case IndexTimer(w) =>
      var t := Fired(s, id, w);
      var u := Queued(t, w);
      FireDrains(s, id, w, t, u);
      DrainFrame(u);
    case EmbedTimer =>
      FireEmbed(s, id);
      assert !s.embedding ==> s.nextId in Next(s, Fire(id)).passes;
  }

  lemma EndIndexPass(s: State, run: int, ok: bool)
    requires Inv(s) && run in s.runs && (ok || PassToCome(s))
    ensures PassToCome(Next(s, IndexEnded(run, ok)))
  {
    var t := s.(clock := s.clock + 1, runs := s.runs - {run});
    var u := (if ok then ScheduleEmbed(t).(indexedAt := t.clock) else t).(indexing := false);
    EndThenDrain(s, t, run, ok, u);
    DrainFrame(u);
  }

  lemma PassToComeOn(s: State, e: Event)
    requires Inv(s) && Enabled(s, e) && PassToCome(s)
    ensures PassToCome(Next(s, e)) || BeginsPass(s, e)
  {
    match e
    case Change(_) =>
    case Poll(_, _) =>
    case Fire(id) => FirePass(s, id);
    case IndexEnded(run, ok) => EndIndexPass(s, run, ok);
    case EmbedEnded(_) =>
  }

  lemma {:induction false} ComesOrEmbeds(s: State, es: seq<Event>)
    requires Inv(s) && Possible(s, es) && PassToCome(s)
    ensures PassToCome(After(s, es)) || Embeds(s, es)
    decreases |es|
  {
    if es != [] {
      NextKeeps(s, es[0]);
      PassToComeOn(s, es[0]);
      if !BeginsPass(s, es[0]) {
        ComesOrEmbeds(Next(s, es[0]), es[1..]);
      }
    }
  }

  // ---- coming to rest ----

  /** Nothing is armed and nothing is awaited: only a new change can move the watcher. */
  predicate Idle(s: State) {
    s.armed.Keys == {} && s.runs.Keys == {} && s.passes == {}
  }

  predicate Internal(e: Event) {
    e.Fire? || e.IndexEnded? || e.EmbedEnded?
  }

  function One(b: bool): int {
    if b then 1 else 0
  }

  /** How many events the work already asked for can still cause. */
  function Work(s: State): int {
    5 * |s.debounce.Keys| + 4 * |s.queue| + 4 * One(s.indexing)
    + 3 * One(s.embedTimer.Some?) + 2 * One(s.embedding) + 2 * One(s.embedPending)
  }

  lemma DrainWork(s: State)
    ensures Work(Drain(s)) <= Work(s)
  {
  }

  lemma QueuedWork(s: State, v: Vault)
    ensures Work(Queued(s, v)) <= Work(s) + 4
  {
  }

  lemma FiredWork(s: State, id: int, v: Vault)
    requires v in s.debounce
    ensures Work(Fired(s, id, v)) == Work(s) - 5
  {
    assert Fired(s, id, v).debounce.Keys == s.debounce.Keys - {v};
  }

  lemma FireIndexWork(s: State, id: int, v: Vault)
    requires TimersAgree(s) && id in s.armed && s.armed[id] == IndexTimer(v)
    ensures Work(Next(s, Fire(id))) < Work(s)
  {
    var t := Fired(s, id, v);
    var u := Queued(t, v);
    FiredWork(s, id, v);
    QueuedWork(t, v);
    DrainWork(u);
    FireDrains(s, id, v, t, u);
  }

  lemma FireEmbedWork(s: State, id: int)
    requires TimersAgree(s) && id in s.armed && s.armed[id] == EmbedTimer
    ensures Work(Next(s, Fire(id))) < Work(s)
  {
    FireEmbed(s, id);
  }

  lemma EndIndexWork(s: State, run: int, ok: bool)
    requires Inv(s) && run in s.runs
    ensures Work(Next(s, IndexEnded(run, ok))) < Work(s)
  {
    var t := s.(clock := s.clock + 1, runs := s.runs - {run});
    var u := (if ok then ScheduleEmbed(t).(indexedAt := t.clock) else t).(indexing := false);
    EndThenDrain(s, t, run, ok, u);
    DrainWork(u);
  }

  lemma InternalWork(s: State, e: Event)
    requires Inv(s) && Enabled(s, e) && Internal(e)
    ensures Work(Next(s, e)) < Work(s)
  {
    match e
    case Fire(id) =>
      match s.armed[id] {
        case IndexTimer(v) => FireIndexWork(s, id, v);
        case EmbedTimer => FireEmbedWork(s, id);
      }
    case IndexEnded(run, ok) => EndIndexWork(s, run, ok);
    case EmbedEnded(pass) =>
  }

  lemma CanMove(s: State) returns (e: Event)
    requires Inv(s) && !Idle(s)
    ensures Enabled(s, e) && Internal(e)
  {
    if s.armed.Keys != {} {
      var id := Member(s.armed.Keys);
      e := Fire(id);
    } else if s.runs.Keys != {} {
      var run := Member(s.runs.Keys);
      e := IndexEnded(run, true);
    } else {
      var pass := Member(s.passes);
      e := EmbedEnded(pass);
    }
  }

  /** Without new changes the watcher cannot go on for longer than its work. */
  lemma {:induction false} Bounded(s: State, es: seq<Event>)
    requires Inv(s) && Possible(s, es)
    requires forall e :: e in es ==> Internal(e)
    ensures |es| + Work(After(s, es)) <= Work(s)
    decreases |es|
  {
    if es != [] {
      InternalWork(s, es[0]);
      NextKeeps(s, es[0]);
      Bounded(Next(s, es[0]), es[1..]);
    }
  }

  /** At rest there is no work left, and everything asked for was begun. */
  lemma IdleIsDone(s: State)
    requires Inv(s) && Idle(s)
    ensures Work(s) == 0 && s.indexedAt <= s.embedAt && forall v :: !Waiting(s, v)
    ensures forall v :: v in s.noted ==> v in s.started && s.noted[v] < s.started[v]
  {
    assert s.debounce.Keys == {} by {
      forall v ensures v !in s.debounce {
        if v in s.debounce {
          assert false;
        }
      }
    }
    forall v | v in s.noted ensures v in s.started && s.noted[v] < s.started[v] {
      assert Kept(s, v);
    }
  }

  /** Every maximal run that follows a change indexes the vault after it, and every maximal run that follows a
      successful index run embeds after it; each is at most as long as the work there was. */
  lemma {:induction false} Settles(es: seq<Event>, e: Event, fs: seq<Event>)
    requires Possible(INITIAL, es) && Enabled(After(INITIAL, es), e)
    requires Possible(Next(After(INITIAL, es), e), fs)
    requires Idle(After(Next(After(INITIAL, es), e), fs))
    ensures e.Change? ==> Indexes(Next(After(INITIAL, es), e), fs, e.vault)
    ensures e.IndexEnded? && e.ok ==> Embeds(Next(After(INITIAL, es), e), fs)
  {
    InitialInv();
    RunKeeps(INITIAL, es);
    var s := After(INITIAL, es);
    NextKeeps(s, e);
    var t := Next(s, e);
    RunKeeps(t, fs);
    IdleIsDone(After(t, fs));
    if e.Change? {
      WaitsOrIndexes(t, fs, e.vault);
    } else if e.IndexEnded? && e.ok {
      EndIndexPass(s, e.run, true);
      ComesOrEmbeds(t, fs);
    }
  }

  /** From wherever it is, the watcher can come to rest without another change. */
  lemma {:induction false} Rests(s: State) returns (fs: seq<Event>)
    requires Inv(s)
    ensures Possible(s, fs) && Idle(After(s, fs)) && forall e :: e in fs ==> Internal(e)
    decreases Work(s)
  {
    if Idle(s) {
      fs := [];
    } else {
      var e := CanMove(s);
      NextKeeps(s, e);
      InternalWork(s, e);
      var rest := Rests(Next(s, e));
      fs := [e] + rest;
      assert fs[1..] == rest;
    }
  }

  // ---- when a vault is indexed again ----

  /** The event is a change of `v`, or a poll that finds one. */
  predicate Schedules(s: State, e: Event, v: Vault) {
    e == Change(v) || (e.Poll? && e.vault == v && Newer(s, v, e.mtime))
  }

  ghost predicate Scheduled(s: State, es: seq<Event>, v: Vault)
    requires Possible(s, es)
    decreases |es|
  {
    es != [] && (Schedules(s, es[0], v) || Scheduled(Next(s, es[0]), es[1..], v))
  }

  lemma DrainOther(u: State, n: State, v: Vault)
    requires n == Drain(u) && v !in u.queue && v !in u.debounce
    ensures !Waiting(n, v) && forall r | r in n.runs && r !in u.runs :: n.runs[r] != v
  {
  }

  lemma FireOther(s: State, id: int, w: Vault, v: Vault)
    requires Inv(s) && id in s.armed && s.armed[id] == IndexTimer(w) && !Waiting(s, v)
    ensures !Waiting(Next(s, Fire(id)), v) && !Begins(s, Fire(id), v)
  {
    var t := Fired(s, id, w);
    var u := Queued(t, w);
    FireDrains(s, id, w, t, u);
    DrainOther(u, Drain(u), v);
  }

  lemma EndIndexOther(s: State, run: int, ok: bool, v: Vault)
    requires Inv(s) && run in s.runs && !Waiting(s, v)
    ensures !Waiting(Next(s, IndexEnded(run, ok)), v) && !Begins(s, IndexEnded(run, ok), v)
  {
    var t := s.(clock := s.clock + 1, runs := s.runs - {run});
    var u := (if ok then ScheduleEmbed(t).(indexedAt := t.clock) else t).(indexing := false);
    EndThenDrain(s, t, run, ok, u);
    DrainOther(u, Drain(u), v);
  }

  lemma ChangeOther(s: State, w: Vault, v: Vault)
    requires !Waiting(s, v) && w != v
    ensures !Waiting(Next(s, Change(w)), v) && Next(s, Change(w)).runs == s.runs
  {
  }

  lemma PollOther(s: State, w: Vault, mtime: int, v: Vault)
    requires !Waiting(s, v) && !Schedules(s, Poll(w, mtime), v)
    ensures !Waiting(Next(s, Poll(w, mtime)), v) && Next(s, Poll(w, mtime)).runs == s.runs
  {
    var n := Next(s, Poll(w, mtime));
    PollNext(s, w, mtime, s.(clock := s.clock + 1, lastSeen := n.lastSeen), n);
  }

  lemma EmbedOther(s: State, e: Event, v: Vault)
    requires !Waiting(s, v) && Enabled(s, e) && (e.EmbedEnded? || (e.Fire? && s.armed[e.id] == EmbedTimer))
    ensures !Waiting(Next(s, e), v) && Next(s, e).runs == s.runs
  {
  }

  /** A vault that is not waiting is not indexed, and does not wait, unless an event schedules it. */
  lemma Unscheduled(s: State, e: Event, v: Vault)
    requires Inv(s) && Enabled(s, e) && !Waiting(s, v) && !Schedules(s, e, v)
    ensures !Waiting(Next(s, e), v) && !Begins(s, e, v)
  {
    match e
    case Change(w) => ChangeOther(s, w, v);
    case Poll(w, mtime) => PollOther(s, w, mtime, v);
    case Fire(id) =>
      match s.armed[id] {
        case IndexTimer(w) => FireOther(s, id, w, v);
        case EmbedTimer => EmbedOther(s, e, v);
      }
    case IndexEnded(run, ok) => EndIndexOther(s, run, ok, v);
    case EmbedEnded(_) => EmbedOther(s, e, v);
  }

  /** However long the watcher goes on, a vault that is not waiting and that nothing schedules is never indexed. */
  lemma {:induction false} NeverIndexed(s: State, es: seq<Event>, v: Vault)
    requires Inv(s) && Possible(s, es) && !Waiting(s, v) && !Scheduled(s, es, v)
    ensures !Waiting(After(s, es), v) && !Indexes(s, es, v)
    decreases |es|
  {
    if es != [] {
      Unscheduled(s, es[0], v);
      NextKeeps(s, es[0]);
      NeverIndexed(Next(s, es[0]), es[1..], v);
    }
  }

  lemma SchedulesWaits(s: State, e: Event, v: Vault)
    requires Schedules(s, e, v)
    ensures Waiting(Next(s, e), v)
  {
  }

  lemma {:induction false} ScheduledIndexes(s: State, es: seq<Event>, v: Vault)
    requires Inv(s) && Possible(s, es) && Scheduled(s, es, v) && !Waiting(After(s, es), v)
    ensures Indexes(s, es, v)
    decreases |es|
  {
    var t := Next(s, es[0]);
    NextKeeps(s, es[0]);
    if Schedules(s, es[0], v) {
      SchedulesWaits(s, es[0], v);
      WaitsOrIndexes(t, es[1..], v);
    } else {
      ScheduledIndexes(t, es[1..], v);
    }
  }

  /** On a run that comes to rest, a vault is indexed exactly if it was waiting or some event schedules it. */
  lemma IndexedIff(s: State, es: seq<Event>, v: Vault)
    requires Inv(s) && Possible(s, es) && Idle(After(s, es))
    ensures Indexes(s, es, v) <==> Waiting(s, v) || Scheduled(s, es, v)
  {
    RunKeeps(s, es);
    IdleIsDone(After(s, es));
    if Waiting(s, v) {
      WaitsOrIndexes(s, es, v);
    } else if Scheduled(s, es, v) {
      ScheduledIndexes(s, es, v);
    } else {
      NeverIndexed(s, es, v);
    }
  }

  /** A failed index run is not tried again for its own sake: from its end on, its vault is indexed again exactly if it
      was waiting then or a later event schedules it. A run fails when the process cannot be started; one that exits
      with an error counts as a success. */
  lemma RetriedIff(es: seq<Event>, run: int, v: Vault, fs: seq<Event>)
    requires Possible(INITIAL, es) && run in After(INITIAL, es).runs && After(INITIAL, es).runs[run] == v
    requires Possible(After(INITIAL, es), [IndexEnded(run, false)] + fs)
    requires Idle(After(After(INITIAL, es), [IndexEnded(run, false)] + fs))
    ensures var s, rest := After(INITIAL, es), [IndexEnded(run, false)] + fs;
            Indexes(s, rest, v) <==> Waiting(s, v) || Scheduled(s, rest, v)
  {
    InitialInv();
    RunKeeps(INITIAL, es);
    IndexedIff(After(INITIAL, es), [IndexEnded(run, false)] + fs, v);
  }

  /** So a change can go unindexed: the run it caused fails, and the watcher is at rest. */
  lemma FailedRunForgotten(v: Vault)
    ensures var es := [Change(v), Fire(0), IndexEnded(1, false)];
            && Possible(INITIAL, es)
            && Idle(After(INITIAL, es)) && After(INITIAL, es).indexedAt == 0
  {
    var es := [Change(v), Fire(0), IndexEnded(1, false)];
    var a := Next(INITIAL, es[0]);
    var b := Next(a, es[1]);
    var c := Next(b, es[2]);
    assert es[1..][1..] == [es[2]] && es[1..][1..][1..] == [];
    assert Possible(c, []) && Possible(b, [es[2]]) && After(b, [es[2]]) == c;
    assert After(a, es[1..]) == c;
  }
}
