/** What every interleaving of watcher events keeps, what an idle watcher has done, and why it becomes idle. */
module WatcherLaws {
  import opened Watcher
  import opened Wrappers

  // ---- the invariant ----

  /** The handles the watcher holds are exactly the timers armed. */
  ghost predicate TimersAgree(s: State) {
    && (forall v :: v in s.debounce ==> s.debounce[v] in s.armed && s.armed[s.debounce[v]] == IndexTimer(v))
    && (forall id :: id in s.armed ==>
         match s.armed[id]
         case IndexTimer(v) => v in s.debounce && s.debounce[v] == id
         case EmbedTimer => s.embedTimer == Some(id))
    && (s.embedTimer.Some? ==> s.embedTimer.value in s.armed && s.armed[s.embedTimer.value] == EmbedTimer)
    && (forall id :: id in s.armed ==> id < s.nextId)
  }

  /** One index run at a time, and the flag says whether there is one. */
  ghost predicate OneRun(s: State) {
    && (forall r, q :: r in s.runs && q in s.runs ==> r == q)
    && (forall r :: r in s.runs ==> r < s.nextId)
    && (s.indexing <==> exists r :: r in s.runs)
    && (forall i, j :: 0 <= i < j < |s.queue| ==> s.queue[i] != s.queue[j])
  }

  /** One embed pass at a time, and the flag says whether there is one. */
  ghost predicate OnePass(s: State) {
    && (forall p, q :: p in s.passes && q in s.passes ==> p == q)
    && (forall p :: p in s.passes ==> p < s.nextId)
    && (s.embedding <==> exists p :: p in s.passes)
    && (s.embedPending ==> s.embedding)
  }

  predicate NotStranded(s: State) {
    s.queue != [] ==> s.indexing
  }

  ghost predicate Past(s: State) {
    && (forall v :: v in s.noted ==> s.noted[v] <= s.clock)
    && 0 <= s.indexedAt <= s.clock
    && 0 <= s.embedAt <= s.clock
  }

  /** The latest change of `v` is waiting, or an index run began after it. */
  predicate Kept(s: State, v: Vault) {
    v in s.debounce || v in s.queue || (v in s.noted && v in s.started && s.noted[v] < s.started[v])
  }

  ghost predicate NoneLost(s: State) {
    forall v :: v in s.noted ==> Kept(s, v)
  }

  /** An index run that succeeded after the last embed pass began has an embed pass to come. */
  predicate Covered(s: State) {
    s.indexedAt > s.embedAt ==> s.embedTimer.Some? || s.embedPending
  }

  ghost predicate Inv(s: State) {
    TimersAgree(s) && OneRun(s) && OnePass(s) && NotStranded(s) && Past(s) && NoneLost(s) && Covered(s)
  }

  lemma InitialInv()
    ensures Inv(INITIAL)
  {
  }

  // ---- each function of the watcher ----

  ghost predicate Sound(s: State) {
    TimersAgree(s) && OneRun(s) && OnePass(s) && Past(s)
  }

  lemma ScheduleIndexTimers(s: State, v: Vault)
    requires TimersAgree(s)
    ensures TimersAgree(ScheduleIndex(s, v))
  {
  }

  lemma ScheduleIndexKeeps(s: State, v: Vault)
    requires Sound(s) && NotStranded(s) && NoneLost(s) && Covered(s)
    ensures Inv(ScheduleIndex(s, v))
  {
    ScheduleIndexTimers(s, v);
    var t := ScheduleIndex(s, v);
    assert NoneLost(t) by {
      forall w | w in t.noted ensures Kept(t, w) {
        assert w != v ==> Kept(s, w);
      }
    }
  }

  lemma ScheduleEmbedTimers(s: State)
    requires TimersAgree(s)
    ensures TimersAgree(ScheduleEmbed(s))
  {
  }

  lemma DrainRuns(s: State)
    requires OneRun(s)
    ensures OneRun(Drain(s)) && NotStranded(Drain(s))
  {
    if !s.indexing && s.queue != [] {
      assert s.nextId in Drain(s).runs;
    }
  }

  /** Taking a vault off the queue begins its run after every change noted so far. */
  lemma DrainLosesNone(s: State)
    requires NoneLost(s)
    requires forall v :: v in s.noted ==> s.noted[v] < s.clock
    ensures NoneLost(Drain(s))
  {
    var t := Drain(s);
    if !s.indexing && s.queue != [] {
      forall v | v in t.noted ensures Kept(t, v) {
        assert Kept(s, v);
        if v in s.queue && v != s.queue[0] {
          assert v in s.queue[1..];
        }
      }
    }
  }

  lemma QueueRuns(s: State, v: Vault)
    requires OneRun(s) && v !in s.queue
    ensures OneRun(s.(queue := s.queue + [v]))
  {
  }

  /** What no function about index runs touches. */
  lemma DrainFrame(s: State)
    ensures var t := Drain(s);
            && t.debounce == s.debounce && t.armed == s.armed && t.embedTimer == s.embedTimer
            && t.embedding == s.embedding && t.embedPending == s.embedPending && t.passes == s.passes
            && s.nextId <= t.nextId && t.clock == s.clock && t.noted == s.noted
            && t.indexedAt == s.indexedAt && t.embedAt == s.embedAt
  {
  }

  lemma DrainKeeps(s: State)
    requires Sound(s) && Covered(s) && NoneLost(s)
    requires forall v :: v in s.noted ==> s.noted[v] < s.clock
    ensures Inv(Drain(s))
  {
    DrainRuns(s);
    DrainLosesNone(s);
    DrainFrame(s);
  }

  // ---- each event ----

  /** The clock has moved on: everything noted is in the past. */
  function Tick(s: State): State {
    s.(clock := s.clock + 1)
  }

  /** The debounce timer of `v` has fired. */
  function Fired(s: State, id: int, v: Vault): State {
    s.(clock := s.clock + 1, armed := s.armed - {id}, debounce := s.debounce - {v})
  }

  lemma FireDrains(s: State, id: int, v: Vault, t: State, u: State)
    requires id in s.armed && s.armed[id] == IndexTimer(v) && t == Fired(s, id, v) && u == Queued(t, v)
    ensures Next(s, Fire(id)) == Drain(u)
  {
    FireIndex(s, id, v, t);
  }

  lemma FiredTimers(s: State, id: int, v: Vault)
    requires TimersAgree(s) && id in s.armed && s.armed[id] == IndexTimer(v)
    ensures TimersAgree(Fired(s, id, v))
  {
    var t := Fired(s, id, v);
    forall w | w in t.debounce
      ensures t.debounce[w] in t.armed && t.armed[t.debounce[w]] == IndexTimer(w)
    {
      assert s.armed[s.debounce[w]] == IndexTimer(w);
    }
  }

  lemma QueuedLosesNone(s: State, id: int, v: Vault, t: State, u: State)
    requires NoneLost(s) && t == Fired(s, id, v) && u == Queued(t, v)
    ensures NoneLost(u)
  {
    assert forall w :: w in s.queue ==> w in u.queue;
    assert v in u.queue;
    forall w | w in u.noted ensures Kept(u, w) {
      assert Kept(s, w);
    }
  }

  lemma QueuedSound(s: State, v: Vault)
    requires Sound(s)
    ensures Sound(Queued(s, v))
  {
    if v !in s.queue {
      QueueRuns(s, v);
    }
  }

  lemma FiredKeeps(s: State, id: int, v: Vault, t: State)
    requires Inv(s) && id in s.armed && s.armed[id] == IndexTimer(v) && t == Fired(s, id, v)
    ensures Sound(t) && Covered(t) && forall w :: w in t.noted ==> t.noted[w] < t.clock
  {
    FiredTimers(s, id, v);
  }

  lemma QueuedFrame(t: State, v: Vault)
    ensures var u := Queued(t, v);
            && u.indexedAt == t.indexedAt && u.embedAt == t.embedAt && u.embedTimer == t.embedTimer
            && u.embedPending == t.embedPending && u.noted == t.noted && u.clock == t.clock
  {
  }

  lemma FireIndexKeeps(s: State, id: int, v: Vault)
    requires Inv(s) && id in s.armed && s.armed[id] == IndexTimer(v)
    ensures Inv(Next(s, Fire(id)))
  {
    var t := Fired(s, id, v);
    var u := Queued(t, v);
    FireDrains(s, id, v, t, u);
    FiredKeeps(s, id, v, t);
    QueuedSound(t, v);
    QueuedLosesNone(s, id, v, t, u);
    QueuedFrame(t, v);
    DrainKeeps(u);
  }

  lemma FireEmbedKeeps(s: State, id: int)
    requires Inv(s) && id in s.armed && s.armed[id] == EmbedTimer
    ensures Inv(Next(s, Fire(id)))
  {
    FireEmbed(s, id);
    var t := s.(clock := s.clock + 1, armed := s.armed - {id}, embedTimer := None);
    var u := RunEmbed(t);
    assert OnePass(u) by {
      assert !s.embedding ==> t.nextId in u.passes;
    }
    assert NoneLost(u) by {
      forall w | w in u.noted ensures Kept(u, w) {
        assert Kept(s, w);
      }
    }
  }

  lemma EndIndexKeeps(s: State, run: int, ok: bool)
    requires Inv(s) && run in s.runs
    ensures Inv(Next(s, IndexEnded(run, ok)))
  {
    var t := s.(clock := s.clock + 1, runs := s.runs - {run});
    var u := (if ok then ScheduleEmbed(t).(indexedAt := t.clock) else t).(indexing := false);
    EndThenDrain(s, t, run, ok, u);
    EndIndexSound(s, t, run, ok, u);
    DrainKeeps(u);
  }

  lemma EndIndexSound(s: State, t: State, run: int, ok: bool, u: State)
    requires Inv(s) && run in s.runs
    requires t == s.(clock := s.clock + 1, runs := s.runs - {run})
    requires u == (if ok then ScheduleEmbed(t).(indexedAt := t.clock) else t).(indexing := false)
    ensures Sound(u) && Covered(u) && NoneLost(u)
    ensures forall v :: v in u.noted ==> u.noted[v] < u.clock
  {
    assert TimersAgree(u) by {
      assert TimersAgree(t);
      ScheduleEmbedTimers(t);
    }
    assert NoneLost(u) by {
      forall w | w in u.noted ensures Kept(u, w) {
        assert Kept(s, w);
      }
    }
  }

  lemma EndEmbedKeeps(s: State, pass: int)
    requires Inv(s) && pass in s.passes
    ensures Inv(Next(s, EmbedEnded(pass)))
  {
    var t := s.(clock := s.clock + 1, passes := s.passes - {pass}, embedding := false, embedPending := false);
    var u := if s.embedPending then ScheduleEmbed(t) else t;
    assert u == Next(s, EmbedEnded(pass));
    assert TimersAgree(u) by {
      assert TimersAgree(t);
      ScheduleEmbedTimers(t);
    }
    assert NoneLost(u) by {
      forall w | w in u.noted ensures Kept(u, w) {
        assert Kept(s, w);
      }
    }
  }

  lemma TickKeeps(s: State)
    requires Inv(s)
    ensures Inv(Tick(s))
  {
    forall w | w in s.noted ensures Kept(Tick(s), w) {
      assert Kept(s, w);
    }
  }

  lemma SeenKeeps(s: State, seen: map<Vault, int>)
    requires Inv(s)
    ensures Inv(s.(lastSeen := seen))
  {
    forall w | w in s.noted ensures Kept(s.(lastSeen := seen), w) {
      assert Kept(s, w);
    }
  }

  lemma PollKeeps(s: State, v: Vault, mtime: int)
    requires Inv(s)
    ensures Inv(Next(s, Poll(v, mtime)))
  {
    TickKeeps(s);
    var t := Tick(s);
    var seen := if v !in t.lastSeen || Newer(t, v, mtime) then t.lastSeen[v := mtime] else t.lastSeen;
    SeenKeeps(t, seen);
    if Newer(t, v, mtime) {
      ScheduleIndexKeeps(t.(lastSeen := seen), v);
    }
  }

  lemma NextKeeps(s: State, e: Event)
    requires Inv(s) && Enabled(s, e)
    ensures Inv(Next(s, e))
  {
    match e
    case Change(v) =>
      TickKeeps(s);
      ScheduleIndexKeeps(Tick(s), v);
    case Poll(v, mtime) => PollKeeps(s, v, mtime);
    case Fire(id) =>
      match s.armed[id] {
        case IndexTimer(v) => FireIndexKeeps(s, id, v);
        case EmbedTimer => FireEmbedKeeps(s, id);
      }
    case IndexEnded(run, ok) => EndIndexKeeps(s, run, ok);
    case EmbedEnded(pass) => EndEmbedKeeps(s, pass);
  }
}
