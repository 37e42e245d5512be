/** The event loop of the vault watcher (infra/claude/oracle-psi-watcher.ts).

Each handler runs alone up to its first `await`; what it waits for comes back as a later event. A spawn that
throws at once is the event of the run failing, with nothing in between.
*/
module Watcher {

  import opened Wrappers

  /** A vault, by its root folder. Discovery joins a base and an entry, so the path is never empty and
      `shift` gives a falsy value only when the queue is empty. */
  datatype Vault = Vault(root: string)

  datatype Timer = IndexTimer(vault: Vault) | EmbedTimer

  /** The watcher's variables; then the event loop's timers and the runs being waited for; then a history:
      a clock of handler calls, when each vault last changed and last began to be indexed, when an index run
      last succeeded and when an embed pass last began. */
  datatype State = State(
    lastSeen: map<Vault, int>, debounce: map<Vault, int>, queue: seq<Vault>, indexing: bool,
    embedTimer: Option<int>, embedding: bool, embedPending: bool,
    armed: map<int, Timer>, runs: map<int, Vault>, passes: set<int>, nextId: int,
    clock: int, noted: map<Vault, int>, started: map<Vault, int>, indexedAt: int, embedAt: int)

  const INITIAL := State(map[], map[], [], false, None, false, false, map[], map[], {}, 0, 0, map[], map[], 0, 0)

  // ---- what the functions of the watcher do ----

  function ScheduleIndex(s: State, v: Vault): State {
    var armed := if v in s.debounce then s.armed - {s.debounce[v]} else s.armed;
    s.(armed := armed[s.nextId := IndexTimer(v)], debounce := s.debounce[v := s.nextId], nextId := s.nextId + 1,
       noted := s.noted[v := s.clock])
  }

  function Drain(s: State): State {
    if s.indexing || s.queue == [] then s
    else
      var v := s.queue[0];
      s.(queue := s.queue[1..], indexing := true, runs := s.runs[s.nextId := v], nextId := s.nextId + 1,
         started := s.started[v := s.clock])
  }

  function Push(queue: seq<Vault>, v: Vault): seq<Vault> {
    if v in queue then queue else queue + [v]
  }

  function Queued(s: State, v: Vault): State {
    s.(queue := Push(s.queue, v))
  }

  function Enqueue(s: State, v: Vault): State {
    Drain(Queued(s, v))
  }

  function ScheduleEmbed(s: State): State {
    var armed := if s.embedTimer.Some? then s.armed - {s.embedTimer.value} else s.armed;
    s.(armed := armed[s.nextId := EmbedTimer], embedTimer := Some(s.nextId), nextId := s.nextId + 1)
  }

  function RunEmbed(s: State): State {
    if s.embedding then s.(embedPending := true)
    else s.(embedding := true, passes := s.passes + {s.nextId}, nextId := s.nextId + 1, embedAt := s.clock)
  }

  // ---- events ----

  datatype Event =
    | Change(vault: Vault)
    | Poll(vault: Vault, mtime: int)
    | Fire(id: int)
    | IndexEnded(run: int, ok: bool)
    | EmbedEnded(pass: int)

  predicate Enabled(s: State, e: Event) {
    match e
    case Change(_) => true
    case Poll(_, _) => true
    case Fire(id) => id in s.armed
    case IndexEnded(run, _) => run in s.runs
    case EmbedEnded(pass) => pass in s.passes
  }

  /** The newest change the poll finds is newer than the one it saw before. */
  predicate Newer(s: State, v: Vault, mtime: int) {
    v in s.lastSeen && mtime > s.lastSeen[v]
  }

  function PollOne(s: State, v: Vault, mtime: int): State {
    var t := s.(lastSeen := if v !in s.lastSeen || Newer(s, v, mtime) then s.lastSeen[v := mtime] else s.lastSeen);
    if Newer(s, v, mtime) then ScheduleIndex(t, v) else t
  }

  function FireTimer(s: State, id: int): State
    requires id in s.armed
  {
    var t := s.(armed := s.armed - {id});
    match s.armed[id]
    case IndexTimer(v) => Enqueue(t.(debounce := s.debounce - {v}), v)
    case EmbedTimer => RunEmbed(t.(embedTimer := None))
  }

  function EndIndex(s: State, run: int, ok: bool): State {
    var t := s.(runs := s.runs - {run});
    var u := if ok then ScheduleEmbed(t).(indexedAt := s.clock) else t;
    Drain(u.(indexing := false))
  }

  function EndEmbed(s: State, pass: int): State {
    var t := s.(passes := s.passes - {pass}, embedding := false);
    if t.embedPending then ScheduleEmbed(t.(embedPending := false)) else t
  }

  function Next(s: State, e: Event): State
    requires Enabled(s, e)
  {
    var t := s.(clock := s.clock + 1);
    match e
    case Change(v) => ScheduleIndex(t, v)
    case Poll(v, mtime) => PollOne(t, v, mtime)
    case Fire(id) => FireTimer(t, id)
    case IndexEnded(run, ok) => EndIndex(t, run, ok)
    case EmbedEnded(pass) => EndEmbed(t, pass)
  }

  lemma FireIndex(s: State, id: int, v: Vault, t: State)
    requires id in s.armed && s.armed[id] == IndexTimer(v)
    requires t == s.(clock := s.clock + 1, armed := s.armed - {id}, debounce := s.debounce - {v})
    ensures Next(s, Fire(id)) == Enqueue(t, v)
  {
    var u := s.(clock := s.clock + 1);
    assert FireTimer(u, id) == Enqueue(t, v) by {
      assert t == u.(armed := s.armed - {id}).(debounce := s.debounce - {v});
    }
  }

  lemma FireEmbed(s: State, id: int)
    requires id in s.armed && s.armed[id] == EmbedTimer
    ensures Next(s, Fire(id)) == RunEmbed(s.(clock := s.clock + 1, armed := s.armed - {id}, embedTimer := None))
  {
  }

  lemma EndThenDrain(s: State, t: State, run: int, ok: bool, u: State)
    requires run in s.runs && t == s.(clock := s.clock + 1, runs := s.runs - {run})
    requires u == (if ok then ScheduleEmbed(t).(indexedAt := t.clock) else t).(indexing := false)
    ensures Next(s, IndexEnded(run, ok)) == Drain(u)
  {
  }

  // ---- the watcher itself ----

  class PsiWatcher {
    var lastSeen: map<Vault, int>
    var debounce: map<Vault, int>
    var queue: seq<Vault>
    var indexing: bool
    var embedTimer: Option<int>
    var embedding: bool
    var embedPending: bool
    // the event loop: pending timers, spawned index runs and embed passes
    var armed: map<int, Timer>
    var runs: map<int, Vault>
    var passes: set<int>
    var nextId: int
    ghost var clock: int
    ghost var noted: map<Vault, int>
    ghost var started: map<Vault, int>
    ghost var indexedAt: int
    ghost var embedAt: int

    ghost function Now(): State
      reads this
    {
      State(lastSeen, debounce, queue, indexing, embedTimer, embedding, embedPending,
            armed, runs, passes, nextId, clock, noted, started, indexedAt, embedAt)
    }

    constructor ()
      ensures Now() == INITIAL
    {
      lastSeen, debounce, queue, indexing := map[], map[], [], false;
      embedTimer, embedding, embedPending := None, false, false;
      armed, runs, passes, nextId := map[], map[], {}, 0;
      clock, noted, started, indexedAt, embedAt := 0, map[], map[], 0, 0;
    }

    method SetTimeout(t: Timer) returns (id: int)
      modifies this`armed, this`nextId
      ensures id == old(nextId) && nextId == id + 1 && armed == old(armed)[id := t]
    {
      id := nextId;
      armed := armed[id := t];
      nextId := nextId + 1;
    }

    method ClearTimeout(id: int)
      modifies this`armed
      ensures armed == old(armed) - {id}
    {
      armed := armed - {id};
    }

    method ScheduleIndexOf(v: Vault)
      modifies this
      ensures Now() == ScheduleIndex(old(Now()), v)
    {
      if v in debounce {
        ClearTimeout(debounce[v]);
      }
      var id := SetTimeout(IndexTimer(v));
      debounce := debounce[v := id];
      noted := noted[v := clock];
    }

    method DrainQueue()
      modifies this
      ensures Now() == Drain(old(Now()))
    {
      if indexing {
        return;
      }
      if queue == [] {
        return;
      }
      var v := queue[0];
      queue := queue[1..];
      indexing := true;
      runs := runs[nextId := v];
      nextId := nextId + 1;
      started := started[v := clock];
    }

    method EnqueueVault(v: Vault)
      modifies this
      ensures Now() == Enqueue(old(Now()), v)
    {
      if v !in queue {
        queue := queue + [v];
      }
      DrainQueue();
    }

    method ScheduleEmbedPass()
      modifies this
      ensures Now() == ScheduleEmbed(old(Now()))
    {
      if embedTimer.Some? {
        ClearTimeout(embedTimer.value);
      }
      var id := SetTimeout(EmbedTimer);
      embedTimer := Some(id);
    }

    method StartEmbed()
      modifies this
      ensures Now() == RunEmbed(old(Now()))
    {
      if embedding {
        embedPending := true;
        return;
      }
      embedding := true;
      passes := passes + {nextId};
      nextId := nextId + 1;
      embedAt := clock;
    }

    /** A memory file of the vault changed. */
    method OnChange(v: Vault)
      modifies this
      ensures Now() == Next(old(Now()), Change(v))
    {
      clock := clock + 1;
      ScheduleIndexOf(v);
    }

    method OnTimer(id: int)
      requires id in armed
      modifies this
      ensures Now() == Next(old(Now()), Fire(id))
    {
      match armed[id] {
        case IndexTimer(v) => DebounceFires(id, v);
        case EmbedTimer => EmbedFires(id);
      }
    }

    /** The callback `scheduleIndex` arms. */
    method DebounceFires(id: int, v: Vault)
      requires id in armed && armed[id] == IndexTimer(v)
      modifies this
      ensures Now() == Next(old(Now()), Fire(id))
    {
      clock := clock + 1;
      armed := armed - {id};
      debounce := debounce - {v};
      FireIndex(old(Now()), id, v, Now());
      EnqueueVault(v);
    }

    /** The callback `scheduleEmbed` arms. */
    method EmbedFires(id: int)
      requires id in armed && armed[id] == EmbedTimer
      modifies this
      ensures Now() == Next(old(Now()), Fire(id))
    {
      clock := clock + 1;
      armed := armed - {id};
      embedTimer := None;
      FireEmbed(old(Now()), id);
      StartEmbed();
    }

    /** The index run exits, or fails: the end of `drain`. */
    method OnIndexEnd(run: int, ok: bool)
      requires run in runs
      modifies this
      ensures Now() == Next(old(Now()), IndexEnded(run, ok))
    {
      clock := clock + 1;
      runs := runs - {run};
      ghost var t := Now();
      if ok {
        ScheduleEmbedPass();
        indexedAt := clock;
      }
      EndThenDrain(old(Now()), t, run, ok, Now().(indexing := false));
      FinishIndex();
    }

    /** The `finally` of `drain`. */
    method FinishIndex()
      modifies this
      ensures Now() == Drain(old(Now()).(indexing := false))
    {
      indexing := false;
      if queue != [] {
        DrainQueue();
      }
    }

    /** The embed pass ends, well or not: the `finally` of `runEmbed`. */
    method OnEmbedEnd(pass: int)
      requires pass in passes
      modifies this
      ensures Now() == Next(old(Now()), EmbedEnded(pass))
    {
      clock := clock + 1;
      passes := passes - {pass};
      embedding := false;
      if embedPending {
        embedPending := false;
        ScheduleEmbedPass();
      }
    }

    /** `reconcile` for one vault and its newest change. */
    method OnPoll(v: Vault, mtime: int)
      modifies this
      ensures Now() == Next(old(Now()), Poll(v, mtime))
    {
      clock := clock + 1;
      if v !in lastSeen {
        lastSeen := lastSeen[v := mtime];
      } else if mtime > lastSeen[v] {
        lastSeen := lastSeen[v := mtime];
        ScheduleIndexOf(v);
      }
    }

    /** `reconcile` over the vaults found and the newest change in each. */
    method Reconcile(found: seq<(Vault, int)>)
      modifies this
      ensures Now() == PollAll(old(Now()), found)
    {
      for i := 0 to |found|
        invariant Now() == PollAll(old(Now()), found[..i])
      {
        OnPoll(found[i].0, found[i].1);
        assert found[..i + 1][..i] == found[..i];
      }
      assert found[..|found|] == found;
    }
  }

  function PollAll(s: State, found: seq<(Vault, int)>): State {
    if found == [] then s
    else
      var (v, mtime) := found[|found| - 1];
      Next(PollAll(s, found[..|found| - 1]), Poll(v, mtime))
  }
}
