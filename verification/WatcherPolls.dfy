/** What the watcher does at each event, told of the events and the timers and runs that can be seen from outside. */
module WatcherPolls {
  import opened Wrappers
  import opened Watcher
  import opened WatcherLaws
  import opened WatcherRuns

  // ---- polls ----

  /** Some earlier event is a poll of `v`. */
  predicate Polled(es: seq<Event>, v: Vault) {
    exists i :: 0 <= i < |es| && es[i].Poll? && es[i].vault == v
  }

  /** The time is later than every poll of `v` found. */
  predicate Latest(es: seq<Event>, v: Vault, mtime: int) {
    forall i | 0 <= i < |es| && es[i].Poll? && es[i].vault == v :: mtime > es[i].mtime
  }

  /** The watcher remembers of each vault it has polled the latest time found. */
  ghost predicate Remembers(s: State, es: seq<Event>) {
    (forall v :: v in s.lastSeen <==> Polled(es, v)) &&
    (forall v, m | v in s.lastSeen :: m > s.lastSeen[v] <==> Latest(es, v, m))
  }

  lemma PolledNext(es: seq<Event>, e: Event, v: Vault)
    ensures Polled(es + [e], v) <==> Polled(es, v) || (e.Poll? && e.vault == v)
  {
    var all := es + [e];
    assert forall i | 0 <= i < |es| :: all[i] == es[i];
    assert all[|es|] == e;
  }

  lemma LatestNext(es: seq<Event>, e: Event, v: Vault, m: int)
    ensures Latest(es + [e], v, m) <==> Latest(es, v, m) && (e.Poll? && e.vault == v ==> m > e.mtime)
  {
    var all := es + [e];
    assert forall i | 0 <= i < |es| :: all[i] == es[i];
    assert all[|es|] == e;
  }

  lemma DrainSeen(s: State)
    ensures Drain(s).lastSeen == s.lastSeen
  {
  }

  /** No event but a poll changes what is remembered. */
  lemma SeenKept(s: State, e: Event)
    requires Enabled(s, e) && !e.Poll?
    ensures Next(s, e).lastSeen == s.lastSeen
  {
    match e
    case Fire(id) =>
      match s.armed[id] {
        case IndexTimer(w) =>
          var t := Fired(s, id, w);
          FireDrains(s, id, w, t, Queued(t, w));
          DrainSeen(Queued(t, w));
        case EmbedTimer => FireEmbed(s, id);
      }
    case IndexEnded(run, ok) =>
      var t := s.(clock := s.clock + 1, runs := s.runs - {run});
      var u := (if ok then ScheduleEmbed(t).(indexedAt := t.clock) else t).(indexing := false);
      EndThenDrain(s, t, run, ok, u);
      DrainSeen(u);
    case _ =>
  }

  lemma PollSeen(s: State, v: Vault, mtime: int)
    ensures Next(s, Poll(v, mtime)).lastSeen ==
      if v !in s.lastSeen || mtime > s.lastSeen[v] then s.lastSeen[v := mtime] else s.lastSeen
  {
  }

  lemma RemembersPoll(seen: map<Vault, int>, es: seq<Event>, v: Vault, mtime: int, w: Vault)
    requires w in seen <==> Polled(es, w)
    requires w in seen ==> forall m :: m > seen[w] <==> Latest(es, w, m)
    ensures var after := if v !in seen || mtime > seen[v] then seen[v := mtime] else seen;
            && (w in after <==> Polled(es + [Poll(v, mtime)], w))
            && (w in after ==> forall m :: m > after[w] <==> Latest(es + [Poll(v, mtime)], w, m))
  {
    PolledNext(es, Poll(v, mtime), w);
    forall m ensures Latest(es + [Poll(v, mtime)], w, m) <==> Latest(es, w, m) && (v == w ==> m > mtime) {
      LatestNext(es, Poll(v, mtime), w, m);
    }
  }

  lemma RemembersOther(s: State, es: seq<Event>, e: Event, t: State)
    requires Remembers(s, es) && !e.Poll? && t.lastSeen == s.lastSeen
    ensures Remembers(t, es + [e])
  {
    forall v ensures v in t.lastSeen <==> Polled(es + [e], v) {
      PolledNext(es, e, v);
    }
    forall v, m | v in t.lastSeen ensures m > t.lastSeen[v] <==> Latest(es + [e], v, m) {
      LatestNext(es, e, v, m);
    }
  }

  lemma RemembersNext(s: State, es: seq<Event>, e: Event)
    requires Remembers(s, es) && Enabled(s, e)
    ensures Remembers(Next(s, e), es + [e])
  {
    if e.Poll? {
      PollSeen(s, e.vault, e.mtime);
      var t := Next(s, e);
      forall w ensures w in t.lastSeen <==> Polled(es + [e], w) {
        RemembersPoll(s.lastSeen, es, e.vault, e.mtime, w);
      }
      forall w, m | w in t.lastSeen ensures m > t.lastSeen[w] <==> Latest(es + [e], w, m) {
        RemembersPoll(s.lastSeen, es, e.vault, e.mtime, w);
      }
    } else {
      SeenKept(s, e);
      RemembersOther(s, es, e, Next(s, e));
    }
  }

  lemma {:induction false} RemembersAll(s: State, past: seq<Event>, es: seq<Event>)
    requires Remembers(s, past) && Possible(s, es)
    ensures Remembers(After(s, es), past + es)
    decreases |es|
  {
    if es == [] {
      assert past + es == past;
    } else {
      RemembersNext(s, past, es[0]);
      RemembersAll(Next(s, es[0]), past + [es[0]], es[1..]);
      assert past + [es[0]] + es[1..] == past + es;
    }
  }

  /** The event arms a new timer for `v` in place of any it had, and touches no other timer, nor queue nor run. */
  ghost predicate Arms(s: State, t: State, v: Vault) {
    && s.nextId !in s.armed && s.nextId in t.armed && t.armed[s.nextId] == IndexTimer(v)
    && (forall id | id in t.armed && id != s.nextId :: id in s.armed && t.armed[id] == s.armed[id] != IndexTimer(v))
    && (forall id | id in s.armed && s.armed[id] != IndexTimer(v) :: id in t.armed)
    && t.queue == s.queue && t.runs == s.runs && t.passes == s.passes
  }

  ghost predicate Untouched(s: State, t: State) {
    t.armed == s.armed && t.debounce == s.debounce && t.queue == s.queue && t.runs == s.runs && t.passes == s.passes
  }

  lemma ScheduleArms(s: State, v: Vault, seen: map<Vault, int>)
    requires TimersAgree(s)
    ensures Arms(s, ScheduleIndex(s.(clock := s.clock + 1, lastSeen := seen), v), v)
  {
  }

  /** A change always arms a new timer for its vault, so that a burst of changes is indexed once it is over. */
  lemma ChangeArms(es: seq<Event>, v: Vault)
    requires Possible(INITIAL, es)
    ensures Arms(After(INITIAL, es), Next(After(INITIAL, es), Change(v)), v)
  {
    InitialInv();
    RunKeeps(INITIAL, es);
    ScheduleArms(After(INITIAL, es), v, After(INITIAL, es).lastSeen);
  }

  /** A poll arms a new timer for its vault exactly if an earlier event was a poll of the vault and this one finds a
      later time than every one of them did; otherwise it touches nothing. */
  lemma PollArmsIff(es: seq<Event>, v: Vault, mtime: int)
    requires Possible(INITIAL, es)
    ensures var s := After(INITIAL, es);
            var t := Next(s, Poll(v, mtime));
            if Polled(es, v) && Latest(es, v, mtime) then Arms(s, t, v) else Untouched(s, t)
  {
    InitialInv();
    RunKeeps(INITIAL, es);
    RemembersAll(INITIAL, [], es);
    assert [] + es == es;
    var s := After(INITIAL, es);
    var t := Next(s, Poll(v, mtime));
    PollNext(s, v, mtime, s.(clock := s.clock + 1, lastSeen := t.lastSeen), t);
    ScheduleArms(s, v, t.lastSeen);
  }

  /** On a run that comes to rest, a poll that finds a vault changed is followed by an index run of it. */
  lemma PollIndexes(es: seq<Event>, v: Vault, mtime: int, fs: seq<Event>)
    requires Possible(INITIAL, es) && Polled(es, v) && Latest(es, v, mtime)
    requires Possible(Next(After(INITIAL, es), Poll(v, mtime)), fs)
    requires Idle(After(Next(After(INITIAL, es), Poll(v, mtime)), fs))
    ensures Indexes(Next(After(INITIAL, es), Poll(v, mtime)), fs, v)
  {
    InitialInv();
    RunKeeps(INITIAL, es);
    var s := After(INITIAL, es);
    var t := Next(s, Poll(v, mtime));
    NextKeeps(s, Poll(v, mtime));
    PollArmsIff(es, v, mtime);
    assert v in t.debounce;
    RunKeeps(t, fs);
    IdleIsDone(After(t, fs));
    WaitsOrIndexes(t, fs, v);
  }

  /** In a reachable state the watcher's test for a newer change is the one on the polls so far. */
  lemma NewerIff(es: seq<Event>, v: Vault, mtime: int)
    requires Possible(INITIAL, es)
    ensures Newer(After(INITIAL, es), v, mtime) <==> Polled(es, v) && Latest(es, v, mtime)
  {
    RemembersAll(INITIAL, [], es);
    assert [] + es == es;
  }

  // ---- timers firing and runs ending ----

  /** A debounce timer that fires begins an index run at once if none is under way; otherwise its vault goes to the end
      of the queue, if it is not in it. */
  lemma DebounceFires(s: State, id: int, v: Vault)
    requires Inv(s) && id in s.armed && s.armed[id] == IndexTimer(v)
    ensures var t := Next(s, Fire(id));
            && t.armed == s.armed - {id} && t.passes == s.passes
            && if s.runs == map[] then t.queue == [] && t.runs == map[s.nextId := v]
               else t.runs == s.runs && t.queue == if v in s.queue then s.queue else s.queue + [v]
  {
    var t := Fired(s, id, v);
    var u := Queued(t, v);
    FireDrains(s, id, v, t, u);
    DrainFrame(u);
    RunsIff(s);
    DrainStarts(u);
  }

  lemma RunsIff(s: State)
    requires OneRun(s)
    ensures s.indexing <==> s.runs != map[]
  {
    if s.runs.Keys != {} {
      var r := Member(s.runs.Keys);
    }
    assert |s.runs.Keys| == |s.runs|;
  }

  lemma PassesIff(s: State)
    requires OnePass(s)
    ensures s.embedding <==> s.passes != {}
  {
    if s.passes != {} {
      var p := Member(s.passes);
    }
  }

  lemma DrainStarts(u: State)
    ensures u.indexing || u.queue == [] ==> Drain(u) == u
    ensures !u.indexing && u.queue != [] ==>
              Drain(u).queue == u.queue[1..] && Drain(u).runs == u.runs[u.nextId := u.queue[0]]
  {
  }

  lemma NoRuns(s: State, run: int)
    requires OneRun(s) && run in s.runs
    ensures s.runs - {run} == map[]
  {
    var left := s.runs - {run};
    if left.Keys != {} {
      var r := Member(left.Keys);
      assert false;
    }
    assert |left.Keys| == |left|;
  }

  lemma NoPasses(s: State, pass: int)
    requires OnePass(s) && pass in s.passes
    ensures s.passes - {pass} == {}
  {
    if s.passes - {pass} != {} {
      var p := Member(s.passes - {pass});
      assert false;
    }
  }

  /** When an index run ends, the vault that has waited longest is indexed next; and if it ended well, a new embed timer
      is armed in place of any there was, so that a burst of index runs is embedded once it is over. */
  lemma IndexEnds(s: State, run: int, ok: bool)
    requires Inv(s) && run in s.runs
    ensures var t := Next(s, IndexEnded(run, ok));
            && (if s.queue == [] then t.runs == map[] && t.queue == []
                else t.queue == s.queue[1..] && exists r :: r !in s.runs && t.runs == map[r := s.queue[0]])
            && (!ok ==> t.armed == s.armed)
            && (ok ==> s.nextId !in s.armed && s.nextId in t.armed
                       && forall id | id in t.armed :: t.armed[id] == EmbedTimer <==> id == s.nextId)
            && (forall id | id in s.armed && s.armed[id] != EmbedTimer :: id in t.armed && t.armed[id] == s.armed[id])
  {
    var t := s.(clock := s.clock + 1, runs := s.runs - {run});
    var u := (if ok then ScheduleEmbed(t).(indexedAt := t.clock) else t).(indexing := false);
    EndThenDrain(s, t, run, ok, u);
    NoRuns(s, run);
    DrainFrame(u);
    DrainStarts(u);
    EndArms(s, t, ok, u);
    assert u.nextId !in s.runs;
  }

  lemma EndArms(s: State, t: State, ok: bool, u: State)
    requires TimersAgree(s) && t.armed == s.armed && t.embedTimer == s.embedTimer && t.nextId == s.nextId
    requires u == (if ok then ScheduleEmbed(t).(indexedAt := t.clock) else t).(indexing := false)
    ensures s.nextId <= u.nextId && u.queue == t.queue && u.runs == t.runs
    ensures !ok ==> u.armed == s.armed
    ensures ok ==> s.nextId !in s.armed && s.nextId in u.armed
                   && forall id | id in u.armed :: u.armed[id] == EmbedTimer <==> id == s.nextId
    ensures forall id | id in s.armed && s.armed[id] != EmbedTimer :: id in u.armed && u.armed[id] == s.armed[id]
  {
  }

  /** An embed timer that fires begins a pass, or, while one is under way, asks for another after it. */
  lemma EmbedFires(s: State, id: int)
    requires Inv(s) && id in s.armed && s.armed[id] == EmbedTimer
    ensures var t := Next(s, Fire(id));
            && t.armed == s.armed - {id} && t.runs == s.runs && t.queue == s.queue
            && if s.passes == {} then t.passes == {s.nextId} else t.passes == s.passes && t.embedPending
  {
    FireEmbed(s, id);
    PassesIff(s);
  }

  /** A pass that ends, well or not, arms an embed timer exactly if another was asked for. */
  lemma EmbedEnds(s: State, pass: int)
    requires Inv(s) && pass in s.passes
    ensures var t := Next(s, EmbedEnded(pass));
            && t.passes == {} && !t.embedPending && t.runs == s.runs && t.queue == s.queue
            && (!s.embedPending ==> t.armed == s.armed)
            && (s.embedPending ==> s.nextId in t.armed && t.armed[s.nextId] == EmbedTimer)
  {
    NoPasses(s, pass);
  }

  // ---- when a pass begins ----

  predicate Succeeds(es: seq<Event>) {
    exists i :: 0 <= i < |es| && es[i].IndexEnded? && es[i].ok
  }

  lemma SucceedsFirst(es: seq<Event>)
    requires es != []
    ensures Succeeds(es) <==> (es[0].IndexEnded? && es[0].ok) || Succeeds(es[1..])
  {
    assert forall i | 0 < i < |es| :: es[i] == es[1..][i - 1];
  }

  /** With no pass to come, none begins and none is asked for unless an index run succeeds. */
  lemma NoPassOn(s: State, e: Event)
    requires Inv(s) && Enabled(s, e) && !PassToCome(s) && !(e.IndexEnded? && e.ok)
    ensures !PassToCome(Next(s, e)) && Next(s, e).passes <= s.passes
  {
    match e
    case Change(_) =>
    case Poll(_, _) =>
    case Fire(id) =>
      if s.armed[id].IndexTimer? {
        var w := s.armed[id].vault;
        var t := Fired(s, id, w);
        FireDrains(s, id, w, t, Queued(t, w));
        DrainFrame(Queued(t, w));
      }
    case IndexEnded(run, ok) =>
      var t := s.(clock := s.clock + 1, runs := s.runs - {run});
      EndThenDrain(s, t, run, ok, t.(indexing := false));
      DrainFrame(t.(indexing := false));
    case EmbedEnded(_) =>
  }

  lemma {:induction false} NeverEmbeds(s: State, es: seq<Event>)
    requires Inv(s) && Possible(s, es) && !PassToCome(s) && !Succeeds(es)
    ensures !Embeds(s, es)
    decreases |es|
  {
    if es != [] {
      SucceedsFirst(es);
      NoPassOn(s, es[0]);
      NextKeeps(s, es[0]);
      NeverEmbeds(Next(s, es[0]), es[1..]);
    }
  }

  lemma {:induction false} SucceedsEmbeds(s: State, es: seq<Event>)
    requires Inv(s) && Possible(s, es) && Succeeds(es) && !PassToCome(After(s, es))
    ensures Embeds(s, es)
    decreases |es|
  {
    SucceedsFirst(es);
    NextKeeps(s, es[0]);
    var t := Next(s, es[0]);
    if es[0].IndexEnded? && es[0].ok {
      EndIndexPass(s, es[0].run, true);
      ComesOrEmbeds(t, es[1..]);
    } else {
      SucceedsEmbeds(t, es[1..]);
    }
  }

  /** On a run that comes to rest an embed pass begins exactly if one was due or an index run succeeds. */
  lemma EmbedsIff(s: State, es: seq<Event>)
    requires Inv(s) && Possible(s, es) && Idle(After(s, es))
    ensures Embeds(s, es) <==> PassToCome(s) || Succeeds(es)
  {
    RunKeeps(s, es);
    NothingDue(After(s, es));
    if PassToCome(s) {
      ComesOrEmbeds(s, es);
    } else if Succeeds(es) {
      SucceedsEmbeds(s, es);
    } else {
      NeverEmbeds(s, es);
    }
  }

  lemma NothingDue(s: State)
    requires Inv(s) && Idle(s)
    ensures !PassToCome(s)
  {
    if s.embedTimer.Some? {
      assert false;
    }
  }

  // ---- reconciling ----

  lemma {:induction false} PollAfter(s: State, es: seq<Event>, v: Vault, mtime: int)
    requires Possible(s, es)
    ensures Possible(s, es + [Poll(v, mtime)])
    ensures After(s, es + [Poll(v, mtime)]) == Next(After(s, es), Poll(v, mtime))
    decreases |es|
  {
    var all := es + [Poll(v, mtime)];
    if es == [] {
      assert all[1..] == [];
    } else {
      assert all[1..] == es[1..] + [Poll(v, mtime)] && all[0] == es[0];
      PollAfter(Next(s, es[0]), es[1..], v, mtime);
    }
  }

  /** Reconciling is one poll of each vault found, in the order found. */
  lemma {:induction false} ReconcilePolls(s: State, found: seq<(Vault, int)>) returns (es: seq<Event>)
    ensures |es| == |found| && forall i | 0 <= i < |es| :: es[i] == Poll(found[i].0, found[i].1)
    ensures Possible(s, es) && PollAll(s, found) == After(s, es)
  {
    es := [];
    if found != [] {
      var k := |found| - 1;
      es := ReconcilePolls(s, found[..k]);
      PollAfter(s, es, found[k].0, found[k].1);
      es := es + [Poll(found[k].0, found[k].1)];
    }
  }
}
