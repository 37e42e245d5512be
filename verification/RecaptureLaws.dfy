/** One memory per conversation: when it holds over any history of session ends, and what breaks it. */
module RecaptureLaws {
  import opened Recapture
  import opened Wrappers

  /** The state leads to this learning of the session. */
  predicate Recorded(v: Vault, s: Session, doc: Doc) {
    s in v.state && v.state[s].learningId.Some? && v.state[s].learningId.value in v.docs
    && v.docs[v.state[s].learningId.value] == doc
  }

  /** Every row and every file captured from a session belongs to the one learning the state records for it, and
      the state records nothing but learnings of the hook. */
  ghost predicate Tidy(v: Vault) {
    && (forall k | k in v.docs && v.docs[k].session.Some? :: Recorded(v, v.docs[k].session.value, v.docs[k]))
    && (forall f | f in v.files && v.files[f].Some? :: Recorded(v, v.files[f].value, Doc(f, v.files[f])))
    && (forall k | k in v.docs && v.docs[k].session.Some? :: v.docs[k].file in v.files)
    && (forall k | k in v.docs && v.docs[k].file in v.files :: v.files[v.docs[k].file] == v.docs[k].session)
    && (forall s | s in v.state && v.state[s].learningId.Some? ::
          var i := v.state[s].learningId.value; i != "" && (i in v.docs ==> v.docs[i].session == Some(s)))
  }

  /** Nothing captured from the session is left. */
  ghost predicate Bare(v: Vault, s: Session) {
    && (forall k | k in v.docs :: v.docs[k].session != Some(s))
    && (forall f | f in v.files :: v.files[f] != Some(s))
  }

  /** `handleLearn` names the learning apart from everything that is there. */
  ghost predicate Fresh(v: Vault, s: Session, a: Attempt)
    requires a.Filed?
  {
    && a.id != "" && a.file !in v.files
    && (forall k | k in v.docs :: v.docs[k].file != a.file)
    && (forall k | k in a.chunks + {a.id} :: k !in v.docs)
    && (forall t | t in v.state && t != s && v.state[t].learningId.Some? ::
          v.state[t].learningId.value !in a.chunks + {a.id})
    && (s in v.state && v.state[s].learningId.Some? ==> v.state[s].learningId.value !in a.chunks - {a.id})
  }

  ghost predicate Possible(v: Vault, r: Run) {
    match Success(r.attempts)
    case None => true
    case Some(a) => Fresh(Cleared(v, r), r.session, a)
  }

  /** A vault that the hook has never written to. */
  lemma UntouchedTidy(v: Vault)
    requires v.state == map[]
    requires forall k | k in v.docs :: v.docs[k].session.None?
    requires forall f | f in v.files :: v.files[f].None?
    ensures Tidy(v)
  {
  }

  lemma BareUnlessRecorded(v: Vault, s: Session)
    requires Tidy(v)
    requires s in v.state && v.state[s].learningId.Some? ==> v.state[s].learningId.value !in v.docs
    ensures Bare(v, s)
  {
  }

  lemma SameFile(v: Vault, s: Session, id: string, k: string)
    requires Tidy(v) && s in v.state && v.state[s].learningId == Some(id) && id in v.docs && k in v.docs
    ensures v.docs[k].file == v.docs[id].file <==> v.docs[k].session == Some(s)
  {
  }

  lemma RemoveTidy(v: Vault, s: Session, id: string)
    requires Tidy(v) && s in v.state && v.state[s].learningId == Some(id)
    ensures Tidy(Remove(v, id, Removed)) && Bare(Remove(v, id, Removed), s)
  {
    if id !in v.docs {
      BareUnlessRecorded(v, s);
    } else {
      var c := Remove(v, id, Removed);
      forall k | k in v.docs ensures v.docs[k].file == v.docs[id].file <==> v.docs[k].session == Some(s) {
        SameFile(v, s, id, k);
      }
      assert Tidy(c);
    }
  }

  lemma FiledTidy(c: Vault, s: Session, a: Attempt, v: Vault)
    requires Tidy(c) && Bare(c, s) && a.Filed? && Fresh(c, s, a)
    requires v.docs == File(c, s, a).docs && v.files == File(c, s, a).files
    requires v.state.Keys <= c.state.Keys + {s}
    requires forall t | t != s && t in v.state :: t in c.state && v.state[t] == c.state[t]
    requires forall t | t != s && t in c.state :: t in v.state
    requires s in v.state && v.state[s].learningId == Some(a.id)
    ensures Tidy(v)
  {
    assert v.docs[a.id] == Doc(a.file, Some(s));
    forall k | k in v.docs && v.docs[k].session.Some?
      ensures Recorded(v, v.docs[k].session.value, v.docs[k])
    {
    }
  }

  // ---- one run ----

  predicate Acts(v: Vault, r: Run) {
    r.worth && !Decide(v.state, r.session, r.hash).Skip?
  }

  /** The run replaces a learning that is still there. */
  predicate Replaces(v: Vault, r: Run) {
    var plan := Decide(v.state, r.session, r.hash);
    plan.Replace? && plan.learningId in v.docs
  }

  /** The state leads to the learning filed: it is saved with the id, or it had that very id. */
  predicate Noted(v: Vault, r: Run, a: Attempt)
    requires a.Filed?
  {
    if r.saved then a.reported else r.session in v.state && v.state[r.session].learningId == Some(a.id)
  }

  /** A cleanup that stops half-way, one that does not happen though a new learning is filed, or a learning filed
      that the state does not lead to. */
  predicate Spoils(v: Vault, r: Run) {
    var filed := Success(r.attempts);
    Acts(v, r) && (|| (Replaces(v, r) && (r.removal.RowsOnly? || (r.removal.Untouched? && filed.Some?)))
                   || (filed.Some? && !Noted(v, r, filed.value)))
  }

  lemma ClearedTidy(v: Vault, r: Run)
    requires Tidy(v) && Acts(v, r) && (Replaces(v, r) ==> r.removal.Removed?)
    ensures Tidy(Cleared(v, r)) && Bare(Cleared(v, r), r.session)
  {
    var plan := Decide(v.state, r.session, r.hash);
    if Replaces(v, r) {
      RemoveTidy(v, r.session, plan.learningId);
    } else {
      BareUnlessRecorded(v, r.session);
    }
  }

  lemma UnspoiltTidy(v: Vault, r: Run)
    requires Tidy(v) && Possible(v, r) && !Spoils(v, r)
    ensures Tidy(After(v, r))
  {
    if Acts(v, r) {
      match Success(r.attempts)
      case None =>
        if Replaces(v, r) && r.removal.Removed? {
          ClearedTidy(v, r);
        }
      case Some(a) =>
        ClearedTidy(v, r);
        FiledTidy(Cleared(v, r), r.session, a, After(v, r));
    }
  }

  /** Half a cleanup leaves a file that nothing leads to. */
  lemma HalfRemoved(v: Vault, r: Run)
    requires Tidy(v) && Possible(v, r) && Acts(v, r) && Replaces(v, r) && r.removal.RowsOnly?
    ensures !Tidy(After(v, r))
  {
    var id := Decide(v.state, r.session, r.hash).learningId;
    var doc := v.docs[id];
    var t := After(v, r);
    assert doc.session == Some(r.session) && doc.file in v.files && v.files[doc.file] == Some(r.session);
    assert doc.file in t.files && t.files[doc.file] == Some(r.session);
    assert forall k | k in t.docs :: t.docs[k].file != doc.file;
    assert !Recorded(t, r.session, Doc(doc.file, Some(r.session)));
  }

  /** A learning filed beside the one it should replace is a second memory of the conversation. */
  lemma FiledBeside(v: Vault, r: Run)
    requires Tidy(v) && Possible(v, r) && Acts(v, r) && Replaces(v, r) && r.removal.Untouched?
    requires Success(r.attempts).Some?
    ensures !Tidy(After(v, r))
  {
    var id, a := Decide(v.state, r.session, r.hash).learningId, Success(r.attempts).value;
    var t := After(v, r);
    assert v.docs[id].session == Some(r.session);
    assert t.docs[id] == v.docs[id] && t.docs[a.id] == Doc(a.file, Some(r.session)) && v.docs[id].file != a.file;
    assert !(Recorded(t, r.session, t.docs[id]) && Recorded(t, r.session, t.docs[a.id]));
  }

  lemma Unnoted(v: Vault, r: Run)
    requires Tidy(v) && Possible(v, r) && Acts(v, r)
    requires Success(r.attempts).Some? && !Noted(v, r, Success(r.attempts).value)
    ensures !Tidy(After(v, r))
  {
    var a := Success(r.attempts).value;
    var c, t := Cleared(v, r), After(v, r);
    assert t.docs[a.id] == Doc(a.file, Some(r.session));
    assert forall k | k in t.docs && t.docs[k].file == a.file :: k in a.chunks + {a.id};
    assert !Recorded(t, r.session, t.docs[a.id]);
  }

  /** A run keeps one recorded memory per conversation exactly if it does not spoil it in one of these ways. */
  lemma TidyIff(v: Vault, r: Run)
    requires Tidy(v) && Possible(v, r)
    ensures Tidy(After(v, r)) <==> !Spoils(v, r)
  {
    if !Spoils(v, r) {
      UnspoiltTidy(v, r);
    } else if Success(r.attempts).Some? && !Noted(v, r, Success(r.attempts).value) {
      Unnoted(v, r);
    } else if r.removal.RowsOnly? {
      HalfRemoved(v, r);
    } else {
      FiledBeside(v, r);
    }
  }

  /** Whatever happens, a run changes no row and no file but those of its own session. */
  lemma OthersKept(v: Vault, r: Run)
    requires Tidy(v) && Possible(v, r)
    ensures forall k | k in v.docs && v.docs[k].session != Some(r.session) ::
              k in After(v, r).docs && After(v, r).docs[k] == v.docs[k]
    ensures forall f | f in v.files && v.files[f] != Some(r.session) ::
              f in After(v, r).files && After(v, r).files[f] == v.files[f]
  {
    if Replaces(v, r) {
      var id := Decide(v.state, r.session, r.hash).learningId;
      forall k | k in v.docs ensures v.docs[k].file == v.docs[id].file <==> v.docs[k].session == Some(r.session) {
        SameFile(v, r.session, id, k);
      }
    }
  }

  /** A run that files nothing leaves no file behind that was not there. */
  lemma NoOrphan(v: Vault, r: Run)
    requires Success(r.attempts).None?
    ensures After(v, r).files.Keys <= v.files.Keys && After(v, r).state == v.state
    ensures !Replaces(v, r) ==> After(v, r) == v
  {
  }

  /** The files of the learnings of a session. */
  function Live(v: Vault, s: Session): set<string> {
    set k | k in v.docs && v.docs[k].session == Some(s) :: v.docs[k].file
  }

  predicate Clean(r: Run) {
    r.removal.Removed? && r.saved && (Success(r.attempts).Some? ==> Success(r.attempts).value.reported)
  }

  /** After a clean run that had something to do, the session has the learning just filed, recorded with its hash,
      and no other; or none at all, if no attempt filed one: the earlier learning is gone by then. */
  lemma AfterClean(v: Vault, r: Run)
    requires Tidy(v) && Possible(v, r) && Acts(v, r) && Clean(r)
    ensures match Success(r.attempts)
            case None => Live(After(v, r), r.session) == {} && After(v, r).state == v.state
            case Some(a) => Live(After(v, r), r.session) == {a.file} && r.session in After(v, r).state
                            && After(v, r).state[r.session] == Record(r.hash, Some(a.id))
  {
    ClearedTidy(v, r);
    var c, t := Cleared(v, r), After(v, r);
    match Success(r.attempts)
    case None => assert t == c;
    case Some(a) =>
      assert a.id in t.docs && t.docs[a.id] == Doc(a.file, Some(r.session));
      assert Live(t, r.session) == {a.file};
  }

  // ---- one run, from what it is given ----

  /** This attempt files the learning: each one before it failed on a lock. */
  predicate FiledAt(attempts: seq<Attempt>, i: nat) {
    i < |attempts| && attempts[i].Filed? && forall j | 0 <= j < i :: attempts[j].Failed? && attempts[j].locked
  }

  /** The conversation is worth capturing and the state does not have it with these turns. */
  predicate Due(v: Vault, r: Run) {
    r.worth && !(r.session in v.state && v.state[r.session].hash == r.hash)
  }

  /** The file holds the learning that the state records for the session. */
  predicate Earlier(v: Vault, s: Session, file: string) {
    s in v.state && match v.state[s].learningId
    case None => false
    case Some(id) => id != "" && id in v.docs && v.docs[id].file == file
  }

  /** The row is one of those an attempt of the run files. */
  ghost predicate NewRow(r: Run, k: string) {
    exists i: nat :: FiledAt(r.attempts, i) && k in r.attempts[i].chunks + {r.attempts[i].id}
  }

  ghost predicate NewFile(r: Run, f: string) {
    exists i: nat :: FiledAt(r.attempts, i) && f == r.attempts[i].file
  }

  lemma {:induction false} SuccessAt(attempts: seq<Attempt>, i: nat)
    requires FiledAt(attempts, i)
    ensures Success(attempts) == Some(attempts[i])
  {
    if i > 0 {
      assert forall j | 0 <= j < i - 1 :: attempts[1..][j] == attempts[j + 1];
      SuccessAt(attempts[1..], i - 1);
    }
  }

  lemma {:induction false} SuccessIs(attempts: seq<Attempt>) returns (i: nat)
    ensures Success(attempts).Some? ==> FiledAt(attempts, i)
  {
    i := 0;
    if attempts != [] && attempts[0].Failed? && attempts[0].locked {
      var j := SuccessIs(attempts[1..]);
      i := j + 1;
      if Success(attempts).Some? {
        assert forall k | 0 < k < i :: attempts[k] == attempts[1..][k - 1];
      }
    }
  }

  /** No attempt files, or just this one does. */
  lemma OneFiles(r: Run)
    ensures Success(r.attempts).None? ==> forall i: nat :: !FiledAt(r.attempts, i)
    ensures match Success(r.attempts)
            case None => forall k :: !NewRow(r, k) && !NewFile(r, k)
            case Some(a) => (exists i: nat :: FiledAt(r.attempts, i)) && forall k ::
              (NewRow(r, k) <==> k in a.chunks + {a.id}) && (NewFile(r, k) <==> k == a.file)
  {
    forall i: nat | FiledAt(r.attempts, i) ensures Success(r.attempts) == Some(r.attempts[i]) {
      SuccessAt(r.attempts, i);
    }
    var i := SuccessIs(r.attempts);
    if Success(r.attempts).Some? {
      assert FiledAt(r.attempts, i);
    }
  }

  /** The learning an attempt files is in the vault afterwards, all its rows and its file, exactly if the conversation
      is worth capturing and is not recorded with these turns; otherwise the run changes nothing. */
  lemma FiledIff(v: Vault, r: Run, i: nat)
    requires FiledAt(r.attempts, i)
    ensures Due(v, r) ==>
      var a, t := r.attempts[i], After(v, r);
      (forall k | k in a.chunks + {a.id} :: k in t.docs && t.docs[k] == Doc(a.file, Some(r.session))) &&
      a.file in t.files && t.files[a.file] == Some(r.session)
    ensures !Due(v, r) ==> After(v, r) == v
    ensures r.attempts[i].id !in v.docs ==> (r.attempts[i].id in After(v, r).docs <==> Due(v, r))
  {
    SuccessAt(r.attempts, i);
  }

  /** Which rows are there afterwards: those the run files, and the old ones but for those of the earlier learning,
      which go if the removal gets as far. */
  lemma RowsIff(v: Vault, r: Run, k: string)
    ensures k in After(v, r).docs <==>
              || (Due(v, r) && NewRow(r, k))
              || (k in v.docs && !(Due(v, r) && Earlier(v, r.session, v.docs[k].file) && r.removal != Untouched))
    ensures k in After(v, r).docs && !(Due(v, r) && NewRow(r, k)) ==> After(v, r).docs[k] == v.docs[k]
  {
    OneFiles(r);
  }

  /** Which files: likewise, but the earlier learning's file goes only if the removal is completed. */
  lemma FilesIff(v: Vault, r: Run, f: string)
    ensures f in After(v, r).files <==>
              || (Due(v, r) && NewFile(r, f))
              || (f in v.files && !(Due(v, r) && Earlier(v, r.session, f) && r.removal == Removed))
    ensures f in After(v, r).files && !(Due(v, r) && NewFile(r, f)) ==> After(v, r).files[f] == v.files[f]
  {
    OneFiles(r);
  }

  /** The record saved is the run's hash with the id reported, and it is saved only with a learning filed. */
  lemma RecordIs(v: Vault, r: Run, i: nat)
    requires FiledAt(r.attempts, i)
    ensures After(v, r).state ==
      if Due(v, r) && r.saved
      then v.state[r.session := Record(r.hash, if r.attempts[i].reported then Some(r.attempts[i].id) else None)]
      else v.state
  {
    SuccessAt(r.attempts, i);
  }

  lemma NoRecord(v: Vault, r: Run)
    requires forall i: nat :: !FiledAt(r.attempts, i)
    ensures After(v, r).state == v.state
  {
    OneFiles(r);
  }

  // ---- histories ----

  ghost predicate PossibleAll(v: Vault, rs: seq<Run>)
    decreases |rs|
  {
    rs != [] ==> Possible(v, rs[0]) && PossibleAll(After(v, rs[0]), rs[1..])
  }

  function AfterAll(v: Vault, rs: seq<Run>): Vault
    decreases |rs|
  {
    if rs == [] then v else AfterAll(After(v, rs[0]), rs[1..])
  }

  lemma {:induction false} TidyAll(v: Vault, rs: seq<Run>)
    requires Tidy(v) && PossibleAll(v, rs) && forall r | r in rs :: Clean(r)
    ensures Tidy(AfterAll(v, rs))
    decreases |rs|
  {
    if rs != [] {
      assert rs[0] in rs && forall r | r in rs[1..] :: r in rs;
      TidyIff(v, rs[0]);
      TidyAll(After(v, rs[0]), rs[1..]);
    }
  }

  /** Over any history of clean runs, every session has at most one live learning, and it is the recorded one. */
  lemma OneMemory(v: Vault, rs: seq<Run>, s: Session)
    requires Tidy(v) && PossibleAll(v, rs) && forall r | r in rs :: Clean(r)
    ensures var t := AfterAll(v, rs);
            && |Live(t, s)| <= 1
            && forall f | f in Live(t, s) :: Recorded(t, s, Doc(f, Some(s)))
  {
    TidyAll(v, rs);
    var t := AfterAll(v, rs);
    if f :| f in Live(t, s) {
      assert Recorded(t, s, Doc(f, Some(s)));
      assert Live(t, s) == {f};
    }
  }

  /** A run leaves the records of other sessions alone. */
  lemma {:induction false} RecordKept(v: Vault, rs: seq<Run>, s: Session)
    requires s in v.state && forall r | r in rs :: r.session != s || r.hash == v.state[s].hash
    ensures s in AfterAll(v, rs).state && AfterAll(v, rs).state[s] == v.state[s]
    decreases |rs|
  {
    if rs != [] {
      assert rs[0] in rs && forall r | r in rs[1..] :: r in rs;
      RecordKept(After(v, rs[0]), rs[1..], s);
    }
  }

  /** Once a conversation is filed, no later end of it with the same turns writes anything, whatever other sessions
      did in between and however the attempts would go. */
  lemma Unchanged(v: Vault, r: Run, rs: seq<Run>, again: Run)
    requires Acts(v, r) && Success(r.attempts).Some? && r.saved
    requires forall q | q in rs :: q.session != r.session || q.hash == r.hash
    requires again.session == r.session && again.hash == r.hash
    ensures var t := AfterAll(After(v, r), rs); After(t, again) == t
  {
    RecordKept(After(v, r), rs, r.session);
  }

  /** A conversation loses its learning exactly if the run replaces it, the removal gets at least as far as the rows,
      and no attempt files the new one. */
  lemma LosesIff(v: Vault, r: Run)
    requires Tidy(v) && Possible(v, r) && Live(v, r.session) != {}
    ensures Live(After(v, r), r.session) == {} <==>
              Acts(v, r) && Replaces(v, r) && !r.removal.Untouched? && Success(r.attempts).None?
  {
    var f :| f in Live(v, r.session);
    var k :| k in v.docs && v.docs[k].session == Some(r.session) && v.docs[k].file == f;
    assert Recorded(v, r.session, v.docs[k]);
    if Acts(v, r) {
      match Success(r.attempts)
      case Some(a) => FiledLive(v, r, a);
      case None => ClearedLive(v, r, k);
    }
  }

  lemma FiledLive(v: Vault, r: Run, a: Attempt)
    requires Acts(v, r) && Success(r.attempts) == Some(a)
    ensures a.file in Live(After(v, r), r.session)
  {
    assert After(v, r).docs[a.id] == Doc(a.file, Some(r.session));
  }

  lemma ClearedLive(v: Vault, r: Run, k: string)
    requires Tidy(v) && Acts(v, r) && Success(r.attempts) == None
    requires k in v.docs && v.docs[k].session == Some(r.session)
    ensures Replaces(v, r) && (Live(After(v, r), r.session) == {} <==> !r.removal.Untouched?)
  {
    var id := Decide(v.state, r.session, r.hash).learningId;
    var t := After(v, r);
    if r.removal.Untouched? {
      assert v.docs[k].file in Live(t, r.session);
    } else {
      forall j | j in t.docs ensures t.docs[j].session != Some(r.session) {
        SameFile(v, r.session, id, j);
      }
    }
  }

  /** After a run that loses it so, an end of the session with the turns recorded before is taken for a duplicate,
      though nothing is filed. */
  lemma Forgotten(v: Vault, r: Run, again: Run)
    requires Tidy(v) && Possible(v, r) && Live(v, r.session) != {} && Live(After(v, r), r.session) == {}
    requires again.session == r.session && again.hash == v.state[r.session].hash
    ensures After(After(v, r), again) == After(v, r)
  {
    LosesIff(v, r);
  }
}
