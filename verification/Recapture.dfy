/** Filing one learning per conversation (tools/session_capture_hook.ts, tools/session_capture.ts `recaptureDecision`).

A run of the hook is given what the outside answers: how the removal of the earlier learning goes, how each attempt
to file the new one goes, and whether the state is saved. */
module Recapture {

  import opened Wrappers

  type Session = string

  /** A file's markdown and index rows, and the session it was captured from if the hook wrote it. */
  datatype Doc = Doc(file: string, session: Option<Session>)

  datatype Record = Record(hash: string, learningId: Option<string>)

  /** The capture state, the index (a learning has one row of its own and one per chunk) and the learnings folder. */
  datatype Vault = Vault(state: map<Session, Record>, docs: map<string, Doc>, files: map<string, Option<Session>>)

  datatype Plan = Write | Skip | Replace(learningId: string)

  /** `recaptureDecision` */
  function Decide(state: map<Session, Record>, session: Session, hash: string): Plan {
    if session !in state then Write
    else if state[session].hash == hash then Skip
    else if state[session].learningId.None? || state[session].learningId.value == "" then Write
    else Replace(state[session].learningId.value)
  }

  // ---- what the outside answers ----

  datatype Removal = Removed | RowsOnly | Untouched

  /** `handleLearn`: a learning filed, with or without its id in the answer, or an error that leaves files behind. */
  datatype Attempt =
    | Filed(id: string, reported: bool, file: string, chunks: set<string>)
    | Failed(made: set<string>, locked: bool)

  datatype Run = Run(session: Session, hash: string, worth: bool, removal: Removal, attempts: seq<Attempt>, saved: bool)

  const ATTEMPTS := 5

  // ---- what a run does ----

  function Remove(v: Vault, id: string, removal: Removal): Vault {
    if id !in v.docs || removal.Untouched? then v
    else
      var file := v.docs[id].file;
      v.(docs := map k | k in v.docs && v.docs[k].file != file :: v.docs[k],
         files := if removal.Removed? then v.files - {file} else v.files)
  }

  function File(v: Vault, session: Session, a: Attempt): Vault
    requires a.Filed?
  {
    var doc := Doc(a.file, Some(session));
    v.(docs := v.docs + map k | k in a.chunks + {a.id} :: doc, files := v.files[a.file := Some(session)])
  }

  /** The attempt that files the learning, if one does: none after an error that is not a lock. */
  function Success(attempts: seq<Attempt>): (a: Option<Attempt>)
    ensures a.Some? ==> a.value.Filed?
  {
    if attempts == [] then None
    else if attempts[0].Filed? then Some(attempts[0])
    else if attempts[0].locked then Success(attempts[1..])
    else None
  }

  function Cleared(v: Vault, r: Run): Vault {
    var plan := Decide(v.state, r.session, r.hash);
    if plan.Replace? then Remove(v, plan.learningId, r.removal) else v
  }

  function Reported(a: Attempt): Option<string>
    requires a.Filed?
  {
    if a.reported then Some(a.id) else None
  }

  function After(v: Vault, r: Run): Vault {
    if !r.worth || Decide(v.state, r.session, r.hash).Skip? then v
    else
      var cleared := Cleared(v, r);
      match Success(r.attempts)
      case None => cleared
      case Some(a) =>
        var filed := File(cleared, r.session, a);
        if r.saved then filed.(state := filed.state[r.session := Record(r.hash, Reported(a))]) else filed
  }

  // ---- the hook ----

  class CaptureHook {
    var state: map<Session, Record>
    var docs: map<string, Doc>
    var files: map<string, Option<Session>>

    ghost function Now(): Vault
      reads this
    {
      Vault(state, docs, files)
    }

    constructor (v: Vault)
      ensures Now() == v
    {
      state, docs, files := v.state, v.docs, v.files;
    }

    method RemoveLearning(id: string, removal: Removal)
      modifies this
      ensures Now() == Remove(old(Now()), id, removal)
    {
      if id !in docs || removal.Untouched? {
        return;
      }
      var file := docs[id].file;
      docs := map k | k in docs && docs[k].file != file :: docs[k];
      if removal.Removed? {
        files := files - {file};
      }
    }

    /** Removes every file of the folder that was not there before. */
    method RemoveNew(before: set<string>)
      modifies this`files
      ensures files == old(files) - (old(files).Keys - before)
    {
      var names := files.Keys;
      while names != {}
        invariant names <= old(files).Keys
        invariant files == old(files) - (old(files).Keys - names - before)
        decreases |names|
      {
        var name :| name in names;
        names := names - {name};
        if name !in before {
          files := files - {name};
        }
      }
    }

    method LearnWithRetry(session: Session, attempts: seq<Attempt>) returns (filed: Option<Attempt>)
      requires |attempts| == 5
      modifies this
      ensures filed == Success(attempts)
      ensures Now() == if filed.Some? then File(old(Now()), session, filed.value) else old(Now())
    {
      var attempt := 0;
      while attempt < ATTEMPTS
        invariant 0 <= attempt <= ATTEMPTS
        invariant Now() == old(Now()) && Success(attempts) == Success(attempts[attempt..])
      {
        var before := files.Keys;
        match attempts[attempt] {
          case Filed(id, reported, file, chunks) =>
            docs := docs + map k | k in chunks + {id} :: Doc(file, Some(session));
            files := files[file := Some(session)];
            return Some(attempts[attempt]);
          case Failed(made, locked) =>
            files := (map name | name in made :: Some(session)) + files;
            RemoveNew(before);
            assert files == old(files);
            if !locked {
              return None;
            }
        }
        assert attempts[attempt..][1..] == attempts[attempt + 1..];
        attempt := attempt + 1;
      }
      return None;
    }

    /** `main`, once the conversation has been read. */
    method SessionEnd(r: Run)
      requires |r.attempts| == 5
      modifies this
      ensures Now() == After(old(Now()), r)
    {
      if !r.worth {
        return;
      }
      var plan := Decide(state, r.session, r.hash);
      if plan.Skip? {
        return;
      }
      if plan.Replace? {
        RemoveLearning(plan.learningId, r.removal);
      }
      assert Now() == Cleared(old(Now()), r);
      var filed := LearnWithRetry(r.session, r.attempts);
      if filed.Some? && r.saved {
        state := state[r.session := Record(r.hash, Reported(filed.value))];
      }
    }
  }
}
