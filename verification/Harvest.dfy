/** Pairing skill calls with the prompts they answer (skills-mcp/eval/build_pairs.py, `harvest`).

Which texts are queries, and when a prompt names a skill, are parameters. */
module Harvest {

  import opened Wrappers

  /** A user record with the text it carries, an assistant record with the skills it calls, or any other. */
  datatype Record =
    | User(sidechain: bool, meta: bool, text: string)
    | Assistant(sidechain: bool, skills: seq<string>)
    | Other

  datatype Rules = Rules(isQuery: string -> bool, names: (string, string) -> bool)

  datatype Pair = Pair(query: string, skill: string, distance: nat)

  type Key = (string, string)

  predicate Prompts(rules: Rules, r: Record) {
    r.User? && !r.sidechain && !r.meta && rules.isQuery(r.text)
  }

  predicate Answers(r: Record) {
    r.Assistant? && !r.sidechain
  }

  // ---- one transcript ----

  /** The number of the last record that is a query, if there is one. */
  function LastPrompt(rules: Rules, rs: seq<Record>): (k: int)
    ensures -1 <= k < |rs|
    ensures k >= 0 ==> Prompts(rules, rs[k])
    ensures forall j | k < j < |rs| :: !Prompts(rules, rs[j])
  {
    if rs == [] then -1
    else if Prompts(rules, rs[|rs| - 1]) then |rs| - 1
    else LastPrompt(rules, rs[..|rs| - 1])
  }

  /** How many assistant records there are. */
  function Turns(rs: seq<Record>): nat {
    if rs == [] then 0 else Turns(rs[..|rs| - 1]) + if Answers(rs[|rs| - 1]) then 1 else 0
  }

  /** The pairs for the skills called in one record, after the records before it. */
  function PairsOf(rules: Rules, query: string, distance: nat, skills: seq<string>): seq<Pair> {
    if skills == [] then []
    else
      var skill := skills[|skills| - 1];
      PairsOf(rules, query, distance, skills[..|skills| - 1])
      + if skill != "" && !rules.names(skill, query) then [Pair(query, skill, distance)] else []
  }

  /** How many of the skills called the prompt names. */
  function DictatedOf(rules: Rules, query: string, skills: seq<string>): nat {
    if skills == [] then 0
    else
      var skill := skills[|skills| - 1];
      DictatedOf(rules, query, skills[..|skills| - 1]) + if skill != "" && rules.names(skill, query) then 1 else 0
  }

  function DictatedIn(rules: Rules, rs: seq<Record>): nat {
    if rs == [] then 0
    else
      var before, r := rs[..|rs| - 1], rs[|rs| - 1];
      var k := LastPrompt(rules, before);
      DictatedIn(rules, before) + if Answers(r) && k >= 0 then DictatedOf(rules, before[k].text, r.skills) else 0
  }

  /** The pairs of a transcript: each call with the nearest query before it, and the assistant turns since. */
  function PairsIn(rules: Rules, rs: seq<Record>): seq<Pair> {
    if rs == [] then []
    else
      var before, r := rs[..|rs| - 1], rs[|rs| - 1];
      var k := LastPrompt(rules, before);
      PairsIn(rules, before)
      + if Answers(r) && k >= 0 then PairsOf(rules, before[k].text, Turns(rs[k..]), r.skills) else []
  }

  lemma {:induction false} TurnsPush(rs: seq<Record>, k: nat)
    requires k < |rs|
    ensures Turns(rs[k..]) == Turns(rs[..|rs| - 1][k..]) + if Answers(rs[|rs| - 1]) then 1 else 0
  {
    assert rs[k..][..|rs[k..]| - 1] == rs[..|rs| - 1][k..];
  }

  /** What the loop remembers: the last query, and the assistant turns since it, or since the start. */
  predicate Remembers(rules: Rules, rs: seq<Record>, last: Option<string>, distance: nat) {
    var k := LastPrompt(rules, rs);
    if k >= 0 then last == Some(rs[k].text) && distance == Turns(rs[k..]) else last == None
  }

  /** What the loop has after these records. */
  predicate Tracks(rules: Rules, rs: seq<Record>, last: Option<string>, distance: nat, pairs: seq<Pair>, dictated: nat) {
    Remembers(rules, rs, last, distance) && pairs == PairsIn(rules, rs) && dictated == DictatedIn(rules, rs)
  }

  method ScanTranscript(rules: Rules, rs: seq<Record>) returns (pairs: seq<Pair>, dictated: nat)
    ensures pairs == PairsIn(rules, rs) && dictated == DictatedIn(rules, rs)
  {
    pairs, dictated := [], 0;
    var last: Option<string> := None;
    var distance := 0;
    for i := 0 to |rs|
      invariant Tracks(rules, rs[..i], last, distance, pairs, dictated)
    {
      var r := rs[i];
      assert rs[..i + 1] == rs[..i] + [r];
      if Prompts(rules, r) {
        TracksPrompt(rules, rs[..i], r, last, distance, pairs, dictated);
        last, distance := Some(r.text), 0;
      } else if Answers(r) {
        TracksAnswer(rules, rs[..i], r, last, distance, pairs, dictated);
        distance := distance + 1;
        if last.Some? {
          var found, named := ScanCalls(rules, last.value, distance, r.skills);
          pairs := pairs + found;
          dictated := dictated + named;
        }
      } else {
        TracksOther(rules, rs[..i], r, last, distance, pairs, dictated);
      }
    }
    assert rs[..|rs|] == rs;
  }

  lemma TracksPrompt(rules: Rules, rs: seq<Record>, r: Record, last: Option<string>, distance: nat, pairs: seq<Pair>,
                     dictated: nat)
    requires Tracks(rules, rs, last, distance, pairs, dictated) && Prompts(rules, r)
    ensures Tracks(rules, rs + [r], Some(r.text), 0, pairs, dictated)
  {
    var all := rs + [r];
    assert all[..|all| - 1] == rs && all[|rs|..] == [r];
  }

  lemma TracksAnswer(rules: Rules, rs: seq<Record>, r: Record, last: Option<string>, distance: nat, pairs: seq<Pair>,
                     dictated: nat)
    requires Tracks(rules, rs, last, distance, pairs, dictated) && Answers(r)
    ensures last.None? ==> Tracks(rules, rs + [r], last, distance + 1, pairs, dictated)
    ensures last.Some? ==> Tracks(rules, rs + [r], last, distance + 1,
                                  pairs + PairsOf(rules, last.value, distance + 1, r.skills),
                                  dictated + DictatedOf(rules, last.value, r.skills))
  {
    var all := rs + [r];
    assert all[..|all| - 1] == rs;
    var k := LastPrompt(rules, rs);
    if k >= 0 {
      TurnsPush(all, k);
    }
  }

  lemma TracksOther(rules: Rules, rs: seq<Record>, r: Record, last: Option<string>, distance: nat, pairs: seq<Pair>,
                    dictated: nat)
    requires Tracks(rules, rs, last, distance, pairs, dictated) && !Prompts(rules, r) && !Answers(r)
    ensures Tracks(rules, rs + [r], last, distance, pairs, dictated)
  {
    var all := rs + [r];
    assert all[..|all| - 1] == rs;
    var k := LastPrompt(rules, rs);
    if k >= 0 {
      TurnsPush(all, k);
    }
  }

  method ScanCalls(rules: Rules, query: string, distance: nat, skills: seq<string>)
    returns (pairs: seq<Pair>, dictated: nat)
    ensures pairs == PairsOf(rules, query, distance, skills) && dictated == DictatedOf(rules, query, skills)
  {
    pairs, dictated := [], 0;
    for i := 0 to |skills|
      invariant pairs == PairsOf(rules, query, distance, skills[..i]) && dictated == DictatedOf(rules, query, skills[..i])
    {
      assert skills[..i + 1][..i] == skills[..i];
      if skills[i] == "" {
        continue;
      }
      if rules.names(skills[i], query) {
        dictated := dictated + 1;
        continue;
      }
      pairs := pairs + [Pair(query, skills[i], distance)];
    }
    assert skills[..|skills|] == skills;
  }

  /** Record `k` calls the skill, `j` is the nearest query before it, and the prompt does not name the skill. */
  ghost predicate Calls(rules: Rules, rs: seq<Record>, j: int, k: int, p: Pair) {
    && 0 <= j < k < |rs| && Prompts(rules, rs[j]) && Answers(rs[k])
    && (forall i | j < i < k :: !Prompts(rules, rs[i]))
    && p.query == rs[j].text && p.skill in rs[k].skills && p.skill != "" && !rules.names(p.skill, p.query)
    && p.distance == Turns(rs[j..k + 1])
  }

  lemma {:induction false} PairFrom(rules: Rules, query: string, distance: nat, skills: seq<string>, p: Pair)
    ensures p in PairsOf(rules, query, distance, skills) <==>
      p.query == query && p.distance == distance && p.skill in skills && p.skill != "" && !rules.names(p.skill, query)
  {
    if skills != [] {
      var init, last := skills[..|skills| - 1], skills[|skills| - 1];
      assert skills == init + [last];
      PairFrom(rules, query, distance, init, p);
    }
  }

  lemma CallsBefore(rules: Rules, rs: seq<Record>, n: nat, j: int, k: int, p: Pair)
    requires n <= |rs| && k < n
    ensures Calls(rules, rs[..n], j, k, p) <==> Calls(rules, rs, j, k, p)
  {
    if 0 <= j < k {
      assert rs[..n][j..k + 1] == rs[j..k + 1];
    }
  }

  lemma CallsLast(rules: Rules, rs: seq<Record>, j: int, p: Pair)
    requires rs != []
    ensures Calls(rules, rs, j, |rs| - 1, p) <==>
      j >= 0 && j == LastPrompt(rules, rs[..|rs| - 1]) && Answers(rs[|rs| - 1])
      && p in PairsOf(rules, rs[j].text, Turns(rs[j..]), rs[|rs| - 1].skills)
  {
    var before, r := rs[..|rs| - 1], rs[|rs| - 1];
    var last := LastPrompt(rules, before);
    if 0 <= j < |rs| - 1 && Answers(r) && Prompts(rules, rs[j]) {
      assert rs[j..|rs|] == rs[j..];
      PairFrom(rules, rs[j].text, Turns(rs[j..]), r.skills, p);
      assert before[j] == rs[j];
    }
  }

  /** The pairs of a transcript are exactly its calls, each with its nearest query. */
  lemma {:induction false} PairsAreCalls(rules: Rules, rs: seq<Record>, p: Pair)
    ensures p in PairsIn(rules, rs) <==> exists j, k :: Calls(rules, rs, j, k, p)
  {
    if rs != [] {
      var n := |rs| - 1;
      PairsAreCalls(rules, rs[..n], p);
      forall j, k | k < n ensures Calls(rules, rs[..n], j, k, p) <==> Calls(rules, rs, j, k, p) {
        CallsBefore(rules, rs, n, j, k, p);
      }
      forall j ensures Calls(rules, rs, j, n, p) <==>
          j >= 0 && j == LastPrompt(rules, rs[..n]) && Answers(rs[n])
          && p in PairsOf(rules, rs[j].text, Turns(rs[j..]), rs[n].skills)
      {
        CallsLast(rules, rs, j, p);
      }
      var k := LastPrompt(rules, rs[..n]);
      if k >= 0 {
        assert rs[..n][k] == rs[k];
      }
    }
  }

  // ---- the closest of each ----

  function KeyOf(p: Pair): Key {
    (p.query, p.skill)
  }

  /** The keys of the pairs, each once, in the order they first come. */
  function FirstSeen(pairs: seq<Pair>): seq<Key> {
    if pairs == [] then []
    else
      var before, key := FirstSeen(pairs[..|pairs| - 1]), KeyOf(pairs[|pairs| - 1]);
      if key in before then before else before + [key]
  }

  /** The best pair seen for each key, and the keys in the order they were first seen. */
  ghost predicate Closest(pairs: seq<Pair>, keys: seq<Key>, best: map<Key, Pair>) {
    && keys == FirstSeen(pairs) && (forall key :: key in keys <==> key in best)
    && (forall i, j | 0 <= i < j < |keys| :: keys[i] != keys[j])
    && (forall key | key in best :: best[key] in pairs && KeyOf(best[key]) == key)
    && (forall p | p in pairs :: KeyOf(p) in best && best[KeyOf(p)].distance <= p.distance)
  }

  lemma FirstSeenPush(pairs: seq<Pair>, pair: Pair)
    ensures FirstSeen(pairs + [pair]) ==
            if KeyOf(pair) in FirstSeen(pairs) then FirstSeen(pairs) else FirstSeen(pairs) + [KeyOf(pair)]
  {
    assert (pairs + [pair])[..|pairs|] == pairs;
  }

  lemma ClosestNew(pairs: seq<Pair>, keys: seq<Key>, best: map<Key, Pair>, pair: Pair)
    requires Closest(pairs, keys, best) && KeyOf(pair) !in best
    ensures Closest(pairs + [pair], keys + [KeyOf(pair)], best[KeyOf(pair) := pair])
  {
    FirstSeenPush(pairs, pair);
  }

  lemma ClosestAgain(pairs: seq<Pair>, keys: seq<Key>, best: map<Key, Pair>, pair: Pair)
    requires Closest(pairs, keys, best) && KeyOf(pair) in best
    ensures var closer := pair.distance < best[KeyOf(pair)].distance;
            Closest(pairs + [pair], keys, if closer then best[KeyOf(pair) := pair] else best)
  {
    FirstSeenPush(pairs, pair);
  }

  method KeepClosest(pairs: seq<Pair>) returns (keys: seq<Key>, best: map<Key, Pair>)
    ensures Closest(pairs, keys, best)
  {
    keys, best := [], map[];
    for i := 0 to |pairs|
      invariant Closest(pairs[..i], keys, best)
    {
      var pair := pairs[i];
      assert pairs[..i + 1] == pairs[..i] + [pair];
      var key := KeyOf(pair);
      if key !in best {
        ClosestNew(pairs[..i], keys, best, pair);
        keys := keys + [key];
        best := best[key := pair];
      } else {
        ClosestAgain(pairs[..i], keys, best, pair);
        if pair.distance < best[key].distance {
          best := best[key := pair];
        }
      }
    }
    assert pairs[..|pairs|] == pairs;
  }

  function AllPairs(rules: Rules, transcripts: seq<seq<Record>>): seq<Pair> {
    if transcripts == [] then []
    else AllPairs(rules, transcripts[..|transcripts| - 1]) + PairsIn(rules, transcripts[|transcripts| - 1])
  }

  function AllDictated(rules: Rules, transcripts: seq<seq<Record>>): nat {
    if transcripts == [] then 0
    else AllDictated(rules, transcripts[..|transcripts| - 1]) + DictatedIn(rules, transcripts[|transcripts| - 1])
  }

  method ScanAll(rules: Rules, transcripts: seq<seq<Record>>) returns (pairs: seq<Pair>, dictated: nat)
    ensures pairs == AllPairs(rules, transcripts) && dictated == AllDictated(rules, transcripts)
  {
    pairs, dictated := [], 0;
    for i := 0 to |transcripts|
      invariant pairs == AllPairs(rules, transcripts[..i]) && dictated == AllDictated(rules, transcripts[..i])
    {
      assert transcripts[..i + 1][..i] == transcripts[..i];
      var found, named := ScanTranscript(rules, transcripts[i]);
      pairs := pairs + found;
      dictated := dictated + named;
    }
    assert transcripts[..|transcripts|] == transcripts;
  }

  /** Of every key among the pairs, one pair and no other, and none of the key is closer; in the order in which the
      keys first come. */
  ghost predicate OneClosest(pairs: seq<Pair>, out: seq<Pair>) {
    && |out| == |FirstSeen(pairs)| && (forall i | 0 <= i < |out| :: KeyOf(out[i]) == FirstSeen(pairs)[i])
    && (forall p | p in out :: p in pairs)
    && (forall i, j | 0 <= i < j < |out| :: KeyOf(out[i]) != KeyOf(out[j]))
    && (forall p | p in pairs :: exists i :: 0 <= i < |out| && KeyOf(out[i]) == KeyOf(p) && out[i].distance <= p.distance)
  }

  method Values(pairs: seq<Pair>, keys: seq<Key>, best: map<Key, Pair>) returns (out: seq<Pair>)
    requires Closest(pairs, keys, best)
    ensures OneClosest(pairs, out)
  {
    out := [];
    for i := 0 to |keys|
      invariant |out| == i && forall j | 0 <= j < i :: out[j] == best[keys[j]]
    {
      assert keys[i] in keys;
      out := out + [best[keys[i]]];
    }
    ValuesClosest(pairs, keys, best, out);
  }

  lemma ValuesClosest(pairs: seq<Pair>, keys: seq<Key>, best: map<Key, Pair>, out: seq<Pair>)
    requires Closest(pairs, keys, best)
    requires |out| == |keys| && forall j | 0 <= j < |keys| :: keys[j] in best && out[j] == best[keys[j]]
    ensures OneClosest(pairs, out)
  {
    forall p | p in pairs
      ensures exists i :: 0 <= i < |out| && KeyOf(out[i]) == KeyOf(p) && out[i].distance <= p.distance
    {
      assert KeyOf(p) in keys;
      var i :| 0 <= i < |keys| && keys[i] == KeyOf(p);
      assert KeyOf(out[i]) == KeyOf(p);
    }
  }

  /** `harvest` */
  method HarvestPairs(rules: Rules, transcripts: seq<seq<Record>>) returns (out: seq<Pair>, dictated: nat)
    ensures OneClosest(AllPairs(rules, transcripts), out) && dictated == AllDictated(rules, transcripts)
  {
    var pairs;
    pairs, dictated := ScanAll(rules, transcripts);
    var keys, best := KeepClosest(pairs);
    out := Values(pairs, keys, best);
  }
}
