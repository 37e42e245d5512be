/** How many calls are paired, how many are dictated, and what a distance counts. */
module HarvestLaws {
  import opened Harvest

  datatype Place = Place(record: nat, call: nat)

  /** The call is for a skill, and whether the nearest query before it names this. */
  predicate CallAt(rules: Rules, rs: seq<Record>, p: Place, named: bool) {
    && p.record < |rs| && rs[p.record].Assistant? && !rs[p.record].sidechain
    && p.call < |rs[p.record].skills| && rs[p.record].skills[p.call] != ""
    && exists j | 0 <= j < p.record :: Nearest(rules, rs, j, p.record) &&
         named == rules.names(rs[p.record].skills[p.call], rs[j].text)
  }

  /** Record `j` is the last query before record `k`. */
  predicate Nearest(rules: Rules, rs: seq<Record>, j: int, k: int)
    requires 0 <= j < k <= |rs|
  {
    && rs[j].User? && !rs[j].sidechain && !rs[j].meta && rules.isQuery(rs[j].text)
    && forall i | j < i < k :: !(rs[i].User? && !rs[i].sidechain && !rs[i].meta && rules.isQuery(rs[i].text))
  }

  /** Of one record, whose nearest query is known, the places of the first calls. */
  function Row(rules: Rules, query: string, k: nat, skills: seq<string>, n: nat, named: bool): set<Place>
    requires n <= |skills|
  {
    if n == 0 then {}
    else
      Row(rules, query, k, skills, n - 1, named) +
      if skills[n - 1] != "" && rules.names(skills[n - 1], query) == named then {Place(k, n - 1)} else {}
  }

  lemma {:induction false} RowCounts(rules: Rules, query: string, distance: nat, k: nat, skills: seq<string>, n: nat)
    requires n <= |skills|
    ensures |Row(rules, query, k, skills, n, false)| == |PairsOf(rules, query, distance, skills[..n])|
    ensures |Row(rules, query, k, skills, n, true)| == DictatedOf(rules, query, skills[..n])
  {
    if n > 0 {
      RowCounts(rules, query, distance, k, skills, n - 1);
      RowNext(rules, query, k, skills, n, false);
      RowNext(rules, query, k, skills, n, true);
      assert skills[..n][..n - 1] == skills[..n - 1];
    }
  }

  lemma RowNext(rules: Rules, query: string, k: nat, skills: seq<string>, n: nat, named: bool)
    requires 0 < n <= |skills|
    ensures |Row(rules, query, k, skills, n, named)| == |Row(rules, query, k, skills, n - 1, named)| +
      if skills[n - 1] != "" && rules.names(skills[n - 1], query) == named then 1 else 0
  {
    RowHas(rules, query, k, skills, n - 1, named);
  }

  lemma {:induction false} RowHas(rules: Rules, query: string, k: nat, skills: seq<string>, n: nat, named: bool)
    requires n <= |skills|
    ensures forall p :: p in Row(rules, query, k, skills, n, named) <==>
      p.record == k && p.call < n && skills[p.call] != "" && rules.names(skills[p.call], query) == named
  {
    if n > 0 {
      RowHas(rules, query, k, skills, n - 1, named);
    }
  }

  lemma NearestIs(rules: Rules, rs: seq<Record>, k: nat, j: int)
    requires 0 <= j < k <= |rs|
    ensures Nearest(rules, rs, j, k) <==> j == LastPrompt(rules, rs[..k])
  {
    var last := LastPrompt(rules, rs[..k]);
    assert forall i | 0 <= i < k :: rs[..k][i] == rs[i] && (Prompts(rules, rs[..k][i]) <==> Prompts(rules, rs[i]));
  }

  /** What one record adds. */
  function RowOf(rules: Rules, rs: seq<Record>, k: nat, named: bool): set<Place>
    requires k < |rs|
  {
    var j, r := LastPrompt(rules, rs[..k]), rs[k];
    if Answers(r) && j >= 0 then Row(rules, rs[j].text, k, r.skills, |r.skills|, named) else {}
  }

  lemma RowIs(rules: Rules, rs: seq<Record>, k: nat, named: bool, p: Place)
    requires k < |rs|
    ensures p in RowOf(rules, rs, k, named) <==> p.record == k && CallAt(rules, rs, p, named)
  {
    var j, r := LastPrompt(rules, rs[..k]), rs[k];
    forall i | 0 <= i < k ensures Nearest(rules, rs, i, k) <==> i == j {
      NearestIs(rules, rs, k, i);
    }
    if Answers(r) && j >= 0 {
      RowHas(rules, rs[j].text, k, r.skills, |r.skills|, named);
      assert Nearest(rules, rs, j, k);
    }
  }

  function Tally(rules: Rules, rs: seq<Record>, named: bool): nat {
    if named then DictatedIn(rules, rs) else |PairsIn(rules, rs)|
  }

  lemma RowAdds(rules: Rules, rs: seq<Record>, k: nat, named: bool)
    requires k < |rs|
    ensures Tally(rules, rs[..k + 1], named) == Tally(rules, rs[..k], named) + |RowOf(rules, rs, k, named)|
  {
    var j, r := LastPrompt(rules, rs[..k]), rs[k];
    assert rs[..k + 1][..k] == rs[..k];
    if Answers(r) && j >= 0 {
      RowCounts(rules, rs[j].text, Turns(rs[..k + 1][j..]), k, r.skills, |r.skills|);
      assert r.skills[..|r.skills|] == r.skills;
    }
  }

  lemma UnionSize(a: set<Place>, b: set<Place>)
    requires a !! b
    ensures |a + b| == |a| + |b|
  {
  }

  /** The calls before record `k` that the query names, or does not. */
  ghost predicate Until(rules: Rules, rs: seq<Record>, k: nat, named: bool, at: set<Place>) {
    forall p :: p in at <==> p.record < k && CallAt(rules, rs, p, named)
  }

  lemma MoreCalls(rules: Rules, rs: seq<Record>, k: nat, named: bool, before: set<Place>) returns (now: set<Place>)
    requires k < |rs| && Until(rules, rs, k, named, before)
    ensures Until(rules, rs, k + 1, named, now)
    ensures |now| == |before| + |RowOf(rules, rs, k, named)|
  {
    var row := RowOf(rules, rs, k, named);
    forall p ensures p in row <==> p.record == k && CallAt(rules, rs, p, named) {
      RowIs(rules, rs, k, named, p);
    }
    UnionSize(before, row);
    now := before + row;
  }

  lemma {:induction false} CallsUntil(rules: Rules, rs: seq<Record>, k: nat, named: bool) returns (at: set<Place>)
    requires k <= |rs|
    ensures Until(rules, rs, k, named, at) && Tally(rules, rs[..k], named) == |at|
  {
    if k == 0 {
      at := {};
    } else {
      at := CallsUntil(rules, rs, k - 1, named);
      at := NextCalls(rules, rs, k - 1, named, at);
    }
  }

  lemma NextCalls(rules: Rules, rs: seq<Record>, k: nat, named: bool, before: set<Place>) returns (now: set<Place>)
    requires k < |rs| && Until(rules, rs, k, named, before) && Tally(rules, rs[..k], named) == |before|
    ensures Until(rules, rs, k + 1, named, now) && Tally(rules, rs[..k + 1], named) == |now|
  {
    now := MoreCalls(rules, rs, k, named, before);
    RowAdds(rules, rs, k, named);
  }

  /** Every call of a skill after a query counts once: as a pair if the nearest query does not name it, or else as
      dictated. */
  lemma CallsCounted(rules: Rules, rs: seq<Record>) returns (paired: set<Place>, dictated: set<Place>)
    ensures forall p :: p in paired <==> CallAt(rules, rs, p, false)
    ensures forall p :: p in dictated <==> CallAt(rules, rs, p, true)
    ensures |PairsIn(rules, rs)| == |paired| && DictatedIn(rules, rs) == |dictated|
  {
    paired := CallsUntil(rules, rs, |rs|, false);
    dictated := CallsUntil(rules, rs, |rs|, true);
    assert rs[..|rs|] == rs;
  }

  /** A distance is the number of assistant records. */
  lemma {:induction false} TurnsAre(rs: seq<Record>) returns (at: set<nat>)
    ensures forall k: nat :: k in at <==> k < |rs| && rs[k].Assistant? && !rs[k].sidechain
    ensures Turns(rs) == |at|
  {
    at := {};
    if rs != [] {
      var n := |rs| - 1;
      at := TurnsAre(rs[..n]);
      if Answers(rs[n]) {
        assert n !in at;
        at := at + {n};
      }
    }
  }

  // ---- all transcripts ----

  lemma {:induction false} AllPairsIff(rules: Rules, transcripts: seq<seq<Record>>, p: Pair)
    ensures p in AllPairs(rules, transcripts) <==>
      exists i, j, k :: 0 <= i < |transcripts| && Calls(rules, transcripts[i], j, k, p)
  {
    if transcripts != [] {
      var n := |transcripts| - 1;
      AllPairsIff(rules, transcripts[..n], p);
      PairsAreCalls(rules, transcripts[n], p);
      assert forall i | 0 <= i < n :: transcripts[..n][i] == transcripts[i];
    }
  }

  predicate Alike(p: Pair, q: Pair) {
    p.query == q.query && p.skill == q.skill
  }

  /** No pair before this one has its query and skill. */
  predicate First(pairs: seq<Pair>, k: nat) {
    k < |pairs| && forall j | 0 <= j < k :: !Alike(pairs[j], pairs[k])
  }

  ghost predicate FirstsAt(pairs: seq<Pair>, keys: seq<Key>, at: seq<nat>) {
    && |at| == |keys| && (forall i, j | 0 <= i < j < |at| :: at[i] < at[j])
    && (forall k: nat :: k in at <==> First(pairs, k))
    && (forall i | 0 <= i < |at| :: at[i] < |pairs| && keys[i] == (pairs[at[i]].query, pairs[at[i]].skill))
  }

  lemma {:induction false} FirstSeenAt(pairs: seq<Pair>) returns (at: seq<nat>)
    ensures FirstsAt(pairs, FirstSeen(pairs), at)
  {
    at := [];
    if pairs != [] {
      var n := |pairs| - 1;
      at := FirstSeenAt(pairs[..n]);
      SeenIff(pairs[..n], pairs[n]);
      FirstsNext(pairs[..n], pairs[n], FirstSeen(pairs[..n]), at);
      assert pairs[..n] + [pairs[n]] == pairs;
      if KeyOf(pairs[n]) !in FirstSeen(pairs[..n]) {
        at := at + [n];
      }
    }
  }

  lemma {:induction false} SeenIff(pairs: seq<Pair>, p: Pair)
    ensures KeyOf(p) in FirstSeen(pairs) <==> exists j :: 0 <= j < |pairs| && Alike(pairs[j], p)
  {
    if pairs != [] {
      var n := |pairs| - 1;
      SeenIff(pairs[..n], p);
      assert forall j | 0 <= j < n :: pairs[..n][j] == pairs[j];
      assert KeyOf(p) == KeyOf(pairs[n]) <==> Alike(pairs[n], p);
      SeenIff(pairs[..n], pairs[n]);
    }
  }

  lemma FirstsNext(pairs: seq<Pair>, pair: Pair, keys: seq<Key>, at: seq<nat>)
    requires FirstsAt(pairs, keys, at)
    requires KeyOf(pair) in keys <==> exists j :: 0 <= j < |pairs| && Alike(pairs[j], pair)
    ensures if KeyOf(pair) in keys then FirstsAt(pairs + [pair], keys, at)
            else FirstsAt(pairs + [pair], keys + [KeyOf(pair)], at + [|pairs|])
  {
    var all := pairs + [pair];
    assert forall i | 0 <= i < |at| :: at[i] in at;
    assert forall j | 0 <= j < |pairs| :: all[j] == pairs[j];
    forall k: nat | k < |pairs| ensures First(all, k) <==> First(pairs, k) {
      assert forall j | 0 <= j < k :: Alike(all[j], all[k]) <==> Alike(pairs[j], pairs[k]);
    }
    assert First(all, |pairs|) <==> KeyOf(pair) !in keys;
    if KeyOf(pair) !in keys {
      var more := at + [|pairs|];
      forall k: nat ensures k in more <==> First(all, k) {
      }
    }
  }
}
