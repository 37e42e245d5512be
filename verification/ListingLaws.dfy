/** A parsed entry's name, and the whole of the fitting, told of the entries as they were listed. */
module ListingLaws {
  import opened Text
  import opened ListingParse
  import opened ListingBudget

  // ---- names ----

  /** `[a-z0-9]` */
  predicate Plain(c: char) {
    'a' <= c <= 'z' || '0' <= c <= '9'
  }

  /** `[a-z0-9_-]*` after a plain character. */
  predicate IsName(s: string) {
    s != "" && Plain(s[0]) && forall i | 0 < i < |s| :: Plain(s[i]) || s[i] == '_' || s[i] == '-'
  }

  ghost predicate NameLine(line: string, name: string, rest: string) {
    line == "- " + name + rest && IsName(name) && (rest == "" || rest[0] == ':')
  }

  /** How far the name goes. */
  function NameEnd(line: string, k: nat): (n: nat)
    requires k <= |line|
    ensures k <= n <= |line|
    ensures forall i | k <= i < n :: NameChar(line[i]) && line[i] != ':'
    ensures n < |line| ==> !NameChar(line[n]) || line[n] == ':'
    decreases |line| - k
  {
    if k < |line| && NameChar(line[k]) && line[k] != ':' then NameEnd(line, k + 1) else k
  }

  /** A line starts an entry exactly if it is a dash, a name, and then nothing or a colon. */
  lemma StartsIff(line: string)
    ensures StartsEntry(line) <==> exists name, rest :: NameLine(line, name, rest)
  {
    if StartsEntry(line) {
      var n := NameEnd(line, 3);
      StartsAt(line, n);
      NameOf(line, n);
      assert NameLine(line, line[2..n], line[n..]);
    }
    if name, rest :| NameLine(line, name, rest) {
      NamedStarts(line, name, rest);
    }
  }

  lemma StartsAt(line: string, n: nat)
    requires StartsEntry(line) && n == NameEnd(line, 3)
    ensures n == |line| || line[n] == ':'
  {
    var k :| 3 <= k <= |line| && NamedUntil(line, k);
  }

  lemma NameOf(line: string, n: nat)
    requires 3 <= n <= |line| && "- " <= line && NameStart(line[2])
    requires forall i | 3 <= i < n :: NameChar(line[i]) && line[i] != ':'
    ensures line == "- " + line[2..n] + line[n..] && IsName(line[2..n])
  {
  }

  lemma NamedStarts(line: string, name: string, rest: string)
    requires NameLine(line, name, rest)
    ensures StartsEntry(line)
  {
    var k := 2 + |name|;
    assert "- " <= line && line[2] == name[0];
    assert k == |line| || line[k] == ':';
    forall j | 3 <= j < k ensures NameChar(line[j]) {
      assert line[j] == name[j - 2];
    }
    assert NamedUntil(line, k);
  }

  lemma {:induction false} BeforeStops(a: string, c: char, b: string)
    requires c !in a && (b == "" || b[0] == c)
    ensures Before(a + b, c) == a
  {
    if a == "" {
      assert a + b == b;
    } else {
      assert (a + b)[1..] == a[1..] + b;
      BeforeStops(a[1..], c, b);
    }
  }

  lemma {:induction false} BeforeKeeps(a: string, c: char, b: string) returns (more: string)
    requires c !in a
    ensures Before(a + b, c) == a + more && more <= b
    ensures b != "" && b[0] != c ==> more != "" && more[0] == b[0]
  {
    if a == "" {
      assert a + b == b;
      more := Before(b, c);
      BeforePrefix(b, c);
    } else {
      assert (a + b)[1..] == a[1..] + b;
      more := BeforeKeeps(a[1..], c, b);
    }
  }

  lemma {:induction false} BeforePrefix(s: string, c: char)
    ensures Before(s, c) <= s
  {
    if s != "" && s[0] != c {
      BeforePrefix(s[1..], c);
    }
  }

  lemma Unspaced(s: string)
    requires s != "" && !IsSpace(s[0]) && !IsSpace(s[|s| - 1])
    ensures Strip(s) == s
  {
    StripTrim(s);
  }

  /** The name of an entry goes up to the first colon or line end. */
  lemma NamedEntry(text: string, name: string, rest: string)
    requires text == "- " + name + rest && IsName(name) && (rest == "" || rest[0] == ':' || rest[0] == '\n')
    ensures ListingParse.EntryOf(text) == Entry(name, |text|)
  {
    assert text[2..] == name + rest;
    NameHasNone(name);
    if rest != "" && rest[0] == '\n' {
      var more := BeforeKeeps(name, ':', rest);
      BeforeStops(name, '\n', more);
    } else {
      BeforeStops(name, ':', rest);
      BeforeStops(name, '\n', "");
      assert name + "" == name;
    }
  }

  lemma NameHasNone(name: string)
    requires IsName(name)
    ensures ':' !in name && '\n' !in name && Strip(name) == name
  {
    forall c | c in name ensures c != ':' && c != '\n' && !IsSpace(c) {
      var i :| 0 <= i < |name| && name[i] == c;
    }
    Unspaced(name);
  }

  /** Each entry of a parsed listing is a dash, its name, and then nothing, a colon or a new line. */
  lemma ParsedNames(content: string, i: nat)
    requires i < |Merge(SplitLines(content))|
    ensures var text, e := Merge(SplitLines(content))[i], Entries(Merge(SplitLines(content)))[i];
      IsName(e.name) && e.entryLen == |text| && "- " + e.name <= text &&
      (|text| == 2 + |e.name| || text[2 + |e.name|] in ":\n")
  {
    var text := Merge(SplitLines(content))[i];
    MergeStarts(SplitLines(content));
    assert text in Merge(SplitLines(content)) && BeginsRight(text);
    var line :| StartsEntry(line) && (text == line || line + "\n" <= text);
    StartsIff(line);
    var name, rest :| NameLine(line, name, rest);
    var all := text[2 + |name|..];
    assert text == "- " + name + all;
    assert all != "" ==> text[2 + |name|] == all[0];
    NamedEntry(text, name, all);
  }

  // ---- fitting ----

  predicate Contends(e: Entry, st: Setting) {
    e.name !in st.nameOnly && !(st.protectBuiltin && e.name in st.builtin)
  }

  /** What the entry takes by name only. */
  function Short(e: Entry): nat {
    |"- " + e.name|
  }

  /** What the entries take as they are listed, with a separator between each two. */
  function AllListed(es: seq<Entry>, st: Setting): nat {
    if es == [] then 0
    else
      var init, e := es[..|es| - 1], es[|es| - 1];
      AllListed(init, st) + (if init == [] then 0 else 1) + if e.name in st.nameOnly then Short(e) else e.entryLen
  }

  /** What they take if all that contend are demoted. */
  function AllDemoted(es: seq<Entry>, st: Setting): nat {
    if es == [] then 0
    else
      var init, e := es[..|es| - 1], es[|es| - 1];
      AllDemoted(init, st) + (if init == [] then 0 else 1) +
      if e.name in st.nameOnly || Contends(e, st) then Short(e) else e.entryLen
  }

  lemma {:induction false} ChargedSums(es: seq<Entry>, st: Setting)
    ensures Accounted(Charged(es, st)) == AllListed(es, st) && Floor(Charged(es, st), st) == AllDemoted(es, st)
  {
    if es != [] {
      var n := |es| - 1;
      ChargedSums(es[..n], st);
      assert Charged(es, st)[..n] == Charged(es[..n], st);
    }
  }

  predicate Within(es: seq<Entry>, at: seq<nat>) {
    forall i | 0 <= i < |at| :: at[i] < |es|
  }

  function Pick(es: seq<Entry>, at: seq<nat>): seq<Entry>
    requires Within(es, at)
  {
    seq(|at|, i requires 0 <= i < |at| => es[at[i]])
  }

  /** Higher priorities first, and of equal ones the one listed first. */
  predicate Ahead(es: seq<Entry>, prio: Priority, i: nat, j: nat)
    requires i < |es| && j < |es|
  {
    prio(es[i].name) > prio(es[j].name) || (prio(es[i].name) == prio(es[j].name) && i < j)
  }

  predicate Ranked(es: seq<Entry>, prio: Priority, at: seq<nat>) {
    Within(es, at) && forall i, j | 0 <= i < j < |at| :: Ahead(es, prio, at[i], at[j])
  }

  predicate Increasing(at: seq<nat>) {
    forall i, j | 0 <= i < j < |at| :: at[i] < at[j]
  }

  lemma {:induction false} UnprotectedAt(es: seq<Entry>, st: Setting) returns (at: seq<nat>)
    ensures Within(es, at) && Increasing(at) && Unprotected(es, st) == Pick(es, at)
    ensures forall k: nat :: k in at <==> k < |es| && Contends(es[k], st)
  {
    at := [];
    if es != [] {
      var n := |es| - 1;
      at := UnprotectedAt(es[..n], st);
      assert Pick(es[..n], at) == Pick(es, at);
      assert forall i | 0 <= i < |at| :: at[i] in at;
      if Contends(es[n], st) {
        var more := at + [n];
        assert Pick(es, more) == Pick(es, at) + [es[n]];
        forall k: nat ensures k in more <==> k < |es| && Contends(es[k], st) {
        }
        at := more;
      }
    }
  }

  /** Inserting the entry number `n` among earlier ones. */
  lemma {:induction false} InsertAt(es: seq<Entry>, prio: Priority, at: seq<nat>, n: nat) returns (more: seq<nat>)
    requires Ranked(es, prio, at) && n < |es| && forall i | 0 <= i < |at| :: at[i] < n
    ensures Ranked(es, prio, more) && Insert(es[n], Pick(es, at), prio) == Pick(es, more)
    ensures forall k: nat :: k in more <==> k in at || k == n
  {
    var m := |at| - 1;
    if at != [] && prio(es[at[m]].name) < prio(es[n].name) {
      assert at == at[..m] + [at[m]];
      assert Pick(es, at)[..m] == Pick(es, at[..m]);
      var before := InsertAt(es, prio, at[..m], n);
      more := before + [at[m]];
      AheadOfLast(es, prio, at, n, before);
    } else {
      more := at + [n];
      LastPlace(es, prio, at, n);
    }
  }

  lemma AheadOfLast(es: seq<Entry>, prio: Priority, at: seq<nat>, n: nat, before: seq<nat>)
    requires at != [] && Ranked(es, prio, at) && n < |es| && Ranked(es, prio, before)
    requires prio(es[at[|at| - 1]].name) < prio(es[n].name)
    requires forall k: nat :: k in before <==> k in at[..|at| - 1] || k == n
    ensures Ranked(es, prio, before + [at[|at| - 1]])
  {
    var m := |at| - 1;
    forall i | 0 <= i < |before| ensures Ahead(es, prio, before[i], at[m]) {
      assert before[i] in before;
    }
  }

  lemma LastPlace(es: seq<Entry>, prio: Priority, at: seq<nat>, n: nat)
    requires Ranked(es, prio, at) && n < |es| && forall i | 0 <= i < |at| :: at[i] < n
    requires at != [] ==> prio(es[at[|at| - 1]].name) >= prio(es[n].name)
    ensures Ranked(es, prio, at + [n])
  {
    assert forall i | 0 <= i < |at| :: Ahead(es, prio, at[i], n);
  }

  lemma {:induction false} SortAt(es: seq<Entry>, prio: Priority, n: nat) returns (at: seq<nat>)
    requires n <= |es|
    ensures Ranked(es, prio, at) && Sort(es[..n], prio) == Pick(es, at)
    ensures forall k: nat :: k in at <==> k < n
  {
    at := [];
    if n > 0 {
      at := SortAt(es, prio, n - 1);
      assert es[..n][..n - 1] == es[..n - 1];
      assert forall i | 0 <= i < |at| :: at[i] in at;
      at := InsertAt(es, prio, at, n - 1);
    }
  }

  /** The places of the contenders in the order they are considered. */
  ghost predicate InTurn(es: seq<Entry>, st: Setting, prio: Priority, at: seq<nat>) {
    Ranked(es, prio, at) && forall k: nat :: k in at <==> k < |es| && Contends(es[k], st)
  }

  lemma OrderAt(es: seq<Entry>, st: Setting, prio: Priority) returns (at: seq<nat>)
    ensures InTurn(es, st, prio, at) && Order(es, st, prio) == Pick(es, at)
  {
    var from := UnprotectedAt(es, st);
    var some := Unprotected(es, st);
    var places := SortAt(some, prio, |some|);
    assert some[..|some|] == some;
    at := Through(es, st, prio, from, places);
  }

  lemma Through(es: seq<Entry>, st: Setting, prio: Priority, from: seq<nat>, places: seq<nat>) returns (at: seq<nat>)
    requires Within(es, from) && Increasing(from) && Ranked(Pick(es, from), prio, places)
    requires forall k: nat :: k in from <==> k < |es| && Contends(es[k], st)
    requires forall k: nat :: k in places <==> k < |from|
    ensures InTurn(es, st, prio, at) && Pick(es, at) == Pick(Pick(es, from), places)
  {
    at := seq(|places|, i requires 0 <= i < |places| => from[places[i]]);
    forall i, j | 0 <= i < j < |at| ensures Ahead(es, prio, at[i], at[j]) {
      assert Ahead(Pick(es, from), prio, places[i], places[j]);
    }
    forall k: nat ensures k in at <==> k in from {
      if k in from {
        var j :| 0 <= j < |from| && from[j] == k;
        assert j in places;
        var i :| 0 <= i < |places| && places[i] == j;
        assert at[i] == k;
      }
    }
  }

  // ---- who is kept ----

  /** What the first `k` of them take beyond their names, if they are kept. */
  function Spent(order: seq<Entry>, kept: seq<bool>, k: nat): int
    requires k <= |order| == |kept|
  {
    if k == 0 then 0 else Spent(order, kept, k - 1) + if kept[k - 1] then order[k - 1].entryLen - Short(order[k - 1]) else 0
  }

  /** The names of those of the first `k` that are not kept. */
  function Dropped(order: seq<Entry>, kept: seq<bool>, k: nat): seq<string>
    requires k <= |order| == |kept|
  {
    if k == 0 then [] else Dropped(order, kept, k - 1) + if kept[k - 1] then [] else [order[k - 1].name]
  }

  /** Each is kept exactly if what it takes beyond its name fits in what those before it have left. */
  predicate KeptInTurn(order: seq<Entry>, kept: seq<bool>, room: int) {
    |kept| == |order| && forall k | 0 <= k < |order| ::
      kept[k] <==> order[k].entryLen - Short(order[k]) <= room - Spent(order, kept, k)
  }

  lemma {:induction false} SpentSame(order: seq<Entry>, kept: seq<bool>, e: Entry, b: bool, k: nat)
    requires k <= |order| == |kept|
    ensures Spent(order + [e], kept + [b], k) == Spent(order, kept, k)
    ensures Dropped(order + [e], kept + [b], k) == Dropped(order, kept, k)
  {
    if k > 0 {
      SpentSame(order, kept, e, b, k - 1);
    }
  }

  /** The pass kept these and ended so. */
  predicate PassOf(order: seq<Entry>, room: int, f: Fit, kept: seq<bool>) {
    && KeptInTurn(order, kept, room) && f.spare == room - f.spent
    && f.spent == Spent(order, kept, |order|) && NamesOf(f.demoted) == Dropped(order, kept, |order|)
  }

  lemma KeptNext(order: seq<Entry>, kept: seq<bool>, room: int, e: Entry, keeps: bool)
    requires KeptInTurn(order, kept, room)
    requires keeps <==> e.entryLen - Short(e) <= room - Spent(order, kept, |order|)
    ensures KeptInTurn(order + [e], kept + [keeps], room)
  {
    var all, now := order + [e], kept + [keeps];
    forall k | 0 <= k < |all| ensures now[k] <==> all[k].entryLen - Short(all[k]) <= room - Spent(all, now, k) {
      SpentSame(order, kept, e, keeps, k);
      assert k < |order| ==> all[k] == order[k] && now[k] == kept[k];
    }
  }

  lemma SumsNext(order: seq<Entry>, kept: seq<bool>, e: Entry, keeps: bool)
    requires |kept| == |order|
    ensures Spent(order + [e], kept + [keeps], |order| + 1) ==
      Spent(order, kept, |order|) + if keeps then e.entryLen - Short(e) else 0
    ensures Dropped(order + [e], kept + [keeps], |order| + 1) ==
      Dropped(order, kept, |order|) + if keeps then [] else [e.name]
  {
    SpentSame(order, kept, e, keeps, |order|);
  }

  lemma PassNext(order: seq<Entry>, room: int, f: Fit, kept: seq<bool>, e: Entry)
    requires PassOf(order, room, f, kept)
    ensures Delta(e) <= f.spare ==>
      PassOf(order + [e], room, Fit(f.spare - Delta(e), f.spent + Delta(e), f.demoted), kept + [true])
    ensures Delta(e) > f.spare ==> PassOf(order + [e], room, f.(demoted := f.demoted + [e]), kept + [false])
  {
    if Delta(e) <= f.spare {
      PassKeeps(order, room, f, kept, e);
    } else {
      PassDemotes(order, room, f, kept, e);
    }
  }

  lemma PassKeeps(order: seq<Entry>, room: int, f: Fit, kept: seq<bool>, e: Entry)
    requires PassOf(order, room, f, kept) && Delta(e) <= f.spare
    ensures PassOf(order + [e], room, Fit(f.spare - Delta(e), f.spent + Delta(e), f.demoted), kept + [true])
  {
    SumsNext(order, kept, e, true);
    KeptNext(order, kept, room, e, true);
  }

  lemma PassDemotes(order: seq<Entry>, room: int, f: Fit, kept: seq<bool>, e: Entry)
    requires PassOf(order, room, f, kept) && Delta(e) > f.spare
    ensures PassOf(order + [e], room, f.(demoted := f.demoted + [e]), kept + [false])
  {
    SumsNext(order, kept, e, false);
    NamesPush(f.demoted, e);
    KeptNext(order, kept, room, e, false);
  }

  lemma {:induction false} GreedyAt(order: seq<Entry>, room: int) returns (kept: seq<bool>)
    ensures PassOf(order, room, Greedy(order, room), kept)
  {
    kept := [];
    if order != [] {
      var init, e := order[..|order| - 1], order[|order| - 1];
      kept := GreedyAt(init, room);
      PassNext(init, room, Greedy(init, room), kept, e);
      kept := kept + [Delta(e) <= Greedy(init, room).spare];
      assert order == init + [e];
    }
  }

  // ---- the outcome ----

  lemma ChargedContends(es: seq<Entry>, st: Setting, prio: Priority, at: seq<nat>)
    requires InTurn(Charged(es, st), st, prio, at)
    ensures InTurn(es, st, prio, at) && Pick(Charged(es, st), at) == Pick(es, at)
  {
    forall i | 0 <= i < |at| ensures Charged(es, st)[at[i]] == es[at[i]] {
      assert at[i] in at;
    }
    forall i, j | 0 <= i < j < |at| ensures Ahead(es, prio, at[i], at[j]) {
      assert Ahead(Charged(es, st), prio, at[i], at[j]);
    }
  }

  /** Either all fits as it is listed; or, one by one from the highest priority on, those contenders are kept that fit
      beside the bare names of all others, and the rest are demoted. */
  lemma SimulateIs(es: seq<Entry>, budget: int, st: Setting, prio: Priority) returns (at: seq<nat>, kept: seq<bool>)
    ensures InTurn(es, st, prio, at) && KeptInTurn(Pick(es, at), kept, budget - AllDemoted(es, st))
    ensures Simulated(Charged(es, st), budget, st, prio) ==
      if AllListed(es, st) <= budget then Outcome(Fits, AllListed(es, st), [])
      else Outcome(ByPriority, AllDemoted(es, st) + Spent(Pick(es, at), kept, |kept|), Dropped(Pick(es, at), kept, |kept|))
  {
    at := OrderAt(Charged(es, st), st, prio);
    ChargedContends(es, st, prio, at);
    ChargedSums(es, st);
    kept := GreedyAt(Pick(es, at), budget - AllDemoted(es, st));
  }
}
