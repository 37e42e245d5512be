/** Fitting a skill listing into its budget (skills-mcp/eval/listing_report.py, `simulate`). Priorities are reals. */
module ListingBudget {
  import opened ListingParse

  type Priority = string -> real

  /** Who is listed by name only anyway, and who is never demoted. */
  datatype Setting = Setting(nameOnly: set<string>, protectBuiltin: bool, builtin: set<string>)

  datatype Mode = Fits | ByPriority

  datatype Outcome = Outcome(mode: Mode, total: int, demoted: seq<string>)

  function BareLen(e: Entry): nat {
    |e.name| + 2
  }

  /** What demoting the entry saves. */
  function Delta(e: Entry): int {
    e.entryLen - BareLen(e)
  }

  function Charge(e: Entry, st: Setting): Entry {
    if e.name in st.nameOnly then e.(entryLen := BareLen(e)) else e
  }

  function Charged(es: seq<Entry>, st: Setting): seq<Entry> {
    seq(|es|, i requires 0 <= i < |es| => Charge(es[i], st))
  }

  predicate Protected(e: Entry, st: Setting) {
    e.name in st.nameOnly || (st.protectBuiltin && e.name in st.builtin)
  }

  /** The length if everyone who can be is demoted, without separators. */
  function FloorLengths(es: seq<Entry>, st: Setting): nat {
    if es == [] then 0
    else
      var e := es[|es| - 1];
      FloorLengths(es[..|es| - 1], st) + if Protected(e, st) then e.entryLen else BareLen(e)
  }

  function Floor(es: seq<Entry>, st: Setting): nat {
    FloorLengths(es, st) + Separators(es)
  }

  // ---- contenders, highest priority first ----

  function Unprotected(es: seq<Entry>, st: Setting): seq<Entry> {
    if es == [] then []
    else
      var e := es[|es| - 1];
      Unprotected(es[..|es| - 1], st) + if Protected(e, st) then [] else [e]
  }

  /** Places an entry behind all that have at least its priority. */
  function Insert(e: Entry, sorted: seq<Entry>, prio: Priority): seq<Entry> {
    if sorted != [] && prio(sorted[|sorted| - 1].name) < prio(e.name)
    then Insert(e, sorted[..|sorted| - 1], prio) + [sorted[|sorted| - 1]]
    else sorted + [e]
  }

  function Sort(es: seq<Entry>, prio: Priority): seq<Entry> {
    if es == [] then [] else Insert(es[|es| - 1], Sort(es[..|es| - 1], prio), prio)
  }

  predicate Descending(es: seq<Entry>, prio: Priority) {
    forall i, j | 0 <= i < j < |es| :: prio(es[i].name) >= prio(es[j].name)
  }

  /** The entries of one priority, in order. */
  function OfPriority(es: seq<Entry>, prio: Priority, x: real): seq<Entry> {
    if es == [] then []
    else OfPriority(es[..|es| - 1], prio, x) + if prio(es[|es| - 1].name) == x then [es[|es| - 1]] else []
  }

  lemma {:induction false} InsertDescending(e: Entry, sorted: seq<Entry>, prio: Priority)
    requires Descending(sorted, prio)
    ensures Descending(Insert(e, sorted, prio), prio)
    ensures forall x | x in Insert(e, sorted, prio) :: x == e || x in sorted
  {
    if sorted != [] && prio(sorted[|sorted| - 1].name) < prio(e.name) {
      var init, last := sorted[..|sorted| - 1], sorted[|sorted| - 1];
      InsertDescending(e, init, prio);
      var ins := Insert(e, init, prio);
      forall i | 0 <= i < |ins| ensures prio(ins[i].name) >= prio(last.name) {
        assert ins[i] in ins;
      }
    } else if sorted != [] {
      assert forall i | 0 <= i < |sorted| :: prio(sorted[i].name) >= prio(sorted[|sorted| - 1].name);
    }
  }

  lemma OfPriorityPush(es: seq<Entry>, e: Entry, prio: Priority, x: real)
    ensures OfPriority(es + [e], prio, x) == OfPriority(es, prio, x) + if prio(e.name) == x then [e] else []
  {
    assert (es + [e])[..|es|] == es;
  }

  lemma Swap(s: seq<Entry>, a: seq<Entry>, b: seq<Entry>)
    requires a == [] || b == []
    ensures s + a + b == s + b + a
  {
  }

  lemma {:induction false} InsertStable(e: Entry, sorted: seq<Entry>, prio: Priority, x: real)
    ensures OfPriority(Insert(e, sorted, prio), prio, x) ==
            OfPriority(sorted, prio, x) + if prio(e.name) == x then [e] else []
  {
    if sorted != [] && prio(sorted[|sorted| - 1].name) < prio(e.name) {
      var init, last := sorted[..|sorted| - 1], sorted[|sorted| - 1];
      assert sorted == init + [last];
      InsertStable(e, init, prio, x);
      OfPriorityPush(Insert(e, init, prio), last, prio, x);
      OfPriorityPush(init, last, prio, x);
      Swap(OfPriority(init, prio, x), if prio(e.name) == x then [e] else [], if prio(last.name) == x then [last] else []);
    } else {
      OfPriorityPush(sorted, e, prio, x);
    }
  }

  /** A stable sort: highest priority first, and within a priority exactly the entries there were, in their order. */
  lemma {:induction false} SortStable(es: seq<Entry>, prio: Priority)
    ensures Descending(Sort(es, prio), prio)
    ensures forall x :: OfPriority(Sort(es, prio), prio, x) == OfPriority(es, prio, x)
  {
    if es != [] {
      var init, last := es[..|es| - 1], es[|es| - 1];
      assert es == init + [last];
      SortStable(init, prio);
      InsertDescending(last, Sort(init, prio), prio);
      forall x ensures OfPriority(Sort(es, prio), prio, x) == OfPriority(es, prio, x) {
        InsertStable(last, Sort(init, prio), prio, x);
        OfPriorityPush(init, last, prio, x);
      }
    }
  }

  // ---- the greedy pass ----

  datatype Fit = Fit(spare: int, spent: int, demoted: seq<Entry>)

  function Greedy(order: seq<Entry>, spare: int): Fit {
    if order == [] then Fit(spare, 0, [])
    else
      var f, e := Greedy(order[..|order| - 1], spare), order[|order| - 1];
      if Delta(e) <= f.spare then Fit(f.spare - Delta(e), f.spent + Delta(e), f.demoted)
      else f.(demoted := f.demoted + [e])
  }

  function NamesOf(es: seq<Entry>): (names: seq<string>)
    ensures |names| == |es| && forall i | 0 <= i < |es| :: names[i] == es[i].name
  {
    if es == [] then [] else NamesOf(es[..|es| - 1]) + [es[|es| - 1].name]
  }

  /** The contenders among the charged entries, in the order they are considered. */
  function Order(charged: seq<Entry>, st: Setting, prio: Priority): seq<Entry> {
    Sort(Unprotected(charged, st), prio)
  }

  function Fitted(charged: seq<Entry>, budget: int, st: Setting, prio: Priority): Fit {
    Greedy(Order(charged, st, prio), budget - Floor(charged, st))
  }

  /** The outcome, given what everyone takes, what everyone takes at least, and who contends for the difference. */
  function Decide(total: int, budget: int, floor: int, order: seq<Entry>): Outcome {
    if total <= budget then Outcome(Fits, total, []) else Settle(floor, Greedy(order, budget - floor))
  }

  function Settle(floor: int, f: Fit): Outcome {
    Outcome(ByPriority, floor + f.spent, NamesOf(f.demoted))
  }

  /** The outcome for entries charged at their listed length, or at that of their bare name. */
  function Simulated(charged: seq<Entry>, budget: int, st: Setting, prio: Priority): Outcome {
    Decide(Accounted(charged), budget, Floor(charged, st), Order(charged, st, prio))
  }

  method Simulate(entries: seq<Entry>, budget: int, st: Setting, prio: Priority) returns (r: Outcome)
    ensures r == Simulated(Charged(entries, st), budget, st, prio)
  {
    var charged := Charged(entries, st);
    var total := Accounted(charged);
    if total <= budget {
      return Outcome(Fits, total, []);
    }
    var floor := Floor(charged, st);
    var spare := budget - floor;
    var contenders := Sort(Unprotected(charged, st), prio);
    var demoted: seq<string> := [];
    var spent := 0;
    ghost var lost: seq<Entry> := [];
    for i := 0 to |contenders|
      invariant Fit(spare, spent, lost) == Greedy(contenders[..i], budget - floor) && demoted == NamesOf(lost)
    {
      var e := contenders[i];
      assert contenders[..i + 1][..i] == contenders[..i];
      var delta := e.entryLen - BareLen(e);
      if delta <= spare {
        spare := spare - delta;
        spent := spent + delta;
      } else {
        NamesPush(lost, e);
        demoted := demoted + [e.name];
        lost := lost + [e];
      }
    }
    assert contenders[..|contenders|] == contenders;
    assert Fit(spare, spent, lost) == Greedy(contenders, budget - floor);
    return Outcome(ByPriority, floor + spent, demoted);
  }

  lemma NamesPush(es: seq<Entry>, e: Entry)
    ensures NamesOf(es + [e]) == NamesOf(es) + [e.name]
  {
    assert (es + [e])[..|es|] == es;
  }

  // ---- what the pass guarantees ----

  function Deltas(es: seq<Entry>): int {
    if es == [] then 0 else Deltas(es[..|es| - 1]) + Delta(es[|es| - 1])
  }

  lemma DeltasPush(es: seq<Entry>, e: Entry)
    ensures Deltas(es + [e]) == Deltas(es) + Delta(e)
  {
    assert (es + [e])[..|es|] == es;
  }

  lemma {:induction false} InsertDeltas(e: Entry, sorted: seq<Entry>, prio: Priority)
    ensures Deltas(Insert(e, sorted, prio)) == Deltas(sorted) + Delta(e)
  {
    if sorted != [] && prio(sorted[|sorted| - 1].name) < prio(e.name) {
      InsertDeltas(e, sorted[..|sorted| - 1], prio);
      DeltasPush(Insert(e, sorted[..|sorted| - 1], prio), sorted[|sorted| - 1]);
    } else {
      DeltasPush(sorted, e);
    }
  }

  lemma {:induction false} SortDeltas(es: seq<Entry>, prio: Priority)
    ensures Deltas(Sort(es, prio)) == Deltas(es)
  {
    if es != [] {
      SortDeltas(es[..|es| - 1], prio);
      InsertDeltas(es[|es| - 1], Sort(es[..|es| - 1], prio), prio);
    }
  }

  /** What could be saved is what lies between the charged lengths and the floor. */
  lemma {:induction false} FloorGap(es: seq<Entry>, st: Setting)
    ensures Lengths(es) == FloorLengths(es, st) + Deltas(Unprotected(es, st))
  {
    if es != [] {
      var init, last := es[..|es| - 1], es[|es| - 1];
      FloorGap(init, st);
      DeltasPush(Unprotected(init, st), last);
      assert Unprotected(init, st) + [] == Unprotected(init, st);
    }
  }

  lemma {:induction false} GreedySums(order: seq<Entry>, spare: int)
    ensures var f := Greedy(order, spare);
            f.spare == spare - f.spent && f.spent + Deltas(f.demoted) == Deltas(order)
  {
    if order != [] {
      var init, last := order[..|order| - 1], order[|order| - 1];
      GreedySums(init, spare);
      DeltasPush(Greedy(init, spare).demoted, last);
    }
  }

  /** What the contenders could give up is what lies between the charged total and the floor. */
  lemma OrderGap(charged: seq<Entry>, st: Setting, prio: Priority)
    ensures Floor(charged, st) + Deltas(Order(charged, st, prio)) == Accounted(charged)
  {
    FloorGap(charged, st);
    SortDeltas(Unprotected(charged, st), prio);
  }

  lemma Conserves(total: int, budget: int, floor: int, order: seq<Entry>, f: Fit, r: Outcome)
    requires floor + Deltas(order) == total > budget
    requires f == Greedy(order, budget - floor) && r == Decide(total, budget, floor, order)
    ensures r.mode.ByPriority? && r.demoted == NamesOf(f.demoted)
    ensures r.total + Deltas(f.demoted) == total && f.spare == budget - r.total
  {
    GreedySums(order, budget - floor);
    assert r == Settle(floor, f);
    Settled(budget, floor, Deltas(order), f, r);
  }

  lemma Settled(budget: int, floor: int, deltas: int, f: Fit, r: Outcome)
    requires f.spare == budget - floor - f.spent && f.spent + Deltas(f.demoted) == deltas
    requires r == Settle(floor, f)
    ensures r.mode.ByPriority? && r.demoted == NamesOf(f.demoted)
    ensures r.total + Deltas(f.demoted) == floor + deltas && f.spare == budget - r.total
  {
  }

  /** Over budget, nothing is lost from the count: the total and what the demoted entries gave up make the charged
      total, and the pass ends with what the total leaves of the budget. */
  lemma TotalConserved(charged: seq<Entry>, budget: int, st: Setting, prio: Priority, f: Fit, r: Outcome)
    requires Accounted(charged) > budget
    requires f == Fitted(charged, budget, st, prio) && r == Simulated(charged, budget, st, prio)
    ensures r.mode.ByPriority? && r.demoted == NamesOf(f.demoted)
    ensures r.total + Deltas(f.demoted) == Accounted(charged) && f.spare == budget - r.total
  {
    OrderGap(charged, st, prio);
    Conserves(Accounted(charged), budget, Floor(charged, st), Order(charged, st, prio), f, r);
  }

  /** No entry is shorter than its bare name. */
  predicate Covering(es: seq<Entry>) {
    forall i | 0 <= i < |es| :: Delta(es[i]) >= 0
  }

  predicate Keeps(order: seq<Entry>, spare: int, k: nat)
    requires k < |order|
  {
    Delta(order[k]) <= Greedy(order[..k], spare).spare
  }

  /** The room only shrinks along the pass, and never falls below nothing unless it began there. */
  lemma {:induction false} SpareShrinks(order: seq<Entry>, spare: int, k: nat)
    requires k <= |order| && Covering(order)
    ensures Greedy(order, spare).spare <= Greedy(order[..k], spare).spare
    ensures Greedy(order, spare).spare >= if spare < 0 then spare else 0
    decreases |order|
  {
    if k == |order| {
      assert order[..k] == order;
      if order != [] {
        SpareShrinks(order[..k - 1], spare, k - 1);
      }
    } else {
      var init := order[..|order| - 1];
      assert order[..k] == init[..k];
      SpareShrinks(init, spare, k);
    }
  }

  lemma {:induction false} DemotedAre(order: seq<Entry>, spare: int, e: Entry)
    ensures e in Greedy(order, spare).demoted <==>
              exists k :: 0 <= k < |order| && order[k] == e && !Keeps(order, spare, k)
  {
    if order != [] {
      var init := order[..|order| - 1];
      DemotedAre(init, spare, e);
      assert forall k | 0 <= k < |init| :: init[..k] == order[..k];
      assert forall k | 0 <= k < |init| :: Keeps(init, spare, k) == Keeps(order, spare, k);
    }
  }

  lemma {:induction false} InsertCovering(e: Entry, sorted: seq<Entry>, prio: Priority)
    requires Covering(sorted) && Delta(e) >= 0
    ensures Covering(Insert(e, sorted, prio)) && |Insert(e, sorted, prio)| == |sorted| + 1
  {
    if sorted != [] && prio(sorted[|sorted| - 1].name) < prio(e.name) {
      InsertCovering(e, sorted[..|sorted| - 1], prio);
    }
  }

  lemma {:induction false} SortCovering(es: seq<Entry>, prio: Priority)
    requires Covering(es)
    ensures Covering(Sort(es, prio)) && |Sort(es, prio)| == |es|
  {
    if es != [] {
      SortCovering(es[..|es| - 1], prio);
      InsertCovering(es[|es| - 1], Sort(es[..|es| - 1], prio), prio);
    }
  }

  lemma {:induction false} UnprotectedCovering(es: seq<Entry>, st: Setting)
    requires Covering(es)
    ensures Covering(Unprotected(es, st))
    ensures Unprotected(es, st) == [] <==> forall i | 0 <= i < |es| :: Protected(es[i], st)
  {
    if es != [] {
      UnprotectedCovering(es[..|es| - 1], st);
    }
  }

  lemma OrderCovering(charged: seq<Entry>, st: Setting, prio: Priority)
    requires Covering(charged)
    ensures Covering(Order(charged, st, prio))
    ensures Order(charged, st, prio) == [] <==> forall i | 0 <= i < |charged| :: Protected(charged[i], st)
  {
    UnprotectedCovering(charged, st);
    SortCovering(Unprotected(charged, st), prio);
  }

  lemma SpareDecides(order: seq<Entry>, spare: int)
    requires Covering(order)
    ensures Greedy(order, spare).spare >= 0 <==> spare >= 0
  {
    SpareShrinks(order, spare, 0);
    assert order[..0] == [];
  }

  lemma DecideWithin(total: int, budget: int, floor: int, order: seq<Entry>)
    requires floor + Deltas(order) == total > budget && Covering(order)
    ensures Decide(total, budget, floor, order).total <= budget <==> floor <= budget
  {
    Conserves(total, budget, floor, order, Greedy(order, budget - floor), Decide(total, budget, floor, order));
    SpareDecides(order, budget - floor);
  }

  /** The total is within the budget exactly if everyone listed by bare name would be. */
  lemma WithinIff(charged: seq<Entry>, budget: int, st: Setting, prio: Priority)
    requires Covering(charged) && Accounted(charged) > budget
    ensures Simulated(charged, budget, st, prio).total <= budget <==> Floor(charged, st) <= budget
  {
    OrderGap(charged, st, prio);
    OrderCovering(charged, st, prio);
    DecideWithin(Accounted(charged), budget, Floor(charged, st), Order(charged, st, prio));
  }

  lemma DemotedTooLong(total: int, budget: int, floor: int, order: seq<Entry>, e: Entry)
    requires floor + Deltas(order) == total > budget && Covering(order)
    requires e in Greedy(order, budget - floor).demoted
    ensures Delta(e) > budget - Decide(total, budget, floor, order).total
  {
    Conserves(total, budget, floor, order, Greedy(order, budget - floor), Decide(total, budget, floor, order));
    DemotedAre(order, budget - floor, e);
    var k :| 0 <= k < |order| && order[k] == e && !Keeps(order, budget - floor, k);
    SpareShrinks(order, budget - floor, k);
  }

  /** No demoted entry would still fit into what is left of the budget. */
  lemma NoneStillFits(charged: seq<Entry>, budget: int, st: Setting, prio: Priority, e: Entry)
    requires Covering(charged) && Accounted(charged) > budget
    requires e in Fitted(charged, budget, st, prio).demoted
    ensures Delta(e) > budget - Simulated(charged, budget, st, prio).total
  {
    OrderGap(charged, st, prio);
    OrderCovering(charged, st, prio);
    DemotedTooLong(Accounted(charged), budget, Floor(charged, st), Order(charged, st, prio), e);
  }

  /** A contender kept behind a demoted one has a strictly shorter description. */
  lemma KeptBehindIsShorter(charged: seq<Entry>, st: Setting, prio: Priority, order: seq<Entry>, spare: int,
                            i: nat, k: nat)
    requires Covering(charged) && order == Order(charged, st, prio) && i < k < |order|
    requires !Keeps(order, spare, i) && Keeps(order, spare, k)
    ensures Delta(order[k]) < Delta(order[i])
  {
    OrderCovering(charged, st, prio);
    assert Covering(order[..k]) && order[..k][..i] == order[..i];
    SpareShrinks(order[..k], spare, i);
  }

  lemma {:induction false} NoneDemoted(order: seq<Entry>, spare: int)
    requires Covering(order) && order != [] && Greedy(order, spare).demoted == []
    ensures spare >= 0
    decreases |order|
  {
    var init := order[..|order| - 1];
    if init != [] {
      NoneDemoted(init, spare);
    } else {
      assert Greedy(init, spare) == Fit(spare, 0, []);
    }
  }

  lemma DecideDemotes(total: int, budget: int, floor: int, order: seq<Entry>)
    requires floor + Deltas(order) == total > budget && Covering(order)
    ensures Decide(total, budget, floor, order).demoted != [] <==> order != []
  {
    Conserves(total, budget, floor, order, Greedy(order, budget - floor), Decide(total, budget, floor, order));
    if order != [] && Greedy(order, budget - floor).demoted == [] {
      NoneDemoted(order, budget - floor);
      SpareDecides(order, budget - floor);
      assert false;
    }
  }

  /** Over budget, someone is demoted exactly if someone is unprotected. */
  lemma DemotesIff(charged: seq<Entry>, budget: int, st: Setting, prio: Priority)
    requires Covering(charged) && Accounted(charged) > budget
    ensures Simulated(charged, budget, st, prio).demoted != [] <==>
              exists i :: 0 <= i < |charged| && !Protected(charged[i], st)
  {
    OrderGap(charged, st, prio);
    OrderCovering(charged, st, prio);
    DecideDemotes(Accounted(charged), budget, Floor(charged, st), Order(charged, st, prio));
  }

  // ---- a parsed listing ----

  /** The laws above hold of every listing that was parsed: no entry is shorter than its bare name. */
  lemma ParsedCovering(content: string, es: seq<Entry>, st: Setting)
    requires es == Entries(Merge(SplitLines(content)))
    ensures Covering(Charged(es, st))
  {
    ParsedCoverNames(content);
    forall i | 0 <= i < |es| ensures Delta(Charge(es[i], st)) >= 0 {
      assert es[i] in es;
    }
  }
}
