/** Clipping a turn and dropping the middle of a long run of turns (tools/session_capture.ts, `clip` and `budget`). */
module Budget {
  import opened Text

  datatype TurnKind = Human | Decision | Assistant

  datatype Turn = Turn(kind: TurnKind, text: string)

  // ---- clip ----

  /** What `trim` takes off: JavaScript's white space and line ends. */
  predicate IsBlank(c: char) {
    c == ' ' || '\t' <= c <= '\r' || c == '\U{00A0}' || c == '\U{FEFF}' || c == '\U{1680}' ||
    '\U{2000}' <= c <= '\U{200A}' || c == '\U{2028}' || c == '\U{2029}' || c == '\U{202F}' || c == '\U{205F}' ||
    c == '\U{3000}'
  }

  function TrimStart(s: string): string {
    if s != "" && IsBlank(s[0]) then TrimStart(s[1..]) else s
  }

  function TrimEnd(s: string): string {
    if s != "" && IsBlank(s[|s| - 1]) then TrimEnd(s[..|s| - 1]) else s
  }

  function Trimmed(s: string): string {
    TrimEnd(TrimStart(s))
  }

  /** `s.slice(0, n)`: a negative end counts from the back. */
  function Slice(s: string, n: int): string {
    if n >= |s| then s
    else if n >= 0 then s[..n]
    else if |s| + n >= 0 then s[..|s| + n]
    else ""
  }

  function Clip(text: string, max: int): string {
    var flat := Trimmed(text);
    if |flat| > max then Slice(flat, max - 1) + "\U{2026}" else flat
  }

  /** A clipped turn is within the limit exactly if the limit leaves room for a character, or nothing was cut. */
  lemma ClipWithin(text: string, max: int)
    ensures |Clip(text, max)| <= max <==> max >= 1 || |Trimmed(text)| <= max
  {
  }

  predicate AllBlank(s: string) {
    forall c | c in s :: IsBlank(c)
  }

  lemma {:induction false} TrimStartIs(s: string) returns (before: string)
    ensures s == before + TrimStart(s) && AllBlank(before)
    ensures TrimStart(s) != "" ==> !IsBlank(TrimStart(s)[0])
  {
    before := "";
    if s != "" && IsBlank(s[0]) {
      before := TrimStartIs(s[1..]);
      before := [s[0]] + before;
    }
  }

  lemma {:induction false} TrimEndIs(s: string) returns (after: string)
    ensures s == TrimEnd(s) + after && AllBlank(after)
    ensures TrimEnd(s) != "" ==> !IsBlank(TrimEnd(s)[|TrimEnd(s)| - 1])
  {
    after := "";
    if s != "" && IsBlank(s[|s| - 1]) {
      after := TrimEndIs(s[..|s| - 1]);
      after := after + [s[|s| - 1]];
    }
  }

  /** What is clipped is the text without the blanks around it. If it is too long, all but as many characters as fit
      beside the ellipsis are cut from the end; a limit below 1 cuts that many more. */
  lemma ClipIs(text: string, max: int) returns (before: string, flat: string, after: string)
    ensures text == before + flat + after && AllBlank(before) && AllBlank(after)
    ensures flat != "" ==> !IsBlank(flat[0]) && !IsBlank(flat[|flat| - 1])
    ensures |flat| <= max ==> Clip(text, max) == flat
    ensures 1 <= max < |flat| ==> Clip(text, max) == flat[..max - 1] + [0x2026 as char]
    ensures max < 1 && max < |flat| ==>
      Clip(text, max) == flat[..if |flat| + max >= 1 then |flat| + max - 1 else 0] + [0x2026 as char]
  {
    before := TrimStartIs(text);
    after := TrimEndIs(TrimStart(text));
    flat := Trimmed(text);
  }

  // ---- budget ----

  /** The characters in a run of turns. */
  function Chars(turns: seq<Turn>): nat {
    if turns == [] then 0 else Chars(turns[..|turns| - 1]) + |turns[|turns| - 1].text|
  }

  function Marker(kind: TurnKind, dropped: nat): Turn {
    Turn(kind, "\U{2026} " + Decimal(dropped) + " turns omitted (session over budget) \U{2026}")
  }

  /** Where the prefix that fits ends, looking from `p` on. */
  function HeadFrom(turns: seq<Turn>, half: int, p: nat): (end: nat)
    requires p <= |turns|
    ensures p <= end <= |turns|
    decreases |turns| - p
  {
    if p < |turns| && Chars(turns[..p + 1]) <= half then HeadFrom(turns, half, p + 1) else p
  }

  /** Where the suffix that fits begins, looking back from `q` to `p`. */
  function TailFrom(turns: seq<Turn>, half: int, p: nat, q: nat): (start: nat)
    requires p <= q <= |turns|
    ensures p <= start <= q
  {
    if q > p && Chars(turns[q - 1..]) <= half then TailFrom(turns, half, p, q - 1) else q
  }

  function Budgeted(turns: seq<Turn>, maxChars: int, kind: TurnKind): seq<Turn> {
    if Chars(turns) <= maxChars then turns
    else
      var p := HeadFrom(turns, maxChars / 2, 0);
      var q := TailFrom(turns, maxChars / 2, p, |turns|);
      if p == q then turns else turns[..p] + [Marker(kind, q - p)] + turns[q..]
  }

  lemma {:induction false} CharsConcat(a: seq<Turn>, b: seq<Turn>)
    ensures Chars(a + b) == Chars(a) + Chars(b)
  {
    if b == [] {
      assert a + b == a;
    } else {
      var n := |b| - 1;
      assert (a + b)[..|a + b| - 1] == a + b[..n];
      CharsConcat(a, b[..n]);
    }
  }

  lemma CharsFirst(turn: Turn, turns: seq<Turn>)
    ensures Chars([turn] + turns) == |turn.text| + Chars(turns)
  {
    CharsConcat([turn], turns);
    assert [turn][..0] == [];
  }

  method Total(turns: seq<Turn>) returns (total: nat)
    ensures total == Chars(turns)
  {
    total := 0;
    for i := 0 to |turns|
      invariant total == Chars(turns[..i])
    {
      assert turns[..i + 1][..i] == turns[..i];
      total := total + |turns[i].text|;
    }
    assert turns[..|turns|] == turns;
  }

  method TakeHead(turns: seq<Turn>, half: int) returns (head: seq<Turn>)
    ensures head == turns[..HeadFrom(turns, half, 0)]
  {
    head := [];
    var headChars := 0;
    for h := 0 to |turns|
      invariant head == turns[..h] && headChars == Chars(head)
      invariant HeadFrom(turns, half, 0) == HeadFrom(turns, half, h)
    {
      assert turns[..h + 1][..h] == turns[..h];
      if headChars + |turns[h].text| > half {
        return;
      }
      head := head + [turns[h]];
      headChars := headChars + |turns[h].text|;
    }
  }

  method TakeTail(turns: seq<Turn>, half: int, from: nat) returns (tail: seq<Turn>)
    requires from <= |turns|
    ensures tail == turns[TailFrom(turns, half, from, |turns|)..]
  {
    tail := [];
    var tailChars := 0;
    var i := |turns| - 1;
    while i >= from
      invariant from - 1 <= i < |turns| && tail == turns[i + 1..] && tailChars == Chars(tail)
      invariant TailFrom(turns, half, from, |turns|) == TailFrom(turns, half, from, i + 1)
    {
      assert turns[i..] == [turns[i]] + turns[i + 1..];
      CharsFirst(turns[i], turns[i + 1..]);
      if tailChars + |turns[i].text| > half {
        return;
      }
      tail := [turns[i]] + tail;
      tailChars := tailChars + |turns[i].text|;
      i := i - 1;
    }
  }

  /** `budget` */
  method KeepWithin(turns: seq<Turn>, maxChars: int, kind: TurnKind) returns (kept: seq<Turn>)
    ensures kept == Budgeted(turns, maxChars, kind)
  {
    var total := Total(turns);
    if total <= maxChars {
      return turns;
    }
    var half := maxChars / 2;
    var head := TakeHead(turns, half);
    var tail := TakeTail(turns, half, |head|);
    var dropped := |turns| - |head| - |tail|;
    if dropped <= 0 {
      return turns;
    }
    return head + [Marker(kind, dropped)] + tail;
  }

  // ---- what is kept ----

  lemma CharsPrefix(turns: seq<Turn>, p: nat, q: nat)
    requires p <= q <= |turns|
    ensures Chars(turns[..p]) <= Chars(turns[..q])
  {
    assert turns[..q] == turns[..p] + turns[p..q];
    CharsConcat(turns[..p], turns[p..q]);
  }

  lemma CharsSuffix(turns: seq<Turn>, p: nat, q: nat)
    requires p <= q <= |turns|
    ensures Chars(turns[q..]) <= Chars(turns[p..])
  {
    assert turns[p..] == turns[p..q] + turns[q..];
    CharsConcat(turns[p..q], turns[q..]);
  }

  lemma {:induction false} HeadFits(turns: seq<Turn>, half: int, p: nat)
    requires p <= |turns| && (p == 0 || Chars(turns[..p]) <= half)
    ensures var end := HeadFrom(turns, half, p);
            && (end == 0 || Chars(turns[..end]) <= half)
            && (end < |turns| ==> Chars(turns[..end + 1]) > half)
    decreases |turns| - p
  {
    if p < |turns| && Chars(turns[..p + 1]) <= half {
      HeadFits(turns, half, p + 1);
    }
  }

  lemma {:induction false} TailFits(turns: seq<Turn>, half: int, p: nat, q: nat)
    requires p <= q <= |turns| && (q == |turns| || Chars(turns[q..]) <= half)
    ensures var start := TailFrom(turns, half, p, q);
            && (start == |turns| || Chars(turns[start..]) <= half)
            && (start > p ==> Chars(turns[start - 1..]) > half)
  {
    if q > p && Chars(turns[q - 1..]) <= half {
      TailFits(turns, half, p, q - 1);
    }
  }

  /** The longest prefix within half the budget, and then the longest suffix of what remains. */
  predicate LongestEnds(turns: seq<Turn>, half: int, p: nat, q: nat) {
    && p <= q <= |turns|
    && (p == 0 || Chars(turns[..p]) <= half)
    && (q == |turns| || Chars(turns[q..]) <= half)
    && (forall longer | p < longer <= |turns| :: Chars(turns[..longer]) > half)
    && (forall longer | p <= longer < q :: Chars(turns[longer..]) > half)
  }

  lemma EndsAreLongest(turns: seq<Turn>, half: int, p: nat, q: nat)
    requires p == HeadFrom(turns, half, 0) && q == TailFrom(turns, half, p, |turns|)
    ensures LongestEnds(turns, half, p, q)
  {
    HeadFits(turns, half, 0);
    TailFits(turns, half, p, |turns|);
    forall longer | p < longer <= |turns| ensures Chars(turns[..longer]) > half {
      CharsPrefix(turns, p + 1, longer);
    }
    forall longer | p <= longer < q ensures Chars(turns[longer..]) > half {
      CharsSuffix(turns, longer, q - 1);
    }
  }

  lemma CharsSplit(turns: seq<Turn>, p: nat, q: nat)
    requires p <= q <= |turns|
    ensures Chars(turns[..p]) + Chars(turns[q..]) <= Chars(turns)
    ensures p == q ==> Chars(turns[..p]) + Chars(turns[q..]) == Chars(turns)
  {
    assert turns == turns[..q] + turns[q..];
    CharsConcat(turns[..q], turns[q..]);
    CharsPrefix(turns, p, q);
  }

  /** Over budget, turns are dropped, except when there are none, which takes a negative budget. */
  lemma EndsLeaveGap(turns: seq<Turn>, maxChars: int, p: nat, q: nat)
    requires Chars(turns) > maxChars && LongestEnds(turns, maxChars / 2, p, q)
    ensures p == q <==> turns == []
    ensures maxChars >= 0 ==> Chars(turns[..p]) + Chars(turns[q..]) <= maxChars
  {
    CharsSplit(turns, p, q);
  }

  lemma BudgetAt(turns: seq<Turn>, maxChars: int, kind: TurnKind, p: nat, q: nat)
    requires p == HeadFrom(turns, maxChars / 2, 0) && q == TailFrom(turns, maxChars / 2, p, |turns|)
    requires LongestEnds(turns, maxChars / 2, p, q)
    ensures Chars(turns) <= maxChars || turns == [] ==> Budgeted(turns, maxChars, kind) == turns
    ensures Chars(turns) > maxChars && turns != [] ==>
              p < q && Budgeted(turns, maxChars, kind) == turns[..p] + [Marker(kind, q - p)] + turns[q..]
    ensures maxChars >= 0 && Chars(turns) > maxChars ==> Chars(turns[..p]) + Chars(turns[q..]) <= maxChars
  {
    if Chars(turns) > maxChars {
      EndsLeaveGap(turns, maxChars, p, q);
    }
  }

  /** The result is the input; or, over budget, the longest prefix within half the budget, one marker with the number
      of turns it stands for, at least one, and the longest suffix of the rest within half the budget. */
  lemma BudgetSplit(turns: seq<Turn>, maxChars: int, kind: TurnKind) returns (p: nat, q: nat)
    ensures Chars(turns) <= maxChars || turns == [] ==> Budgeted(turns, maxChars, kind) == turns
    ensures Chars(turns) > maxChars && turns != [] ==>
              && LongestEnds(turns, maxChars / 2, p, q) && p < q
              && Budgeted(turns, maxChars, kind) == turns[..p] + [Marker(kind, q - p)] + turns[q..]
              && (maxChars >= 0 ==> Chars(turns[..p]) + Chars(turns[q..]) <= maxChars)
  {
    p := HeadFrom(turns, maxChars / 2, 0);
    q := TailFrom(turns, maxChars / 2, p, |turns|);
    EndsAreLongest(turns, maxChars / 2, p, q);
    BudgetAt(turns, maxChars, kind, p, q);
  }
}
