/** Reading a skill listing back into entries (skills-mcp/eval/listing_report.py, `parse_listing`). */
module ListingParse {
  import opened Text

  // ---- lines ----

  /** `content.split("\n")` */
  function SplitLines(s: string): (ls: seq<string>)
    ensures ls != []
  {
    if s == "" then [""]
    else
      var rest := SplitLines(s[1..]);
      if s[0] == '\n' then [""] + rest else [[s[0]] + rest[0]] + rest[1..]
  }

  lemma {:induction false} SplitJoin(s: string)
    ensures Join(SplitLines(s)) == s
  {
    if s != "" {
      var rest := SplitLines(s[1..]);
      SplitJoin(s[1..]);
      var ls := SplitLines(s);
      if s[0] == '\n' {
        assert ls[1..] == rest;
      } else {
        assert ls[1..] == rest[1..];
      }
    }
  }

  /** Joined again, the lines are the text; and no line holds a newline. */
  lemma SplitLinesAre(s: string)
    ensures Join(SplitLines(s)) == s && forall l | l in SplitLines(s) :: '\n' !in l
  {
    SplitJoin(s);
    SplitClean(s);
  }

  lemma {:induction false} SplitClean(s: string)
    ensures forall l | l in SplitLines(s) :: '\n' !in l
  {
    if s != "" {
      SplitClean(s[1..]);
      var rest := SplitLines(s[1..]);
      forall l | l in SplitLines(s) ensures '\n' !in l {
        assert rest[0] in rest && forall m | m in rest[1..] :: m in rest;
        assert l == "" || l in rest || l == [s[0]] + rest[0];
      }
    }
  }

  predicate NameStart(c: char) {
    'a' <= c <= 'z' || '0' <= c <= '9'
  }

  predicate NameChar(c: char) {
    NameStart(c) || c == ':' || c == '_' || c == '-'
  }

  predicate NamedUntil(line: string, k: nat)
    requires 3 <= k <= |line|
  {
    (forall j | 3 <= j < k :: NameChar(line[j])) && (k == |line| || line[k] == ':')
  }

  /** `ENTRY_RE.match`, for a line. */
  predicate StartsEntry(line: string) {
    "- " <= line && |line| > 2 && NameStart(line[2]) && exists k | 3 <= k <= |line| :: NamedUntil(line, k)
  }

  // ---- entries ----

  /** What a line does to the entries gathered so far. */
  function AddLine(entries: seq<string>, line: string): seq<string> {
    if StartsEntry(line) then entries + [line]
    else if entries == [] then []
    else entries[|entries| - 1 := entries[|entries| - 1] + "\n" + line]
  }

  function Merge(lines: seq<string>): seq<string> {
    if lines == [] then [] else AddLine(Merge(lines[..|lines| - 1]), lines[|lines| - 1])
  }

  datatype Entry = Entry(name: string, entryLen: nat)

  /** The text before the first of a character. */
  function Before(s: string, c: char): string {
    if s == "" || s[0] == c then "" else [s[0]] + Before(s[1..], c)
  }

  function EntryOf(text: string): Entry {
    Entry(Strip(Before(Before(if |text| >= 2 then text[2..] else "", ':'), '\n')), |text|)
  }

  function Entries(texts: seq<string>): (es: seq<Entry>)
    ensures |es| == |texts| && forall i | 0 <= i < |es| :: es[i] == EntryOf(texts[i])
  {
    seq(|texts|, i requires 0 <= i < |texts| => EntryOf(texts[i]))
  }

  method ParseListing(content: string) returns (out: seq<Entry>)
    ensures out == Entries(Merge(SplitLines(content)))
  {
    var all := SplitLines(content);
    var lines: seq<string> := [];
    for i := 0 to |all|
      invariant lines == Merge(all[..i])
    {
      var line := all[i];
      assert all[..i + 1][..i] == all[..i];
      if StartsEntry(line) {
        lines := lines + [line];
      } else if lines != [] {
        lines := lines[|lines| - 1 := lines[|lines| - 1] + "\n" + line];
      }
    }
    assert all[..|all|] == all;
    out := [];
    for i := 0 to |lines|
      invariant out == Entries(lines[..i])
    {
      out := out + [EntryOf(lines[i])];
    }
    assert lines[..|lines|] == lines;
  }

  // ---- every character is accounted for ----

  /** How many lines come before the first that starts an entry. */
  function Skipped(lines: seq<string>): (n: nat)
    ensures n <= |lines|
    ensures forall i | 0 <= i < n :: !StartsEntry(lines[i])
    ensures n < |lines| ==> StartsEntry(lines[n])
  {
    if lines == [] || StartsEntry(lines[0]) then 0 else 1 + Skipped(lines[1..])
  }

  lemma {:induction false} JoinPush(ls: seq<string>, l: string)
    ensures Join(ls + [l]) == if ls == [] then l else Join(ls) + "\n" + l
  {
    if |ls| == 1 {
      assert (ls + [l])[1..] == [l];
    } else if |ls| > 1 {
      assert (ls + [l])[1..] == ls[1..] + [l];
      JoinPush(ls[1..], l);
      calc {
        Join(ls + [l]);
        ls[0] + "\n" + (Join(ls[1..]) + "\n" + l);
        (ls[0] + "\n" + Join(ls[1..])) + "\n" + l;
        Join(ls) + "\n" + l;
      }
    }
  }

  lemma JoinGrow(ls: seq<string>, l: string)
    requires ls != []
    ensures Join(ls[|ls| - 1 := ls[|ls| - 1] + "\n" + l]) == Join(ls) + "\n" + l
  {
    var init, last := ls[..|ls| - 1], ls[|ls| - 1];
    assert ls == init + [last];
    assert ls[|ls| - 1 := last + "\n" + l] == init + [last + "\n" + l];
    JoinPush(init, last);
    JoinPush(init, last + "\n" + l);
  }

  lemma {:induction false} SkippedPush(lines: seq<string>, l: string)
    ensures Skipped(lines + [l]) == if Skipped(lines) < |lines| || StartsEntry(l) then Skipped(lines) else |lines| + 1
  {
    if lines != [] {
      assert (lines + [l])[1..] == lines[1..] + [l];
      SkippedPush(lines[1..], l);
    }
  }

  /** Joined again, the entries are the listing from the first line that starts an entry. */
  lemma {:induction false} MergeJoin(lines: seq<string>)
    ensures Merge(lines) == [] <==> Skipped(lines) == |lines|
    ensures Join(Merge(lines)) == Join(lines[Skipped(lines)..])
  {
    if lines != [] {
      var init, last := lines[..|lines| - 1], lines[|lines| - 1];
      assert lines == init + [last];
      MergeJoin(init);
      SkippedPush(init, last);
      var n, merged := Skipped(init), Merge(init);
      if n < |init| {
        assert lines[n..] == init[n..] + [last];
        JoinPush(init[n..], last);
        if StartsEntry(last) {
          JoinPush(merged, last);
        } else {
          JoinGrow(merged, last);
        }
      } else if StartsEntry(last) {
        assert merged == [] && lines[n..] == [last] && Merge(lines) == [last];
      } else {
        assert Merge(lines) == [] && lines[|lines|..] == [];
      }
    }
  }

  function Count(lines: seq<string>): nat {
    if lines == [] then 0 else Count(lines[..|lines| - 1]) + if StartsEntry(lines[|lines| - 1]) then 1 else 0
  }

  /** The entry begins with a whole line that starts an entry. */
  ghost predicate BeginsRight(t: string) {
    exists line :: StartsEntry(line) && (t == line || line + "\n" <= t)
  }

  lemma BeginsLonger(t: string, l: string)
    requires BeginsRight(t)
    ensures BeginsRight(t + "\n" + l)
  {
    var line :| StartsEntry(line) && (t == line || line + "\n" <= t);
    assert line + "\n" <= t + "\n" + l;
  }

  /** One entry for each line that starts one, and each begins with its line. */
  lemma {:induction false} MergeStarts(lines: seq<string>)
    ensures |Merge(lines)| == Count(lines)
    ensures forall t | t in Merge(lines) :: BeginsRight(t)
  {
    if lines != [] {
      var init, last := lines[..|lines| - 1], lines[|lines| - 1];
      MergeStarts(init);
      var merged := Merge(init);
      if StartsEntry(last) {
        assert BeginsRight(last);
      } else if merged != [] {
        assert merged[|merged| - 1] in merged;
        BeginsLonger(merged[|merged| - 1], last);
      }
    }
  }

  // ---- lengths ----

  function Lengths(es: seq<Entry>): nat {
    if es == [] then 0 else Lengths(es[..|es| - 1]) + es[|es| - 1].entryLen
  }

  function Separators(es: seq<Entry>): nat {
    if es == [] then 0 else |es| - 1
  }

  /** The entry lengths with one separator between each two: what the report compares with the listing. */
  function Accounted(es: seq<Entry>): nat {
    Lengths(es) + Separators(es)
  }

  lemma {:induction false} AccountedIsJoin(texts: seq<string>)
    ensures Accounted(Entries(texts)) == |Join(texts)|
  {
    if texts != [] {
      var init, last := texts[..|texts| - 1], texts[|texts| - 1];
      assert texts == init + [last];
      assert Entries(texts)[..|init|] == Entries(init);
      AccountedIsJoin(init);
      JoinPush(init, last);
    }
  }

  lemma {:induction false} JoinSplit(a: seq<string>, b: seq<string>)
    requires a != [] && b != []
    ensures Join(a + b) == Join(a) + "\n" + Join(b)
  {
    if |b| == 1 {
      assert b == [b[0]];
      JoinPush(a, b[0]);
    } else {
      var init, last := b[..|b| - 1], b[|b| - 1];
      assert a + b == (a + init) + [last] && b == init + [last];
      JoinSplit(a, init);
      JoinPush(a + init, last);
      JoinPush(init, last);
    }
  }

  lemma DropShorter(lines: seq<string>, n: nat)
    requires n <= |lines| && lines != []
    ensures |Join(lines[n..])| == |Join(lines)| <==> n == 0 || Join(lines) == ""
  {
    if n == 0 {
      assert lines[0..] == lines;
    } else if n < |lines| {
      assert lines == lines[..n] + lines[n..];
      JoinSplit(lines[..n], lines[n..]);
    } else {
      assert lines[n..] == [];
    }
  }

  /** The report accounts for every character exactly if the listing starts with an entry, or is empty, whatever line
      breaks the descriptions hold. */
  lemma AccountsForAll(content: string)
    ensures Accounted(Entries(Merge(SplitLines(content)))) == |content| <==>
              content == "" || StartsEntry(SplitLines(content)[0])
  {
    var lines := SplitLines(content);
    var n := Skipped(lines);
    SplitJoin(content);
    MergeJoin(lines);
    AccountedIsJoin(Merge(lines));
    DropShorter(lines, n);
  }

  lemma {:induction false} BeforeShorter(s: string, c: char)
    ensures |Before(s, c)| <= |s|
  {
    if s != "" {
      BeforeShorter(s[1..], c);
    }
  }

  /** A parsed entry is never shorter than its bare name with the dash. */
  lemma EntryCoversName(text: string)
    requires |text| >= 2
    ensures EntryOf(text).entryLen >= |EntryOf(text).name| + 2
  {
    var inner := Before(text[2..], ':');
    BeforeShorter(text[2..], ':');
    BeforeShorter(inner, '\n');
    var before, after := StripCore(Before(inner, '\n'));
  }

  lemma ParsedCoverNames(content: string)
    ensures forall e | e in Entries(Merge(SplitLines(content))) :: e.entryLen >= |e.name| + 2
  {
    var texts := Merge(SplitLines(content));
    MergeStarts(SplitLines(content));
    forall e | e in Entries(texts) ensures e.entryLen >= |e.name| + 2 {
      var i :| 0 <= i < |texts| && e == EntryOf(texts[i]);
      assert texts[i] in texts;
      EntryCoversName(texts[i]);
    }
  }
}
