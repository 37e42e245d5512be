/** The streaming collector of turns (tools/session_capture.ts, class TurnCollector) and what it comes to.

The patterns that strip harness text and tell automation from speech are parameters. */
module Collector {
  import opened Text
  import opened Budget

  datatype Block =
    | Text(text: string)
    | ToolUse(name: string, id: string)
    | ToolResult(toolUseId: string, result: string)
    | OtherBlock

  datatype Content = Bare(text: string) | Blocks(blocks: seq<Block>) | NoContent

  datatype Role = User | AssistantRole | OtherRole

  datatype Record =
    | NotObject
    | Object(meta: bool, sidechain: bool, role: Role, typedByHuman: bool, content: Content)

  datatype Options = Options(assistantTail: int, maxTurnChars: int, maxHumanChars: int, maxDecisionChars: int)

  datatype Rules = Rules(stripHarnessTags: string -> string, isAutomationText: string -> bool,
                         stripAskBoilerplate: string -> string)

  const ASK := "AskUserQuestion"

  // ---- one record ----

  predicate Counts(r: Record) {
    r.Object? && !r.meta && !r.sidechain
  }

  function SpeechOf(rules: Rules, max: int, text: string): seq<Turn> {
    var t := rules.stripHarnessTags(text);
    if t != "" && !rules.isAutomationText(t) then [Turn(Human, Clip(t, max))] else []
  }

  function Texts(blocks: seq<Block>): seq<string> {
    if blocks == [] then []
    else Texts(blocks[..|blocks| - 1]) + (match blocks[|blocks| - 1] case Text(text) => [text] case _ => [])
  }

  function JoinTexts(blocks: seq<Block>): string {
    Join(Texts(blocks))
  }

  function HumansOf(rules: Rules, max: int, r: Record): seq<Turn> {
    if !Counts(r) || !r.role.User? || !r.typedByHuman then []
    else
      match r.content
      case Bare(text) => SpeechOf(rules, max, text)
      case Blocks(blocks) => SpeechOf(rules, max, JoinTexts(blocks))
      case NoContent => []
  }

  function AskedIn(blocks: seq<Block>): set<string> {
    set b | b in blocks && b.ToolUse? && b.name == ASK && b.id != "" :: b.id
  }

  function AskedOf(r: Record): set<string> {
    if Counts(r) && r.role.AssistantRole? && r.content.Blocks? then AskedIn(r.content.blocks) else {}
  }

  function SaidIn(max: int, blocks: seq<Block>): seq<Turn> {
    if blocks == [] then []
    else
      SaidIn(max, blocks[..|blocks| - 1]) +
      (match blocks[|blocks| - 1]
       case Text(text) => if Trimmed(text) != "" then [Turn(Assistant, Clip(text, max))] else []
       case _ => [])
  }

  function SaidOf(max: int, r: Record): seq<Turn> {
    if Counts(r) && r.role.AssistantRole? && r.content.Blocks? then SaidIn(max, r.content.blocks) else []
  }

  function AnswersIn(rules: Rules, max: int, asked: set<string>, blocks: seq<Block>): seq<Turn> {
    if blocks == [] then []
    else
      AnswersIn(rules, max, asked, blocks[..|blocks| - 1]) +
      (match blocks[|blocks| - 1]
       case ToolResult(id, result) =>
         var text := rules.stripAskBoilerplate(result);
         if id in asked && text != "" then [Turn(Decision, Clip(text, max))] else []
       case _ => [])
  }

  function AnswersOf(rules: Rules, max: int, asked: set<string>, r: Record): seq<Turn> {
    if Counts(r) && r.role.User? && r.content.Blocks? then AnswersIn(rules, max, asked, r.content.blocks) else []
  }

  // ---- a whole transcript ----

  function Humans(rules: Rules, max: int, rs: seq<Record>): seq<Turn> {
    if rs == [] then [] else Humans(rules, max, rs[..|rs| - 1]) + HumansOf(rules, max, rs[|rs| - 1])
  }

  /** The ids of the questions asked in the records. */
  function Asked(rs: seq<Record>): set<string> {
    set k, id | 0 <= k < |rs| && id in AskedOf(rs[k]) :: id
  }

  function Said(max: int, rs: seq<Record>): seq<Turn> {
    if rs == [] then [] else Said(max, rs[..|rs| - 1]) + SaidOf(max, rs[|rs| - 1])
  }

  /** The answers to questions asked in an earlier record. */
  function Decisions(rules: Rules, max: int, rs: seq<Record>): seq<Turn> {
    if rs == [] then []
    else
      var before := rs[..|rs| - 1];
      Decisions(rules, max, before) + AnswersOf(rules, max, Asked(before), rs[|rs| - 1])
  }

  function LastOf(turns: seq<Turn>, n: int): seq<Turn> {
    if n <= 0 then [] else if |turns| <= n then turns else turns[|turns| - n..]
  }

  /** What the turns of a transcript are, told of all its records at once. */
  function Turns(rules: Rules, o: Options, rs: seq<Record>): seq<Turn> {
    Budgeted(Humans(rules, o.maxTurnChars, rs), o.maxHumanChars, Human) +
    Budgeted(Decisions(rules, o.maxTurnChars, rs), o.maxDecisionChars, Decision) +
    LastOf(Said(o.maxTurnChars, rs), o.assistantTail)
  }

  // ---- the collector ----

  class TurnCollector {
    const rules: Rules
    const options: Options
    var humans: seq<Turn>
    var decisions: seq<Turn>
    var assistants: seq<Turn>
    var askIds: set<string>

    /** The fields are those of a collector that has been given these records. */
    ghost predicate Holds(rs: seq<Record>)
      reads this
    {
      && humans == Humans(rules, options.maxTurnChars, rs)
      && decisions == Decisions(rules, options.maxTurnChars, rs)
      && assistants == LastOf(Said(options.maxTurnChars, rs), options.assistantTail)
      && askIds == Asked(rs)
    }

    constructor (rules: Rules, options: Options)
      ensures Holds([]) && this.rules == rules && this.options == options
    {
      this.rules, this.options := rules, options;
      humans, decisions, assistants, askIds := [], [], [], {};
    }

    method Say(turn: Turn, ghost said: seq<Turn>)
      requires assistants == LastOf(said, options.assistantTail)
      modifies this`assistants
      ensures assistants == LastOf(said + [turn], options.assistantTail)
    {
      LastPush(said, turn, options.assistantTail);
      assistants := assistants + [turn];
      if |assistants| > options.assistantTail {
        assistants := assistants[1..];
      }
    }

    method AddAssistant(blocks: seq<Block>, ghost said: seq<Turn>)
      requires assistants == LastOf(said, options.assistantTail)
      modifies this`assistants, this`askIds
      ensures assistants == LastOf(said + SaidIn(options.maxTurnChars, blocks), options.assistantTail)
      ensures askIds == old(askIds) + AskedIn(blocks)
    {
      assert said + [] == said;
      for i := 0 to |blocks|
        invariant assistants == LastOf(said + SaidIn(options.maxTurnChars, blocks[..i]), options.assistantTail)
        invariant askIds == old(askIds) + AskedIn(blocks[..i])
      {
        var block := blocks[i];
        assert blocks[..i + 1][..i] == blocks[..i];
        if block.ToolUse? && block.name == ASK && block.id != "" {
          askIds := askIds + {block.id};
        }
        ghost var before := said + SaidIn(options.maxTurnChars, blocks[..i]);
        SaidNext(options.maxTurnChars, said, blocks, i);
        AskedNext(blocks, i);
        if block.Text? && Trimmed(block.text) != "" {
          Say(Turn(Assistant, Clip(block.text, options.maxTurnChars)), before);
        }
      }
      assert blocks[..|blocks|] == blocks;
    }

    method AddAnswers(blocks: seq<Block>)
      modifies this`decisions
      ensures decisions == old(decisions) + AnswersIn(rules, options.maxTurnChars, askIds, blocks)
    {
      for i := 0 to |blocks|
        invariant decisions == old(decisions) + AnswersIn(rules, options.maxTurnChars, askIds, blocks[..i])
      {
        var block := blocks[i];
        assert blocks[..i + 1][..i] == blocks[..i];
        if block.ToolResult? && block.toolUseId in askIds {
          var text := rules.stripAskBoilerplate(block.result);
          if text != "" {
            decisions := decisions + [Turn(Decision, Clip(text, options.maxTurnChars))];
          }
        }
      }
      assert blocks[..|blocks|] == blocks;
    }

    method AddSpeech(text: string)
      modifies this`humans
      ensures humans == old(humans) + SpeechOf(rules, options.maxTurnChars, text)
    {
      var t := rules.stripHarnessTags(text);
      if t != "" && !rules.isAutomationText(t) {
        humans := humans + [Turn(Human, Clip(t, options.maxTurnChars))];
      }
    }

    /** `add`, told of what the record brings. */
    method Accept(r: Record, ghost said: seq<Turn>)
      requires assistants == LastOf(said, options.assistantTail)
      modifies this
      ensures humans == old(humans) + HumansOf(rules, options.maxTurnChars, r)
      ensures decisions == old(decisions) + AnswersOf(rules, options.maxTurnChars, old(askIds), r)
      ensures assistants == LastOf(said + SaidOf(options.maxTurnChars, r), options.assistantTail)
      ensures askIds == old(askIds) + AskedOf(r)
    {
      assert said + [] == said;
      if !r.Object? || r.meta || r.sidechain {
        return;
      }
      if r.role.User? && r.content.Bare? {
        if r.typedByHuman {
          AddSpeech(r.content.text);
        }
        return;
      }
      if !r.content.Blocks? {
        return;
      }
      if r.role.AssistantRole? {
        AddAssistant(r.content.blocks, said);
        return;
      }
      if !r.role.User? {
        return;
      }
      AddAnswers(r.content.blocks);
      if r.typedByHuman {
        AddSpeech(JoinTexts(r.content.blocks));
      }
    }

    method Add(r: Record, ghost rs: seq<Record>)
      requires Holds(rs)
      modifies this
      ensures Holds(rs + [r])
    {
      PushRecord(rules, options.maxTurnChars, rs, r);
      Accept(r, Said(options.maxTurnChars, rs));
    }

    method GetTurns(ghost rs: seq<Record>) returns (turns: seq<Turn>)
      requires Holds(rs)
      ensures turns == Turns(rules, options, rs)
    {
      var asked := KeepWithin(humans, options.maxHumanChars, Human);
      var decided := KeepWithin(decisions, options.maxDecisionChars, Decision);
      return asked + decided + assistants;
    }
  }

  /** `extractTurnsFromRecords` */
  method ExtractTurns(rules: Rules, options: Options, records: seq<Record>) returns (turns: seq<Turn>)
    ensures turns == Turns(rules, options, records)
  {
    var collector := new TurnCollector(rules, options);
    for i := 0 to |records|
      invariant collector.Holds(records[..i]) && collector.rules == rules && collector.options == options
      invariant fresh(collector)
    {
      collector.Add(records[i], records[..i]);
      assert records[..i] + [records[i]] == records[..i + 1];
    }
    assert records[..|records|] == records;
    turns := collector.GetTurns(records);
  }

  lemma SaidNext(max: int, said: seq<Turn>, blocks: seq<Block>, i: nat)
    requires i < |blocks|
    ensures said + SaidIn(max, blocks[..i + 1]) ==
      if blocks[i].Text? && Trimmed(blocks[i].text) != "" then
        said + SaidIn(max, blocks[..i]) + [Turn(Assistant, Clip(blocks[i].text, max))]
      else
        said + SaidIn(max, blocks[..i])
  {
    assert blocks[..i + 1][..i] == blocks[..i];
  }

  lemma AskedNext(blocks: seq<Block>, i: nat)
    requires i < |blocks|
    ensures AskedIn(blocks[..i + 1]) ==
      if blocks[i].ToolUse? && blocks[i].name == ASK && blocks[i].id != "" then AskedIn(blocks[..i]) + {blocks[i].id}
      else AskedIn(blocks[..i])
  {
    assert blocks[..i + 1] == blocks[..i] + [blocks[i]];
  }

  lemma LastPush(said: seq<Turn>, turn: Turn, n: int)
    ensures var grown := LastOf(said, n) + [turn];
            LastOf(said + [turn], n) == if |grown| > n then grown[1..] else grown
  {
  }

  lemma PushRecord(rules: Rules, max: int, rs: seq<Record>, r: Record)
    ensures Humans(rules, max, rs + [r]) == Humans(rules, max, rs) + HumansOf(rules, max, r)
    ensures Said(max, rs + [r]) == Said(max, rs) + SaidOf(max, r)
    ensures Decisions(rules, max, rs + [r]) == Decisions(rules, max, rs) + AnswersOf(rules, max, Asked(rs), r)
    ensures Asked(rs + [r]) == Asked(rs) + AskedOf(r)
  {
    var all := rs + [r];
    assert all[..|all| - 1] == rs;
    assert Asked(all) == Asked(rs) + AskedOf(r) by {
      forall id ensures id in Asked(all) <==> id in Asked(rs) || id in AskedOf(r) {
        if id in AskedOf(r) {
          assert id in AskedOf(all[|rs|]);
        }
        if k :| 0 <= k < |rs| && id in AskedOf(rs[k]) {
          assert id in AskedOf(all[k]);
        }
      }
    }
  }

  // ---- what the turns are made of ----

  /** The records that are neither meta nor of a sidechain. */
  function Relevant(rs: seq<Record>): seq<Record> {
    if rs == [] then []
    else Relevant(rs[..|rs| - 1]) + (if Counts(rs[|rs| - 1]) then [rs[|rs| - 1]] else [])
  }

  lemma Uncounted(rules: Rules, max: int, asked: set<string>, m: Record)
    requires !Counts(m)
    ensures HumansOf(rules, max, m) == [] && SaidOf(max, m) == [] && AnswersOf(rules, max, asked, m) == []
    ensures AskedOf(m) == {}
  {
  }

  /** Two transcripts that make the same turns and ask the same questions. */
  ghost predicate Alike(rules: Rules, max: int, a: seq<Record>, b: seq<Record>) {
    Humans(rules, max, a) == Humans(rules, max, b) && Said(max, a) == Said(max, b) &&
    Decisions(rules, max, a) == Decisions(rules, max, b) && Asked(a) == Asked(b)
  }

  lemma AlikePush(rules: Rules, max: int, a: seq<Record>, b: seq<Record>, r: Record)
    requires Alike(rules, max, a, b)
    ensures Alike(rules, max, a + [r], b + [r])
  {
    PushRecord(rules, max, a, r);
    PushRecord(rules, max, b, r);
  }

  lemma AlikeUncounted(rules: Rules, max: int, a: seq<Record>, b: seq<Record>, r: Record)
    requires Alike(rules, max, a, b) && !Counts(r)
    ensures Alike(rules, max, a + [r], b)
  {
    PushRecord(rules, max, a, r);
    Uncounted(rules, max, Asked(a), r);
  }

  /** Only the relevant records make turns, or ask questions. */
  lemma {:induction false} OnlyRelevant(rules: Rules, max: int, rs: seq<Record>)
    ensures Alike(rules, max, rs, Relevant(rs))
  {
    if rs == [] {
      assert Relevant(rs) == rs;
    } else {
      var before, last := rs[..|rs| - 1], rs[|rs| - 1];
      assert rs == before + [last];
      OnlyRelevant(rules, max, before);
      if Counts(last) {
        AlikePush(rules, max, before, Relevant(before), last);
      } else {
        AlikeUncounted(rules, max, before, Relevant(before), last);
        assert Relevant(rs) == Relevant(before);
      }
    }
  }

  lemma {:induction false} RelevantConcat(a: seq<Record>, b: seq<Record>)
    ensures Relevant(a + b) == Relevant(a) + Relevant(b)
  {
    if b == [] {
      assert a + b == a;
    } else {
      assert (a + b)[..|a + b| - 1] == a + b[..|b| - 1];
      RelevantConcat(a, b[..|b| - 1]);
    }
  }

  /** Meta and sidechain records, put in anywhere, change nothing. */
  lemma IgnoredAnywhere(rules: Rules, o: Options, a: seq<Record>, m: Record, b: seq<Record>)
    requires !Counts(m)
    ensures Turns(rules, o, a + [m] + b) == Turns(rules, o, a + b)
  {
    var with, without := a + [m] + b, a + b;
    assert Relevant(with) == Relevant(without) by {
      RelevantConcat(a + [m], b);
      RelevantConcat(a, b);
      assert (a + [m])[..|a|] == a;
    }
    OnlyRelevant(rules, o.maxTurnChars, with);
    OnlyRelevant(rules, o.maxTurnChars, without);
  }

  /** Block `b` is a result that says something, for a tool use among those asked about. */
  predicate Answers(rules: Rules, asked: set<string>, blocks: seq<Block>, b: nat) {
    b < |blocks| && blocks[b].ToolResult? && blocks[b].toolUseId in asked
    && rules.stripAskBoilerplate(blocks[b].result) != ""
  }

  function DecisionAt(rules: Rules, max: int, blocks: seq<Block>, b: nat): Turn
    requires b < |blocks| && blocks[b].ToolResult?
  {
    Turn(Decision, Clip(rules.stripAskBoilerplate(blocks[b].result), max))
  }

  lemma {:induction false} AnswerFrom(rules: Rules, max: int, asked: set<string>, blocks: seq<Block>, t: Turn)
    ensures t in AnswersIn(rules, max, asked, blocks) <==>
      exists b: nat :: Answers(rules, asked, blocks, b) && t == DecisionAt(rules, max, blocks, b)
  {
    if blocks != [] {
      var n := |blocks| - 1;
      AnswerFrom(rules, max, asked, blocks[..n], t);
      forall b: nat | b < n
        ensures Answers(rules, asked, blocks[..n], b) <==> Answers(rules, asked, blocks, b)
        ensures Answers(rules, asked, blocks, b) ==>
                  DecisionAt(rules, max, blocks[..n], b) == DecisionAt(rules, max, blocks, b)
      {
        assert blocks[..n][b] == blocks[b];
      }
      if t in AnswersIn(rules, max, asked, blocks) && t !in AnswersIn(rules, max, asked, blocks[..n]) {
        assert Answers(rules, asked, blocks, n) && t == DecisionAt(rules, max, blocks, n);
      }
    }
  }

  /** Record `k` answers, in block `b`, a question asked in an earlier record. */
  ghost predicate AnswersAsked(rules: Rules, rs: seq<Record>, k: nat, b: nat) {
    && k < |rs| && Counts(rs[k]) && rs[k].role.User? && rs[k].content.Blocks?
    && Answers(rules, Asked(rs[..k]), rs[k].content.blocks, b)
  }

  lemma AnswersHere(rules: Rules, max: int, rs: seq<Record>, k: nat, t: Turn)
    requires k < |rs|
    ensures t in AnswersOf(rules, max, Asked(rs[..k]), rs[k]) <==>
      exists b: nat :: AnswersAsked(rules, rs, k, b) && t == DecisionAt(rules, max, rs[k].content.blocks, b)
  {
    if Counts(rs[k]) && rs[k].role.User? && rs[k].content.Blocks? {
      var asked, blocks := Asked(rs[..k]), rs[k].content.blocks;
      AnswerFrom(rules, max, asked, blocks, t);
      assert forall b: nat :: AnswersAsked(rules, rs, k, b) <==> Answers(rules, asked, blocks, b);
    }
  }

  lemma AskedBefore(rules: Rules, rs: seq<Record>, n: nat)
    requires n <= |rs|
    ensures forall k: nat, b: nat | k < n :: AnswersAsked(rules, rs[..n], k, b) <==> AnswersAsked(rules, rs, k, b)
  {
    assert forall k: nat | k < n :: rs[..n][..k] == rs[..k];
  }

  /** The decisions are exactly the answers, not empty once stripped, to questions that an earlier record asked. */
  lemma {:induction false} DecisionIff(rules: Rules, max: int, rs: seq<Record>, t: Turn)
    ensures t in Decisions(rules, max, rs) <==>
      exists k: nat, b: nat :: AnswersAsked(rules, rs, k, b) && t == DecisionAt(rules, max, rs[k].content.blocks, b)
  {
    if rs != [] {
      var n := |rs| - 1;
      DecisionIff(rules, max, rs[..n], t);
      AnswersHere(rules, max, rs, n, t);
      AskedBefore(rules, rs, n);
    }
  }
}
