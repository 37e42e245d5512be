/** Which records and blocks the turns of a transcript come from, and in what order. */
module CollectorLaws {
  import opened Text
  import opened Budget
  import opened Collector

  // ---- what a person says ----

  predicate Increasing(at: seq<nat>) {
    forall i, j | 0 <= i < j < |at| :: at[i] < at[j]
  }

  /** The texts are those of the text blocks, and `at` is where each stands. */
  ghost predicate TextsAt(blocks: seq<Block>, texts: seq<string>, at: seq<nat>) {
    && |texts| == |at| && Increasing(at)
    && (forall b: nat :: b in at <==> b < |blocks| && blocks[b].Text?)
    && (forall i | 0 <= i < |at| :: at[i] < |blocks| && blocks[at[i]] == Collector.Text(texts[i]))
  }

  lemma TextsNext(blocks: seq<Block>, block: Block, texts: seq<string>, at: seq<nat>)
    requires TextsAt(blocks, texts, at)
    ensures match block
            case Text(text) => TextsAt(blocks + [block], texts + [text], at + [|blocks|])
            case _ => TextsAt(blocks + [block], texts, at)
  {
    var all := blocks + [block];
    assert forall i | 0 <= i < |at| :: at[i] in at;
    if block.Text? {
      var more := at + [|blocks|];
      forall b: nat ensures b in more <==> b < |all| && all[b].Text? {
      }
    }
  }

  /** What a record of blocks says is its text blocks in order, one to a line. */
  lemma {:induction false} TextsJoined(blocks: seq<Block>) returns (texts: seq<string>, at: seq<nat>)
    ensures TextsAt(blocks, texts, at) && JoinTexts(blocks) == Join(texts)
  {
    texts, at := TextsFound(blocks);
  }

  lemma {:induction false} TextsFound(blocks: seq<Block>) returns (texts: seq<string>, at: seq<nat>)
    ensures TextsAt(blocks, texts, at) && texts == Texts(blocks)
  {
    texts, at := [], [];
    if blocks != [] {
      var n := |blocks| - 1;
      texts, at := TextsFound(blocks[..n]);
      TextsNext(blocks[..n], blocks[n], texts, at);
      assert blocks[..n] + [blocks[n]] == blocks;
      if blocks[n].Text? {
        texts, at := texts + [blocks[n].text], at + [n];
      }
    }
  }

  /** What is left of a record's content without what the harness put in. */
  function Spoken(rules: Rules, r: Record): string {
    match r
    case Object(_, _, _, _, Bare(text)) => rules.stripHarnessTags(text)
    case Object(_, _, _, _, Blocks(blocks)) => rules.stripHarnessTags(JoinTexts(blocks))
    case _ => ""
  }

  /** A person typed it, and it is neither empty nor automation. */
  predicate Speaks(rules: Rules, r: Record) {
    match r
    case NotObject => false
    case Object(meta, sidechain, role, typedByHuman, content) =>
      !meta && !sidechain && role.User? && typedByHuman && Spoken(rules, r) != "" && !rules.isAutomationText(Spoken(rules, r))
  }

  /** The human turns, and the records they are from. */
  ghost predicate SpokenAt(rules: Rules, max: int, rs: seq<Record>, turns: seq<Turn>, at: seq<nat>) {
    && |turns| == |at| && Increasing(at)
    && (forall k: nat :: k in at <==> k < |rs| && Speaks(rules, rs[k]))
    && (forall i | 0 <= i < |at| :: at[i] < |rs| && turns[i] == Turn(Human, Clip(Spoken(rules, rs[at[i]]), max)))
  }

  lemma SpeaksIff(rules: Rules, max: int, r: Record)
    ensures HumansOf(rules, max, r) == if Speaks(rules, r) then [Turn(Human, Clip(Spoken(rules, r), max))] else []
  {
  }

  lemma SpokenNext(rules: Rules, max: int, rs: seq<Record>, r: Record, turns: seq<Turn>, at: seq<nat>)
    requires SpokenAt(rules, max, rs, turns, at)
    ensures if Speaks(rules, r)
            then SpokenAt(rules, max, rs + [r], turns + [Turn(Human, Clip(Spoken(rules, r), max))], at + [|rs|])
            else SpokenAt(rules, max, rs + [r], turns, at)
  {
    var all := rs + [r];
    assert forall i | 0 <= i < |at| :: at[i] in at;
    if Speaks(rules, r) {
      var more := at + [|rs|];
      forall k: nat ensures k in more <==> k < |all| && Speaks(rules, all[k]) {
      }
    }
  }

  /** The human turns are exactly what persons say, record by record. */
  lemma {:induction false} HumansAre(rules: Rules, max: int, rs: seq<Record>) returns (at: seq<nat>)
    ensures SpokenAt(rules, max, rs, Humans(rules, max, rs), at)
  {
    at := [];
    if rs != [] {
      var n := |rs| - 1;
      at := HumansAre(rules, max, rs[..n]);
      SpeaksIff(rules, max, rs[n]);
      SpokenNext(rules, max, rs[..n], rs[n], Humans(rules, max, rs[..n]), at);
      assert rs[..n] + [rs[n]] == rs;
      if Speaks(rules, rs[n]) {
        at := at + [n];
      }
    }
  }

  // ---- what is decided, and what the assistant says ----

  datatype Place = Place(record: nat, block: nat)

  predicate Before(p: Place, q: Place) {
    p.record < q.record || (p.record == q.record && p.block < q.block)
  }

  predicate InOrder(at: seq<Place>) {
    forall i, j | 0 <= i < j < |at| :: Before(at[i], at[j])
  }

  /** There is a block in a record of the role that is neither meta nor of a sidechain. */
  predicate HasBlock(rs: seq<Record>, role: Role, p: Place) {
    p.record < |rs| && match rs[p.record]
    case Object(meta, sidechain, who, _, Blocks(blocks)) => !meta && !sidechain && who == role && p.block < |blocks|
    case _ => false
  }

  function BlockAt(rs: seq<Record>, role: Role, p: Place): Block
    requires HasBlock(rs, role, p)
  {
    rs[p.record].content.blocks[p.block]
  }

  predicate Asks(rs: seq<Record>, p: Place, id: string) {
    HasBlock(rs, AssistantRole, p) && BlockAt(rs, AssistantRole, p) == ToolUse("AskUserQuestion", id)
  }

  /** The assistant asks the question in an earlier record. */
  ghost predicate AskedBefore(rs: seq<Record>, k: nat, id: string) {
    id != "" && exists p: Place :: p.record < k && Asks(rs, p, id)
  }

  /** The text of a block that makes a turn: the assistant's own words, or the answer to a question asked before. */
  ghost predicate Tells(rules: Rules, rs: seq<Record>, role: Role, p: Place, text: string) {
    HasBlock(rs, role, p) && match BlockAt(rs, role, p)
    case Text(said) => role.AssistantRole? && Trimmed(said) != "" && text == said
    case ToolResult(id, result) =>
      role.User? && AskedBefore(rs, p.record, id) && text == rules.stripAskBoilerplate(result) != ""
    case _ => false
  }

  ghost predicate TellsSome(rules: Rules, rs: seq<Record>, role: Role, p: Place) {
    exists text :: Tells(rules, rs, role, p, text)
  }

  function KindOf(role: Role): TurnKind {
    if role.AssistantRole? then Assistant else Decision
  }

  ghost predicate TellsAs(rules: Rules, max: int, rs: seq<Record>, role: Role, p: Place, turn: Turn) {
    exists text :: Tells(rules, rs, role, p, text) && turn == Turn(KindOf(role), Clip(text, max))
  }

  /** The turns are those of the blocks before `end` that make one, and `at` is where each stands. */
  ghost predicate ToldUntil(rules: Rules, max: int, rs: seq<Record>, role: Role, end: Place, turns: seq<Turn>,
                            at: seq<Place>) {
    && |turns| == |at| && InOrder(at)
    && (forall p :: p in at <==> Before(p, end) && TellsSome(rules, rs, role, p))
    && (forall i | 0 <= i < |at| :: TellsAs(rules, max, rs, role, at[i], turns[i]))
  }

  /** A block that tells nothing makes no turn. */
  lemma Silent(rules: Rules, max: int, rs: seq<Record>, role: Role, end: Place, next: Place, turns: seq<Turn>,
               at: seq<Place>)
    requires ToldUntil(rules, max, rs, role, end, turns, at)
    requires Before(end, next)
    requires forall p | !Before(p, end) && Before(p, next) :: !TellsSome(rules, rs, role, p)
    ensures ToldUntil(rules, max, rs, role, next, turns, at)
  {
  }

  lemma Telling(rules: Rules, max: int, rs: seq<Record>, role: Role, end: Place, turns: seq<Turn>, at: seq<Place>,
                turn: Turn)
    requires ToldUntil(rules, max, rs, role, end, turns, at) && TellsAs(rules, max, rs, role, end, turn)
    ensures ToldUntil(rules, max, rs, role, end.(block := end.block + 1), turns + [turn], at + [end])
  {
    var next, more := end.(block := end.block + 1), at + [end];
    assert TellsSome(rules, rs, role, end);
    assert forall i | 0 <= i < |at| :: at[i] in at;
    forall p ensures p in more <==> Before(p, next) && TellsSome(rules, rs, role, p) {
      assert Before(p, next) <==> Before(p, end) || p == end;
    }
  }

  // ---- the same, from the definitions over a whole transcript ----

  lemma AskedIff(rs: seq<Record>, k: nat, id: string)
    requires k <= |rs|
    ensures id in Asked(rs[..k]) <==> AskedBefore(rs, k, id)
  {
    if AskedBefore(rs, k, id) {
      var p: Place :| p.record < k && Asks(rs, p, id);
      assert BlockAt(rs, AssistantRole, p) in rs[p.record].content.blocks;
      assert id in AskedOf(rs[..k][p.record]);
    }
    if id in Asked(rs[..k]) {
      var j :| 0 <= j < k && id in AskedOf(rs[..k][j]);
      var blocks := rs[j].content.blocks;
      var b :| 0 <= b < |blocks| && blocks[b] == ToolUse("AskUserQuestion", id);
      assert Asks(rs, Place(j, b), id);
    }
  }

  /** What one block adds. */
  function Added(rules: Rules, max: int, role: Role, asked: set<string>, block: Block): seq<Turn> {
    if role.AssistantRole? then SaidIn(max, [block]) else AnswersIn(rules, max, asked, [block])
  }

  function AddedBy(rules: Rules, max: int, role: Role, asked: set<string>, blocks: seq<Block>): seq<Turn> {
    if role.AssistantRole? then SaidIn(max, blocks) else AnswersIn(rules, max, asked, blocks)
  }

  lemma AddedNext(rules: Rules, max: int, role: Role, asked: set<string>, blocks: seq<Block>, i: nat)
    requires i < |blocks|
    ensures AddedBy(rules, max, role, asked, blocks[..i + 1]) ==
      AddedBy(rules, max, role, asked, blocks[..i]) + Added(rules, max, role, asked, blocks[i])
  {
    assert blocks[..i + 1][..i] == blocks[..i];
    SaidOne(max, blocks[i]);
    AnswerOne(rules, max, asked, blocks[i]);
  }

  lemma SaidOne(max: int, block: Block)
    ensures SaidIn(max, [block]) ==
      if block.Text? && Trimmed(block.text) != "" then [Turn(Assistant, Clip(block.text, max))] else []
  {
    assert [block][..0] == [];
  }

  lemma AnswerOne(rules: Rules, max: int, asked: set<string>, block: Block)
    ensures AnswersIn(rules, max, asked, [block]) ==
      if block.ToolResult? && block.toolUseId in asked && rules.stripAskBoilerplate(block.result) != ""
      then [Turn(Decision, Clip(rules.stripAskBoilerplate(block.result), max))] else []
  {
    assert [block][..0] == [];
  }

  lemma AddedIf(rules: Rules, max: int, rs: seq<Record>, role: Role, p: Place)
    requires HasBlock(rs, role, p) && role != OtherRole
    ensures var added := Added(rules, max, role, Asked(rs[..p.record]), BlockAt(rs, role, p));
      || (added == [] && !TellsSome(rules, rs, role, p))
      || (|added| == 1 && TellsAs(rules, max, rs, role, p, added[0]))
  {
    var block, k := BlockAt(rs, role, p), p.record;
    if role.AssistantRole? {
      SaidOne(max, block);
      if block.Text? && Trimmed(block.text) != "" {
        assert Tells(rules, rs, role, p, block.text);
      }
    } else {
      AnswerOne(rules, max, Asked(rs[..k]), block);
      if block.ToolResult? {
        AskedIff(rs, k, block.toolUseId);
        if block.toolUseId in Asked(rs[..k]) && rules.stripAskBoilerplate(block.result) != "" {
          assert Tells(rules, rs, role, p, rules.stripAskBoilerplate(block.result));
        }
      }
    }
  }

  lemma ToldNext(rules: Rules, max: int, rs: seq<Record>, role: Role, p: Place, turns: seq<Turn>, at: seq<Place>)
    returns (more: seq<Place>)
    requires HasBlock(rs, role, p) && role != OtherRole && ToldUntil(rules, max, rs, role, p, turns, at)
    ensures ToldUntil(rules, max, rs, role, Place(p.record, p.block + 1),
              turns + Added(rules, max, role, Asked(rs[..p.record]), BlockAt(rs, role, p)), more)
  {
    var next, added := Place(p.record, p.block + 1), Added(rules, max, role, Asked(rs[..p.record]), BlockAt(rs, role, p));
    AddedIf(rules, max, rs, role, p);
    if added == [] {
      more := at;
      assert turns + added == turns;
      assert forall q | !Before(q, p) && Before(q, next) :: q == p;
      Silent(rules, max, rs, role, p, next, turns, at);
    } else {
      more := at + [p];
      Telling(rules, max, rs, role, p, turns, at, added[0]);
      assert added == [added[0]];
    }
  }

  /** The record has these blocks. */
  predicate HasBlocks(rs: seq<Record>, role: Role, k: nat, blocks: seq<Block>) {
    forall b: nat | b < |blocks| :: HasBlock(rs, role, Place(k, b)) && BlockAt(rs, role, Place(k, b)) == blocks[b]
  }

  /** The first blocks of a record. */
  lemma {:induction false} ToldBlocks(rules: Rules, max: int, rs: seq<Record>, role: Role, k: nat, i: nat,
                                      blocks: seq<Block>, turns: seq<Turn>, at: seq<Place>) returns (more: seq<Place>)
    requires role != OtherRole && i <= |blocks| && k < |rs| && HasBlocks(rs, role, k, blocks)
    requires ToldUntil(rules, max, rs, role, Place(k, 0), turns, at)
    ensures ToldUntil(rules, max, rs, role, Place(k, i), turns + AddedBy(rules, max, role, Asked(rs[..k]), blocks[..i]), more)
  {
    var asked := Asked(rs[..k]);
    if i == 0 {
      more := at;
      assert turns + AddedBy(rules, max, role, asked, []) == turns;
    } else {
      more := ToldBlocks(rules, max, rs, role, k, i - 1, blocks, turns, at);
      var before := AddedBy(rules, max, role, asked, blocks[..i - 1]);
      more := ToldNext(rules, max, rs, role, Place(k, i - 1), turns + before, more);
      AddedNext(rules, max, role, asked, blocks, i - 1);
      Regroup(turns, before, Added(rules, max, role, asked, blocks[i - 1]));
    }
  }

  lemma Regroup(a: seq<Turn>, b: seq<Turn>, c: seq<Turn>)
    ensures a + b + c == a + (b + c)
  {
  }

  function AllOf(rules: Rules, max: int, role: Role, rs: seq<Record>): seq<Turn> {
    if role.AssistantRole? then Said(max, rs) else Decisions(rules, max, rs)
  }

  /** The blocks of a record that count for the role. */
  function BlocksOf(r: Record, role: Role): seq<Block> {
    match r
    case Object(false, false, who, _, Blocks(blocks)) => if who == role then blocks else []
    case _ => []
  }

  lemma AllNext(rules: Rules, max: int, role: Role, rs: seq<Record>, k: nat)
    requires role != OtherRole && k < |rs|
    ensures AllOf(rules, max, role, rs[..k + 1]) ==
      AllOf(rules, max, role, rs[..k]) + AddedBy(rules, max, role, Asked(rs[..k]), BlocksOf(rs[k], role))
  {
    assert rs[..k + 1][..k] == rs[..k];
  }

  lemma {:induction false} ToldRecords(rules: Rules, max: int, rs: seq<Record>, role: Role, k: nat)
    returns (at: seq<Place>)
    requires role != OtherRole && k <= |rs|
    ensures ToldUntil(rules, max, rs, role, Place(k, 0), AllOf(rules, max, role, rs[..k]), at)
  {
    at := [];
    if k > 0 {
      var blocks, asked := BlocksOf(rs[k - 1], role), Asked(rs[..k - 1]);
      var before := AllOf(rules, max, role, rs[..k - 1]);
      at := ToldRecords(rules, max, rs, role, k - 1);
      at := ToldBlocks(rules, max, rs, role, k - 1, |blocks|, blocks, before, at);
      assert blocks[..|blocks|] == blocks;
      AllNext(rules, max, role, rs, k - 1);
      Silent(rules, max, rs, role, Place(k - 1, |blocks|), Place(k, 0), before + AddedBy(rules, max, role, asked, blocks), at);
    }
  }

  // ---- the turns ----

  ghost predicate SpokenIn(rules: Rules, max: int, rs: seq<Record>, turns: seq<Turn>) {
    exists at :: SpokenAt(rules, max, rs, turns, at)
  }

  ghost predicate ToldIn(rules: Rules, max: int, rs: seq<Record>, role: Role, turns: seq<Turn>) {
    exists at :: ToldUntil(rules, max, rs, role, Place(|rs|, 0), turns, at)
  }

  function Omitted(kind: TurnKind, dropped: nat): Turn {
    Turn(kind, "\U{2026} " + Decimal(dropped) + " turns omitted (session over budget) \U{2026}")
  }

  /** All turns if they are within the limit, or else the longest ends with the number of turns left out between. */
  ghost predicate KeptOf(turns: seq<Turn>, maxChars: int, kind: TurnKind, kept: seq<Turn>) {
    if Chars(turns) <= maxChars || turns == [] then kept == turns
    else
      exists p: nat, q: nat :: LongestEnds(turns, maxChars / 2, p, q) && p < q &&
        kept == turns[..p] + [Omitted(kind, q - p)] + turns[q..]
  }

  lemma KeptIs(turns: seq<Turn>, maxChars: int, kind: TurnKind)
    ensures KeptOf(turns, maxChars, kind, Budgeted(turns, maxChars, kind))
  {
    var p, q := BudgetSplit(turns, maxChars, kind);
  }

  /** What was said by persons, decided and said by the assistant, each exactly and in order, make the turns: the first
      two cut to their limits, and then the last of the third. */
  lemma TurnsAre(rules: Rules, o: Options, rs: seq<Record>)
    returns (humans: seq<Turn>, decisions: seq<Turn>, said: seq<Turn>, heads: seq<Turn>, rulings: seq<Turn>, n: nat)
    ensures SpokenIn(rules, o.maxTurnChars, rs, humans) && KeptOf(humans, o.maxHumanChars, Human, heads)
    ensures ToldIn(rules, o.maxTurnChars, rs, User, decisions) && KeptOf(decisions, o.maxDecisionChars, Decision, rulings)
    ensures ToldIn(rules, o.maxTurnChars, rs, AssistantRole, said)
    ensures n == if o.assistantTail < 0 then 0 else if o.assistantTail > |said| then |said| else o.assistantTail
    ensures Turns(rules, o, rs) == heads + rulings + said[|said| - n..]
  {
    var max := o.maxTurnChars;
    humans, decisions, said := Humans(rules, max, rs), Decisions(rules, max, rs), Said(max, rs);
    heads, rulings := Budgeted(humans, o.maxHumanChars, Human), Budgeted(decisions, o.maxDecisionChars, Decision);
    KeptIs(humans, o.maxHumanChars, Human);
    KeptIs(decisions, o.maxDecisionChars, Decision);
    EachIn(rules, max, rs);
    n := LastIs(said, o.assistantTail);
  }

  lemma EachIn(rules: Rules, max: int, rs: seq<Record>)
    ensures SpokenIn(rules, max, rs, Humans(rules, max, rs))
    ensures ToldIn(rules, max, rs, User, Decisions(rules, max, rs)) && ToldIn(rules, max, rs, AssistantRole, Said(max, rs))
  {
    var spoken := HumansAre(rules, max, rs);
    var decided := ToldRecords(rules, max, rs, User, |rs|);
    var told := ToldRecords(rules, max, rs, AssistantRole, |rs|);
    assert rs[..|rs|] == rs;
  }

  lemma LastIs(said: seq<Turn>, tail: int) returns (n: nat)
    ensures n == if tail < 0 then 0 else if tail > |said| then |said| else tail
    ensures LastOf(said, tail) == said[|said| - n..]
  {
    n := if tail < 0 then 0 else if tail > |said| then |said| else tail;
  }
}
