/** The Anthropic request body: messages folded into alternating turns. */
module AnthropicWire {
  import opened Wrappers
  import opened Messages
  import C = Compaction
  import L = CompactionLaws
  import T = Text

  datatype WireRole = UserTurn | AssistantTurn

  datatype WireBlock =
    | WireText(text: string)
    | WireThinking(text: string, signature: string)
    | WireUse(id: string, name: string, input: Json)
    | WireResult(id: string, output: string, isError: bool)

  datatype Turn = Turn(role: WireRole, blocks: seq<WireBlock>)

  /** A turn's content: one string when it is all text, a block array otherwise. */
  datatype Content = Joined(text: string) | Blocks(blocks: seq<WireBlock>)

  function WireRoleOf(role: Role): WireRole {
    if role == Assistant then AssistantTurn else UserTurn
  }

  /** The wire form of one block; unsigned reasoning has none. */
  function TranslateBlock(b: Block): seq<WireBlock> {
    match b
    case Text(text) => [WireText(text)]
    case Reasoning(text, Some(signature)) => [WireThinking(text, signature)]
    case Reasoning(_, None) => []
    case ToolUse(id, name, input) => [WireUse(id, name, input)]
    case ToolResult(id, output, isError) => [WireResult(id, output, isError)]
  }

  function TranslateBlocks(content: seq<Block>): seq<WireBlock> {
    if content == [] then []
    else TranslateBlocks(content[..|content| - 1]) + TranslateBlock(content[|content| - 1])
  }

  function AddTurn(turns: seq<Turn>, role: WireRole, blocks: seq<WireBlock>): seq<Turn> {
    if blocks == [] then turns
    else if turns != [] && turns[|turns| - 1].role == role then
      turns[|turns| - 1 := Turn(role, turns[|turns| - 1].blocks + blocks)]
    else turns + [Turn(role, blocks)]
  }

  function AddMessage(turns: seq<Turn>, m: Message): seq<Turn> {
    AddTurn(turns, WireRoleOf(m.role), TranslateBlocks(m.content))
  }

  /** Turns of everything after the leading system messages. */
  function Turns(body: seq<Message>): seq<Turn> {
    if body == [] then [] else AddMessage(Turns(body[..|body| - 1]), body[|body| - 1])
  }

  function AddSystemText(system: string, content: seq<Block>): string {
    if content == [] then system
    else
      var soFar := AddSystemText(system, content[..|content| - 1]);
      var last := content[|content| - 1];
      if !last.Text? then soFar
      else (if soFar == "" then "" else soFar + "\n") + last.text
  }

  function SystemText(leading: seq<Message>): string {
    if leading == [] then ""
    else AddSystemText(SystemText(leading[..|leading| - 1]), leading[|leading| - 1].content)
  }

  predicate AllText(blocks: seq<WireBlock>) {
    forall i :: 0 <= i < |blocks| ==> blocks[i].WireText?
  }

  function TextsOf(blocks: seq<WireBlock>): seq<string>
    requires AllText(blocks)
  {
    seq(|blocks|, i requires 0 <= i < |blocks| => blocks[i].text)
  }

  function ContentOf(blocks: seq<WireBlock>): Content {
    if AllText(blocks) then Joined(T.Join(TextsOf(blocks), "\n")) else Blocks(blocks)
  }

  /** Appends the text blocks of one leading system message. */
  method ExtendSystem(before: string, content: seq<Block>) returns (system: string)
    ensures system == AddSystemText(before, content)
  {
    system := before;
    for k := 0 to |content|
      invariant system == AddSystemText(before, content[..k])
    {
      assert content[..k + 1][..k] == content[..k];
      if content[k].Text? {
        if system != "" {
          system := system + "\n";
        }
        system := system + content[k].text;
      }
    }
    assert content[..|content|] == content;
  }

  method PushMessage(before: seq<Turn>, m: Message) returns (turns: seq<Turn>)
    ensures turns == AddMessage(before, m)
  {
    turns := before;
    var role, blocks, last := WireRoleOf(m.role), TranslateBlocks(m.content), |turns| - 1;
    if blocks == [] {
      return;
    }
    if turns != [] && turns[last].role == role {
      turns := turns[last := Turn(role, turns[last].blocks + blocks)];
    } else {
      turns := turns + [Turn(role, blocks)];
    }
  }

  /** Builds the request: the system string, then the turns, extending the last one in place. */
  method TranslateMessages(messages: seq<Message>) returns (system: string, turns: seq<Turn>)
    ensures system == SystemText(messages[..C.SystemCount(messages)])
    ensures turns == Turns(messages[C.SystemCount(messages)..])
  {
    hide AddMessage, AddSystemText;
    system, turns := "", [];
    var i, n := 0, C.SystemCount(messages);
    while i < |messages| && messages[i].role == System
      invariant i <= n
      invariant system == SystemText(messages[..i])
    {
      assert messages[..i + 1][..i] == messages[..i];
      system := ExtendSystem(system, messages[i].content);
      i := i + 1;
    }
    assert i == n;
    while i < |messages|
      invariant n <= i <= |messages|
      invariant turns == Turns(messages[n..i])
    {
      assert messages[n..i + 1][..i - n] == messages[n..i];
      turns := PushMessage(turns, messages[i]);
      i := i + 1;
    }
    assert messages[n..|messages|] == messages[n..];
  }

  // ---------------------------------------------------------------------------
  // Laws

  function WireUses(blocks: seq<WireBlock>): seq<string> {
    if blocks == [] then []
    else WireUses(blocks[..|blocks| - 1]) +
         (var last := blocks[|blocks| - 1]; if last.WireUse? then [last.id] else [])
  }

  predicate NoResults(blocks: seq<WireBlock>) {
    forall i :: 0 <= i < |blocks| ==> !blocks[i].WireResult?
  }

  /** The blocks open with results for exactly `ids`, in order, and hold no other result. */
  predicate LeadingResults(blocks: seq<WireBlock>, ids: seq<string>) {
    && |ids| <= |blocks|
    && (forall k :: 0 <= k < |ids| ==> blocks[k].WireResult? && blocks[k].id == ids[k])
    && (forall k :: |ids| <= k < |blocks| ==> !blocks[k].WireResult?)
  }

  /** Turns are non-empty and strictly alternate. */
  ghost predicate Alternating(turns: seq<Turn>) {
    && (forall i :: 0 <= i < |turns| ==> turns[i].blocks != [])
    && (forall i :: 0 <= i < |turns| - 1 ==> turns[i].role != turns[i + 1].role)
  }

  /** The calls the turn before `i` is waiting to have answered. */
  function Asked(turns: seq<Turn>, i: nat): seq<string>
    requires i < |turns|
  {
    if i == 0 then [] else WireUses(turns[i - 1].blocks)
  }

  /** Only the assistant calls and only the user answers. */
  ghost predicate Sided(t: Turn) {
    if t.role == AssistantTurn then NoResults(t.blocks) else WireUses(t.blocks) == []
  }

  ghost predicate Answered(turns: seq<Turn>, i: nat)
    requires i < |turns|
  {
    turns[i].role == UserTurn ==> LeadingResults(turns[i].blocks, Asked(turns, i))
  }

  /** Only the assistant calls and only the user answers; a user turn begins with exactly the
      results its predecessor asked for. `open` says what the last turns still owe. */
  ghost predicate TurnsPaired(turns: seq<Turn>, open: seq<string>) {
    && (turns == [] ==> open == [])
    && (forall i :: 0 <= i < |turns| ==> Sided(turns[i]))
    && (forall i :: 0 <= i < |turns| - 1 ==> Answered(turns, i))
    && (turns != [] ==> OwedByLast(turns, open))
  }

  ghost predicate OwedByLast(turns: seq<Turn>, open: seq<string>)
    requires turns != []
  {
    var n := |turns| - 1;
    var last := turns[n];
    if last.role == AssistantTurn then WireUses(last.blocks) == open
    else
      var asked := Asked(turns, n);
      && |open| <= |asked|
      && open == asked[|asked| - |open|..]
      && LeadingResults(last.blocks, asked[..|asked| - |open|])
      && (open != [] ==> |last.blocks| == |asked| - |open|)
  }

  lemma {:induction false} WireUsesConcat(a: seq<WireBlock>, b: seq<WireBlock>)
    ensures WireUses(a + b) == WireUses(a) + WireUses(b)
  {
    if b == [] {
      assert a + b == a;
    } else {
      assert (a + b)[..|a + b| - 1] == a + b[..|b| - 1];
      WireUsesConcat(a, b[..|b| - 1]);
    }
  }

  lemma {:induction false} BlockKeepsTools(b: Block)
    ensures WireUses(TranslateBlock(b)) == UseIds([b])
    ensures !b.ToolResult? ==> NoResults(TranslateBlock(b))
  {
    assert UseIds([b][1..]) == [];
    var t := TranslateBlock(b);
    if t != [] {
      assert WireUses(t[..0]) == [];
    }
  }

  lemma {:induction false} TranslationKeepsTools(content: seq<Block>)
    ensures WireUses(TranslateBlocks(content)) == UseIds(content)
    ensures !HasResult(content) ==> NoResults(TranslateBlocks(content))
  {
    if content != [] {
      var init, last := content[..|content| - 1], content[|content| - 1];
      TranslationKeepsTools(init);
      BlockKeepsTools(last);
      assert content == init + [last];
      L.UseIdsConcat(init, [last]);
      WireUsesConcat(TranslateBlocks(init), TranslateBlock(last));
      if !HasResult(content) {
        assert !last.ToolResult?;
        assert forall i :: 0 <= i < |init| ==> init[i] == content[i];
        assert !HasResult(init);
      }
    }
  }

  lemma {:induction false} AddTurnAlternates(turns: seq<Turn>, role: WireRole, blocks: seq<WireBlock>)
    requires Alternating(turns)
    ensures Alternating(AddTurn(turns, role, blocks))
  {
  }

  /** A result for the first open call is appended where the wire expects it. */
  lemma {:induction false} AddResultKeepsPaired(turns: seq<Turn>, open: seq<string>, r: WireBlock)
    requires Alternating(turns) && TurnsPaired(turns, open)
    requires open != [] && r.WireResult? && r.id == open[0]
    ensures TurnsPaired(AddTurn(turns, UserTurn, [r]), open[1..])
  {
    hide NoResults;
    var n := |turns| - 1;
    var after := AddTurn(turns, UserTurn, [r]);
    assert WireUses([r]) == [] by { assert [r][..0] == []; }
    if turns[n].role == AssistantTurn {
      assert Asked(after, n + 1) == open;
    } else {
      var asked := Asked(turns, n);
      WireUsesConcat(turns[n].blocks, [r]);
      assert Asked(after, n) == asked;
      assert asked[..|asked| - |open[1..]|] == asked[..|asked| - |open|] + [open[0]];
    }
    forall i | 0 <= i < |after| - 1
      ensures Answered(after, i)
    {
      assert Answered(turns, i) && after[i] == turns[i] && Asked(after, i) == Asked(turns, i);
    }
  }

  lemma {:induction false} NothingOwed(turns: seq<Turn>)
    requires turns != [] && TurnsPaired(turns, [])
    ensures var n := |turns| - 1;
            if turns[n].role == AssistantTurn then WireUses(turns[n].blocks) == []
            else LeadingResults(turns[n].blocks, Asked(turns, n))
  {
    var n := |turns| - 1;
    if turns[n].role == UserTurn {
      var asked := Asked(turns, n);
      assert asked[..|asked|] == asked;
    }
  }

  lemma {:induction false} OwesNothing(turns: seq<Turn>)
    requires turns != [] && turns[|turns| - 1].role == UserTurn
    requires LeadingResults(turns[|turns| - 1].blocks, Asked(turns, |turns| - 1))
    ensures OwedByLast(turns, [])
  {
    var asked := Asked(turns, |turns| - 1);
    assert asked[..|asked|] == asked && asked[|asked|..] == [];
  }

  lemma {:induction false} AnsweredFrame(turns: seq<Turn>, after: seq<Turn>, i: nat)
    requires i < |turns| && i < |after| && turns[..i] == after[..i] && turns[i] == after[i]
    requires Answered(turns, i)
    ensures Answered(after, i)
  {
    if i > 0 {
      assert turns[i - 1] == turns[..i][i - 1] == after[i - 1];
    }
  }

  /** With nothing owed, blocks without results may extend the last turn. */
  lemma {:induction false} ExtendLast(turns: seq<Turn>, t: Turn, blocks: seq<WireBlock>)
    requires turns != [] && t == turns[|turns| - 1] && TurnsPaired(turns, [])
    requires NoResults(blocks)
    requires t.role == UserTurn ==> WireUses(blocks) == []
    ensures var r := Turn(t.role, t.blocks + blocks);
            && Sided(r)
            && (t.role == UserTurn ==> LeadingResults(r.blocks, Asked(turns, |turns| - 1)))
            && (t.role == AssistantTurn ==> WireUses(r.blocks) == WireUses(blocks))
  {
    NothingOwed(turns);
    assert Sided(t);
    WireUsesConcat(t.blocks, blocks);
  }

  lemma {:induction false} ExtendKeepsPaired(turns: seq<Turn>, role: WireRole, blocks: seq<WireBlock>)
    requires TurnsPaired(turns, []) && turns != [] && role == turns[|turns| - 1].role
    requires NoResults(blocks) && blocks != []
    requires role == UserTurn ==> WireUses(blocks) == []
    ensures TurnsPaired(AddTurn(turns, role, blocks), WireUses(blocks))
  {
    hide WireUses, LeadingResults, NoResults;
    var n := |turns| - 1;
    var after := AddTurn(turns, role, blocks);
    ExtendLast(turns, turns[n], blocks);
    assert after[..n] == turns[..n];
    forall i | 0 <= i < n ensures Answered(after, i) {
      assert Answered(turns, i);
      assert turns[..i] == turns[..n][..i] && after[..i] == after[..n][..i];
      AnsweredFrame(turns, after, i);
    }
    forall i | 0 <= i < |after| ensures Sided(after[i]) {
      assert i < n ==> Sided(turns[i]);
    }
    if role == UserTurn {
      assert n > 0 ==> after[n - 1] == turns[n - 1];
      OwesNothing(after);
    }
  }

  /** With nothing owed, blocks without results may open a new turn. */
  lemma {:induction false} PushKeepsPaired(turns: seq<Turn>, role: WireRole, blocks: seq<WireBlock>)
    requires TurnsPaired(turns, [])
    requires turns != [] ==> turns[|turns| - 1].role != role
    requires NoResults(blocks) && blocks != []
    requires role == UserTurn ==> WireUses(blocks) == []
    ensures TurnsPaired(AddTurn(turns, role, blocks), WireUses(blocks))
  {
    hide WireUses;
    var after := AddTurn(turns, role, blocks);
    assert after == turns + [Turn(role, blocks)];
    forall i | 0 <= i < |turns| ensures Answered(after, i) {
      if i == |turns| - 1 {
        NothingOwed(turns);
      }
      assert Answered(turns, i);
      assert after[..i] == turns[..i];
      AnsweredFrame(turns, after, i);
    }
    forall i | 0 <= i < |after| ensures Sided(after[i]) {
      assert i < |turns| ==> Sided(turns[i]);
    }
    if role == UserTurn {
      if turns != [] {
        NothingOwed(turns);
      }
      assert Asked(after, |turns|) == [];
      OwesNothing(after);
    }
  }

  /** One message, read by the pairing automaton and translated to the wire, side by side. */
  lemma {:induction false} AddMessageKeepsPaired(turns: seq<Turn>, open: seq<string>, m: Message)
    requires Alternating(turns) && TurnsPaired(turns, open)
    requires Advance(true, open, m).Some?
    ensures Alternating(AddMessage(turns, m))
    ensures TurnsPaired(AddMessage(turns, m), Advance(true, open, m).value)
  {
    TranslationKeepsTools(m.content);
    AddTurnAlternates(turns, WireRoleOf(m.role), TranslateBlocks(m.content));
    if HasResult(m.content) {
      var b := m.content[0];
      assert m.content == [b] && m.content[..0] == [];
      assert TranslateBlocks(m.content) == [] + TranslateBlock(b);
      AddResultKeepsPaired(turns, open, TranslateBlock(b)[0]);
    } else {
      var role, blocks := WireRoleOf(m.role), TranslateBlocks(m.content);
      if blocks != [] {
        if turns != [] && turns[|turns| - 1].role == role {
          ExtendKeepsPaired(turns, role, blocks);
        } else {
          PushKeepsPaired(turns, role, blocks);
        }
      }
    }
  }

  lemma {:induction false} TurnsFollowScan(body: seq<Message>)
    requires Scan(true, [], body).Some?
    ensures Alternating(Turns(body))
    ensures TurnsPaired(Turns(body), Scan(true, [], body).value)
  {
    if body != [] {
      var init, m := body[..|body| - 1], body[|body| - 1];
      assert body == init + [m];
      ScanConcat(true, [], init, [m]);
      TurnsFollowScan(init);
      AddMessageKeepsPaired(Turns(init), Scan(true, [], init).value, m);
    }
  }

  lemma {:induction false} SettledTurnsAt(turns: seq<Turn>, i: nat)
    requires Alternating(turns) && TurnsPaired(turns, []) && i < |turns|
    ensures turns[i].role == UserTurn ==> LeadingResults(turns[i].blocks, Asked(turns, i))
    ensures turns[i].role == AssistantTurn && WireUses(turns[i].blocks) != [] ==>
              i + 1 < |turns| && turns[i + 1].role == UserTurn
  {
    NothingOwed(turns);
    if i + 1 < |turns| {
      assert Answered(turns, i);
      assert turns[i].role != turns[i + 1].role;
    }
  }

  /** Turn `i` keeps the provider's contract: only the assistant calls, only the user answers,
      calls t1..tk are answered at once by a user turn whose first k blocks are the results of
      t1..tk in order, and a user turn holds no other result. */
  ghost predicate ContractAt(turns: seq<Turn>, i: nat)
    requires i < |turns|
  {
    && Sided(turns[i])
    && Answered(turns, i)
    && (turns[i].role == AssistantTurn && WireUses(turns[i].blocks) != [] ==>
          && i + 1 < |turns|
          && turns[i + 1].role == UserTurn
          && LeadingResults(turns[i + 1].blocks, WireUses(turns[i].blocks)))
  }

  /** Every exactly paired history becomes strictly alternating turns that keep the contract. */
  lemma {:induction false} WireFormIsPaired(ms: seq<Message>)
    requires ExactlyPaired(ms)
    ensures var turns := Turns(ms[C.SystemCount(ms)..]);
            Alternating(turns) && forall i :: 0 <= i < |turns| ==> ContractAt(turns, i)
  {
    hide WireUses, LeadingResults, NoResults, Turns, Scan;
    L.ScanOfBody(true, ms);
    var turns := Turns(ms[C.SystemCount(ms)..]);
    TurnsFollowScan(ms[C.SystemCount(ms)..]);
    forall i | 0 <= i < |turns| ensures ContractAt(turns, i) {
      SettledTurnsAt(turns, i);
      if i + 1 < |turns| {
        SettledTurnsAt(turns, i + 1);
      }
    }
  }

  function FlatBlocks(turns: seq<Turn>): seq<WireBlock> {
    if turns == [] then [] else FlatBlocks(turns[..|turns| - 1]) + turns[|turns| - 1].blocks
  }

  function TranslatedBody(body: seq<Message>): seq<WireBlock> {
    if body == [] then [] else TranslatedBody(body[..|body| - 1]) + TranslateBlocks(body[|body| - 1].content)
  }

  lemma {:induction false} AddTurnAppends(turns: seq<Turn>, role: WireRole, blocks: seq<WireBlock>)
    ensures FlatBlocks(AddTurn(turns, role, blocks)) == FlatBlocks(turns) + blocks
  {
    var after := AddTurn(turns, role, blocks);
    if blocks != [] {
      assert turns != [] ==> after[..|turns| - 1] == turns[..|turns| - 1];
      assert |after| > |turns| ==> after[..|turns|] == turns;
    }
  }

  /** Every translatable block is sent exactly once and in order. */
  lemma {:induction false} WireKeepsOrder(body: seq<Message>)
    ensures FlatBlocks(Turns(body)) == TranslatedBody(body)
  {
    if body != [] {
      var init, m := body[..|body| - 1], body[|body| - 1];
      WireKeepsOrder(init);
      AddTurnAppends(Turns(init), WireRoleOf(m.role), TranslateBlocks(m.content));
    }
  }

  /** Collapsing text turns to a string never touches a turn that carries a call or a result. */
  lemma {:induction false} ToolTurnsStayBlocks(blocks: seq<WireBlock>)
    requires WireUses(blocks) != [] || !NoResults(blocks)
    ensures ContentOf(blocks) == Blocks(blocks)
  {
    if AllText(blocks) {
      TextHasNoUses(blocks);
    }
  }

  lemma {:induction false} TextHasNoUses(blocks: seq<WireBlock>)
    requires AllText(blocks)
    ensures WireUses(blocks) == []
  {
    if blocks != [] {
      TextHasNoUses(blocks[..|blocks| - 1]);
    }
  }
}
