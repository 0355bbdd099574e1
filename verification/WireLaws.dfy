/** What the Anthropic request body says: every block as it was, on its author's side, and the system prompt. */
module WireLaws {
  import opened Wrappers
  import opened Messages
  import opened AnthropicWire
  import C = Compaction
  import T = Text
  import TextLines

  // ---------------------------------------------------------------------------
  // Blocks come through

  /** The block a wire block stands for. */
  function BlockOf(b: WireBlock): Block {
    match b
    case WireText(text) => Text(text)
    case WireThinking(text, signature) => Reasoning(text, Some(signature))
    case WireUse(id, name, input) => ToolUse(id, name, input)
    case WireResult(id, output, isError) => ToolResult(id, output, isError)
  }

  /** Reasoning may only be sent back with its signature. */
  predicate MaySend(b: Block) {
    b.Reasoning? ==> b.signature.Some?
  }

  /** A block with the side it belongs to: the assistant's own, and everyone else's. */
  datatype Sent = Sent(byAssistant: bool, block: Block)

  function SentOf(role: Role, content: seq<Block>): seq<Sent> {
    if content == [] then []
    else SentOf(role, content[..|content| - 1])
         + if MaySend(content[|content| - 1]) then [Sent(role == Assistant, content[|content| - 1])] else []
  }

  /** Everything in some messages that may be sent, in order. */
  function Said(body: seq<Message>): seq<Sent> {
    if body == [] then [] else Said(body[..|body| - 1]) + SentOf(body[|body| - 1].role, body[|body| - 1].content)
  }

  function Decoded(role: WireRole, blocks: seq<WireBlock>): (r: seq<Sent>)
    ensures |r| == |blocks|
  {
    seq(|blocks|, i requires 0 <= i < |blocks| => Sent(role == AssistantTurn, BlockOf(blocks[i])))
  }

  /** What the turns of a request say. */
  function Heard(turns: seq<Turn>): seq<Sent> {
    if turns == [] then []
    else Heard(turns[..|turns| - 1]) + Decoded(turns[|turns| - 1].role, turns[|turns| - 1].blocks)
  }

  lemma {:induction false} DecodedConcat(role: WireRole, a: seq<WireBlock>, b: seq<WireBlock>)
    ensures Decoded(role, a + b) == Decoded(role, a) + Decoded(role, b)
  {
  }

  lemma {:induction false} BlockComesThrough(b: Block)
    ensures if MaySend(b) then |TranslateBlock(b)| == 1 && BlockOf(TranslateBlock(b)[0]) == b else TranslateBlock(b) == []
  {
  }

  lemma {:induction false} ContentComesThrough(role: Role, content: seq<Block>)
    ensures Decoded(WireRoleOf(role), TranslateBlocks(content)) == SentOf(role, content)
  {
    hide BlockOf, TranslateBlock, MaySend;
    if content != [] {
      var init, last := content[..|content| - 1], content[|content| - 1];
      ContentComesThrough(role, init);
      BlockComesThrough(last);
      DecodedConcat(WireRoleOf(role), TranslateBlocks(init), TranslateBlock(last));
    }
  }

  lemma {:induction false} HeardSnoc(turns: seq<Turn>, t: Turn)
    ensures Heard(turns + [t]) == Heard(turns) + Decoded(t.role, t.blocks)
  {
    assert (turns + [t])[..|turns|] == turns;
  }

  lemma {:induction false} AddTurnIsHeard(turns: seq<Turn>, role: WireRole, blocks: seq<WireBlock>)
    ensures Heard(AddTurn(turns, role, blocks)) == Heard(turns) + Decoded(role, blocks)
  {
    hide Heard;
    if blocks != [] {
      if turns != [] && turns[|turns| - 1].role == role {
        var init, last := turns[..|turns| - 1], turns[|turns| - 1];
        assert turns == init + [last];
        assert AddTurn(turns, role, blocks) == init + [Turn(role, last.blocks + blocks)];
        HeardSnoc(init, last);
        HeardSnoc(init, Turn(role, last.blocks + blocks));
        DecodedConcat(role, last.blocks, blocks);
      } else {
        HeardSnoc(turns, Turn(role, blocks));
      }
    }
  }

  /** Read back, the turns say every block of the body that may be sent, as it was, once, in order and on the side of
      whoever said it: the assistant's in assistant turns, everyone else's in user turns. */
  lemma {:induction false} WireComesThrough(body: seq<Message>)
    ensures Heard(Turns(body)) == Said(body)
  {
    hide Heard, SentOf, Decoded, TranslateBlocks;
    if body == [] {
      NothingIsHeard();
    } else {
      var init, m := body[..|body| - 1], body[|body| - 1];
      WireComesThrough(init);
      ContentComesThrough(m.role, m.content);
      AddTurnIsHeard(Turns(init), WireRoleOf(m.role), TranslateBlocks(m.content));
    }
  }

  lemma {:induction false} NothingIsHeard()
    ensures Heard([]) == []
  {
  }

  // ---------------------------------------------------------------------------
  // The system prompt

  /** The texts of some messages, in order. */
  function Texts(ms: seq<Message>): seq<string> {
    if ms == [] then [] else Texts(ms[..|ms| - 1]) + TextsIn(ms[|ms| - 1].content)
  }

  function TextsIn(content: seq<Block>): seq<string> {
    if content == [] then []
    else TextsIn(content[..|content| - 1]) + if content[|content| - 1].Text? then [content[|content| - 1].text] else []
  }

  /** Without the empty texts it begins with. */
  function FromFirst(texts: seq<string>): seq<string> {
    if texts != [] && texts[0] == "" then FromFirst(texts[1..]) else texts
  }

  function ByLine(texts: seq<string>): string {
    TextLines.Glued(texts, "\n")
  }

  /** One text joins the prompt: on a line of its own, unless the prompt is still empty. */
  function OnNewLine(prompt: string, text: string): string {
    if prompt == "" then text else prompt + "\n" + text
  }

  lemma {:induction false} FromFirstSnoc(texts: seq<string>, text: string)
    ensures FromFirst(texts + [text]) == if FromFirst(texts) == [] && text == "" then [] else FromFirst(texts) + [text]
  {
    if texts == [] {
      assert texts + [text] == [text] && [text][1..] == [];
    } else if texts[0] == "" {
      assert (texts + [text])[1..] == texts[1..] + [text];
      FromFirstSnoc(texts[1..], text);
    }
  }

  lemma {:induction false} FromFirstStarts(texts: seq<string>)
    ensures FromFirst(texts) != [] ==> FromFirst(texts)[0] != ""
  {
    if texts != [] && texts[0] == "" {
      FromFirstStarts(texts[1..]);
    }
  }

  lemma {:induction false} ByLineIsEmpty(texts: seq<string>)
    requires texts != [] ==> texts[0] != ""
    ensures ByLine(texts) == "" <==> texts == []
  {
  }

  lemma {:induction false} ByLineGrows(texts: seq<string>, text: string)
    ensures ByLine(FromFirst(texts + [text])) == OnNewLine(ByLine(FromFirst(texts)), text)
  {
    hide FromFirst;
    var shown := FromFirst(texts);
    FromFirstSnoc(texts, text);
    FromFirstStarts(texts);
    ByLineIsEmpty(shown);
    if shown == [] {
      assert [] + [text] == [text];
    } else {
      assert (shown + [text])[..|shown|] == shown;
    }
  }

  lemma {:induction false} ContentJoins(texts: seq<string>, content: seq<Block>)
    ensures AddSystemText(ByLine(FromFirst(texts)), content) == ByLine(FromFirst(texts + TextsIn(content)))
  {
    hide FromFirst, ByLine;
    if content == [] {
      assert texts + [] == texts;
    } else {
      var init, last := content[..|content| - 1], content[|content| - 1];
      ContentJoins(texts, init);
      if last.Text? {
        ByLineGrows(texts + TextsIn(init), last.text);
        assert texts + TextsIn(init) + [last.text] == texts + (TextsIn(init) + [last.text]);
        var soFar := ByLine(FromFirst(texts + TextsIn(init)));
        assert "" + last.text == last.text;
      } else {
        assert TextsIn(init) + [] == TextsIn(init);
      }
    }
  }

  lemma {:induction false} SystemTextIs(leading: seq<Message>)
    ensures SystemText(leading) == ByLine(FromFirst(Texts(leading)))
  {
    hide FromFirst, ByLine, AddSystemText;
    if leading == [] {
      NoLines();
    } else {
      SystemTextIs(leading[..|leading| - 1]);
      ContentJoins(Texts(leading[..|leading| - 1]), leading[|leading| - 1].content);
    }
  }

  lemma {:induction false} NoLines()
    ensures ByLine(FromFirst([])) == ""
  {
  }

  /** The system prompt is the texts of the leading system messages, a line each, from the first that says anything. */
  lemma {:induction false} PromptSays(messages: seq<Message>)
    ensures SystemText(messages[..C.SystemCount(messages)])
         == ByLine(FromFirst(Texts(messages[..C.SystemCount(messages)])))
  {
    SystemTextIs(messages[..C.SystemCount(messages)]);
  }

  // ---------------------------------------------------------------------------
  // Turns of text alone

  /** A turn is sent as one string exactly when all of it is text, and then that string is its texts, a line each. */
  lemma {:induction false} TextTurnsJoin(blocks: seq<WireBlock>, texts: seq<string>)
    requires |texts| == |blocks|
    ensures ContentOf(blocks) == Blocks(blocks) <==> exists i :: 0 <= i < |blocks| && !blocks[i].WireText?
    ensures (forall i :: 0 <= i < |blocks| ==> blocks[i] == WireText(texts[i])) ==> ContentOf(blocks) == Joined(ByLine(texts))
  {
    TextLines.JoinGlues(texts, "\n");
    if forall i :: 0 <= i < |blocks| ==> blocks[i] == WireText(texts[i]) {
      assert TextsOf(blocks) == texts;
    }
  }
}
