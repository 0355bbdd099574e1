/** The deterministic digest that stands in for trimmed history. */
module Summary {
  import opened Wrappers
  import opened Messages
  import T = Text

  const TITLE := "Conversation summary for trimmed history:"
  const MAX_ENTRIES := 8

  function FirstText(content: seq<Block>): Option<string> {
    if content == [] then None
    else if content[0].Text? then Some(content[0].text)
    else FirstText(content[1..])
  }

  predicate IsSummaryMessage(m: Message) {
    var text := FirstText(m.content);
    text.Some? && TITLE <= text.value
  }

  /** First text of the first user message of an exchange. */
  function UserText(exchange: seq<Message>): Option<string> {
    if exchange == [] then None
    else if exchange[0].role == User then FirstText(exchange[0].content)
    else UserText(exchange[1..])
  }

  function BlockToolNames(content: seq<Block>): seq<string> {
    if content == [] then []
    else (if content[0].ToolUse? then [content[0].name] else []) + BlockToolNames(content[1..])
  }

  function ToolNames(exchange: seq<Message>): seq<string> {
    if exchange == [] then [] else BlockToolNames(exchange[0].content) + ToolNames(exchange[1..])
  }

  function SummarizeExchange(exchange: seq<Message>, maxUserChars: nat): Option<string> {
    var user := UserText(exchange);
    var tools := ToolNames(exchange);
    match user
    case Some(text) =>
      var asked := "user asked: " + T.Truncate(text, maxUserChars);
      Some(if tools == [] then asked else asked + "; tools used: " + T.Join(tools, ", "))
    case None =>
      if tools == [] then None else Some("tools used: " + T.Join(tools, ", "))
  }

  function Entries(exchanges: seq<seq<Message>>, maxUserChars: nat): seq<string> {
    if exchanges == [] then []
    else
      var first := SummarizeExchange(exchanges[0], maxUserChars);
      (if first.Some? then [first.value] else []) + Entries(exchanges[1..], maxUserChars)
  }

  /** The digest of the most recent `maxExchanges` dropped exchanges. */
  function StructuredSummary(dropped: seq<seq<Message>>, maxExchanges: nat, maxUserChars: nat): Option<seq<string>> {
    if dropped == [] then None
    else
      var recent := if |dropped| > maxExchanges then dropped[|dropped| - maxExchanges..] else dropped;
      Some(Entries(recent, maxUserChars))
  }

  /** Entries of an earlier digest come first; only the last `MAX_ENTRIES` survive. */
  function FoldCarried(carried: seq<string>, summary: Option<seq<string>>): Option<seq<string>> {
    if carried == [] then summary
    else
      var entries := carried + (if summary.Some? then summary.value else []);
      Some(if |entries| > MAX_ENTRIES then entries[|entries| - MAX_ENTRIES..] else entries)
  }

  function Bullets(entries: seq<string>): string {
    if entries == [] then "" else "\n- " + entries[0] + Bullets(entries[1..])
  }

  function Render(entries: seq<string>): string {
    TITLE + Bullets(entries)
  }

  function SummaryMessage(entries: seq<string>): Message {
    TextMessage(System, Render(entries))
  }

  function StripBullets(s: string): string {
    if "- " <= s then StripBullets(s[2..]) else s
  }

  function StripAllBullets(lines: seq<string>): seq<string> {
    if lines == [] then [] else [StripBullets(lines[0])] + StripAllBullets(lines[1..])
  }

  /** The entries an earlier digest message carries forward. */
  function CarriedBy(m: Message): seq<string> {
    if !IsSummaryMessage(m) then []
    else
      var lines := T.Lines(FirstText(m.content).value);
      if lines == [] then [] else StripAllBullets(lines[1..])
  }

  /** What a compaction keeps of the leading system messages. */
  function Retained(system: seq<Message>): seq<Message> {
    if system == [] then []
    else (if IsSummaryMessage(system[0]) then [] else [system[0]]) + Retained(system[1..])
  }

  function Carried(system: seq<Message>): seq<string> {
    if system == [] then [] else CarriedBy(system[0]) + Carried(system[1..])
  }
}
