/** The provider-neutral conversation model and the tool-pairing discipline.

    A history is read left to right by a small automaton whose state is the list of
    tool-call ids that are still waiting for their result. `Scan` runs it; the strict
    reading demands that every batch is answered completely before anything else is
    said, the lenient reading only forbids orphans (a batch may be abandoned).  */
module Messages {
  import opened Wrappers

  datatype Role = System | User | Assistant | Tool | UserShell

  /** A JSON value: its serialized text, and whether it is an object. */
  datatype Json = Json(text: string, isObject: bool)

  datatype Block =
    | Text(text: string)
    | Reasoning(text: string, signature: Option<string>)
    | ToolUse(id: string, name: string, input: Json)
    | ToolResult(id: string, output: string, isError: bool)

  datatype Message = Message(role: Role, content: seq<Block>, synthetic: Option<string>)

  function TextMessage(role: Role, text: string): Message {
    Message(role, [Text(text)], None)
  }

  // ---------------------------------------------------------------------------
  // Size estimate

  /** Bytes of one character in UTF-8. */
  function CharBytes(c: char): nat {
    if c < 0x80 as char then 1 else if c < 0x800 as char then 2 else if c < 0x1_0000 as char then 3 else 4
  }

  /** Byte length of a string, as Rust's `len` counts it. */
  function Utf8Len(s: string): nat {
    if s == [] then 0 else Utf8Len(s[..|s| - 1]) + CharBytes(s[|s| - 1])
  }

  lemma {:induction false} Utf8LenConcat(a: string, b: string)
    ensures Utf8Len(a + b) == Utf8Len(a) + Utf8Len(b)
  {
    if b == [] {
      assert a + b == a;
    } else {
      var init := b[..|b| - 1];
      Utf8LenConcat(a, init);
      assert (a + b)[..|a + b| - 1] == a + init;
    }
  }

  function BlockBytes(b: Block): nat {
    match b
    case Text(text) => Utf8Len(text)
    case Reasoning(text, _) => Utf8Len(text)
    case ToolUse(_, name, input) => Utf8Len(name) + Utf8Len(input.text)
    case ToolResult(_, output, _) => Utf8Len(output)
  }

  function ContentBytes(content: seq<Block>): nat {
    if content == [] then 0 else BlockBytes(content[0]) + ContentBytes(content[1..])
  }

  function TotalBytes(ms: seq<Message>): nat {
    if ms == [] then 0 else ContentBytes(ms[0].content) + TotalBytes(ms[1..])
  }

  /** About four bytes per token. */
  function Tokens(ms: seq<Message>): nat {
    TotalBytes(ms) / 4
  }

  predicate Fits(ms: seq<Message>, limit: nat) {
    Tokens(ms) <= limit
  }

  lemma {:induction false} TotalBytesConcat(a: seq<Message>, b: seq<Message>)
    ensures TotalBytes(a + b) == TotalBytes(a) + TotalBytes(b)
  {
    if a == [] {
      assert a + b == b;
    } else {
      TotalBytesConcat(a[1..], b);
      assert (a + b)[1..] == a[1..] + b;
    }
  }

  // ---------------------------------------------------------------------------
  // Tool pairing

  function UseIds(content: seq<Block>): seq<string> {
    if content == [] then []
    else (if content[0].ToolUse? then [content[0].id] else []) + UseIds(content[1..])
  }

  predicate HasResult(content: seq<Block>) {
    exists i :: 0 <= i < |content| && content[i].ToolResult?
  }

  predicate ToolFree(m: Message) {
    UseIds(m.content) == [] && !HasResult(m.content)
  }

  /** A tool-role message that answers exactly one call. */
  predicate Answers(m: Message, id: string) {
    m.role == Tool && |m.content| == 1 && m.content[0].ToolResult? && m.content[0].id == id
  }

  /** One step of the pairing automaton; `None` means the history is malformed. */
  function Advance(strict: bool, open: seq<string>, m: Message): Option<seq<string>> {
    if HasResult(m.content) then
      if open != [] && Answers(m, open[0]) then Some(open[1..]) else None
    else if strict && open != [] then None
    else if UseIds(m.content) == [] then Some([])
    else if m.role == Assistant then Some(UseIds(m.content))
    else None
  }

  function Scan(strict: bool, open: seq<string>, ms: seq<Message>): Option<seq<string>>
    decreases |ms|
  {
    if ms == [] then Some(open)
    else
      var next := Advance(strict, open, ms[0]);
      if next.None? then None else Scan(strict, next.value, ms[1..])
  }

  /** Every batch of calls is followed at once by its results, in order. */
  predicate ExactlyPaired(ms: seq<Message>) {
    Scan(true, [], ms) == Some([])
  }

  /** Every result answers a call of the batch just before it; calls may stay unanswered. */
  predicate OrphanFree(ms: seq<Message>) {
    Scan(false, [], ms).Some?
  }

  /** What the automaton says of a whole is what it says of the parts, run in turn. */
  lemma {:induction false} ScanConcat(strict: bool, open: seq<string>, a: seq<Message>, b: seq<Message>)
    ensures Scan(strict, open, a + b) ==
            (var mid := Scan(strict, open, a);
             if mid.None? then None else Scan(strict, mid.value, b))
    decreases |a|
  {
    if a == [] {
      assert a + b == b;
    } else {
      assert (a + b)[1..] == a[1..] + b;
      var next := Advance(strict, open, a[0]);
      if next.Some? {
        ScanConcat(strict, next.value, a[1..], b);
      }
    }
  }

  /** Strictly accepted histories are leniently accepted, with the same calls still open. */
  lemma {:induction false} StrictImpliesLenient(open: seq<string>, ms: seq<Message>)
    requires Scan(true, open, ms).Some?
    ensures Scan(false, open, ms) == Scan(true, open, ms)
    decreases |ms|
  {
    if ms != [] {
      StrictImpliesLenient(Advance(true, open, ms[0]).value, ms[1..]);
    }
  }

  /** A message from anyone but a tool closes the batch before it, or is malformed. */
  lemma {:induction false} FreshStart(strict: bool, open: seq<string>, ms: seq<Message>)
    requires ms != [] && ms[0].role != Tool
    requires Scan(strict, open, ms).Some?
    ensures Scan(strict, [], ms) == Scan(strict, open, ms)
  {
  }

  /** A lenient history stays acceptable when more calls are open at its start. */
  lemma {:induction false} LenientFromEmpty(open: seq<string>, ms: seq<Message>)
    requires Scan(false, [], ms).Some?
    ensures Scan(false, open, ms).Some?
  {
    if ms != [] {
      assert !HasResult(ms[0].content);
    }
  }

  /** Tool-free messages from the neutral state leave it neutral. */
  lemma {:induction false} ScanToolFree(strict: bool, ms: seq<Message>)
    requires forall i :: 0 <= i < |ms| ==> ToolFree(ms[i])
    ensures Scan(strict, [], ms) == Some([])
  {
    if ms != [] {
      assert ToolFree(ms[0]);
      ScanToolFree(strict, ms[1..]);
    }
  }

  /** Nobody but the assistant calls tools in an accepted history, and only tools answer. */
  lemma {:induction false} AcceptedRoles(strict: bool, open: seq<string>, ms: seq<Message>, i: nat)
    requires Scan(strict, open, ms).Some? && i < |ms|
    ensures UseIds(ms[i].content) != [] ==> ms[i].role == Assistant
    ensures HasResult(ms[i].content) ==> ms[i].role == Tool
    ensures ms[i].role != Tool && ms[i].role != Assistant ==> ToolFree(ms[i])
    decreases i
  {
    if i == 0 {
      if HasResult(ms[0].content) {
        assert UseIds(ms[0].content[1..]) == [];
      }
    } else {
      AcceptedRoles(strict, Advance(strict, open, ms[0]).value, ms[1..], i - 1);
    }
  }
}
