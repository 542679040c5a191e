/**
 * The transcripts the service writes into its prompts (services/gemini.ts): the numbered
 * turn history of `evaluateChoice`, the turn-by-turn report input of `getDetailedAnalysis`
 * and the role-prefixed conversation of `chatWithCoach`; and the fallback texts those two
 * free-text operations return.
 */
module Transcripts {
  import opened Wrappers
  import opened JsStrings
  import opened Types
  import opened ModelReply

  /** A text without a line break. */
  predicate SingleLine(s: string) {
    '\n' !in s
  }

  // ---------------------------------------------------------------------------
  // evaluateChoice: `Turn N: Action="...", Result="..."`, one per line

  /** The text between the turn number and the choice, and between the choice and the outcome. */
  const ActionLabel := ": Action=\""
  const ResultLabel := "\", Result=\""

  /** What a turn line states: the one-based turn number, the choice and the outcome. */
  datatype TurnFields = TurnFields(number: nat, choice: string, outcome: string)

  /**
   * The line for the turn at `index`: it opens with the one-based turn number, holds no
   * line break when the choice and the outcome hold none, and, when the choice holds no
   * double quote, reads back as that number, that choice and that outcome.
   */
  function TurnLine(index: nat, h: HistoryEntry): (r: string)
    ensures StartsWith(r, "Turn " + NatToString(index + 1) + ": ")
    ensures SingleLine(h.choice) && SingleLine(h.outcome) ==> SingleLine(r)
    ensures '"' !in h.choice ==> ParseTurnLine(r) == Some(TurnFields(index + 1, h.choice, h.outcome))
  {
    var n := NatToString(index + 1);
    var r := "Turn " + n + ActionLabel + h.choice + ResultLabel + h.outcome + "\"";
    assert StartsWith(r, "Turn " + n + ": ") by {
      assert r[..|"Turn " + n + ": "|] == "Turn " + n + ": ";
    }
    assert SingleLine(h.choice) && SingleLine(h.outcome) ==> SingleLine(r) by {
      forall k | 0 <= k < |n| ensures n[k] != '\n' { assert IsDigit(n[k]); }
    }
    assert '"' !in h.choice ==> ParseTurnLine(r) == Some(TurnFields(index + 1, h.choice, h.outcome)) by {
      if '"' !in h.choice {
        TurnLineParts(n, h.choice, h.outcome);
        TurnLineParses(index + 1, h.choice, h.outcome);
      }
    }
    r
  }

  function TurnLines(history: seq<HistoryEntry>): seq<string> {
    seq(|history|, i requires 0 <= i < |history| => TurnLine(i, history[i]))
  }

  /**
   * The history context of the evaluation prompt: it reads "None" exactly when there is
   * no history, and otherwise opens with the first turn's line.
   */
  function HistoryContext(history: seq<HistoryEntry>): (r: string)
    ensures r == "None" <==> |history| == 0
    ensures |history| > 0 ==> StartsWith(r, TurnLine(0, history[0]))
  {
    if |history| > 0 then
      var lines := TurnLines(history);
      var r := Join(lines, "\n");
      assert lines[0][0] == 'T';
      assert r[0] == lines[0][0];
      r
    else "None"
  }

  // ---------------------------------------------------------------------------
  // getDetailedAnalysis: one block per turn, blocks separated by "\n---\n"

  /** What a turn block states: the turn number, the situation, the action and the result. */
  datatype BlockFields = BlockFields(number: nat, situation: string, action: string, result: string)

  /**
   * The block for the turn at `index`: it opens with the one-based turn number and, when
   * the situation, the choice and the outcome are single lines, reads back as that number
   * and those three texts.
   */
  function TurnBlock(index: nat, h: HistoryEntry): (r: string)
    ensures StartsWith(r, "\n    Turn " + NatToString(index + 1) + ":\n")
    ensures SingleLine(h.scenarioDescription) && SingleLine(h.choice) && SingleLine(h.outcome) ==>
              ParseTurnBlock(r) == Some(BlockFields(index + 1, h.scenarioDescription, h.choice, h.outcome))
  {
    var n := NatToString(index + 1);
    var r := "\n    Turn " + n + ":\n    Situation: " + h.scenarioDescription
             + "\n    Action: " + h.choice + "\n    Result: " + h.outcome + "\n  ";
    assert StartsWith(r, "\n    Turn " + n + ":\n") by {
      assert r[..|"\n    Turn " + n + ":\n"|] == "\n    Turn " + n + ":\n";
    }
    assert SingleLine(h.scenarioDescription) && SingleLine(h.choice) && SingleLine(h.outcome) ==>
             ParseTurnBlock(r) == Some(BlockFields(index + 1, h.scenarioDescription, h.choice, h.outcome)) by {
      if SingleLine(h.scenarioDescription) && SingleLine(h.choice) && SingleLine(h.outcome) {
        TurnBlockLines(n, h.scenarioDescription, h.choice, h.outcome);
        TurnBlockParses(index + 1, h.scenarioDescription, h.choice, h.outcome);
      }
    }
    r
  }

  function TurnBlocks(history: seq<HistoryEntry>): seq<string> {
    seq(|history|, i requires 0 <= i < |history| => TurnBlock(i, history[i]))
  }

  /**
   * The history text of the analysis prompt: empty for no history, exactly the block of
   * a single turn, and otherwise opening with the first turn's block.
   */
  function AnalysisHistory(history: seq<HistoryEntry>): (r: string)
    ensures |history| == 0 ==> r == ""
    ensures |history| == 1 ==> r == TurnBlock(0, history[0])
    ensures |history| >= 1 ==> StartsWith(r, TurnBlock(0, history[0]))
  {
    Join(TurnBlocks(history), "\n---\n")
  }

  /**
   * What `getDetailedAnalysis` resolves to, given the model call's outcome: the model's
   * text when there is one, a fixed notice when the text is empty or the call fails, and
   * so never empty.
   */
  function DetailedAnalysis(reply: Reply): (r: string)
    ensures r != ""
    ensures reply.Answered? && reply.text != "" ==> r == reply.text
    ensures reply.Answered? && reply.text == "" ==> r == "Analysis unavailable."
    ensures reply.Failed? ==> r == "Could not retrieve mission data."
  {
    match reply
    case Failed => "Could not retrieve mission data."
    case Answered(text, _) => TextOr(text, "Analysis unavailable.")
  }

  // ---------------------------------------------------------------------------
  // chatWithCoach: `role: text`, one per line

  /** The line for one message; it reads back as that message. */
  function MessageLine(m: ChatMessage): (r: string)
    ensures ParseMessageLine(r) == Some(m)
  {
    var r := m.role.Name() + ": " + m.text;
    match m.role
    case User =>
      assert r[..6] == "user: " && r[6..] == m.text;
      r
    case Model =>
      assert r[..7] == "model: " && r[7..] == m.text;
      assert r[0] == 'm';
      r
  }

  function MessageLines(history: seq<ChatMessage>): seq<string> {
    seq(|history|, i requires 0 <= i < |history| => MessageLine(history[i]))
  }

  /**
   * The conversation of the chat prompt. With single-line texts it reads back as exactly
   * the messages, roles and order included: no message is lost, merged or reordered.
   */
  function Conversation(history: seq<ChatMessage>): (r: string)
    ensures (forall i :: 0 <= i < |history| ==> SingleLine(history[i].text)) ==>
              ParseConversation(r) == Some(history)
  {
    var lines := MessageLines(history);
    var r := Join(lines, "\n");
    assert (forall i :: 0 <= i < |history| ==> SingleLine(history[i].text)) ==>
             ParseConversation(r) == Some(history) by {
      if (forall i :: 0 <= i < |history| ==> SingleLine(history[i].text)) && |history| > 0 {
        forall i | 0 <= i < |lines| ensures '\n' !in lines[i] {
          assert lines[i] == history[i].role.Name() + ": " + history[i].text;
        }
        assert |lines[0]| > 0;
        SplitJoin(lines, '\n');
        ParseMessageLinesRoundTrip(history);
      }
    }
    r
  }

  /**
   * What `chatWithCoach` resolves to, given the model call's outcome: the model's text
   * when there is one, a fixed placeholder when the text is empty or the call fails, and
   * so never empty.
   */
  function CoachReply(reply: Reply): (r: string)
    ensures r != ""
    ensures reply.Answered? && reply.text != "" ==> r == reply.text
    ensures reply.Answered? && reply.text == "" ==> r == "..."
    ensures reply.Failed? ==> r == "Signal lost."
  {
    match reply
    case Failed => "Signal lost."
    case Answered(text, _) => TextOr(text, "...")
  }

  /** The rest of `s` after the prefix `p`, when `s` opens with it. */
  function AfterPrefix(s: string, p: string): Option<string> {
    if StartsWith(s, p) then Some(s[|p|..]) else None
  }

  /**
   * Reads one history line back: "Turn ", decimal digits up to the first colon, the action
   * label, the choice up to the next double quote, the result label, and the outcome
   * closed by a double quote.
   */
  function ParseTurnLine(line: string): Option<TurnFields> {
    match AfterPrefix(line, "Turn ")
    case None => None
    case Some(rest) =>
      var colon := IndexOf(rest, ':');
      if colon < 1 then None
      else
        var digits := rest[..colon];
        if !(forall k :: 0 <= k < |digits| ==> IsDigit(digits[k])) then None
        else
          match ParseActionResult(rest[colon..])
          case None => None
          case Some((choice, outcome)) => Some(TurnFields(ParseDecimal(digits), choice, outcome))
  }

  /** Reads the choice and the outcome back from the part of a history line after the number. */
  function ParseActionResult(s: string): Option<(string, string)> {
    match AfterPrefix(s, ActionLabel)
    case None => None
    case Some(body) =>
      var quote := IndexOf(body, '"');
      if quote < 0 then None
      else
        match AfterPrefix(body[quote..], ResultLabel)
        case None => None
        case Some(last) =>
          if |last| >= 1 && last[|last| - 1] == '"' then Some((body[..quote], last[..|last| - 1]))
          else None
  }

  /** The six lines of a turn block with its number text `n`: it opens and closes on a line break. */
  function BlockLines(n: string, situation: string, action: string, result: string): seq<string> {
    ["", "    Turn " + n + ":", "    Situation: " + situation, "    Action: " + action,
     "    Result: " + result, "  "]
  }

  /**
   * Reads one turn block back: six lines, the first empty and the last two spaces, the
   * others behind their labels, the number's digits closed by a colon.
   */
  function ParseTurnBlock(block: string): Option<BlockFields> {
    var lines := Split(block, '\n');
    if |lines| != 6 || lines[0] != "" || lines[5] != "  " then None
    else
      match (AfterPrefix(lines[1], "    Turn "), AfterPrefix(lines[2], "    Situation: "),
             AfterPrefix(lines[3], "    Action: "), AfterPrefix(lines[4], "    Result: "))
      case (Some(num), Some(situation), Some(action), Some(result)) =>
        if |num| < 2 || num[|num| - 1] != ':' then None
        else
          var digits := num[..|num| - 1];
          if forall k :: 0 <= k < |digits| ==> IsDigit(digits[k]) then
            Some(BlockFields(ParseDecimal(digits), situation, action, result))
          else None
      case _ => None
  }

  /** Reads one conversation line back: a role prefix, then the text. */
  function ParseMessageLine(line: string): Option<ChatMessage> {
    if StartsWith(line, "user: ") then Some(ChatMessage(User, line[6..]))
    else if StartsWith(line, "model: ") then Some(ChatMessage(Model, line[7..]))
    else None
  }

  function ParseMessageLines(lines: seq<string>): Option<seq<ChatMessage>> {
    if |lines| == 0 then Some([])
    else
      match (ParseMessageLine(lines[0]), ParseMessageLines(lines[1..]))
      case (Some(m), Some(rest)) => Some([m] + rest)
      case _ => None
  }

  /** Reads a conversation transcript back into its messages. */
  function ParseConversation(transcript: string): Option<seq<ChatMessage>> {
    if transcript == "" then Some([]) else ParseMessageLines(Split(transcript, '\n'))
  }

  // ---------------------------------------------------------------------------
  // Lemmas

  /**
   * With single-line choices and outcomes, the context has one line per turn, in order,
   * line `i` numbered `i + 1`.
   */
  lemma HistoryContextLines(history: seq<HistoryEntry>)
    requires |history| > 0
    requires forall i :: 0 <= i < |history| ==> SingleLine(history[i].choice) && SingleLine(history[i].outcome)
    ensures Split(HistoryContext(history), '\n') == TurnLines(history)
    ensures forall i :: 0 <= i < |history| ==>
              StartsWith(Split(HistoryContext(history), '\n')[i], "Turn " + NatToString(i + 1) + ": ")
  {
    var lines := TurnLines(history);
    forall i | 0 <= i < |lines| ensures '\n' !in lines[i] {
      assert lines[i] == TurnLine(i, history[i]);
    }
    SplitJoin(lines, '\n');
    forall i | 0 <= i < |history|
      ensures StartsWith(lines[i], "Turn " + NatToString(i + 1) + ": ")
    {
      assert lines[i] == TurnLine(i, history[i]);
    }
  }

  /** A string read past a prefix it opens with is the rest. */
  lemma AfterPrefixOf(p: string, x: string)
    ensures AfterPrefix(p + x, p) == Some(x)
  {
    assert (p + x)[..|p|] == p;
    assert (p + x)[|p|..] == x;
  }

  /** The history line, grouped by the pieces its reader takes apart. */
  lemma TurnLineParts(n: string, choice: string, outcome: string)
    ensures "Turn " + n + ActionLabel + choice + ResultLabel + outcome + "\""
            == "Turn " + (n + (ActionLabel + (choice + (ResultLabel + (outcome + "\"")))))
  {
  }

  /** The history line of turn `n` reads back as its fields when the choice has no double quote. */
  lemma TurnLineParses(n: nat, choice: string, outcome: string)
    requires '"' !in choice
    ensures ParseTurnLine("Turn " + (NatToString(n) + (ActionLabel + (choice + (ResultLabel + (outcome + "\""))))))
            == Some(TurnFields(n, choice, outcome))
  {
    var digits := NatToString(n);
    var t := ActionLabel + (choice + (ResultLabel + (outcome + "\"")));
    var rest := digits + t;
    assert AfterPrefix("Turn " + rest, "Turn ") == Some(rest) by {
      AfterPrefixOf("Turn ", rest);
    }
    assert IndexOf(rest, ':') == |digits| by {
      assert ':' !in digits by {
        forall k | 0 <= k < |digits| ensures digits[k] != ':' { assert IsDigit(digits[k]); }
      }
      IndexOfAfter(digits, t, ':');
    }
    assert rest[..|digits|] == digits && rest[|digits|..] == t;
    assert ParseActionResult(t) == Some((choice, outcome)) by {
      ActionResultParses(choice, outcome);
    }
    assert ParseDecimal(digits) == n by {
      ParseNatToString(n);
    }
  }

  /** The part of a history line after the number reads back as its choice and outcome. */
  lemma ActionResultParses(choice: string, outcome: string)
    requires '"' !in choice
    ensures ParseActionResult(ActionLabel + (choice + (ResultLabel + (outcome + "\"")))) == Some((choice, outcome))
  {
    var last := outcome + "\"";
    var u := ResultLabel + last;
    var body := choice + u;
    AfterPrefixOf(ActionLabel, body);
    IndexOfAfter(choice, u, '"');
    assert body[..|choice|] == choice && body[|choice|..] == u;
    AfterPrefixOf(ResultLabel, last);
    assert last[..|last| - 1] == outcome;
  }

  /** A turn block is its six lines joined by line breaks. */
  lemma TurnBlockLines(n: string, situation: string, action: string, result: string)
    ensures "\n    Turn " + n + ":\n    Situation: " + situation + "\n    Action: " + action
            + "\n    Result: " + result + "\n  " == Join(BlockLines(n, situation, action, result), "\n")
  {
    var rest := situation + ("\n    Action: " + (action + ("\n    Result: " + (result + "\n  "))));
    var tail := ["    Situation: " + situation, "    Action: " + action, "    Result: " + result, "  "];
    BlockRegrouped(n, situation, action, result);
    assert ":\n    Situation: " + rest == ":\n" + ("    Situation: " + rest) by {
      assert ":\n    Situation: " == ":\n" + "    Situation: ";
    }
    BlockTailLines(situation, action, result);
    assert ":\n    Situation: " + rest == ":\n" + Join(tail, "\n");
    BlockHeadLines(n, situation, action, result);
  }

  /** The turn block, grouped from the right. */
  lemma BlockRegrouped(n: string, situation: string, action: string, result: string)
    ensures "\n    Turn " + n + ":\n    Situation: " + situation + "\n    Action: " + action
            + "\n    Result: " + result + "\n  "
            == "\n    Turn " + (n + (":\n    Situation: " + (situation + ("\n    Action: "
               + (action + ("\n    Result: " + (result + "\n  ")))))))
  {
  }

  /** From the situation on, a block is its last four lines joined by line breaks. */
  lemma BlockTailLines(situation: string, action: string, result: string)
    ensures "    Situation: " + (situation + ("\n    Action: " + (action + ("\n    Result: " + (result + "\n  ")))))
            == Join(["    Situation: " + situation, "    Action: " + action, "    Result: " + result, "  "], "\n")
  {
    var tail := ["    Situation: " + situation, "    Action: " + action, "    Result: " + result, "  "];
    assert Join(tail[2..], "\n") == tail[2] + ("\n" + tail[3]);
    assert Join(tail[1..], "\n") == tail[1] + ("\n" + Join(tail[2..], "\n"));
    assert "\n    Result: " == "\n" + "    Result: ";
    assert "\n    Action: " == "\n" + "    Action: ";
  }

  /** The block's first two lines in front of its last four. */
  lemma BlockHeadLines(n: string, situation: string, action: string, result: string)
    ensures var tail := ["    Situation: " + situation, "    Action: " + action, "    Result: " + result, "  "];
      "\n    Turn " + (n + (":\n" + Join(tail, "\n"))) == Join(BlockLines(n, situation, action, result), "\n")
  {
    var lines := BlockLines(n, situation, action, result);
    var tail := ["    Situation: " + situation, "    Action: " + action, "    Result: " + result, "  "];
    assert lines[2..] == tail;
    assert Join(lines[1..], "\n") == lines[1] + ("\n" + Join(tail, "\n"));
    assert "\n    Turn " == "\n" + "    Turn ";
  }

  /** The block of turn `number` reads back as its fields when the three texts are single lines. */
  lemma TurnBlockParses(number: nat, situation: string, action: string, result: string)
    requires SingleLine(situation) && SingleLine(action) && SingleLine(result)
    ensures ParseTurnBlock(Join(BlockLines(NatToString(number), situation, action, result), "\n"))
            == Some(BlockFields(number, situation, action, result))
  {
    var n := NatToString(number);
    var lines := BlockLines(n, situation, action, result);
    assert '\n' !in n + ":" by {
      forall k | 0 <= k < |n| ensures n[k] != '\n' { assert IsDigit(n[k]); }
    }
    forall i | 0 <= i < |lines| ensures '\n' !in lines[i] {
    }
    SplitJoin(lines, '\n');
    assert lines[1] == "    Turn " + (n + ":");
    AfterPrefixOf("    Turn ", n + ":");
    AfterPrefixOf("    Situation: ", situation);
    AfterPrefixOf("    Action: ", action);
    AfterPrefixOf("    Result: ", result);
    var num := n + ":";
    assert num[..|num| - 1] == n;
    ParseNatToString(number);
  }

  /** Completing a turn appends exactly one line, numbered after the previous ones. */
  lemma HistoryContextAppend(history: seq<HistoryEntry>, h: HistoryEntry)
    requires |history| > 0
    ensures HistoryContext(history + [h]) == HistoryContext(history) + "\n" + TurnLine(|history|, h)
  {
    assert TurnLines(history + [h]) == TurnLines(history) + [TurnLine(|history|, h)];
    JoinAppend(TurnLines(history), TurnLine(|history|, h), "\n");
  }

  /** Completing a turn appends one separator and one block, numbered after the previous ones. */
  lemma AnalysisHistoryAppend(history: seq<HistoryEntry>, h: HistoryEntry)
    requires |history| > 0
    ensures AnalysisHistory(history + [h]) == AnalysisHistory(history) + "\n---\n" + TurnBlock(|history|, h)
  {
    assert TurnBlocks(history + [h]) == TurnBlocks(history) + [TurnBlock(|history|, h)];
    JoinAppend(TurnBlocks(history), TurnBlock(|history|, h), "\n---\n");
  }

  /** A new chat message appends one `role: text` line. */
  lemma ConversationAppend(history: seq<ChatMessage>, m: ChatMessage)
    requires |history| > 0
    ensures Conversation(history + [m]) == Conversation(history) + "\n" + MessageLine(m)
  {
    assert MessageLines(history + [m]) == MessageLines(history) + [MessageLine(m)];
    JoinAppend(MessageLines(history), MessageLine(m), "\n");
  }

  lemma {:induction false} ParseMessageLinesRoundTrip(history: seq<ChatMessage>)
    ensures ParseMessageLines(MessageLines(history)) == Some(history)
    decreases |history|
  {
    if |history| > 0 {
      assert MessageLines(history)[0] == MessageLine(history[0]);
      assert MessageLines(history)[1..] == MessageLines(history[1..]);
      ParseMessageLinesRoundTrip(history[1..]);
      assert [history[0]] + history[1..] == history;
    }
  }

  /**
   * A text that holds a line break can pass for several messages: one model message whose
   * text continues on a "user: " line gives the same transcript as a model message
   * followed by a user message, and the transcript reads back as the latter.
   */
  lemma ConversationAmbiguous()
    ensures Conversation([ChatMessage(Model, "a\nuser: b")])
            == Conversation([ChatMessage(Model, "a"), ChatMessage(User, "b")])
    ensures ParseConversation(Conversation([ChatMessage(Model, "a\nuser: b")]))
            == Some([ChatMessage(Model, "a"), ChatMessage(User, "b")])
  {
    var one := [ChatMessage(Model, "a\nuser: b")];
    var two := [ChatMessage(Model, "a"), ChatMessage(User, "b")];
    assert forall i :: 0 <= i < |two| ==> SingleLine(two[i].text);
    assert ParseConversation(Conversation(two)) == Some(two);
    assert MessageLines(one) == [MessageLine(one[0])];
    assert MessageLines(two) == [MessageLine(two[0]), MessageLine(two[1])];
    assert Conversation(two) == MessageLine(two[0]) + ("\n" + MessageLine(two[1]));
    TwoLinesAsOne();
  }

  /** The text of the single message, as a line, is the two lines joined. */
  lemma TwoLinesAsOne()
    ensures MessageLine(ChatMessage(Model, "a\nuser: b"))
            == MessageLine(ChatMessage(Model, "a")) + ("\n" + MessageLine(ChatMessage(User, "b")))
  {
    var l := MessageLine(ChatMessage(Model, "a\nuser: b"));
    var r := MessageLine(ChatMessage(Model, "a")) + ("\n" + MessageLine(ChatMessage(User, "b")));
    assert |l| == |r| == 16;
    forall k | 0 <= k < 16 ensures l[k] == r[k] {
    }
  }
}
