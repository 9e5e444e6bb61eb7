/**
 * The interactive chat loop: command recognition and the bounded chat history. The
 * console and the chat-completion service are parameters: the lines the user types,
 * and a function from the history sent to the reply that comes back.
 */
module Chat {
  import opened Strings

  /** A message of the chat history: the system prompt, or a user turn. */
  datatype ChatMessage = SystemMessage(content: string) | UserMessage(content: string)

  /** What the completion service gives back for one request. */
  datatype Reply =
    | Answer(content: string)  // at least one choice; the first one is shown
    | NoChoices                // an empty list of choices
    | Failed(message: string)  // the request threw

  /** One line of input, read after trimming. */
  datatype Command = Exit | Help | Prompt(text: string)

  /** How a session ended, and the history it left. */
  datatype Session = Session(history: seq<ChatMessage>, unread: nat, quit: bool)

  const SystemPrompt: string := "You are a helpful assistant."

  /** The history is trimmed once it holds more than this many messages. */
  const HistoryLimit: nat := 21

  /** The history a session starts with. */
  function InitialHistory(): seq<ChatMessage>
  {
    [SystemMessage(SystemPrompt)]
  }

  /** `/exit` or `/quit`, then `/?` or `/help`, compared without case after trimming; anything else is a prompt. */
  function Classify(line: string): Command
  {
    var input := Trim(line);
    if EqualsIgnoreCase(input, "/exit") || EqualsIgnoreCase(input, "/quit") then Exit
    else if EqualsIgnoreCase(input, "/?") || EqualsIgnoreCase(input, "/help") then Help
    else Prompt(input)
  }

  /** After a reply with choices: drop the two oldest messages after the system prompt once the history is over the limit. */
  function Bound(history: seq<ChatMessage>): seq<ChatMessage>
  {
    if |history| > HistoryLimit then history[..1] + history[3..] else history
  }

  /** The history after a prompt: the user turn stays whatever the reply; only a reply with choices trims. */
  function Turn(history: seq<ChatMessage>, text: string, reply: Reply): seq<ChatMessage>
  {
    var sent := history + [UserMessage(text)];
    if reply.Answer? then Bound(sent) else sent
  }

  /** The rest of a session from `history`, reading `inputs` in order. */
  function Converse(history: seq<ChatMessage>, inputs: seq<string>, respond: seq<ChatMessage> -> Reply): Session
    decreases |inputs|
  {
    if inputs == [] then Session(history, 0, false)
    else
      match Classify(inputs[0])
      case Exit => Session(history, |inputs| - 1, true)
      case Help => Converse(history, inputs[1..], respond)
      case Prompt(text) =>
        var sent := history + [UserMessage(text)];
        Converse(Turn(history, text, respond(sent)), inputs[1..], respond)
  }

  /** The history holds the system prompt first and user turns after it. */
  predicate WellFormed(history: seq<ChatMessage>)
  {
    |history| >= 1
    && history[0] == SystemMessage(SystemPrompt)
    && forall i :: 1 <= i < |history| ==> history[i].UserMessage?
  }

  /**
   * `startInteractiveChat`: reads lines until an exit command. When the input runs out
   * before one, reading throws and the session ends with `quit` false.
   */
  method StartInteractiveChat(inputs: seq<string>, respond: seq<ChatMessage> -> Reply) returns (history: seq<ChatMessage>, unread: nat, quit: bool)
    ensures Session(history, unread, quit) == Converse(InitialHistory(), inputs, respond)
  {
    history := InitialHistory();
    var i := 0;
    var chatting := true;
    while chatting && i < |inputs|
      invariant 0 <= i <= |inputs|
      invariant chatting ==> Converse(history, inputs[i..], respond) == Converse(InitialHistory(), inputs, respond)
      invariant !chatting ==> 1 <= i && Session(history, |inputs| - i, true) == Converse(InitialHistory(), inputs, respond)
      decreases |inputs| - i
    {
      var command := Classify(inputs[i]);
      assert inputs[i..][1..] == inputs[i + 1..];
      match command {
        case Exit =>
          chatting := false;
        case Help =>
        case Prompt(text) =>
          history := history + [UserMessage(text)];
          var reply := respond(history);
          if reply.Answer? && |history| > HistoryLimit {
            history := history[..1] + history[3..];
          }
      }
      i := i + 1;
    }
    unread := |inputs| - i;
    quit := !chatting;
  }

  /** Trimming keeps the system prompt and the newest message, and removes exactly two messages. */
  lemma BoundKeepsEnds(history: seq<ChatMessage>)
    requires |history| > HistoryLimit
    ensures |Bound(history)| == |history| - 2
    ensures Bound(history)[0] == history[0]
    ensures Bound(history)[|Bound(history)| - 1] == history[|history| - 1]
    ensures Bound(history)[1..] == history[3..]
  {
  }

  /** A turn keeps the history well formed, and its last message is the user's text. */
  lemma TurnKeepsShape(history: seq<ChatMessage>, text: string, reply: Reply)
    requires WellFormed(history)
    ensures WellFormed(Turn(history, text, reply))
    ensures Turn(history, text, reply)[|Turn(history, text, reply)| - 1] == UserMessage(text)
  {
    var sent := history + [UserMessage(text)];
    if reply.Answer? && |sent| > HistoryLimit {
      var t := Turn(history, text, reply);
      forall i | 1 <= i < |t|
        ensures t[i].UserMessage?
      {
        assert t[i] == sent[i + 2];
      }
    }
  }

  /** A turn without choices, or one that threw, still keeps the user's message, and trims nothing. */
  lemma UnansweredTurnKeepsEverything(history: seq<ChatMessage>, text: string, reply: Reply)
    requires !reply.Answer?
    ensures Turn(history, text, reply) == history + [UserMessage(text)]
  {
  }

  /** A whole session keeps the history well formed: the system prompt first, then only user turns, never an assistant reply. */
  lemma {:induction false} ConverseKeepsShape(history: seq<ChatMessage>, inputs: seq<string>, respond: seq<ChatMessage> -> Reply)
    requires WellFormed(history)
    ensures WellFormed(Converse(history, inputs, respond).history)
    decreases |inputs|
  {
    if inputs != [] {
      match Classify(inputs[0])
      case Exit =>
      case Help =>
        ConverseKeepsShape(history, inputs[1..], respond);
      case Prompt(text) =>
        var sent := history + [UserMessage(text)];
        TurnKeepsShape(history, text, respond(sent));
        ConverseKeepsShape(Turn(history, text, respond(sent)), inputs[1..], respond);
    }
  }

  /** An answered turn from a history within the limit stays within it; the request itself carries at most one more message. */
  lemma AnsweredTurnBounded(history: seq<ChatMessage>, text: string, reply: Reply)
    requires |history| <= HistoryLimit && reply.Answer?
    ensures |history + [UserMessage(text)]| <= HistoryLimit + 1
    ensures |Turn(history, text, reply)| <= HistoryLimit
  {
  }

  /**
   * When every request gets a reply with choices, the history never holds more than
   * 21 messages between turns, so no request carries more than 22.
   */
  lemma {:induction false} AnsweredSessionBounded(history: seq<ChatMessage>, inputs: seq<string>, respond: seq<ChatMessage> -> Reply)
    requires |history| <= HistoryLimit
    requires forall h :: respond(h).Answer?
    ensures |Converse(history, inputs, respond).history| <= HistoryLimit
    decreases |inputs|
  {
    if inputs != [] {
      match Classify(inputs[0])
      case Exit =>
      case Help =>
        AnsweredSessionBounded(history, inputs[1..], respond);
      case Prompt(text) =>
        var sent := history + [UserMessage(text)];
        AnsweredTurnBounded(history, text, respond(sent));
        AnsweredSessionBounded(Turn(history, text, respond(sent)), inputs[1..], respond);
    }
  }

  /** An exit command ends the session at once and leaves the history as it was. */
  lemma ExitStops(history: seq<ChatMessage>, inputs: seq<string>, respond: seq<ChatMessage> -> Reply)
    requires inputs != [] && Classify(inputs[0]) == Exit
    ensures Converse(history, inputs, respond) == Session(history, |inputs| - 1, true)
  {
  }

  /** A help command leaves the session exactly as if the line had not been typed. */
  lemma HelpIgnored(history: seq<ChatMessage>, inputs: seq<string>, respond: seq<ChatMessage> -> Reply)
    requires inputs != [] && Classify(inputs[0]) == Help
    ensures Converse(history, inputs, respond) == Converse(history, inputs[1..], respond)
  {
  }

  /** Without an exit command, the session reads every line and ends without quitting. */
  lemma {:induction false} NoExitReadsAll(history: seq<ChatMessage>, inputs: seq<string>, respond: seq<ChatMessage> -> Reply)
    requires forall i :: 0 <= i < |inputs| ==> Classify(inputs[i]) != Exit
    ensures Converse(history, inputs, respond).unread == 0 && !Converse(history, inputs, respond).quit
    decreases |inputs|
  {
    if inputs != [] {
      assert Classify(inputs[0]) != Exit;
      forall i | 0 <= i < |inputs[1..]|
        ensures Classify(inputs[1..][i]) != Exit
      {
        assert inputs[1..][i] == inputs[i + 1];
      }
      match Classify(inputs[0])
      case Help =>
        NoExitReadsAll(history, inputs[1..], respond);
      case Prompt(text) =>
        var sent := history + [UserMessage(text)];
        NoExitReadsAll(Turn(history, text, respond(sent)), inputs[1..], respond);
    }
  }

  /** Two lines that read the same up to letter case after trimming are the same command, or both prompts. */
  lemma CommandsIgnoreCase(a: string, b: string)
    requires EqualsIgnoreCase(Trim(a), Trim(b))
    ensures Classify(a) == Exit <==> Classify(b) == Exit
    ensures Classify(a) == Help <==> Classify(b) == Help
    ensures Classify(a).Prompt? <==> Classify(b).Prompt?
  {
    var x, y := Trim(a), Trim(b);
    forall w: string | |w| == |x|
      ensures EqualsIgnoreCase(x, w) <==> EqualsIgnoreCase(y, w)
    {
      if EqualsIgnoreCase(x, w) {
        assert forall i :: 0 <= i < |y| ==> LowerAscii(y[i]) == LowerAscii(x[i]) == LowerAscii(w[i]);
      }
      if EqualsIgnoreCase(y, w) {
        assert forall i :: 0 <= i < |x| ==> LowerAscii(x[i]) == LowerAscii(y[i]) == LowerAscii(w[i]);
      }
    }
  }
}
