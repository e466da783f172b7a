// The vLLM basic chat example: `QwenChatBot.chat`, which sends the history
// plus the new user message to the engine and splits the reply around the
// reasoning markers, and `interactive_chat`, the console loop that keeps a
// windowed conversation and a reasoning-mode switch.
module BasicChat {
  import opened Wrappers
  import opened PyStr
  import opened Markers
  import opened ThinkingMode
  import opened NonThinkingMode
  import opened ChatHistory

  /** The pair `chat` returns: the answer first, then the reasoning. */
  datatype ChatAnswer = ChatAnswer(answer: string, thinking: string)

  /** The reply split done inside `chat`. Its answer is always the cleaned
      text; its reasoning is the thinking-mode reasoning when reasoning is
      on and empty when it is off. */
  function ChatReply(generated: string, enableThinking: bool): (r: ChatAnswer)
    ensures r.answer == CleanResponse(generated)
    ensures enableThinking ==> r.thinking == ParseThinkingResponse(generated).thinking
    ensures !enableThinking ==> r.thinking == ""
  {
    if enableThinking && HasBothMarkers(generated) then
      var startIdx := Find(generated, Open) + 7;
      var endIdx := Find(generated, Close);
      ChatAnswer(Strip(SliceFrom(generated, endIdx + 8)), Strip(Slice(generated, startIdx, endIdx)))
    else if HasBothMarkers(generated) then
      var startIdx := Find(generated, Close) + 8;
      ChatAnswer(Strip(SliceFrom(generated, startIdx)), "")
    else
      ChatAnswer(Strip(generated), "")
  }

  /** With reasoning on, `chat` returns the thinking-mode split with its two
      halves swapped, on every generated text. */
  lemma ChatReplySwapsParse(generated: string)
    ensures ChatReply(generated, true)
         == ChatAnswer(ParseThinkingResponse(generated).answer, ParseThinkingResponse(generated).thinking)
  {
    CleanMatchesParse(generated);
  }

  /** A Python list of messages: an object the caller and `chat` can share. */
  class MessageList {
    var items: seq<Message>

    constructor (items: seq<Message>)
      ensures this.items == items
    {
      this.items := items;
    }
  }

  /** `chat(user_input, conversation_history)`. `generate` stands for the chat
      template and the engine: the text produced for a message list in a
      mode, or `None` where they raise. The user message is appended in
      place to a non-empty history list, before generation, so it stays
      there even when generation raises; an empty or missing history is
      replaced by a fresh list and the caller's list is untouched. */
  method Chat(enableThinking: bool, userInput: string, history: MessageList?,
              generate: (seq<Message>, bool) -> Option<string>)
    returns (reply: Option<ChatAnswer>, sent: seq<Message>)
    modifies history
    ensures sent == (if history != null then old(history.items) else []) + [Message(User, userInput)]
    ensures history != null && old(history.items) != [] ==> history.items == sent
    ensures history != null && old(history.items) == [] ==> history.items == []
    ensures reply == match generate(sent, enableThinking)
      case None => None
      case Some(text) => Some(ChatReply(text, enableThinking))
  {
    var messages: MessageList;
    if history != null && history.items != [] {
      messages := history;
    } else {
      messages := new MessageList([]);
    }
    messages.items := messages.items + [Message(User, userInput)];
    sent := messages.items;
    var generated := generate(sent, enableThinking);
    if generated.Some? {
      reply := Some(ChatReply(generated.value, enableThinking));
    } else {
      reply := None;
    }
  }

  // ---------------------------------------------------------------------
  // `interactive_chat`
  // ---------------------------------------------------------------------

  const QuitWords: seq<string> := ["quit", "exit", "退出", "q"]
  const ClearWords: seq<string> := ["clear", "清空"]
  const ThinkingWords: seq<string> := ["thinking", "思考"]

  /** The history window of the interactive loop. */
  const Window: nat := 20

  /** The loop's reading of a line, with its three word lists. */
  function BasicCommand(line: string): Command
  {
    ReadCommand(line, QuitWords, ClearWords, ThinkingWords)
  }

  /** The loop's state: the conversation and the reasoning switch. */
  datatype Session = Session(conversation: seq<Message>, thinking: bool)

  /** One chat turn of the loop. `chat` gets a copy of the conversation, so
      a failed turn leaves the conversation as it was; a successful one adds
      the user entry, then the assistant entry, and cuts to the window. */
  function Turn(s: Session, text: string, generate: (seq<Message>, bool) -> Option<string>): Session
  {
    match generate(s.conversation + [Message(User, text)], s.thinking)
    case None => s
    case Some(generated) =>
      var answer := ChatReply(generated, s.thinking).answer;
      Session(KeepLast(s.conversation + [Message(User, text), Message(Assistant, answer)], Window), s.thinking)
  }

  /** The session after the loop has read `lines`, stopping at a quit word. */
  function RunSession(s: Session, lines: seq<string>, generate: (seq<Message>, bool) -> Option<string>): Session
    decreases |lines|
  {
    if lines == [] then s
    else match BasicCommand(lines[0])
      case Quit => s
      case Clear => RunSession(Session([], s.thinking), lines[1..], generate)
      case ToggleThinking => RunSession(Session(s.conversation, !s.thinking), lines[1..], generate)
      case Blank => RunSession(s, lines[1..], generate)
      case Say(text) => RunSession(Turn(s, text, generate), lines[1..], generate)
  }

  /** `interactive_chat` over a finite sequence of input lines. The loop
      starts with an empty conversation and reasoning off, and after every
      line the conversation fits the window. */
  method InteractiveChat(lines: seq<string>, generate: (seq<Message>, bool) -> Option<string>)
    returns (conversation: seq<Message>, enableThinking: bool)
    ensures |conversation| <= Window
    ensures Session(conversation, enableThinking) == RunSession(Session([], false), lines, generate)
  {
    conversation, enableThinking := [], false;
    var i := 0;
    while i < |lines|
      invariant 0 <= i <= |lines|
      invariant |conversation| <= Window
      invariant RunSession(Session([], false), lines, generate)
             == RunSession(Session(conversation, enableThinking), lines[i..], generate)
    {
      RunSessionStep(Session(conversation, enableThinking), lines, i, generate);
      match BasicCommand(lines[i]) {
        case Quit =>
          break;
        case Clear =>
          conversation := [];
        case ToggleThinking =>
          enableThinking := !enableThinking;
        case Blank =>
        case Say(userInput) =>
          var copy := new MessageList(conversation);
          var reply, _ := Chat(enableThinking, userInput, copy, generate);
          if reply.Some? {
            conversation := KeepLast(conversation + [Message(User, userInput), Message(Assistant, reply.value.answer)], Window);
          }
      }
      i := i + 1;
    }
  }

  /** `RunSession` on the lines from `i` on, unfolded by one line. */
  lemma RunSessionStep(s: Session, lines: seq<string>, i: nat, generate: (seq<Message>, bool) -> Option<string>)
    requires i < |lines|
    ensures RunSession(s, lines[i..], generate) == match BasicCommand(lines[i])
      case Quit => s
      case Clear => RunSession(Session([], s.thinking), lines[i + 1..], generate)
      case ToggleThinking => RunSession(Session(s.conversation, !s.thinking), lines[i + 1..], generate)
      case Blank => RunSession(s, lines[i + 1..], generate)
      case Say(text) => RunSession(Turn(s, text, generate), lines[i + 1..], generate)
  {
    assert lines[i..][0] == lines[i];
    assert lines[i..][1..] == lines[i + 1..];
  }

  /** A quit word ends the session with nothing changed. */
  lemma QuitStops(s: Session, line: string, rest: seq<string>, generate: (seq<Message>, bool) -> Option<string>)
    requires Lower(Strip(line)) in QuitWords
    ensures RunSession(s, [line] + rest, generate) == s
  {
  }

  /** `clear` empties the conversation and keeps the mode. */
  lemma ClearEmpties(s: Session, line: string, rest: seq<string>, generate: (seq<Message>, bool) -> Option<string>)
    requires Lower(Strip(line)) in ClearWords
    ensures RunSession(s, [line] + rest, generate) == RunSession(Session([], s.thinking), rest, generate)
  {
    assert ([line] + rest)[1..] == rest;
  }

  /** `thinking` flips the mode and keeps the conversation. */
  lemma ToggleKeepsConversation(s: Session, line: string, rest: seq<string>, generate: (seq<Message>, bool) -> Option<string>)
    requires Lower(Strip(line)) in ThinkingWords
    ensures RunSession(s, [line] + rest, generate)
         == RunSession(Session(s.conversation, !s.thinking), rest, generate)
  {
    assert ([line] + rest)[1..] == rest;
  }

  /** A blank line changes nothing. */
  lemma BlankSkipped(s: Session, line: string, rest: seq<string>, generate: (seq<Message>, bool) -> Option<string>)
    requires Strip(line) == []
    ensures RunSession(s, [line] + rest, generate) == RunSession(s, rest, generate)
  {
    assert ([line] + rest)[1..] == rest;
  }

  /** A successful turn ends the conversation with the user entry followed
      by the assistant entry holding the cleaned reply, keeps at most the
      window, and is a plain append while the window is not exceeded. */
  lemma TurnAppendsPair(s: Session, text: string, generate: (seq<Message>, bool) -> Option<string>)
    requires generate(s.conversation + [Message(User, text)], s.thinking).Some?
    ensures var generated := generate(s.conversation + [Message(User, text)], s.thinking).value;
      var c := Turn(s, text, generate).conversation;
      && |c| >= 2 && |c| <= Window
      && c[|c| - 2] == Message(User, text)
      && c[|c| - 1] == Message(Assistant, CleanResponse(generated))
      && (|s.conversation| + 2 <= Window ==> c == s.conversation + [Message(User, text), Message(Assistant, CleanResponse(generated))])
      && Turn(s, text, generate).thinking == s.thinking
  {
    var generated := generate(s.conversation + [Message(User, text)], s.thinking).value;
    KeepLastKeepsNewestPair(s.conversation, Message(User, text), Message(Assistant, CleanResponse(generated)), Window);
  }

  /** A failed turn leaves the session unchanged. */
  lemma FailedTurnKeepsSession(s: Session, text: string, generate: (seq<Message>, bool) -> Option<string>)
    requires generate(s.conversation + [Message(User, text)], s.thinking).None?
    ensures Turn(s, text, generate) == s
  {
  }
}
