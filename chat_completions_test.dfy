// The chat-completions test script against the vLLM OpenAI-compatible
// server: `test_streaming_chat`, which accumulates a streamed reply, and
// `interactive_chat`, a console loop with a ten-entry history window.
module ChatCompletionsTest {
  import opened Wrappers
  import opened PyStr
  import opened ChatHistory
  import opened StreamingChat

  /** `test_streaming_chat`: the reply it reports, or `None` when the request
      or the iteration raised (the script then only reports the failure). */
  method TestStreamingChat(events: seq<StreamEvent>) returns (fullResponse: Option<string>)
    ensures Raise in events <==> fullResponse.None?
    ensures fullResponse.Some? ==> fullResponse.value == Deltas(events)
  {
    var response := "";
    var i := 0;
    while i < |events|
      invariant 0 <= i <= |events|
      invariant Raise !in events[..i]
      invariant response == Deltas(events[..i])
    {
      assert events[..i + 1][..i] == events[..i];
      if events[i].Raise? {
        return None;
      }
      if events[i].content.Some? {
        response := response + events[i].content.value;
      }
      i := i + 1;
    }
    assert events[..i] == events;
    fullResponse := Some(response);
  }

  /** The test reports the same text `stream_chat` returns whenever the
      stream completes. */
  lemma TestAgreesWithClient(events: seq<StreamEvent>)
    requires Raise !in events
    ensures StreamReply(events) == Deltas(events)
  {
  }

  // ---------------------------------------------------------------------
  // `interactive_chat`
  // ---------------------------------------------------------------------

  const QuitWords: seq<string> := ["quit", "exit", "退出", "q"]

  /** The history window of this loop. */
  const Window: nat := 10

  /** The loop's reading of a line: quit words only, then blank lines. */
  function TestCommand(line: string): Command
  {
    ReadCommand(line, QuitWords, [], [])
  }

  /** One turn. The user entry is appended to `messages` itself before the
      request; `complete` stands for the request, giving the assistant's
      content or `None` where it raises. Only a successful request appends
      the reply and cuts to the window. */
  function TestTurn(messages: seq<Message>, text: string, complete: seq<Message> -> Option<string>): seq<Message>
  {
    var asked := messages + [Message(User, text)];
    match complete(asked)
    case None => asked
    case Some(reply) => KeepLast(asked + [Message(Assistant, reply)], Window)
  }

  /** The history after the loop has read `lines`, stopping at a quit word. */
  function TestRun(messages: seq<Message>, lines: seq<string>, complete: seq<Message> -> Option<string>): seq<Message>
    decreases |lines|
  {
    if lines == [] then messages
    else
      var c := TestCommand(lines[0]);
      if c == Quit then messages
      else if c.Say? then TestRun(TestTurn(messages, c.text, complete), lines[1..], complete)
      else TestRun(messages, lines[1..], complete)
  }

  lemma TestRunStep(messages: seq<Message>, lines: seq<string>, i: nat, complete: seq<Message> -> Option<string>)
    requires i < |lines|
    ensures TestRun(messages, lines[i..], complete) ==
      var c := TestCommand(lines[i]);
      if c == Quit then messages
      else if c.Say? then TestRun(TestTurn(messages, c.text, complete), lines[i + 1..], complete)
      else TestRun(messages, lines[i + 1..], complete)
  {
    assert lines[i..][0] == lines[i];
    assert lines[i..][1..] == lines[i + 1..];
  }

  /** The body of one chat turn of `interactive_chat`. */
  method ChatTurn(messages: seq<Message>, text: string, complete: seq<Message> -> Option<string>)
    returns (updated: seq<Message>)
    ensures updated == TestTurn(messages, text, complete)
  {
    updated := messages + [Message(User, text)];
    var reply := complete(updated);
    if reply.Some? {
      updated := updated + [Message(Assistant, reply.value)];
      if |updated| > Window {
        updated := SliceFrom(updated, 0 - Window as int);
      }
    }
  }

  /** `interactive_chat` over a finite sequence of input lines. */
  method InteractiveTest(lines: seq<string>, complete: seq<Message> -> Option<string>)
    returns (messages: seq<Message>)
    ensures messages == TestRun([], lines, complete)
  {
    messages := [];
    var i := 0;
    while i < |lines|
      invariant 0 <= i <= |lines|
      invariant TestRun([], lines, complete) == TestRun(messages, lines[i..], complete)
    {
      TestRunStep(messages, lines, i, complete);
      var command := TestCommand(lines[i]);
      if command == Quit {
        break;
      } else if command.Say? {
        messages := ChatTurn(messages, command.text, complete);
      }
      i := i + 1;
    }
  }

  /** After a successful turn the history ends with the user entry and the
      reply and holds at most ten entries. */
  lemma SuccessfulTurnBounded(messages: seq<Message>, text: string, complete: seq<Message> -> Option<string>)
    requires complete(messages + [Message(User, text)]).Some?
    ensures var m := TestTurn(messages, text, complete);
      && 2 <= |m| <= Window
      && m[|m| - 2] == Message(User, text)
      && m[|m| - 1] == Message(Assistant, complete(messages + [Message(User, text)]).value)
  {
    var reply := complete(messages + [Message(User, text)]).value;
    KeepLastKeepsNewestPair(messages, Message(User, text), Message(Assistant, reply), Window);
    assert messages + [Message(User, text), Message(Assistant, reply)]
        == messages + [Message(User, text)] + [Message(Assistant, reply)];
  }

  /** A failed turn keeps the user entry and does not cut the history. */
  lemma FailedTurnKeepsUser(messages: seq<Message>, text: string, complete: seq<Message> -> Option<string>)
    requires complete(messages + [Message(User, text)]).None?
    ensures TestTurn(messages, text, complete) == messages + [Message(User, text)]
  {
  }

  /** When every request fails, each chat line adds one entry and nothing is
      ever cut: the history outgrows the window once more than ten such
      lines have been read. */
  lemma {:induction false} FailuresGrowHistory(messages: seq<Message>, lines: seq<string>, complete: seq<Message> -> Option<string>)
    requires forall m :: complete(m).None?
    requires forall k :: 0 <= k < |lines| ==> TestCommand(lines[k]).Say?
    ensures |TestRun(messages, lines, complete)| == |messages| + |lines|
    ensures |messages| + |lines| > Window ==> |TestRun(messages, lines, complete)| > Window
    decreases |lines|
  {
    if lines != [] {
      assert TestCommand(lines[0]).Say?;
      var text := TestCommand(lines[0]).text;
      assert complete(messages + [Message(User, text)]).None?;
      FailuresGrowHistory(messages + [Message(User, text)], lines[1..], complete);
    }
  }
}
