// The streaming chat client: `stream_chat` and `async_stream_chat`, which
// concatenate the content deltas of a server stream and give up with `""`
// on any exception, and the two demos that keep a conversation around them.
module StreamingChat {
  import opened Wrappers
  import opened PyStr
  import opened ChatHistory

  /** What iterating the server stream produces: a chunk whose first
      choice's delta content may be `None`, or an exception raised by the
      request or by the iteration. Nothing after an exception is seen. */
  datatype StreamEvent = Chunk(content: Option<string>) | Raise

  /** The non-`None` delta contents, concatenated in order. */
  function Deltas(events: seq<StreamEvent>): string
  {
    if events == [] then ""
    else
      var last := events[|events| - 1];
      Deltas(events[..|events| - 1]) + (if last.Chunk? && last.content.Some? then last.content.value else "")
  }

  /** The text a streaming call returns: the concatenated deltas when the
      stream ran to its end, and `""` when anything in it raised. */
  function StreamReply(events: seq<StreamEvent>): string
  {
    if Raise in events then "" else Deltas(events)
  }

  /** Concatenation distributes over splitting the stream. */
  lemma {:induction false} DeltasAppend(a: seq<StreamEvent>, b: seq<StreamEvent>)
    ensures Deltas(a + b) == Deltas(a) + Deltas(b)
    decreases |b|
  {
    if b == [] {
      assert a + b == a;
    } else {
      var b' := b[..|b| - 1];
      assert (a + b)[..|a + b| - 1] == a + b';
      DeltasAppend(a, b');
    }
  }

  /** A chunk with `None` content adds nothing. */
  lemma DeltasSkipNone(a: seq<StreamEvent>, b: seq<StreamEvent>)
    ensures Deltas(a + [Chunk(None)] + b) == Deltas(a + b)
  {
    DeltasAppend(a + [Chunk(None)], b);
    DeltasAppend(a, b);
  }

  /** A stream of contents only, none of them `None`, yields their join. */
  lemma {:induction false} DeltasOfContents(contents: seq<string>)
    ensures Deltas(seq(|contents|, k requires 0 <= k < |contents| => Chunk(Some(contents[k])))) == Join(contents, [])
    decreases |contents|
  {
    var events := seq(|contents|, k requires 0 <= k < |contents| => Chunk(Some(contents[k])));
    if contents != [] && |contents| > 1 {
      var init := contents[..|contents| - 1];
      var initEvents := seq(|init|, k requires 0 <= k < |init| => Chunk(Some(init[k])));
      assert events[..|events| - 1] == initEvents;
      DeltasOfContents(init);
      JoinSnoc(init, contents[|contents| - 1]);
      assert init + [contents[|contents| - 1]] == contents;
    } else if contents != [] {
      assert events[..0] == [];
    }
  }

  /** Joining with an empty separator after adding one more piece. */
  lemma {:induction false} JoinSnoc(parts: seq<string>, p: string)
    requires parts != []
    ensures Join(parts + [p], []) == Join(parts, []) + p
    decreases |parts|
  {
    if |parts| == 1 {
      assert parts + [p] == [parts[0], p];
    } else {
      assert (parts + [p])[1..] == parts[1..] + [p];
      JoinSnoc(parts[1..], p);
    }
  }

  /** One exception anywhere discards everything accumulated before it. */
  lemma RaiseDiscardsPartial(a: seq<StreamEvent>, b: seq<StreamEvent>)
    ensures StreamReply(a + [Raise] + b) == ""
  {
    assert (a + [Raise] + b)[|a|] == Raise;
  }

  /** `stream_chat`: accumulates `full_response` chunk by chunk and returns
      `""` at the first exception. */
  method StreamChat(events: seq<StreamEvent>) returns (response: string)
    ensures response == StreamReply(events)
  {
    var fullResponse := "";
    var i := 0;
    while i < |events|
      invariant 0 <= i <= |events|
      invariant Raise !in events[..i]
      invariant fullResponse == Deltas(events[..i])
    {
      assert events[..i + 1][..i] == events[..i];
      match events[i] {
        case Raise =>
          return "";
        case Chunk(content) =>
          if content.Some? {
            fullResponse := fullResponse + content.value;
          }
      }
      i := i + 1;
    }
    assert events[..i] == events;
    response := fullResponse;
  }

  /** `async_stream_chat`: the same accumulation over an asynchronous
      stream; the order of the chunks is the order they arrive in. */
  method AsyncStreamChat(events: seq<StreamEvent>) returns (response: string)
    ensures response == StreamReply(events)
  {
    response := StreamChat(events);
  }

  // ---------------------------------------------------------------------
  // `demo_multi_turn_streaming`
  // ---------------------------------------------------------------------

  // ---------------------------------------------------------------------
  // The health check
  // ---------------------------------------------------------------------

  /** `check_server_health` as written. `listing` is what `models.list()`
      gives: the ids of the served models, or `None` when the request
      raises. The comprehension that formats the ids for the console has
      `m.id` as its loop target, an attribute of a name `m` bound nowhere,
      so its first element raises `NameError`, which the `except` clause
      turns into `False`: only a server serving no model passes. */
  function CheckServerHealthAsWritten(listing: Option<seq<string>>): (healthy: bool)
    ensures healthy <==> listing == Some([])
  {
    if listing.None? then false
    else if listing.value != [] then false
    else true
  }

  /** A server that answers and serves a model is reported down, so every
      demo returns before its first request. */
  lemma ServingServerReportedDown(id: string)
    ensures !CheckServerHealthAsWritten(Some([id]))
  {
  }

  /** `check_server_health` as intended, with `m` as the loop target: a
      server that answers the listing request is healthy, whatever it
      serves. The demos are modelled past this check. */
  function CheckServerHealth(listing: Option<seq<string>>): (healthy: bool)
    ensures healthy <==> listing.Some?
  {
    listing.Some?
  }

  /** The corrected check accepts every server the written one accepts, and
      also exactly the ones that serve at least one model. */
  lemma HealthChecksDiffer(listing: Option<seq<string>>)
    ensures CheckServerHealthAsWritten(listing) ==> CheckServerHealth(listing)
    ensures CheckServerHealth(listing) && !CheckServerHealthAsWritten(listing)
        <==> listing.Some? && listing.value != []
  {
  }

  /** One turn of `demo_multi_turn_streaming` keeps the earlier entries and
      adds entries `2i` and `2i + 1`. */
  lemma MultiTurnStep(previous: seq<Message>, turns: seq<string>, i: nat,
                      stream: seq<Message> -> seq<StreamEvent>, response: string)
    requires i < |turns| && |previous| == 2 * i
    requires forall k :: 0 <= k < i ==>
      && previous[2 * k] == Message(User, turns[k])
      && previous[2 * k + 1] == Message(Assistant, StreamReply(stream(previous[..2 * k + 1])))
    requires response == StreamReply(stream(previous + [Message(User, turns[i])]))
    ensures var c := previous + [Message(User, turns[i])] + [Message(Assistant, response)];
      && |c| == 2 * (i + 1)
      && forall k :: 0 <= k < i + 1 ==>
        && c[2 * k] == Message(User, turns[k])
        && c[2 * k + 1] == Message(Assistant, StreamReply(stream(c[..2 * k + 1])))
  {
    var c := previous + [Message(User, turns[i])] + [Message(Assistant, response)];
    forall k | 0 <= k < i
      ensures c[..2 * k + 1] == previous[..2 * k + 1]
    {
    }
    assert c[..2 * i + 1] == previous + [Message(User, turns[i])];
  }

  /** `demo_multi_turn_streaming`: every turn appends the user entry, asks
      the server with a copy of the whole conversation and appends the reply,
      even an empty one. `stream` stands for the server: the events of the
      stream it sends back for a message list. Entry `2k` is the `k`-th user
      turn and entry `2k + 1` the reply to the conversation up to it. */
  method MultiTurnDemo(turns: seq<string>, stream: seq<Message> -> seq<StreamEvent>)
    returns (conversation: seq<Message>)
    ensures |conversation| == 2 * |turns|
    ensures forall k :: 0 <= k < |turns| ==>
      && conversation[2 * k] == Message(User, turns[k])
      && conversation[2 * k + 1] == Message(Assistant, StreamReply(stream(conversation[..2 * k + 1])))
  {
    conversation := [];
    var i := 0;
    while i < |turns|
      invariant 0 <= i <= |turns|
      invariant |conversation| == 2 * i
      invariant forall k :: 0 <= k < i ==>
        && conversation[2 * k] == Message(User, turns[k])
        && conversation[2 * k + 1] == Message(Assistant, StreamReply(stream(conversation[..2 * k + 1])))
    {
      var previous := conversation;
      conversation := conversation + [Message(User, turns[i])];
      var response := StreamChat(stream(conversation));
      conversation := conversation + [Message(Assistant, response)];
      MultiTurnStep(previous, turns, i, stream, response);
      i := i + 1;
    }
  }

  // ---------------------------------------------------------------------
  // `demo_interactive_streaming`
  // ---------------------------------------------------------------------

  const QuitWords: seq<string> := ["quit", "exit", "退出", "q"]
  const ClearWords: seq<string> := ["clear", "清空"]

  /** The history window of the interactive loop. */
  const Window: nat := 20

  /** The loop's reading of a line: quit and clear words, no mode switch. */
  function StreamingCommand(line: string): Command
  {
    ReadCommand(line, QuitWords, ClearWords, [])
  }

  /** One chat turn: the user entry, then the reply (empty when the stream
      raised), then the cut to the window. */
  function StreamingTurn(conversation: seq<Message>, text: string, stream: seq<Message> -> seq<StreamEvent>): seq<Message>
  {
    var asked := conversation + [Message(User, text)];
    KeepLast(asked + [Message(Assistant, StreamReply(stream(asked)))], Window)
  }

  /** The conversation after the loop has read `lines`, stopping at a quit
      word. */
  function StreamingRun(conversation: seq<Message>, lines: seq<string>, stream: seq<Message> -> seq<StreamEvent>): seq<Message>
    decreases |lines|
  {
    if lines == [] then conversation
    else
      var c := StreamingCommand(lines[0]);
      if c == Quit then conversation
      else if c == Clear then StreamingRun([], lines[1..], stream)
      else if c.Say? then StreamingRun(StreamingTurn(conversation, c.text, stream), lines[1..], stream)
      else StreamingRun(conversation, lines[1..], stream)
  }

  lemma StreamingRunStep(conversation: seq<Message>, lines: seq<string>, i: nat, stream: seq<Message> -> seq<StreamEvent>)
    requires i < |lines|
    ensures StreamingRun(conversation, lines[i..], stream) ==
      var c := StreamingCommand(lines[i]);
      if c == Quit then conversation
      else if c == Clear then StreamingRun([], lines[i + 1..], stream)
      else if c.Say? then StreamingRun(StreamingTurn(conversation, c.text, stream), lines[i + 1..], stream)
      else StreamingRun(conversation, lines[i + 1..], stream)
  {
    assert lines[i..][0] == lines[i];
    assert lines[i..][1..] == lines[i + 1..];
  }

  /** `demo_interactive_streaming` over a finite sequence of input lines:
      the conversation never holds more than the window. */
  method InteractiveStreaming(lines: seq<string>, stream: seq<Message> -> seq<StreamEvent>)
    returns (conversation: seq<Message>)
    ensures |conversation| <= Window
    ensures conversation == StreamingRun([], lines, stream)
  {
    conversation := [];
    var i := 0;
    while i < |lines|
      invariant 0 <= i <= |lines|
      invariant |conversation| <= Window
      invariant StreamingRun([], lines, stream) == StreamingRun(conversation, lines[i..], stream)
    {
      StreamingRunStep(conversation, lines, i, stream);
      var command := StreamingCommand(lines[i]);
      if command == Quit {
        break;
      } else if command == Clear {
        conversation := [];
      } else if command.Say? {
        conversation := conversation + [Message(User, command.text)];
        var response := StreamChat(stream(conversation));
        conversation := conversation + [Message(Assistant, response)];
        if |conversation| > Window {
          conversation := SliceFrom(conversation, 0 - Window as int);
        }
      }
      i := i + 1;
    }
  }

  /** A turn ends the conversation with the user entry and then the reply,
      which is `""` when the stream raised. */
  lemma StreamingTurnAppendsPair(conversation: seq<Message>, text: string, stream: seq<Message> -> seq<StreamEvent>)
    ensures var c := StreamingTurn(conversation, text, stream);
      var asked := conversation + [Message(User, text)];
      && 2 <= |c| <= Window
      && c[|c| - 2] == Message(User, text)
      && c[|c| - 1] == Message(Assistant, StreamReply(stream(asked)))
      && (Raise in stream(asked) ==> c[|c| - 1] == Message(Assistant, ""))
  {
    var u := Message(User, text);
    var asked := conversation + [u];
    var reply := StreamReply(stream(asked));
    var a := Message(Assistant, reply);
    assert conversation + [u, a] == asked + [a];
    var c := KeepLast(asked + [a], Window);
    assert c == StreamingTurn(conversation, text, stream);
    KeepLastKeepsNewestPair(conversation, u, a, Window);
    assert Raise in stream(asked) ==> reply == "";
  }

  /** Quit ends the loop; clear empties the conversation; a blank line
      leaves it as it was. */
  lemma StreamingCommands(conversation: seq<Message>, line: string, rest: seq<string>, stream: seq<Message> -> seq<StreamEvent>)
    ensures Lower(Strip(line)) in QuitWords ==> StreamingRun(conversation, [line] + rest, stream) == conversation
    ensures Lower(Strip(line)) in ClearWords ==> StreamingRun(conversation, [line] + rest, stream) == StreamingRun([], rest, stream)
    ensures Strip(line) == [] ==> StreamingRun(conversation, [line] + rest, stream) == StreamingRun(conversation, rest, stream)
  {
    var lines := [line] + rest;
    StreamingRunStep(conversation, lines, 0, stream);
    assert lines[0..] == lines && lines[0] == line && lines[1..] == rest;
    if Strip(line) == [] {
      BlankLineSkipped(line, QuitWords, ClearWords, []);
    }
  }
}
