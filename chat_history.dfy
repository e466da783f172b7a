// Chat messages as the OpenAI-style `{"role": ..., "content": ...}` dicts the
// interactive scripts keep in their history lists, and the history window
// they cut those lists to.
module ChatHistory {
  import opened PyStr

  datatype Role = System | User | Assistant

  datatype Message = Message(role: Role, content: string)

  /** `history[-n:]`, applied when `len(history) > n`: the newest `n`
      entries, in order. A history already within the window is kept. */
  function KeepLast(history: seq<Message>, n: nat): (r: seq<Message>)
    requires n > 0
    ensures |r| <= n
    ensures |history| <= n ==> r == history
    ensures |history| > n ==> |r| == n
    ensures r == history[|history| - |r|..]
  {
    if |history| > n then SliceFrom(history, 0 - n as int) else history
  }

  /** The newest two entries survive the cut of a window of at least two. */
  lemma KeepLastKeepsNewestPair(h: seq<Message>, u: Message, a: Message, n: nat)
    requires n >= 2
    ensures var r := KeepLast(h + [u, a], n);
      |r| >= 2 && r[|r| - 2] == u && r[|r| - 1] == a
  {
  }

  /** What an interactive loop does with one input line. */
  datatype Command = Quit | Clear | ToggleThinking | Blank | Say(text: string)

  /** How the interactive loops read a line: `input().strip()`, then the
      lower-cased text is looked up in the quit words, then in the clear
      words, then in the mode-switch words, and only then is an empty line
      skipped. A loop without a `clear` or mode-switch command passes an
      empty word list for it. */
  function ReadCommand(line: string, quitWords: seq<string>, clearWords: seq<string>,
                       toggleWords: seq<string>): (c: Command)
    ensures c == Quit <==> Lower(Strip(line)) in quitWords
    ensures c == Clear <==> Lower(Strip(line)) !in quitWords && Lower(Strip(line)) in clearWords
    ensures c == ToggleThinking <==> Lower(Strip(line)) !in quitWords + clearWords && Lower(Strip(line)) in toggleWords
    ensures c == Blank ==> Strip(line) == []
    ensures c.Say? ==> c.text == Strip(line) && c.text != []
  {
    var userInput := Strip(line);
    var key := Lower(userInput);
    if key in quitWords then Quit
    else if key in clearWords then Clear
    else if key in toggleWords then ToggleThinking
    else if userInput == [] then Blank
    else Say(userInput)
  }

  /** An empty line is skipped unless the empty word is a command word. */
  lemma BlankLineSkipped(line: string, quitWords: seq<string>, clearWords: seq<string>, toggleWords: seq<string>)
    requires Strip(line) == []
    requires [] !in quitWords + clearWords + toggleWords
    ensures ReadCommand(line, quitWords, clearWords, toggleWords) == Blank
  {
    assert Lower(Strip(line)) == [];
  }
}
