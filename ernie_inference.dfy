// The ERNIE-4.5 LoRA inference script: choosing the newest training
// checkpoint, building the two-message prompt, decoding only the newly
// generated tokens, and the console loop.
module ErnieInference {
  import opened Wrappers
  import opened PyStr
  import opened ChatHistory

  /** `InferenceConfig.SYSTEM_MESSAGE` in config.py. */
  const SystemMessage: string := "假设你是皇帝身边的女人--甄嬛。"

  /** Checkpoint directories are named `checkpoint-<step>`. */
  const CheckpointStem: string := "checkpoint"
  const CheckpointPrefix: string := CheckpointStem + ['-']

  // ---------------------------------------------------------------------
  // Collecting the candidates
  // ---------------------------------------------------------------------

  predicate IsCandidate(name: string)
  {
    StartsWith(name, CheckpointPrefix)
  }

  /** The entries of a listing that start with `checkpoint-`, in listing
      order. */
  function Candidates(listing: seq<string>): (r: seq<string>)
    ensures forall c :: c in r ==> IsCandidate(c) && c in listing
    ensures forall x :: x in listing && IsCandidate(x) ==> x in r
  {
    if listing == [] then []
    else
      var init := Candidates(listing[..|listing| - 1]);
      var last := listing[|listing| - 1];
      assert forall x :: x in listing ==> x in listing[..|listing| - 1] || x == last;
      if IsCandidate(last) then init + [last] else init
  }

  /** The candidates of a listing without any `checkpoint-` entry: none. */
  lemma {:induction false} NoCandidates(listing: seq<string>)
    requires forall k :: 0 <= k < |listing| ==> !IsCandidate(listing[k])
    ensures Candidates(listing) == []
  {
    if listing != [] {
      NoCandidates(listing[..|listing| - 1]);
    }
  }

  /** Collecting keeps listing order: the candidates of a concatenation are
      those of the first part followed by those of the second. */
  lemma {:induction false} CandidatesAppend(a: seq<string>, b: seq<string>)
    ensures Candidates(a + b) == Candidates(a) + Candidates(b)
    decreases |b|
  {
    if b == [] {
      assert a + b == a;
    } else {
      var b0 := b[..|b| - 1];
      assert (a + b)[..|a + b| - 1] == a + b0;
      assert b[..|b| - 1] == b0;
      CandidatesAppend(a, b0);
    }
  }

  /** One entry is kept exactly when it is a candidate. */
  lemma CandidatesOne(name: string)
    ensures Candidates([name]) == if IsCandidate(name) then [name] else []
  {
    assert [name][..0] == [];
  }

  /** The loop in `main` that collects `checkpoints`: nothing when the
      output directory is missing, otherwise the candidates of its listing
      (`listing` stands for `os.listdir`). */
  method CollectCheckpoints(outputDirExists: bool, listing: seq<string>) returns (checkpoints: seq<string>)
    ensures checkpoints == if outputDirExists then Candidates(listing) else []
  {
    checkpoints := [];
    if outputDirExists {
      var i := 0;
      while i < |listing|
        invariant 0 <= i <= |listing|
        invariant checkpoints == Candidates(listing[..i])
      {
        assert listing[..i + 1][..i] == listing[..i];
        if StartsWith(listing[i], CheckpointPrefix) {
          checkpoints := checkpoints + [listing[i]];
        }
        i := i + 1;
      }
      assert listing[..i] == listing;
    }
  }

  // ---------------------------------------------------------------------
  // Choosing the newest one
  // ---------------------------------------------------------------------

  /** The sort key `int(x.split("-")[1])`; `None` where it raises. */
  function CheckpointKey(name: string): Option<int>
  {
    var parts := Split(name, '-');
    if |parts| < 2 then None else ParseInt(parts[1])
  }

  /** The key of `checkpoint-<n>` is `n`. */
  lemma CheckpointKeyOfStep(n: nat)
    ensures CheckpointKey(CheckpointPrefix + IntToString(n)) == Some(n)
  {
    var digits := IntToString(n);
    assert '-' !in CheckpointStem;
    SplitAfterPrefix(CheckpointStem, '-', digits);
    assert CheckpointStem + ['-'] + digits == CheckpointPrefix + digits;
    assert '-' !in digits by {
      assert digits == NatToString(n);
      forall k | 0 <= k < |digits| ensures digits[k] != '-' {
        assert IsDigit(digits[k]);
      }
    }
    assert Split(digits, '-') == [digits];
    IntToStringRoundTrip(n);
  }

  /** A candidate always has a second `-`-separated field, so its key fails
      only when that field is not an integer. */
  lemma CandidateHasSecondField(name: string)
    requires IsCandidate(name)
    ensures |Split(name, '-')| >= 2
    ensures CheckpointKey(name) == ParseInt(Split(name[|CheckpointPrefix|..], '-')[0])
  {
    var rest := name[|CheckpointPrefix|..];
    assert '-' !in CheckpointStem;
    assert name == CheckpointStem + ['-'] + rest;
    SplitAfterPrefix(CheckpointStem, '-', rest);
  }

  /** The keys of all candidates, or `None` when any of them raises: the
      sort computes every key before it compares any. */
  function AllKeys(names: seq<string>): (r: Option<seq<int>>)
    ensures r.Some? <==> forall k :: 0 <= k < |names| ==> CheckpointKey(names[k]).Some?
    ensures r.Some? ==> |r.value| == |names|
    ensures r.Some? ==> forall k :: 0 <= k < |names| ==> r.value[k] == CheckpointKey(names[k]).value
  {
    if names == [] then Some([])
    else
      var n := |names| - 1;
      var init := AllKeys(names[..n]);
      var last := CheckpointKey(names[n]);
      assert forall k :: 0 <= k < n ==> names[..n][k] == names[k];
      if init.Some? && last.Some? then Some(init.value + [last.value]) else None
  }

  /** The position `sorted(..., key)[-1]` picks: a stable sort puts equal
      keys in their original order, so the last element is the last of
      those with the greatest key. */
  function LatestIndex(keys: seq<int>): (r: nat)
    requires keys != []
    ensures r < |keys|
    ensures forall j :: 0 <= j < |keys| ==> keys[j] <= keys[r]
    ensures forall j :: r < j < |keys| ==> keys[j] < keys[r]
  {
    if |keys| == 1 then 0
    else
      var i := LatestIndex(keys[..|keys| - 1]);
      if keys[|keys| - 1] >= keys[i] then |keys| - 1 else i
  }

  /** Those two properties pin the position down: no other position has
      them. */
  lemma LatestIndexUnique(keys: seq<int>, i: nat)
    requires i < |keys|
    requires forall j :: 0 <= j < |keys| ==> keys[j] <= keys[i]
    requires forall j :: i < j < |keys| ==> keys[j] < keys[i]
    ensures i == LatestIndex(keys)
  {
    var r := LatestIndex(keys);
    assert keys[i] <= keys[r] && keys[r] <= keys[i];
  }

  /** The checkpoint `main` uses: the last one with the greatest step, or
      `None` where computing a key raises. `main` calls it only with at
      least one candidate. */
  function LatestCheckpoint(checkpoints: seq<string>): (r: Option<string>)
    requires checkpoints != []
    ensures r.None? <==> exists k :: 0 <= k < |checkpoints| && CheckpointKey(checkpoints[k]).None?
    ensures r.Some? ==> r.value in checkpoints
  {
    var keys := AllKeys(checkpoints);
    if keys.None? then None else Some(checkpoints[LatestIndex(keys.value)])
  }

  /** The chosen checkpoint's step is at least that of every candidate. */
  lemma LatestCheckpointIsNewest(checkpoints: seq<string>)
    requires checkpoints != []
    requires LatestCheckpoint(checkpoints).Some?
    ensures var best := CheckpointKey(LatestCheckpoint(checkpoints).value);
      best.Some? && forall k :: 0 <= k < |checkpoints| ==> CheckpointKey(checkpoints[k]).value <= best.value
  {
    var keys := AllKeys(checkpoints).value;
    var i := LatestIndex(keys);
    assert CheckpointKey(checkpoints[i]).value == keys[i];
  }

  /** How `main` ends up: no checkpoint (it returns before loading any
      model), a candidate whose step is not an integer (the sort raises), or
      the LoRA path to load. */
  datatype Selection = NoCheckpoint | BadCheckpointName | LoraPath(path: string)

  /** The selection part of `main`. */
  method SelectLoraPath(outputDir: string, outputDirExists: bool, listing: seq<string>)
    returns (selection: Selection)
    ensures selection == NoCheckpoint <==> !outputDirExists || Candidates(listing) == []
    ensures selection == BadCheckpointName <==>
      outputDirExists && Candidates(listing) != [] && LatestCheckpoint(Candidates(listing)).None?
    ensures selection.LoraPath? ==>
      selection.path == PathJoin(outputDir, LatestCheckpoint(Candidates(listing)).value)
  {
    var checkpoints := CollectCheckpoints(outputDirExists, listing);
    if checkpoints == [] {
      return NoCheckpoint;
    }
    var latest := LatestCheckpoint(checkpoints);
    if latest.None? {
      return BadCheckpointName;
    }
    selection := LoraPath(PathJoin(outputDir, latest.value));
  }

  // ---------------------------------------------------------------------
  // `generate_response`
  // ---------------------------------------------------------------------

  /** The message list: the system message (the configured one when none is
      given), then the user's prompt. */
  function GenerateMessages(prompt: string, systemMessage: Option<string>): (r: seq<Message>)
    ensures |r| == 2 && r[0].role == System && r[1] == Message(User, prompt)
    ensures systemMessage.None? ==> r[0].content == SystemMessage
    ensures systemMessage.Some? ==> r[0].content == systemMessage.value
  {
    var system := if systemMessage.None? then SystemMessage else systemMessage.value;
    [Message(System, system), Message(User, prompt)]
  }

  /** `generate_response`. `encode` stands for the chat template followed by
      the tokenizer, `generate` for the model and `decode` for the
      tokenizer's decoder; only the ids after the prompt's are decoded. */
  function GenerateResponse(prompt: string, systemMessage: Option<string>,
                            encode: seq<Message> -> seq<int>, generate: seq<int> -> seq<int>,
                            decode: seq<int> -> string): (r: string)
    ensures IsStripped(r)
  {
    var inputIds := encode(GenerateMessages(prompt, systemMessage));
    var outputIds := SliceFrom(generate(inputIds), |inputIds|);
    Strip(decode(outputIds))
  }

  /** When the model echoes the prompt ids and then produces `newIds`, the
      reply is exactly the decoded `newIds`, trimmed. */
  lemma ResponseDecodesOnlyNewTokens(prompt: string, systemMessage: Option<string>,
                                     encode: seq<Message> -> seq<int>, generate: seq<int> -> seq<int>,
                                     decode: seq<int> -> string, newIds: seq<int>)
    requires generate(encode(GenerateMessages(prompt, systemMessage)))
          == encode(GenerateMessages(prompt, systemMessage)) + newIds
    ensures GenerateResponse(prompt, systemMessage, encode, generate, decode) == Strip(decode(newIds))
  {
    SliceFromAfterPrefix(encode(GenerateMessages(prompt, systemMessage)), newIds);
  }

  // ---------------------------------------------------------------------
  // The console loop
  // ---------------------------------------------------------------------

  const QuitWords: seq<string> := ["quit", "exit", "退出"]

  /** The loop's reading of a line: three quit words, then blank lines. */
  function ReplCommand(line: string): Command
  {
    ReadCommand(line, QuitWords, [], [])
  }

  /** The prompts the loop sends to `generate_response`, in order, for the
      input lines; it stops at the first quit word. */
  function ReplPrompts(lines: seq<string>): (r: seq<string>)
    ensures forall k :: 0 <= k < |r| ==> r[k] != [] && IsStripped(r[k])
    decreases |lines|
  {
    if lines == [] then []
    else
      var c := ReplCommand(lines[0]);
      if c == Quit then []
      else if c.Say? then [c.text] + ReplPrompts(lines[1..])
      else ReplPrompts(lines[1..])
  }

  /** The console loop of `main` over a finite sequence of input lines. */
  method ErnieRepl(lines: seq<string>) returns (prompts: seq<string>)
    ensures prompts == ReplPrompts(lines)
  {
    prompts := [];
    var i := 0;
    while i < |lines|
      invariant 0 <= i <= |lines|
      invariant prompts + ReplPrompts(lines[i..]) == ReplPrompts(lines)
    {
      assert lines[i..][0] == lines[i];
      assert lines[i..][1..] == lines[i + 1..];
      var command := ReplCommand(lines[i]);
      if command == Quit {
        assert ReplPrompts(lines[i..]) == [];
        assert prompts + [] == prompts;
        return;
      }
      if command.Say? {
        prompts := prompts + [command.text];
      }
      i := i + 1;
    }
    assert prompts + [] == prompts;
  }

  /** The first quit word ends the loop: the prompts are those of the lines
      before it, whatever follows. */
  lemma {:induction false} ReplQuitStops(lines: seq<string>, k: nat)
    requires k < |lines|
    requires ReplCommand(lines[k]) == Quit
    requires forall j :: 0 <= j < k ==> ReplCommand(lines[j]) != Quit
    ensures ReplPrompts(lines) == ReplPrompts(lines[..k])
  {
    if k > 0 {
      assert lines[..k][0] == lines[0];
      assert lines[..k][1..] == lines[1..][..k - 1];
      ReplQuitStops(lines[1..], k - 1);
    }
  }

  lemma CapitalExitStripped()
    ensures IsStripped("Exit")
  {
  }

  lemma CapitalExitStrips()
    ensures Strip(" Exit ") == "Exit"
  {
    var word := "Exit";
    CapitalExitStripped();
    StripAround([' '], word, [' ']);
    assert [' '] + word + [' '] == " Exit ";
  }

  lemma CapitalExitLowers()
    ensures Lower("Exit") == "exit"
  {
    var key := Lower("Exit");
    assert key[0] == 'e' && key[1] == 'x' && key[2] == 'i' && key[3] == 't';
  }

  /** `Exit` with spaces around it reads as a quit word. */
  lemma CapitalExitIsQuit()
    ensures ReplCommand(" Exit ") == Quit
  {
    CapitalExitStrips();
    CapitalExitLowers();
    assert QuitWords[1] == "exit";
  }

  /** Quit words are matched after stripping and lower-casing: ` Exit `
      ends the loop. */
  lemma CapitalExitQuits(rest: seq<string>)
    ensures ReplPrompts([" Exit "] + rest) == []
  {
    CapitalExitIsQuit();
    assert ([" Exit "] + rest)[0] == " Exit ";
  }

  /** A blank line sends nothing and the loop goes on. */
  lemma ReplBlankSkipped(line: string, rest: seq<string>)
    requires Strip(line) == []
    ensures ReplPrompts([line] + rest) == ReplPrompts(rest)
  {
    assert ([line] + rest)[1..] == rest;
    assert Lower(Strip(line)) == [];
  }

  /** `q`, a quit word in the vLLM scripts, is an ordinary prompt here. */
  lemma LetterQIsAPrompt(line: string, rest: seq<string>)
    requires Strip(line) == ['q']
    ensures ReplPrompts([line] + rest) == [['q']] + ReplPrompts(rest)
  {
    assert ([line] + rest)[1..] == rest;
    assert Lower(Strip(line)) == ['q'];
  }
}
