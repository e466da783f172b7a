// `BatchInferenceEngine` of the vLLM batch example: the prompts built from
// a list of inputs, the sampling settings of one batch, and the result
// records built from the engine's outputs, each with the reasoning split
// done inline.
module BatchInference {
  import opened Wrappers
  import opened PyStr
  import opened Markers
  import opened ThinkingMode
  import opened NonThinkingMode
  import opened ChatHistory
  import opened BasicChat

  /** One input dictionary: the `messages` and `prompt` keys, either of
      which may be absent. */
  datatype BatchInput = BatchInput(messages: Option<seq<Message>>, prompt: Option<string>)

  /** The text of the `ValueError` raised for an input with neither key. */
  const MissingFieldError: string := "输入数据必须包含 'messages' 或 'prompt' 字段"

  /** The prompt for one input: the chat template applied to `messages`
      when that key is present, else the `prompt` value unchanged; `None`
      when neither key is present. `applyTemplate` stands for the
      tokenizer's `apply_chat_template` with a generation prompt. */
  function PromptFor(input: BatchInput, enableThinking: bool,
                     applyTemplate: (seq<Message>, bool) -> string): (r: Option<string>)
    ensures r.None? <==> input.messages.None? && input.prompt.None?
    ensures input.messages.Some? ==> r == Some(applyTemplate(input.messages.value, enableThinking))
    ensures input.messages.None? ==> r == input.prompt
  {
    match input.messages
    case Some(messages) => Some(applyTemplate(messages, enableThinking))
    case None => input.prompt
  }

  /** `prepare_prompts`: one prompt per input, in input order, or the
      `ValueError` when some input has neither key (no list is returned
      then, even if earlier inputs were fine). */
  method PreparePrompts(inputs: seq<BatchInput>, enableThinking: bool,
                        applyTemplate: (seq<Message>, bool) -> string)
    returns (r: Result<seq<string>, string>)
    ensures r.Err? <==> exists k :: 0 <= k < |inputs| && PromptFor(inputs[k], enableThinking, applyTemplate).None?
    ensures r.Err? ==> r.error == MissingFieldError
    ensures r.Ok? ==> |r.value| == |inputs|
    ensures r.Ok? ==> forall k :: 0 <= k < |inputs| ==>
      Some(r.value[k]) == PromptFor(inputs[k], enableThinking, applyTemplate)
  {
    var prompts: seq<string> := [];
    var i := 0;
    while i < |inputs|
      invariant 0 <= i <= |inputs|
      invariant |prompts| == i
      invariant forall k :: 0 <= k < i ==> Some(prompts[k]) == PromptFor(inputs[k], enableThinking, applyTemplate)
    {
      var inputData := inputs[i];
      var prompt: string;
      if inputData.messages.Some? {
        prompt := applyTemplate(inputData.messages.value, enableThinking);
      } else if inputData.prompt.Some? {
        prompt := inputData.prompt.value;
      } else {
        return Err(MissingFieldError);
      }
      prompts := prompts + [prompt];
      i := i + 1;
    }
    return Ok(prompts);
  }

  /** An input carrying both keys is sent as its conversation; its `prompt`
      value is never read. */
  lemma MessagesTakePrecedence(messages: seq<Message>, p1: string, p2: string, enableThinking: bool,
                               applyTemplate: (seq<Message>, bool) -> string)
    ensures PromptFor(BatchInput(Some(messages), Some(p1)), enableThinking, applyTemplate)
         == PromptFor(BatchInput(Some(messages), Some(p2)), enableThinking, applyTemplate)
         == PromptFor(BatchInput(Some(messages), None), enableThinking, applyTemplate)
  {
  }

  /** The sampling settings of one `llm.generate` call. `minP` is `None`
      when the argument is not passed. The floats are kept as reals. */
  datatype SamplingParams = SamplingParams(
    temperature: real, topP: real, topK: int, minP: Option<real>,
    maxTokens: int, stopTokenIds: seq<int>)

  /** The end-of-turn and end-of-text token ids generation stops at. */
  const StopTokenIds: seq<int> := [151645, 151643]

  /** The settings chosen by `batch_generate`: the recommended reasoning
      settings when thinking is on, the caller's otherwise; the token budget
      and stop tokens are the same in both. */
  function SamplingFor(enableThinking: bool, temperature: real, topP: real, topK: int, maxTokens: int): (r: SamplingParams)
    ensures r.maxTokens == maxTokens && r.stopTokenIds == StopTokenIds
    ensures enableThinking ==> r.temperature == 0.6 && r.topP == 0.95 && r.topK == 20 && r.minP == Some(0.0)
    ensures !enableThinking ==> r.temperature == temperature && r.topP == topP && r.topK == topK && r.minP.None?
  {
    if enableThinking then
      SamplingParams(0.6, 0.95, 20, Some(0.0), maxTokens, StopTokenIds)
    else
      SamplingParams(temperature, topP, topK, None, maxTokens, StopTokenIds)
  }

  /** With thinking on, the caller's temperature, top-p and top-k make no
      difference; only the token budget does. */
  lemma ThinkingIgnoresCallerSampling(t1: real, p1: real, k1: int, t2: real, p2: real, k2: int, maxTokens: int)
    ensures SamplingFor(true, t1, p1, k1, maxTokens) == SamplingFor(true, t2, p2, k2, maxTokens)
  {
  }

  /** With thinking off, different caller settings give different
      parameters: none of the three is dropped. */
  lemma NonThinkingKeepsCallerSampling(t1: real, p1: real, k1: int, t2: real, p2: real, k2: int, maxTokens: int)
    requires (t1, p1, k1) != (t2, p2, k2)
    ensures SamplingFor(false, t1, p1, k1, maxTokens) != SamplingFor(false, t2, p2, k2, maxTokens)
  {
  }

  /** The inline split of one generated text: the reasoning between the
      markers and the stripped rest when thinking is on and both markers
      occur; the stripped text after the first `</think>` when only the
      markers occur; otherwise the text as generated, not stripped. */
  function BatchSplit(generated: string, enableThinking: bool): (r: ChatAnswer)
    ensures !HasBothMarkers(generated) ==> r == ChatAnswer(generated, "")
    ensures HasBothMarkers(generated) ==> r.answer == CleanResponse(generated)
    ensures HasBothMarkers(generated) && enableThinking ==> r.thinking == ParseThinkingResponse(generated).thinking
    ensures !enableThinking ==> r.thinking == ""
  {
    var thinkingContent := "";
    var finalAnswer := generated;
    if enableThinking && Contains(generated, Open) && Contains(generated, Close) then
      var startIdx := Find(generated, Open) + 7;
      var endIdx := Find(generated, Close);
      ChatAnswer(Strip(SliceFrom(generated, endIdx + 8)), Strip(Slice(generated, startIdx, endIdx)))
    else if Contains(generated, Open) && Contains(generated, Close) then
      var startIdx := Find(generated, Close) + 8;
      ChatAnswer(Strip(SliceFrom(generated, startIdx)), thinkingContent)
    else
      ChatAnswer(finalAnswer, thinkingContent)
  }

  /** The batch split and the chat bot's split always agree on the
      reasoning; they agree on the answer exactly when both markers occur
      or the generated text has no surrounding whitespace. */
  lemma BatchSplitVersusChat(generated: string, enableThinking: bool)
    ensures BatchSplit(generated, enableThinking).thinking == ChatReply(generated, enableThinking).thinking
    ensures BatchSplit(generated, enableThinking).answer == ChatReply(generated, enableThinking).answer
        <==> HasBothMarkers(generated) || Strip(generated) == generated
  {
    if !HasBothMarkers(generated) {
      ParseWithoutMarkers(generated);
    }
  }

  /** A concrete disagreement: a reply with a trailing newline and no
      markers keeps the newline in the batch result only. */
  lemma TrailingNewlineKept(generated: string)
    requires generated == ['o', 'k', '\n']
    ensures BatchSplit(generated, false).answer == generated
    ensures ChatReply(generated, false).answer == ['o', 'k']
  {
    NoMarkerWithoutAngle(generated);
    assert IsSpace('\n');
    assert Strip(generated) == ['o', 'k'] by {
      var m: string := ['o', 'k'];
      var w: string := ['\n'];
      assert IsStripped(m) && AllSpace(w) && AllSpace([]);
      assert generated == [] + m + w;
      StripAround([], m, w);
    }
  }

  /** What the engine returns for one prompt: `outputs[0].text` and its
      `finish_reason`. */
  datatype Completion = Completion(text: string, finishReason: string)

  /** One record of the result list. */
  datatype BatchResult = BatchResult(
    index: nat, input: BatchInput, output: string, thinking: string,
    rawOutput: string, finishReason: string)

  /** The record for output `i`. */
  function ResultFor(i: nat, input: BatchInput, c: Completion, enableThinking: bool): (r: BatchResult)
    ensures r.index == i && r.input == input && r.rawOutput == c.text && r.finishReason == c.finishReason
    ensures ChatAnswer(r.output, r.thinking) == BatchSplit(c.text, enableThinking)
  {
    var split := BatchSplit(c.text, enableThinking);
    BatchResult(i, input, split.answer, split.thinking, c.text, c.finishReason)
  }

  /** One step of the result loop: appending the record built for output
      `i` extends the records of the outputs before it. */
  lemma AppendResult(results: seq<BatchResult>, inputs: seq<BatchInput>, outputs: seq<Completion>,
                     enableThinking: bool, i: nat, result: BatchResult)
    requires i < |outputs| <= |inputs| && |results| == i
    requires forall k :: 0 <= k < i ==> results[k] == ResultFor(k, inputs[k], outputs[k], enableThinking)
    requires var split := BatchSplit(outputs[i].text, enableThinking);
      result == BatchResult(i, inputs[i], split.answer, split.thinking, outputs[i].text, outputs[i].finishReason)
    ensures forall k :: 0 <= k < i + 1 ==> (results + [result])[k] == ResultFor(k, inputs[k], outputs[k], enableThinking)
  {
    assert result == ResultFor(i, inputs[i], outputs[i], enableThinking);
  }

  /** The result loop of `batch_generate`: one record per output, in output
      order, record `i` carrying index `i` and input `i`. The source reads
      `inputs[i]`, so there must be an input for every output. */
  method BuildResults(inputs: seq<BatchInput>, outputs: seq<Completion>, enableThinking: bool)
    returns (results: seq<BatchResult>)
    requires |outputs| <= |inputs|
    ensures |results| == |outputs|
    ensures forall i :: 0 <= i < |outputs| ==> results[i] == ResultFor(i, inputs[i], outputs[i], enableThinking)
  {
    results := [];
    var i := 0;
    while i < |outputs|
      invariant 0 <= i <= |outputs|
      invariant |results| == i
      invariant forall k :: 0 <= k < i ==> results[k] == ResultFor(k, inputs[k], outputs[k], enableThinking)
    {
      var generatedText := outputs[i].text;
      var split := BatchSplit(generatedText, enableThinking);
      var result := BatchResult(i, inputs[i], split.answer, split.thinking, generatedText, outputs[i].finishReason);
      AppendResult(results, inputs, outputs, enableThinking, i, result);
      results := results + [result];
      i := i + 1;
    }
  }

  /** The message of the `ZeroDivisionError` raised by the per-request
      timing report when the batch is empty. */
  const EmptyBatchError: string := "float division by zero"

  /** `batch_generate`. `generate` stands for the engine run on one prompt;
      the engine answers every prompt of the batch, in order. A missing
      field stops the batch before anything is generated; an empty batch
      raises in the average-time report (`duration / len(prompts)`), which
      no `try` catches, so no list is returned either. */
  method BatchGenerate(inputs: seq<BatchInput>, enableThinking: bool,
                       temperature: real, topP: real, topK: int, maxTokens: int,
                       applyTemplate: (seq<Message>, bool) -> string,
                       generate: (string, SamplingParams) -> Completion)
    returns (r: Result<seq<BatchResult>, string>)
    ensures r.Err? <==> |inputs| == 0 || exists k :: 0 <= k < |inputs| && PromptFor(inputs[k], enableThinking, applyTemplate).None?
    ensures |inputs| == 0 ==> r == Err(EmptyBatchError)
    ensures r.Err? && |inputs| > 0 ==> r.error == MissingFieldError
    ensures r.Ok? ==> |r.value| == |inputs|
    ensures r.Ok? ==> forall i :: 0 <= i < |inputs| ==>
      r.value[i] == ResultFor(i, inputs[i],
        generate(PromptFor(inputs[i], enableThinking, applyTemplate).value,
                 SamplingFor(enableThinking, temperature, topP, topK, maxTokens)),
        enableThinking)
  {
    var prompts := PreparePrompts(inputs, enableThinking, applyTemplate);
    if prompts.Err? {
      return Err(prompts.error);
    }
    var params := SamplingFor(enableThinking, temperature, topP, topK, maxTokens);
    var ps := prompts.value;
    var outputs := seq(|ps|, k requires 0 <= k < |ps| => generate(ps[k], params));
    if |ps| == 0 {
      return Err(EmptyBatchError);
    }
    var results := BuildResults(inputs, outputs, enableThinking);
    return Ok(results);
  }

  /** Every record keeps the generated text verbatim, and its answer is a
      piece of that text. */
  lemma ResultsKeepRawOutput(i: nat, input: BatchInput, c: Completion, enableThinking: bool)
    ensures ResultFor(i, input, c, enableThinking).rawOutput == c.text
    ensures Contains(c.text, ResultFor(i, input, c, enableThinking).output)
  {
    if HasBothMarkers(c.text) {
      assert BatchSplit(c.text, enableThinking).answer == CleanResponse(c.text);
    } else {
      assert OccursAt(c.text, c.text, 0);
    }
  }
}
