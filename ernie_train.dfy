// `process_func` of the ERNIE-4.5 LoRA fine-tuning script: one training
// example (instruction, output) becomes token ids, an attention mask and
// labels in which the prompt part is masked out of the loss.
module ErnieTrain {

  /** `TrainingConfig.MAX_LENGTH` in config.py. */
  const MaxLength: nat := 1024

  /** The label value the loss ignores. */
  const IgnoreIndex: int := -100

  /** One record of the dialogue data set. */
  datatype Example = Example(instruction: string, output: string)

  /** The three lists `process_func` returns. */
  datatype Features = Features(inputIds: seq<int>, attentionMask: seq<int>, labels: seq<int>)

  /** The role-play header and the turn markers of the prompt template. */
  const PromptHead: string := "<|begin_of_sentence|>现在你要扮演皇帝身边的女人--甄嬛\nUser: "
  const PromptTail: string := "\nAssistant: "
  const EndOfSentence: string := "<|end_of_sentence|>"

  /** The text tokenized for the instruction part. */
  function PromptText(instruction: string): (t: string)
    ensures |t| == |PromptHead| + |instruction| + |PromptTail|
    ensures t[..|PromptHead|] == PromptHead
    ensures t[|t| - |PromptTail|..] == PromptTail
  {
    PromptHead + instruction + PromptTail
  }

  /** The text tokenized for the response part. */
  function ResponseText(output: string): (t: string)
    ensures |t| == |output| + |EndOfSentence|
    ensures t[|output|..] == EndOfSentence
  {
    output + EndOfSentence
  }

  /** The instruction can be read back from the prompt text, so different
      instructions give different prompts. */
  lemma PromptTextRecovers(instruction: string)
    ensures PromptText(instruction)[|PromptHead|..|PromptHead| + |instruction|] == instruction
  {
    var t := PromptText(instruction);
    assert forall k :: 0 <= k < |instruction| ==> t[|PromptHead| + k] == instruction[k];
  }

  /** The output can be read back from the response text. */
  lemma ResponseTextRecovers(output: string)
    ensures ResponseText(output)[..|output|] == output
  {
    assert forall k :: 0 <= k < |output| ==> ResponseText(output)[k] == output[k];
  }

  /** `[x] * n`. */
  function Repeat(x: int, n: nat): (r: seq<int>)
    ensures |r| == n
    ensures forall k :: 0 <= k < n ==> r[k] == x
  {
    if n == 0 then [] else Repeat(x, n - 1) + [x]
  }

  /** `process_func`. `tokenize` stands for the tokenizer called without
      special tokens, and `padId` for its `pad_token_id`. The token ids are
      the instruction ids, the response ids and the pad id; the mask is all
      ones; the labels mask the instruction ids with -100 and repeat the
      rest; all three are cut to their first `MaxLength` entries when
      longer. */
  function ProcessFunc(ex: Example, tokenize: string -> seq<int>, padId: int): (r: Features)
    ensures var instruction := tokenize(PromptText(ex.instruction));
      var full := instruction + tokenize(ResponseText(ex.output)) + [padId];
      && |r.inputIds| == |r.attentionMask| == |r.labels|
      && |r.inputIds| == (if |full| > MaxLength then MaxLength else |full|)
      && r.inputIds == full[..|r.inputIds|]
      && (forall k :: 0 <= k < |r.attentionMask| ==> r.attentionMask[k] == 1)
      && (forall k :: 0 <= k < |r.labels| ==>
            r.labels[k] == (if k < |instruction| then IgnoreIndex else r.inputIds[k]))
  {
    var instruction := tokenize(PromptText(ex.instruction));
    var response := tokenize(ResponseText(ex.output));
    var inputIds := instruction + response + [padId];
    var attentionMask := Repeat(1, |inputIds|);
    var labels := Repeat(IgnoreIndex, |instruction|) + response + [padId];
    if |inputIds| > MaxLength then
      Features(inputIds[..MaxLength], attentionMask[..MaxLength], labels[..MaxLength])
    else
      Features(inputIds, attentionMask, labels)
  }

  /** An example that fits is not cut: the ids are exactly instruction,
      response and pad, and the labels after the masked prefix are the
      response ids and the pad. */
  lemma ShortExampleKept(ex: Example, tokenize: string -> seq<int>, padId: int)
    requires |tokenize(PromptText(ex.instruction))| + |tokenize(ResponseText(ex.output))| + 1 <= MaxLength
    ensures var instruction := tokenize(PromptText(ex.instruction));
      var response := tokenize(ResponseText(ex.output));
      var r := ProcessFunc(ex, tokenize, padId);
      && r.inputIds == instruction + response + [padId]
      && r.labels == Repeat(IgnoreIndex, |instruction|) + response + [padId]
  {
    var instruction := tokenize(PromptText(ex.instruction));
    var response := tokenize(ResponseText(ex.output));
    var r := ProcessFunc(ex, tokenize, padId);
    assert r.labels == Repeat(IgnoreIndex, |instruction|) + response + [padId];
  }

  /** A long example keeps exactly `MaxLength` tokens; when the instruction
      alone fills them, no entry of the labels counts for the loss. */
  lemma LongExampleCut(ex: Example, tokenize: string -> seq<int>, padId: int)
    requires |tokenize(PromptText(ex.instruction))| + |tokenize(ResponseText(ex.output))| + 1 > MaxLength
    ensures |ProcessFunc(ex, tokenize, padId).inputIds| == MaxLength
    ensures |tokenize(PromptText(ex.instruction))| >= MaxLength ==>
      forall k :: 0 <= k < MaxLength ==> ProcessFunc(ex, tokenize, padId).labels[k] == IgnoreIndex
  {
  }
}
