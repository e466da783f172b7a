# Qwen3 / ERNIE / Gemma / MiniCPM example scripts — a verified model of their logic

The `self-llm` repository is a collection of tutorial scripts that drive large
language models through vLLM, transformers, FastAPI and OpenAI clients. Most of
the code only calls libraries. This project models the small amount of
self-contained logic inside those scripts, in Dafny, and proves what the
scripts promise about it:

- **Reasoning-marker splitting** of Qwen3 output: `parse_thinking_response`,
  `clean_response`, and the inline copies in `QwenChatBot.chat` and
  `BatchInferenceEngine.batch_generate`. Each copy splits a generated text
  around the first `<think>` and the first `</think>`. The copies are proved
  to agree where they do, and to differ exactly where they do.
  (`ThinkingMode`, `NonThinkingMode`, `BasicChat`, `BatchInference`,
  `Markers`)
- **Chat-history bookkeeping** in the console loops:
  - append the user entry, then the assistant entry;
  - keep only the last 20 (or 10) entries;
  - handle quit, clear, the reasoning toggle and blank input.
  Each loop is a method proved equal to a function over the input lines.
  (`ChatHistory`, `BasicChat`, `StreamingChat`, `ChatCompletionsTest`)
- **Streaming accumulation**: the non-empty deltas are concatenated, and an
  exception gives `""`. (`StreamingChat`, `ChatCompletionsTest`)
- **ERNIE fine-tuning examples** (`process_func`): the prompt is masked with
  -100 and the three lists are truncated together. (`ErnieTrain`)
- **ERNIE checkpoint selection and message construction**. (`ErnieInference`)
- **The Gemma FastAPI service**:
  - the pydantic validation of requests;
  - the system-prompt replacement, where the last system message wins;
  - the message order;
  - the token clamp.
  (`GemmaApi`)
- **The vLLM server launcher**: the model-path search, the model-directory
  check, and the `vllm serve` command line. (`VllmServer`)
- **MiniCPM-o audio understanding**: the prompt selection and the rejection of
  console input. (`AudioUnderstanding`)

Python's string and list primitives have their own module, `PyStr`, which
spells out their exact behaviour:
- `find`, which returns -1 when the text is absent;
- `in` on strings;
- slicing, with clamping and negative indices;
- `strip`, over the whitespace set of `str.isspace`;
- ASCII `lower`;
- `split` and `join` on a one-character separator;
- `int()` and `str()` on integers;
- `os.path.join`.

Each external library call becomes a function-typed parameter, as does each
filesystem query and each line read from the console. These cover the
tokenizer, the chat template, the generation engine, `os.path.exists` and
`os.listdir`. An exception raised by such a call becomes an `Option` or
`Result` error value.

## Model

| member | source | states |
|---|---|---|
| ThinkingMode.ParseThinkingResponse | examples/Qwen3-8B-vLLM/vllm_thinking_mode.py:111-133 | total on every string; both parts have no surrounding whitespace and are contiguous pieces of the input |
| ThinkingMode.ParseWithoutMarkers | examples/Qwen3-8B-vLLM/vllm_thinking_mode.py:131-133 | when either marker is absent the result is `("", strip(text))` |
| ThinkingMode.ParseWellFormed | examples/Qwen3-8B-vLLM/vllm_thinking_mode.py:121-130 | `<think>`+a+`</think>`+b with no `</think>` in a splits into `(strip(a), strip(b))`; later marker pairs in b stay verbatim in the answer |
| ThinkingMode.ParseAtFirstPair | examples/Qwen3-8B-vLLM/vllm_thinking_mode.py:121-128 | conversely, any text whose first `<think>` precedes its first `</think>` decomposes around those first occurrences, and the split is the stripped middle and the stripped rest |
| ThinkingMode.ParseCloseFirst | examples/Qwen3-8B-vLLM/vllm_thinking_mode.py:123-128 | when the first `</think>` precedes the first `<think>`, the reasoning is `""` but the answer is still the stripped text after that `</think>` |
| Markers.FirstMarkersApart | examples/Qwen3-8B-vLLM/vllm_thinking_mode.py:123-124 | the first `</think>` lies before the first `<think>` or at least 7 characters after it, so the `+7` slice start never cuts into a `</think>` |
| Markers.MarkerLengths | examples/Qwen3-8B-vLLM/vllm_thinking_mode.py:123-128 | the offsets 7 and 8 the scripts add are the lengths of `<think>` and `</think>` |
| NonThinkingMode.CleanResponse | examples/Qwen3-8B-vLLM/vllm_non_thinking_mode.py:111-126 | the cleaned text has no surrounding whitespace and is a contiguous piece of the input |
| NonThinkingMode.CleanMatchesParse | examples/Qwen3-8B-vLLM/vllm_non_thinking_mode.py:121-126 | on every input the cleaned text equals the answer half of `parse_thinking_response` |
| NonThinkingMode.CleanWellFormed | examples/Qwen3-8B-vLLM/vllm_non_thinking_mode.py:122-124 | `<think>`+a+`</think>`+b with no `</think>` in a cleans to `strip(b)` |
| NonThinkingMode.CleanOnlyOpen | examples/Qwen3-8B-vLLM/vllm_non_thinking_mode.py:122-126 | a text with `<think>` but no `</think>` is only trimmed, and the result still starts with `<think>` |
| NonThinkingMode.CleanAgainWithoutPair | examples/Qwen3-8B-vLLM/vllm_non_thinking_mode.py:122-126 | cleaning twice equals cleaning once whenever the cleaned text does not hold both markers |
| NonThinkingMode.CleanNotIdempotent | examples/Qwen3-8B-vLLM/vllm_non_thinking_mode.py:122-126 | two empty marker pairs before a visible character: the second pass removes the second pair, so cleaning is not idempotent in general |
| NonThinkingMode.CleanAfterEmptyPair | examples/Qwen3-8B-vLLM/vllm_non_thinking_mode.py:121-124 | the empty `<think></think>` pair emitted with reasoning off is removed and the rest trimmed |
| BasicChat.ChatReply | examples/Qwen3-8B-vLLM/examples/basic_chat.py:130-144 | the answer is always `clean_response(text)`; the reasoning is the thinking-mode reasoning when reasoning is on and `""` when it is off |
| BasicChat.ChatReplySwapsParse | examples/Qwen3-8B-vLLM/examples/basic_chat.py:130-136 | with reasoning on, `chat` returns the thinking-mode pair in the reverse order |
| BasicChat.Chat | examples/Qwen3-8B-vLLM/examples/basic_chat.py:107-144 | the user message is appended in place to a non-empty caller list; an empty or missing history leaves the caller's list untouched; the reply is the split of what the engine generated for exactly that list |
| BasicChat.InteractiveChat | examples/Qwen3-8B-vLLM/examples/basic_chat.py:242-293 | the loop ends with the conversation and mode of the session function over the input lines, and the conversation never exceeds 20 entries |
| BasicChat.QuitStops | examples/Qwen3-8B-vLLM/examples/basic_chat.py:257-259 | a quit word (case-insensitive, after stripping) ends the session with nothing changed |
| BasicChat.ClearEmpties | examples/Qwen3-8B-vLLM/examples/basic_chat.py:260-263 | `clear`/`清空` empties the history and keeps the mode |
| BasicChat.ToggleKeepsConversation | examples/Qwen3-8B-vLLM/examples/basic_chat.py:264-268 | `thinking`/`思考` flips the mode and keeps the history |
| BasicChat.BlankSkipped | examples/Qwen3-8B-vLLM/examples/basic_chat.py:269-270 | blank input changes nothing |
| BasicChat.TurnAppendsPair | examples/Qwen3-8B-vLLM/examples/basic_chat.py:281-287 | a successful turn ends with the user entry then the assistant entry holding the cleaned answer, and the result is at most 20 entries |
| BasicChat.FailedTurnKeepsSession | examples/Qwen3-8B-vLLM/examples/basic_chat.py:272-293 | a turn whose generation raises leaves the conversation unchanged |
| ChatHistory.KeepLast | examples/Qwen3-8B-vLLM/examples/basic_chat.py:286-287 | `h[-n:]` when longer than n: at most n entries, exactly the newest ones, unchanged when short enough |
| ChatHistory.KeepLastKeepsNewestPair | examples/Qwen3-8B-vLLM/examples/basic_chat.py:282-287 | trimming to at least two keeps the user/assistant pair just appended at the end |
| ChatHistory.ReadCommand | examples/Qwen3-8B-vLLM/examples/basic_chat.py:255-270 | the input is stripped, then lower-cased; quit words win over clear words, clear words over toggle words; other non-blank input is the stripped text |
| ChatHistory.BlankLineSkipped | examples/Qwen3-8B-vLLM/examples/basic_chat.py:269-270 | a blank line is skipped whenever no command word is empty |
| BatchInference.PromptFor | examples/Qwen3-8B-vLLM/examples/batch_inference.py:89-101 | `messages` is rendered through the chat template and takes precedence; otherwise `prompt` passes through unchanged; no prompt exactly when neither key is present |
| BatchInference.PreparePrompts | examples/Qwen3-8B-vLLM/examples/batch_inference.py:86-105 | one prompt per input in input order, or the `ValueError` exactly when some input has neither key |
| BatchInference.MessagesTakePrecedence | examples/Qwen3-8B-vLLM/examples/batch_inference.py:89-99 | the `prompt` value of an input that also has `messages` is never read |
| BatchInference.SamplingFor | examples/Qwen3-8B-vLLM/examples/batch_inference.py:134-152 | thinking mode uses temperature 0.6, top-p 0.95, top-k 20 and min-p 0; otherwise the caller's values; the token budget and stop tokens are the same in both |
| BatchInference.ThinkingIgnoresCallerSampling | examples/Qwen3-8B-vLLM/examples/batch_inference.py:134-143 | with thinking on, the caller's temperature, top-p and top-k make no difference |
| BatchInference.NonThinkingKeepsCallerSampling | examples/Qwen3-8B-vLLM/examples/batch_inference.py:144-152 | with thinking off, different caller settings give different sampling parameters |
| BatchInference.BatchSplit | examples/Qwen3-8B-vLLM/examples/batch_inference.py:174-185 | without both markers the output is the generated text unstripped; with both it is the cleaned answer, and the reasoning is the thinking-mode reasoning when thinking is on |
| BatchInference.BatchSplitVersusChat | examples/Qwen3-8B-vLLM/examples/batch_inference.py:174-185 | the batch split and `chat` always agree on the reasoning, and agree on the answer if and only if both markers occur or the text has no surrounding whitespace |
| BatchInference.TrailingNewlineKept | examples/Qwen3-8B-vLLM/examples/batch_inference.py:174-175 | a reply `ok\n` without markers keeps its newline in the batch result but not in `chat` |
| BatchInference.ResultFor | examples/Qwen3-8B-vLLM/examples/batch_inference.py:187-194 | record i carries index i, input i, the raw text, its finish reason, and the batch split of the text |
| BatchInference.BuildResults | examples/Qwen3-8B-vLLM/examples/batch_inference.py:169-197 | one record per output, in order, record i built from input i and output i |
| BatchInference.BatchGenerate | examples/Qwen3-8B-vLLM/examples/batch_inference.py:107-197 | fails exactly when the batch is empty (the division by `len(prompts)` in the timing summary raises) or some input has neither key; otherwise one record per input, holding the generation for that input's prompt under the chosen sampling |
| BatchInference.ResultsKeepRawOutput | examples/Qwen3-8B-vLLM/examples/batch_inference.py:171-192 | the raw output is the generated text verbatim and the output is a piece of it |
| StreamingChat.StreamChat | examples/Qwen3-8B-vLLM/examples/streaming_chat.py:79-99 | the reply is the in-order concatenation of the non-`None` deltas, or `""` when the stream raises |
| StreamingChat.AsyncStreamChat | examples/Qwen3-8B-vLLM/examples/streaming_chat.py:118-138 | the asynchronous variant has the same contract |
| StreamingChat.DeltasAppend | examples/Qwen3-8B-vLLM/examples/streaming_chat.py:88-93 | accumulation distributes over concatenated streams |
| StreamingChat.DeltasSkipNone | examples/Qwen3-8B-vLLM/examples/streaming_chat.py:90 | a chunk whose content is `None` contributes nothing |
| StreamingChat.DeltasOfContents | examples/Qwen3-8B-vLLM/examples/streaming_chat.py:88-95 | a stream of contents accumulates to their `"".join` |
| StreamingChat.RaiseDiscardsPartial | examples/Qwen3-8B-vLLM/examples/streaming_chat.py:97-99 | an exception anywhere discards the text accumulated so far |
| StreamingChat.MultiTurnDemo | examples/Qwen3-8B-vLLM/examples/streaming_chat.py:197-211 | the history grows by 2 per turn: user entry k at 2k, the streamed reply to the history up to it at 2k+1 |
| StreamingChat.InteractiveStreaming | examples/Qwen3-8B-vLLM/examples/streaming_chat.py:280-312 | the loop ends with the conversation of the run function over the input lines, never longer than 20 |
| StreamingChat.StreamingTurnAppendsPair | examples/Qwen3-8B-vLLM/examples/streaming_chat.py:295-306 | each turn ends with the user entry and then the assistant entry (possibly `""`), trimmed to 20 |
| StreamingChat.CheckServerHealthAsWritten | examples/Qwen3-8B-vLLM/examples/streaming_chat.py:50-60 | as written: healthy only when the listing request succeeds and lists no model |
| StreamingChat.ServingServerReportedDown | examples/Qwen3-8B-vLLM/examples/streaming_chat.py:53-59 | as written: a server serving one model is reported down |
| StreamingChat.CheckServerHealth | examples/Qwen3-8B-vLLM/examples/streaming_chat.py:50-60 | as intended: healthy exactly when the listing request succeeds |
| StreamingChat.HealthChecksDiffer | examples/Qwen3-8B-vLLM/examples/streaming_chat.py:53-55 | the intended check accepts all the written one does, and also exactly the servers serving at least one model |
| StreamingChat.StreamingCommands | examples/Qwen3-8B-vLLM/examples/streaming_chat.py:284-292 | quit words end the loop, clear words reset the history, blank input leaves it unchanged |
| ChatCompletionsTest.TestStreamingChat | examples/Qwen3-8B-vLLM/test_openai_chat_completions.py:203-223 | the accumulated reply is the concatenation of the non-`None` deltas, and there is none exactly when the stream raises |
| ChatCompletionsTest.TestAgreesWithClient | examples/Qwen3-8B-vLLM/test_openai_chat_completions.py:212-217 | on a stream that does not raise, the test and the streaming client accumulate the same text |
| ChatCompletionsTest.ChatTurn | examples/Qwen3-8B-vLLM/test_openai_chat_completions.py:261-285 | one loop turn: the user entry is appended before the call, the assistant entry and the trim to 10 only after a reply |
| ChatCompletionsTest.InteractiveTest | examples/Qwen3-8B-vLLM/test_openai_chat_completions.py:249-285 | the loop ends with the history of the run function over the input lines |
| ChatCompletionsTest.SuccessfulTurnBounded | examples/Qwen3-8B-vLLM/test_openai_chat_completions.py:271-279 | after a successful turn the history ends with user then assistant and holds at most 10 entries |
| ChatCompletionsTest.FailedTurnKeepsUser | examples/Qwen3-8B-vLLM/test_openai_chat_completions.py:261-285 | after a failed call the user entry stays and nothing is trimmed |
| ChatCompletionsTest.FailuresGrowHistory | examples/Qwen3-8B-vLLM/test_openai_chat_completions.py:261-285 | repeated failures grow the history by one per line, past 10 |
| ErnieTrain.PromptText | examples/ERNIE-4.5-0.3B-PT-Lora/train.py:39-44 | the prompt is the role-play header, the instruction, then `\nAssistant: ` |
| ErnieTrain.PromptTextRecovers | examples/ERNIE-4.5-0.3B-PT-Lora/train.py:39-44 | the instruction is read back from the prompt at a fixed offset |
| ErnieTrain.ResponseText | examples/ERNIE-4.5-0.3B-PT-Lora/train.py:45 | the response is the output followed by `<|end_of_sentence|>` |
| ErnieTrain.ResponseTextRecovers | examples/ERNIE-4.5-0.3B-PT-Lora/train.py:45 | the output is read back from the response |
| ErnieTrain.Repeat | examples/ERNIE-4.5-0.3B-PT-Lora/train.py:50-52 | `[x] * n` has n entries, all equal to x |
| ErnieTrain.ProcessFunc | examples/ERNIE-4.5-0.3B-PT-Lora/train.py:34-64 | three lists of equal length `min(len, 1024)`; the ids are a prefix of instruction ids + response ids + pad; the mask is all 1; a label is -100 over the instruction and equals the id elsewhere |
| ErnieTrain.ShortExampleKept | examples/ERNIE-4.5-0.3B-PT-Lora/train.py:48-52 | an example that fits is not cut |
| ErnieTrain.LongExampleCut | examples/ERNIE-4.5-0.3B-PT-Lora/train.py:55-58 | a long example keeps exactly 1024 tokens (`MAX_LENGTH`, ERNIE config.py line 46); an instruction that fills them leaves no label counted |
| ErnieInference.Candidates | examples/ERNIE-4.5-0.3B-PT-Lora/inference.py:80-82 | exactly the listing entries starting with `checkpoint-` |
| ErnieInference.NoCandidates | examples/ERNIE-4.5-0.3B-PT-Lora/inference.py:80-86 | a listing without such entries gives no candidates |
| ErnieInference.CandidatesAppend | examples/ERNIE-4.5-0.3B-PT-Lora/inference.py:80-82 | the candidates keep listing order: those of a concatenation are those of the first part followed by those of the second |
| ErnieInference.CandidatesOne | examples/ERNIE-4.5-0.3B-PT-Lora/inference.py:81-82 | a single entry is kept exactly when it starts with `checkpoint-` |
| ErnieInference.CollectCheckpoints | examples/ERNIE-4.5-0.3B-PT-Lora/inference.py:78-82 | the loop collects the candidates, and nothing when the output directory is missing |
| ErnieInference.CheckpointKeyOfStep | examples/ERNIE-4.5-0.3B-PT-Lora/inference.py:89 | the sort key of `checkpoint-<n>` is n |
| ErnieInference.CandidateHasSecondField | examples/ERNIE-4.5-0.3B-PT-Lora/inference.py:89 | a candidate always has a second `-` field, and its key is `int()` of the text after the prefix up to the next `-` |
| ErnieInference.AllKeys | examples/ERNIE-4.5-0.3B-PT-Lora/inference.py:89 | the keys are all computed before sorting; one failing `int()` fails the whole sort |
| ErnieInference.LatestIndex | examples/ERNIE-4.5-0.3B-PT-Lora/inference.py:89 | `sorted(...)[-1]` picks a maximal key, the last of the tied ones in listing order |
| ErnieInference.LatestIndexUnique | examples/ERNIE-4.5-0.3B-PT-Lora/inference.py:89 | that choice is the only index with both properties |
| ErnieInference.LatestCheckpoint | examples/ERNIE-4.5-0.3B-PT-Lora/inference.py:89 | the chosen name is a candidate; no choice exactly when some key is not an integer |
| ErnieInference.LatestCheckpointIsNewest | examples/ERNIE-4.5-0.3B-PT-Lora/inference.py:89 | no candidate has a larger key than the chosen one |
| ErnieInference.SelectLoraPath | examples/ERNIE-4.5-0.3B-PT-Lora/inference.py:77-90 | returns early when the directory is missing or empty of candidates, fails on a non-integer key, and otherwise gives the output directory joined with the newest checkpoint |
| ErnieInference.GenerateMessages | examples/ERNIE-4.5-0.3B-PT-Lora/inference.py:38-44 | exactly `[system, user]`; the system text defaults to the Zhen Huan role message when none is given |
| ErnieInference.GenerateResponse | examples/ERNIE-4.5-0.3B-PT-Lora/inference.py:47-72 | the reply has no surrounding whitespace |
| ErnieInference.ResponseDecodesOnlyNewTokens | examples/ERNIE-4.5-0.3B-PT-Lora/inference.py:69-70 | only the ids generated after the input are decoded |
| ErnieInference.ReplPrompts | examples/ERNIE-4.5-0.3B-PT-Lora/inference.py:130-144 | every prompt sent is non-empty and stripped |
| ErnieInference.ErnieRepl | examples/ERNIE-4.5-0.3B-PT-Lora/inference.py:130-144 | the loop sends exactly the prompts of the function over the input lines, stopping at a quit word |
| ErnieInference.LetterQIsAPrompt | examples/ERNIE-4.5-0.3B-PT-Lora/inference.py:133 | unlike the vLLM loops, `q` alone is a prompt, not a quit word |
| ErnieInference.ReplQuitStops | examples/ERNIE-4.5-0.3B-PT-Lora/inference.py:130-135 | the first quit word ends the loop: the prompts sent are those of the lines before it, whatever follows |
| ErnieInference.CapitalExitQuits | examples/ERNIE-4.5-0.3B-PT-Lora/inference.py:131-134 | quit words are matched after stripping and lower-casing: ` Exit ` ends the loop |
| ErnieInference.ReplBlankSkipped | examples/ERNIE-4.5-0.3B-PT-Lora/inference.py:136-137 | a blank line sends nothing and the loop goes on |
| GemmaApi.ValidateContentItem | examples/gemma-3-4b-it-FastApi/api.py:35-47 | accepted if and only if the type is `text` or `image` and each present field passes the check for that type: non-empty for text, an `http://`, `https://` or `data:image` prefix for image; the accepted item keeps the client's type, text and image |
| GemmaApi.ImageSourceRule | examples/gemma-3-4b-it-FastApi/api.py:44-46 | an image item is accepted if and only if its source has one of the three prefixes |
| GemmaApi.TextItemRule | examples/gemma-3-4b-it-FastApi/api.py:37-43 | an empty text is rejected; a missing text is accepted, because validators do not run on defaults |
| GemmaApi.ValidateItems | examples/gemma-3-4b-it-FastApi/api.py:51 | a content list is accepted if and only if every item is, and keeps its items |
| GemmaApi.ValidateMessage | examples/gemma-3-4b-it-FastApi/api.py:49-51 | accepted if and only if the role is one of the three and the content is accepted; the accepted message keeps the client's role and its validated items |
| GemmaApi.ValidateMessages | examples/gemma-3-4b-it-FastApi/api.py:54 | accepted if and only if every message is; the accepted list is the validated messages in the client's order |
| GemmaApi.ValidateRequest | examples/gemma-3-4b-it-FastApi/api.py:53-55 | accepted if and only if there is at least one message, all are valid and `10 <= max_new_tokens <= 4096`; the default is 1000; the accepted request carries the validated messages |
| GemmaApi.RequestKeepsClientMessages | examples/gemma-3-4b-it-FastApi/api.py:35-55 | every message and item of an accepted request is the client's: same role, same number of items, same type, text and image |
| GemmaApi.NonSystem | examples/gemma-3-4b-it-FastApi/api.py:106-110 | the kept messages are non-system messages of the request |
| GemmaApi.BuildMessages | examples/gemma-3-4b-it-FastApi/api.py:102-116 | fails exactly when a system message holds a text item without text; otherwise one system entry with the final prompt, followed by the non-system messages |
| GemmaApi.LastSystemWins | examples/gemma-3-4b-it-FastApi/api.py:106-108 | the prompt is the space-join of the texts of the last system message |
| GemmaApi.NoSystemMessage | examples/gemma-3-4b-it-FastApi/api.py:103-110 | without a system message the default prompt is used and every message is kept |
| GemmaApi.NonSystemAppend | examples/gemma-3-4b-it-FastApi/api.py:106-110 | the kept messages keep their original order |
| GemmaApi.EffectiveMaxTokens | examples/gemma-3-4b-it-FastApi/api.py:130-132 | the limit is `min(4096, max_new_tokens)` |
| GemmaApi.ClampIsIdentityOnValidRequests | examples/gemma-3-4b-it-FastApi/api.py:130-132 | on a validated request the clamp changes nothing |
| GemmaApi.TokensGenerated | examples/gemma-3-4b-it-FastApi/api.py:128-149 | the count is the generation length minus the input length, and 0 when the generation is shorter |
| VllmServer.GetModelPath | examples/Qwen3-8B-EvalScope/start_vllm_server.py:14-28 | the AutoDL directory is chosen exactly when it exists; otherwise the local path, whether or not it exists |
| VllmServer.CheckModelExists | examples/Qwen3-8B-EvalScope/start_vllm_server.py:31-46 | true if and only if the directory exists and both `config.json` and `tokenizer.json` exist in it |
| VllmServer.RequiredFilesInsideDirectory | examples/Qwen3-8B-EvalScope/start_vllm_server.py:40-42 | the files are looked for at `<dir>/config.json` and `<dir>/tokenizer.json` |
| VllmServer.ServeCommand | examples/Qwen3-8B-EvalScope/start_vllm_server.py:79-92 | the list built and extended in place is the serve argument list: the sixteen words of the literal, then `--reasoning-parser <p>` at the end exactly when reasoning is on |
| VllmServer.BaseArgsLeadingWords | examples/Qwen3-8B-EvalScope/start_vllm_server.py:80-81 | the literal starts with `vllm serve <path> --host <host>` |
| VllmServer.BaseArgsPortAndNameWords | examples/Qwen3-8B-EvalScope/start_vllm_server.py:82-83 | then `--port` with the port in decimal and `--served-model-name <name>` |
| VllmServer.BaseArgsTrailingWords | examples/Qwen3-8B-EvalScope/start_vllm_server.py:84-87 | then the length, memory and parallelism pairs with the integers in decimal, ending with `--trust-remote-code`: sixteen words |
| VllmServer.ReasoningOnlyAppends | examples/Qwen3-8B-EvalScope/start_vllm_server.py:91-92 | turning reasoning on changes the command only by appending `--reasoning-parser <p>` |
| VllmServer.CommandIntegersRoundTrip | examples/Qwen3-8B-EvalScope/start_vllm_server.py:82-86 | the port, maximum length and parallel size written into the command read back as the same integers |
| VllmServer.ServeEnvironment | examples/Qwen3-8B-EvalScope/start_vllm_server.py:75-76 | the caller's environment with `VLLM_USE_MODELSCOPE=true` and nothing else changed |
| VllmServer.ServerMain | examples/Qwen3-8B-EvalScope/start_vllm_server.py:184-202 | an explicit non-empty model path overrides the search; a failed check exits before any command is built; otherwise the command is the serve argument list for that path with reasoning on exactly when it is not disabled |
| AudioUnderstanding.TaskTableShape | examples/MiniCPM-o-2.6-Audio/audio_understanding.py:22-30 | the table of tasks has exactly seven keys, the default among them, and no empty prompt |
| AudioUnderstanding.SelectPrompt | examples/MiniCPM-o-2.6-Audio/audio_understanding.py:79-86 | a non-empty custom prompt wins; otherwise a known task gives its table prompt and an unknown one gives none |
| AudioUnderstanding.SelectedPromptNonEmpty | examples/MiniCPM-o-2.6-Audio/audio_understanding.py:79-82 | the selected prompt is never empty |
| AudioUnderstanding.UnderstandAudio | examples/MiniCPM-o-2.6-Audio/audio_understanding.py:60-89 | a missing file returns before prompt selection; otherwise the model gets a single user message with content `[prompt, audio]` exactly when a prompt was selected |
| AudioUnderstanding.AudioMain | examples/MiniCPM-o-2.6-Audio/audio_understanding.py:129-155 | a missing or empty audio path is refused first and a choice other than `1`/`2` next; a call is made exactly when the stripped detail line is non-empty, with the stripped path and either that line as `task` (choice `1`) or as the custom prompt with the default `task` (choice `2`) |
| AudioUnderstanding.MainCallsReachModel | examples/MiniCPM-o-2.6-Audio/audio_understanding.py:141-153 | a call with a custom prompt always reaches the model with that prompt; a call with a task reaches it exactly when that task is in the table |

## Left out

- Console output, logging, timing and throughput arithmetic, and file output (`save_results_to_file`) are left out; only the values that decide control flow are modelled. The one exception is the division by the batch size in the timing summary of `batch_generate`, which raises on an empty batch and is modelled as an error result.
- `KeyboardInterrupt` and end of input in the console loops are not modelled; the input lines are a finite sequence and the loop ends when it is used up.
- The model, tokenizer, chat-template, engine, TTS, HTTP and OpenAI-client calls are function-typed parameters. Where the source catches their exceptions, the parameter returns an `Option` and an exception is its `None`. Every other such call is assumed to succeed and is a plain function. Examples are the chat template and the engine's `generate` in BatchInference.BatchGenerate, and the template, `generate` and `decode` in ErnieInference.GenerateResponse. Their internals (vLLM, transformers, peft, librosa, `model.chat`) are not part of this model.
- The FastAPI lifespan, uvicorn, `asyncio.gather` in the asynchronous demo, and the `subprocess.run` that launches `vllm serve` are left out; the model stops at the values handed to them.
- `demo_streaming_with_thinking` and the other demo functions only call the modelled operations with fixed inputs and print; they are not modelled separately.
- The HTTP request behind `check_server_health` of the streaming client is a parameter (its listing, or `None` when it raises); the demos are modelled from after that check.
- Float sampling settings are exact reals, not IEEE doubles, and `gpu_memory_utilization` is kept as its already-rendered string; the basic-chat sampling bundles are not modelled.
- `PyStr.Lower` lower-cases ASCII letters only; Python's full Unicode case mapping is not modelled. The command words compared against are all ASCII or have no case.
- `PyStr.ParseInt` accepts optional surrounding whitespace, a sign and ASCII digits; the underscores and non-ASCII digits Python's `int()` also accepts are not modelled.
- GemmaApi.ValidateRequest: pydantic's coercion of non-integer `max_new_tokens` values and explicit JSON `null` fields are not modelled; a field is either absent or a string/integer.
- The `get_model_path` of the batch example (three candidate paths) and the `BatchInferenceEngine` constructor are not modelled; the engine is a parameter.
- BatchInference.BatchGenerate: the engine is modelled as answering each prompt independently, in order, which is what vLLM's batch `generate` returns; batching effects on the generated text are not modelled.
- A `None` assistant content returned by the chat-completions endpoint is modelled as a string reply.
- The `load_model` state of the audio demo and the loaded audio samples are left out; the audio part of the message is named by its file path.

## Findings

| source | as written | input that shows it | evidently intended | confidence | as-written member | corrected member |
|---|---|---|---|---|---|---|
| examples/Qwen3-8B-vLLM/examples/streaming_chat.py:54 | the id list printed by `check_server_health` is built as `[m.id for m.id in models.data]`, whose loop target assigns an attribute of an unbound name `m`; the `NameError` is caught and the check returns `False` | a server that answers the model listing with one model: the check reports it down and every demo returns before its first request | `[m.id for m in models.data]`: any server that answers the listing is healthy | not executed | StreamingChat.CheckServerHealthAsWritten (with StreamingChat.ServingServerReportedDown) | StreamingChat.CheckServerHealth (with StreamingChat.HealthChecksDiffer) |
