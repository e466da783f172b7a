// The MiniCPM-o 2.6 audio-understanding demo: the table of task prompts,
// the prompt selection and message built by `understand_audio`, and the
// checks `main` applies to the console input before calling it.
module AudioUnderstanding {
  import opened Wrappers
  import opened PyStr

  /** `self.task_prompts`: the predefined tasks and their prompts. */
  const TaskPrompts: map<string, string> := map[
    "asr_zh" := "请仔细听这段音频片段，并将其内容逐字记录。",
    "asr_en" := "Please listen to the audio snippet carefully and transcribe the content.",
    "speaker_analysis" := "Based on the speaker's content, speculate on their gender, condition, age range, and health status.",
    "audio_summary_zh" := "总结音频的主要内容。",
    "audio_summary_en" := "Summarize the main content of the audio.",
    "scene_tagging_zh" := "使用一个关键词表达音频内容或相关场景。",
    "scene_tagging_en" := "Utilize one keyword to convey the audio's content or the associated scene."
  ]

  /** The default `task` of `understand_audio`. */
  const DefaultTask: string := "audio_summary_en"

  /** The table has seven tasks, the default among them, and no empty
      prompt. */
  lemma TaskTableShape()
    ensures |TaskPrompts.Keys| == 7
    ensures DefaultTask in TaskPrompts
    ensures forall t :: t in TaskPrompts ==> TaskPrompts[t] != []
  {
  }

  /** The prompt `understand_audio` uses: a non-empty custom prompt first,
      then the table entry of `task`; `None` for an unknown task. */
  function SelectPrompt(task: string, customPrompt: Option<string>): (r: Option<string>)
    ensures customPrompt.Some? && customPrompt.value != [] ==> r == customPrompt
    ensures !(customPrompt.Some? && customPrompt.value != []) ==>
      (r.Some? <==> task in TaskPrompts) && (r.Some? ==> r.value == TaskPrompts[task])
  {
    if customPrompt.Some? && customPrompt.value != [] then customPrompt
    else if task in TaskPrompts then Some(TaskPrompts[task])
    else None
  }

  /** The selected prompt is never empty. */
  lemma SelectedPromptNonEmpty(task: string, customPrompt: Option<string>)
    requires SelectPrompt(task, customPrompt).Some?
    ensures SelectPrompt(task, customPrompt).value != []
  {
    TaskTableShape();
  }

  /** One piece of the user message: the prompt text or the audio loaded
      from a file (the samples themselves are not modelled). */
  datatype Part = PromptPart(text: string) | AudioPart(audioPath: string)

  datatype AudioMessage = AudioMessage(role: string, content: seq<Part>)

  /** The messages `understand_audio` hands to `model.chat`, or `None` when
      it returns early: a missing audio file (checked before anything else)
      or an unknown task without a custom prompt. */
  function UnderstandAudio(audioPath: string, task: string, customPrompt: Option<string>,
                           pathExists: string -> bool): (r: Option<seq<AudioMessage>>)
    ensures !pathExists(audioPath) ==> r.None?
    ensures pathExists(audioPath) ==> (r.Some? <==> SelectPrompt(task, customPrompt).Some?)
    ensures r.Some? ==> r.value == [AudioMessage("user", [PromptPart(SelectPrompt(task, customPrompt).value), AudioPart(audioPath)])]
  {
    if !pathExists(audioPath) then None
    else
      var prompt := SelectPrompt(task, customPrompt);
      if prompt.None? then None
      else Some([AudioMessage("user", [PromptPart(prompt.value), AudioPart(audioPath)])])
  }

  /** What `main` does with its three input lines. */
  datatype MainOutcome =
    | InvalidAudio
    | InvalidChoice
    | EmptyTask
    | EmptyPrompt
    | Call(audioPath: string, task: string, customPrompt: Option<string>)

  /** `main` after the model is loaded: the audio path must be non-empty and
      exist; choice `1` reads a task, choice `2` a custom prompt (`task`
      then keeps its default); an empty task or prompt is refused without
      calling `understand_audio`. Each line is stripped first. */
  function AudioMain(audioLine: string, choiceLine: string, detailLine: string,
                     pathExists: string -> bool): (r: MainOutcome)
    ensures r == InvalidAudio <==> Strip(audioLine) == [] || !pathExists(Strip(audioLine))
    ensures r.Call? ==> r.audioPath == Strip(audioLine) && r.audioPath != [] && pathExists(r.audioPath)
    ensures r.Call? && r.customPrompt.None? ==> Strip(choiceLine) == "1" && r.task == Strip(detailLine) && r.task != []
    ensures r.Call? && r.customPrompt.Some? ==>
      Strip(choiceLine) == "2" && r.customPrompt == Some(Strip(detailLine)) && r.customPrompt.value != [] && r.task == DefaultTask
    ensures Strip(audioLine) != [] && pathExists(Strip(audioLine)) ==>
      (r.Call? <==> (Strip(choiceLine) == "1" || Strip(choiceLine) == "2") && Strip(detailLine) != [])
    ensures r == InvalidChoice <==>
      Strip(audioLine) != [] && pathExists(Strip(audioLine)) && Strip(choiceLine) != "1" && Strip(choiceLine) != "2"
  {
    var audioFile := Strip(audioLine);
    if audioFile == [] || !pathExists(audioFile) then InvalidAudio
    else
      var choice := Strip(choiceLine);
      if choice == "1" then
        var task := Strip(detailLine);
        if task != [] then Call(audioFile, task, None) else EmptyTask
      else if choice == "2" then
        var customPrompt := Strip(detailLine);
        if customPrompt != [] then Call(audioFile, DefaultTask, Some(customPrompt)) else EmptyPrompt
      else InvalidChoice
  }

  /** A call made by `main` with a custom prompt always reaches the model,
      with that prompt; a call with a task reaches it exactly when that task
      is in the table. */
  lemma MainCallsReachModel(audioLine: string, choiceLine: string, detailLine: string,
                            pathExists: string -> bool)
    requires AudioMain(audioLine, choiceLine, detailLine, pathExists).Call?
    ensures var c := AudioMain(audioLine, choiceLine, detailLine, pathExists);
      var r := UnderstandAudio(c.audioPath, c.task, c.customPrompt, pathExists);
      && (c.customPrompt.Some? ==> r.Some? && r.value[0].content[0] == PromptPart(c.customPrompt.value))
      && (c.customPrompt.None? ==> (r.Some? <==> c.task in TaskPrompts))
  {
  }
}
