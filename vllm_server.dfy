// The EvalScope launcher for the vLLM OpenAI-compatible server: where the
// model directory is looked for, the check that it holds a model, and the
// `vllm serve` command line with its environment.
module VllmServer {
  import opened Wrappers
  import opened PyStr

  const AutoDlPath: string := "/root/autodl-tmp/Qwen/Qwen3-8B"
  const LocalPath: string := "./models/Qwen/Qwen3-8B"

  /** The files a model directory must hold. */
  const RequiredFiles: seq<string> := ["config.json", "tokenizer.json"]

  /** `get_model_path`. `pathExists` stands for `os.path.exists`. The AutoDL
      directory wins when it exists; otherwise the local path is returned,
      whether or not it exists. */
  function GetModelPath(pathExists: string -> bool): (r: string)
    ensures r == AutoDlPath <==> pathExists(AutoDlPath)
    ensures r == AutoDlPath || r == LocalPath
  {
    if pathExists(AutoDlPath) then AutoDlPath
    else if pathExists(LocalPath) then LocalPath
    else LocalPath
  }

  /** What the check accepts: the directory and each required file in it. */
  predicate ModelComplete(modelPath: string, pathExists: string -> bool)
  {
    pathExists(modelPath) && forall k :: 0 <= k < |RequiredFiles| ==> pathExists(PathJoin(modelPath, RequiredFiles[k]))
  }

  /** `check_model_exists`: the directory test, then the required files in
      order, returning at the first one missing. */
  method CheckModelExists(modelPath: string, pathExists: string -> bool) returns (ok: bool)
    ensures ok <==> ModelComplete(modelPath, pathExists)
  {
    if !pathExists(modelPath) {
      return false;
    }
    var i := 0;
    while i < |RequiredFiles|
      invariant 0 <= i <= |RequiredFiles|
      invariant forall k :: 0 <= k < i ==> pathExists(PathJoin(modelPath, RequiredFiles[k]))
    {
      if !pathExists(PathJoin(modelPath, RequiredFiles[i])) {
        return false;
      }
      i := i + 1;
    }
    return true;
  }

  /** The two files are looked for inside the model directory itself. */
  lemma RequiredFilesInsideDirectory(modelPath: string, pathExists: string -> bool)
    requires modelPath != [] && modelPath[|modelPath| - 1] != '/'
    requires ModelComplete(modelPath, pathExists)
    ensures pathExists(modelPath + ['/'] + RequiredFiles[0]) && pathExists(modelPath + ['/'] + RequiredFiles[1])
  {
    assert pathExists(PathJoin(modelPath, RequiredFiles[0]));
    assert pathExists(PathJoin(modelPath, RequiredFiles[1]));
  }

  /** The arguments `start_vllm_server` receives. `gpuMemoryUtilization`
      is kept as its `str()` rendering, since the model has no floats. */
  datatype ServerOptions = ServerOptions(
    host: string, port: int, servedModelName: string, maxModelLen: int,
    enableReasoning: bool, reasoningParser: string,
    gpuMemoryUtilization: string, tensorParallelSize: int)

  /** The defaults of the command-line parser. */
  const DefaultOptions: ServerOptions :=
    ServerOptions("0.0.0.0", 8000, "Qwen3-8B", 8192, true, "qwen3", "0.9", 1)

  /** The fixed part of the command: sixteen words. */
  const BaseLength: nat := 16

  /** The list literal `start_vllm_server` starts the command with. */
  function BaseArgs(modelPath: string, opts: ServerOptions): seq<string>
  {
    [ "vllm", "serve", modelPath,
      "--host", opts.host,
      "--port", IntToString(opts.port),
      "--served-model-name", opts.servedModelName,
      "--max-model-len", IntToString(opts.maxModelLen),
      "--gpu-memory-utilization", opts.gpuMemoryUtilization,
      "--tensor-parallel-size", IntToString(opts.tensorParallelSize),
      "--trust-remote-code"
    ]
  }

  /** The whole command: the literal, then `--reasoning-parser <parser>`
      when reasoning is on. */
  function ServeArgs(modelPath: string, opts: ServerOptions): seq<string>
  {
    BaseArgs(modelPath, opts) + (if opts.enableReasoning then ["--reasoning-parser", opts.reasoningParser] else [])
  }

  /** The literal starts with `vllm serve <path>` and the host pair. */
  lemma BaseArgsLeadingWords(modelPath: string, opts: ServerOptions)
    ensures var cmd := BaseArgs(modelPath, opts);
      && |cmd| > 4
      && cmd[0] == "vllm" && cmd[1] == "serve" && cmd[2] == modelPath
      && cmd[3] == "--host" && cmd[4] == opts.host
  {
  }

  /** Then come the port pair, the port in decimal, and the served-name
      pair. */
  lemma BaseArgsPortAndNameWords(modelPath: string, opts: ServerOptions)
    ensures var cmd := BaseArgs(modelPath, opts);
      && |cmd| > 8
      && cmd[5] == "--port" && cmd[6] == IntToString(opts.port)
      && cmd[7] == "--served-model-name" && cmd[8] == opts.servedModelName
  {
  }

  /** The literal goes on with the length, memory and parallelism pairs,
      the integers in decimal, and ends with `--trust-remote-code`. */
  lemma BaseArgsTrailingWords(modelPath: string, opts: ServerOptions)
    ensures var cmd := BaseArgs(modelPath, opts);
      && |cmd| == BaseLength
      && cmd[9] == "--max-model-len" && cmd[10] == IntToString(opts.maxModelLen)
      && cmd[11] == "--gpu-memory-utilization" && cmd[12] == opts.gpuMemoryUtilization
      && cmd[13] == "--tensor-parallel-size" && cmd[14] == IntToString(opts.tensorParallelSize)
      && cmd[15] == "--trust-remote-code"
  {
  }

  /** Reasoning only adds the parser flag at the end: the first sixteen
      words do not depend on it. */
  lemma ReasoningOnlyAppends(modelPath: string, opts: ServerOptions)
    ensures ServeArgs(modelPath, opts.(enableReasoning := true))
         == ServeArgs(modelPath, opts.(enableReasoning := false)) + ["--reasoning-parser", opts.reasoningParser]
  {
  }

  /** The list literal followed by the in-place `cmd.extend`: the sixteen
      words of the literal, then `--reasoning-parser <parser>` appended at
      the end exactly when reasoning is on. */
  method ServeCommand(modelPath: string, opts: ServerOptions) returns (cmd: seq<string>)
    ensures cmd == ServeArgs(modelPath, opts)
    ensures |cmd| == if opts.enableReasoning then BaseLength + 2 else BaseLength
    ensures cmd[..BaseLength] == BaseArgs(modelPath, opts)
    ensures opts.enableReasoning ==> cmd[BaseLength..] == ["--reasoning-parser", opts.reasoningParser]
  {
    cmd := [
      "vllm", "serve", modelPath,
      "--host", opts.host,
      "--port", IntToString(opts.port),
      "--served-model-name", opts.servedModelName,
      "--max-model-len", IntToString(opts.maxModelLen),
      "--gpu-memory-utilization", opts.gpuMemoryUtilization,
      "--tensor-parallel-size", IntToString(opts.tensorParallelSize),
      "--trust-remote-code"
    ];
    ghost var base := cmd;
    assert base == BaseArgs(modelPath, opts);
    if opts.enableReasoning {
      cmd := cmd + ["--reasoning-parser", opts.reasoningParser];
      assert cmd[..BaseLength] == base;
    } else {
      assert cmd == base + [];
    }
  }

  /** The integer values written into the command read back as the same
      numbers. */
  lemma CommandIntegersRoundTrip(opts: ServerOptions, port: string, maxLen: string, parallel: string)
    requires port == IntToString(opts.port)
    requires maxLen == IntToString(opts.maxModelLen)
    requires parallel == IntToString(opts.tensorParallelSize)
    ensures ParseInt(port) == Some(opts.port)
    ensures ParseInt(maxLen) == Some(opts.maxModelLen)
    ensures ParseInt(parallel) == Some(opts.tensorParallelSize)
  {
    IntToStringRoundTrip(opts.port);
    IntToStringRoundTrip(opts.maxModelLen);
    IntToStringRoundTrip(opts.tensorParallelSize);
  }

  const ModelScopeVariable: string := "VLLM_USE_MODELSCOPE"

  /** The environment of the server process: the caller's, with
      `VLLM_USE_MODELSCOPE` set to `true` and nothing else changed. */
  function ServeEnvironment(env: map<string, string>): (r: map<string, string>)
    ensures ModelScopeVariable in r && r[ModelScopeVariable] == "true"
    ensures forall k :: k in env && k != ModelScopeVariable ==> k in r && r[k] == env[k]
    ensures forall k :: k in r ==> k in env || k == ModelScopeVariable
  {
    env[ModelScopeVariable := "true"]
  }

  /** `main`: an explicit, non-empty `--model-path` overrides the search; a
      failed check exits with status 1 before any command is built
      (`None`); otherwise the command for the chosen path. */
  method ServerMain(modelPathArg: Option<string>, disableReasoning: bool, opts: ServerOptions,
                    pathExists: string -> bool)
    returns (modelPath: string, cmd: Option<seq<string>>)
    ensures modelPath == if modelPathArg.Some? && modelPathArg.value != [] then modelPathArg.value else GetModelPath(pathExists)
    ensures cmd.None? <==> !ModelComplete(modelPath, pathExists)
    ensures cmd.Some? ==> cmd.value == ServeArgs(modelPath, opts.(enableReasoning := !disableReasoning))
  {
    if modelPathArg.Some? && modelPathArg.value != [] {
      modelPath := modelPathArg.value;
    } else {
      modelPath := GetModelPath(pathExists);
    }
    var ok := CheckModelExists(modelPath, pathExists);
    if !ok {
      return modelPath, None;
    }
    var c := ServeCommand(modelPath, opts.(enableReasoning := !disableReasoning));
    cmd := Some(c);
  }
}
