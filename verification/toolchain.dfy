/** What the two compile-and-run handlers share: the language table, the
    record of what the child processes did, the trace of effects, the result
    categories and the console text that shows them. */
module Toolchain {
  import opened Common
  import opened PyStr
  import PyPath

  /** How one language is built and started. `compile` is absent for a
      language that is interpreted straight from the source. */
  datatype CommandSpec = CommandSpec(compile: Option<seq<string>>, run: seq<string>)

  const Supported: set<string> := {"c", "c++", "java", "python"}

  /** The `if/elif` table of both handlers, for source `code` and the
      invocation's temporary directory `tempDir`. */
  function Lookup(language: string, code: string, tempDir: string): (r: Option<CommandSpec>)
    ensures r.Some? <==> language in Supported
    ensures r.Some? ==> (r.value.compile.None? <==> language == "python")
    ensures language == "python" ==> r == Some(CommandSpec(None, ["python3", "-c", code]))
    // every compiler is told to read the translation unit from standard input
    ensures r.Some? && r.value.compile.Some? ==> "-" in r.value.compile.value
    // a compiled program is started as the bare path of its artifact, inside tempDir
    ensures r.Some? && language != "python" ==>
      |r.value.run| == 1 && StartsWith(r.value.run[0], tempDir)
    // C and C++ write exactly the file that is later started
    ensures language in {"c", "c++"} ==>
      var cmd := r.value.compile.value;
      |cmd| >= 2 && cmd[|cmd| - 2..] == ["-o", r.value.run[0]]
    ensures language == "c" ==>
      var out := PyPath.Join(tempDir, "temp.out");
      r == Some(CommandSpec(Some(["gcc", "-x", "c", "-", "-o", out]), [out]))
    ensures language == "c++" ==>
      var out := PyPath.Join(tempDir, "temp.out");
      r == Some(CommandSpec(Some(["g++", "-x", "c++", "-", "-o", out]), [out]))
    ensures language == "java" ==>
      r == Some(CommandSpec(Some(["javac", "-d", tempDir, "-"]), [PyPath.Join(tempDir, "Main")]))
  {
    assert !StartsWith("temp.out", "/") by { assert "temp.out"[0] != '/'; }
    assert !StartsWith("Main", "/") by { assert "Main"[0] != '/'; }
    var outputFile := PyPath.Join(tempDir, "temp.out");
    if language == "c" then
      Some(CommandSpec(Some(["gcc", "-x", "c", "-", "-o", outputFile]), [outputFile]))
    else if language == "c++" then
      Some(CommandSpec(Some(["g++", "-x", "c++", "-", "-o", outputFile]), [outputFile]))
    else if language == "java" then
      Some(CommandSpec(Some(["javac", "-d", tempDir, "-"]), [PyPath.Join(tempDir, "Main")]))
    else if language == "python" then
      Some(CommandSpec(None, ["python3", "-c", code]))
    else
      None
  }

  /** What one child process did, as observed by `communicate()`: either
      `Popen` raised (the message is `str(e)`), or the process ran to exit. */
  datatype ProcessResult =
    | SpawnFailed(message: string)
    | Exited(returnCode: int, stdout: string, stderr: string)

  datatype Platform = Posix | Win32

  /** The observable effects of one invocation, in order. */
  datatype Effect =
    | CreateTempDir(dir: string)
    | Spawn(command: seq<string>, stdinPiped: bool)
    | Communicate(input: Option<string>)   // wait for exit, writing `input` first
    | Probe(platform: Platform)            // `select` / `wait(timeout=2)`
    | AskInput                             // the multi-line input dialog
    | RemoveTempDir(dir: string)

  /** The categories a run can end in. */
  datatype FinalResult =
    | EmptyInput
    | UnsupportedLanguage
    | CompileError(detail: string)
    | ExecutionError(detail: string)
    | Success(output: string)
    | Fault(message: string)

  datatype Invocation = Invocation(result: FinalResult, trace: seq<Effect>)

  const NoCodeText := "⚠️ No code to compile!"
  const UnsupportedText := "❌ Unsupported language!"
  const CompileErrorPrefix := "❌ Compilation Error:\n\n"
  const ExecutionErrorPrefix := "❌ Execution Error:\n\n"
  const SuccessPrefix := "✅ Output:\n\n"
  const FaultPrefix := "⚠️ Error occurred: "

  /** The text the output console is set to. */
  function Render(r: FinalResult): string
  {
    match r
    case EmptyInput => NoCodeText
    case UnsupportedLanguage => UnsupportedText
    case CompileError(d) => CompileErrorPrefix + d
    case ExecutionError(d) => ExecutionErrorPrefix + d
    case Success(out) => SuccessPrefix + out
    case Fault(m) => FaultPrefix + m
  }

  function DropPrefix(s: string, prefix: string): Option<string>
  {
    if StartsWith(s, prefix) then Some(s[|prefix|..]) else None
  }

  /** Reads the category back from the console text. */
  function Parse(s: string): Option<FinalResult>
  {
    if s == NoCodeText then Some(EmptyInput)
    else if s == UnsupportedText then Some(UnsupportedLanguage)
    else if StartsWith(s, CompileErrorPrefix) then Some(CompileError(s[|CompileErrorPrefix|..]))
    else if StartsWith(s, ExecutionErrorPrefix) then Some(ExecutionError(s[|ExecutionErrorPrefix|..]))
    else if StartsWith(s, SuccessPrefix) then Some(Success(s[|SuccessPrefix|..]))
    else if StartsWith(s, FaultPrefix) then Some(Fault(s[|FaultPrefix|..]))
    else None
  }

  /** The console messages never confuse two categories: the user can always
      tell a compile error from an execution error from program output, and
      read back the exact detail. */
  lemma ParseRender(r: FinalResult)
    ensures Parse(Render(r)) == Some(r)
  {
    var s := Render(r);
    match r {
      case EmptyInput =>
      case UnsupportedLanguage =>
        assert s[2] != NoCodeText[2];
      case CompileError(d) =>
        assert s[..|CompileErrorPrefix|] == CompileErrorPrefix;
        assert s[2] != NoCodeText[2] && s[2] != UnsupportedText[2];
      case ExecutionError(d) =>
        assert s[..|ExecutionErrorPrefix|] == ExecutionErrorPrefix;
        assert s[2] != NoCodeText[2] && s[2] != UnsupportedText[2];
        assert s[2] != CompileErrorPrefix[2];
      case Success(out) =>
        assert s[..|SuccessPrefix|] == SuccessPrefix;
        assert s[0] != NoCodeText[0] && s[0] != UnsupportedText[0];
        assert s[0] != CompileErrorPrefix[0] && s[0] != ExecutionErrorPrefix[0];
      case Fault(m) =>
        assert s[..|FaultPrefix|] == FaultPrefix;
        assert s[3] != NoCodeText[3];
        assert s[0] != UnsupportedText[0];
        assert s[0] != CompileErrorPrefix[0] && s[0] != ExecutionErrorPrefix[0];
        assert s[0] != SuccessPrefix[0];
    }
  }

  /** The rule both run branches apply: any standard-error text makes the run
      an execution error, whatever the exit code; otherwise the standard
      output is the result. */
  function Classify(stdout: string, stderr: string): (r: FinalResult)
    ensures r.ExecutionError? <==> stderr != ""
    ensures r.Success? <==> stderr == ""
    ensures r.ExecutionError? ==> r.detail == stderr
    ensures r.Success? ==> r.output == stdout
  {
    if stderr != "" then ExecutionError(stderr) else Success(stdout)
  }

  /** The commands started, in order. */
  function Spawned(t: seq<Effect>): seq<seq<string>>
  {
    if |t| == 0 then []
    else (if t[0].Spawn? then [t[0].command] else []) + Spawned(t[1..])
  }

  lemma {:induction false} SpawnedAppend(a: seq<Effect>, b: seq<Effect>)
    ensures Spawned(a + b) == Spawned(a) + Spawned(b)
    decreases |a|
  {
    if |a| > 0 {
      assert (a + b)[1..] == a[1..] + b;
      SpawnedAppend(a[1..], b);
    } else {
      assert a + b == b;
    }
  }

  lemma SpawnedOne(e: Effect)
    ensures Spawned([e]) == if e.Spawn? then [e.command] else []
  {
    assert [e][1..] == [];
  }

  lemma SpawnedCons(e: Effect, t: seq<Effect>)
    ensures Spawned([e] + t) == (if e.Spawn? then [e.command] else []) + Spawned(t)
  {
    assert ([e] + t)[1..] == t;
  }

  lemma {:induction false} NoSpawns(t: seq<Effect>)
    requires forall i :: 0 <= i < |t| ==> !t[i].Spawn?
    ensures Spawned(t) == []
    decreases |t|
  {
    if |t| > 0 {
      assert !t[0].Spawn?;
      NoSpawns(t[1..]);
    }
  }

  /** The directory effects around a trace start nothing. */
  lemma SpawnedWrapped(dir: string, inner: seq<Effect>)
    ensures Spawned([CreateTempDir(dir)] + inner + [RemoveTempDir(dir)]) == Spawned(inner)
  {
    var c, d := CreateTempDir(dir), RemoveTempDir(dir);
    SpawnedAppend([c] + inner, [d]);
    SpawnedCons(c, inner);
    SpawnedOne(d);
  }

  /** A started process followed by its `communicate()`. */
  lemma SpawnedPair(command: seq<string>, piped: bool, input: Option<string>)
    ensures Spawned([Spawn(command, piped), Communicate(input)]) == [command]
  {
    SpawnedCons(Spawn(command, piped), [Communicate(input)]);
    SpawnedOne(Communicate(input));
  }

  /** One unfolding of `Spawned` at position `k`. */
  lemma SpawnedSuffix(t: seq<Effect>, k: nat)
    requires k < |t|
    ensures Spawned(t[k..]) == (if t[k].Spawn? then [t[k].command] else []) + Spawned(t[k + 1..])
  {
    assert t[k..][1..] == t[k + 1..];
  }

  /** No effect on the temporary directory itself. */
  predicate InsideWorkspace(t: seq<Effect>)
  {
    forall i :: 0 <= i < |t| ==> !t[i].CreateTempDir? && !t[i].RemoveTempDir?
  }

  lemma InsideWorkspaceAppend(a: seq<Effect>, b: seq<Effect>)
    requires InsideWorkspace(a) && InsideWorkspace(b)
    ensures InsideWorkspace(a + b)
  {
    forall i | 0 <= i < |a + b|
      ensures !(a + b)[i].CreateTempDir? && !(a + b)[i].RemoveTempDir?
    {
      if i >= |a| { assert (a + b)[i] == b[i - |a|]; }
    }
  }

  /** The temporary directory is created first, removed last, and touched
      nowhere in between. */
  predicate Bracketed(t: seq<Effect>, dir: string)
  {
    && |t| >= 2
    && t[0] == CreateTempDir(dir)
    && t[|t| - 1] == RemoveTempDir(dir)
    && InsideWorkspace(t[1..|t| - 1])
  }

  lemma BracketedWrap(dir: string, inner: seq<Effect>)
    requires InsideWorkspace(inner)
    ensures Bracketed([CreateTempDir(dir)] + inner + [RemoveTempDir(dir)], dir)
  {
    var t := [CreateTempDir(dir)] + inner + [RemoveTempDir(dir)];
    assert t[1..|t| - 1] == inner;
  }

  /** The outcome of the shared compile gate. */
  datatype Gate = Proceed(effects: seq<Effect>) | Stop(result: FinalResult, effects: seq<Effect>)

  /** Lines compile_run.py:37-44 / compiler.py:32-39: non-Python code is piped
      into the compiler; a non-zero return code ends the run with the
      compiler's standard error. */
  function CompileStage(code: string, spec: CommandSpec, compile: ProcessResult): (g: Gate)
    ensures InsideWorkspace(g.effects)
    ensures spec.compile.None? ==> g == Proceed([])
    ensures g.Stop? <==> spec.compile.Some? && (compile.SpawnFailed? || compile.returnCode != 0)
    ensures g.Stop? && g.result.CompileError? <==>
      spec.compile.Some? && compile.Exited? && compile.returnCode != 0
    ensures g.Stop? ==> g.result.CompileError? || g.result.Fault?
    ensures g.Stop? && g.result.CompileError? ==> g.result.detail == compile.stderr
    ensures g.Stop? && g.result.Fault? ==> g.result.message == compile.message
    // the compiler is the only process this stage starts, and it is fed the source
    ensures spec.compile.Some? && compile.Exited? ==>
      g.effects == [Spawn(spec.compile.value, true), Communicate(Some(code))]
    ensures spec.compile.None? || compile.SpawnFailed? ==> Spawned(g.effects) == []
  {
    match spec.compile
    case None => Proceed([])
    case Some(cmd) =>
      match compile
      case SpawnFailed(m) => Stop(Fault(m), [])
      case Exited(rc, _, err) =>
        var fx := [Spawn(cmd, true), Communicate(Some(code))];
        if rc != 0 then Stop(CompileError(err), fx) else Proceed(fx)
  }
}
