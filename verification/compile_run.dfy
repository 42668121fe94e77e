/** `CompileRun.compile_and_run`: blank check, temporary directory, language
    table, compile gate, a two-second probe of the first run, an optional
    re-run fed with text from an input dialog, and classification by standard
    error. Processes, the probe and the dialog are given as an oracle; the
    model returns the console result and the trace of effects. */
module CompileRun {
  import opened Common
  import opened PyStr
  import opened Toolchain

  /** What `QInputDialog.getMultiLineText` returned. */
  datatype DialogReply = DialogReply(text: string, ok: bool)

  /** Everything the invocation learns from the outside world. */
  datatype Oracle = Oracle(
    tempDir: string,          // the path `tempfile.mkdtemp()` returned
    platform: Platform,       // `sys.platform == "win32"` or not
    compile: ProcessResult,   // the compiler process
    firstRun: ProcessResult,  // the first run process, as `communicate()` would see it
    streamReady: bool,        // POSIX: `select` found stdout or stderr readable within 2 s
    exitedInTime: bool,       // win32: `wait(timeout=2)` returned before the timeout
    dialog: DialogReply,      // the input dialog, if it is shown
    rerun: ProcessResult)     // the second run process, if it is started

  /** `rlist` is non-empty, exactly as the probe is written: on POSIX any
      ready stream; on win32 only a `TimeoutExpired`. */
  predicate ReadyListNonEmpty(o: Oracle)
  {
    match o.platform
    case Posix => o.streamReady
    case Win32 => !o.exitedInTime
  }

  /** The probe with its POSIX verdict the right way round: the program is
      taken to wait for input only when it has shown no sign of life within
      the window. */
  predicate LooksBlocked(o: Oracle)
  {
    match o.platform
    case Posix => !o.streamReady
    case Win32 => !o.exitedInTime
  }

  /** The two probes agree exactly on win32 and disagree on every POSIX
      observation. */
  lemma ProbeVerdicts(o: Oracle)
    ensures (ReadyListNonEmpty(o) == LooksBlocked(o)) <==> o.platform == Win32
    ensures o.platform == Posix ==> (ReadyListNonEmpty(o) <==> !LooksBlocked(o))
  {
  }

  /** A cancelled dialog feeds the empty string. */
  function FedInput(d: DialogReply): (s: string)
    ensures d.ok ==> s == d.text
    ensures !d.ok ==> s == ""
  {
    if d.ok then d.text else ""
  }

  /** Lines 51-89: start the program, probe it, and either take the first
      run's result or ask for input and start it a second time. */
  function RunStage(run: seq<string>, o: Oracle, toInput: bool): (r: Invocation)
    ensures InsideWorkspace(r.trace)
    ensures o.firstRun.SpawnFailed? ==> r == Invocation(Fault(o.firstRun.message), [])
    // no input requested: the first process's `communicate()` is final
    ensures o.firstRun.Exited? && !toInput ==>
      r.result == Classify(o.firstRun.stdout, o.firstRun.stderr) &&
      r.trace == [Spawn(run, true), Probe(o.platform), Communicate(None)]
    // input requested: the same command again, fed the dialog's text
    ensures o.firstRun.Exited? && toInput && o.rerun.Exited? ==>
      r.result == Classify(o.rerun.stdout, o.rerun.stderr) &&
      r.trace == [Spawn(run, true), Probe(o.platform), AskInput,
                  Spawn(run, true), Communicate(Some(FedInput(o.dialog)))]
    ensures o.firstRun.Exited? && toInput && o.rerun.SpawnFailed? ==>
      r.result == Fault(o.rerun.message) &&
      r.trace == [Spawn(run, true), Probe(o.platform), AskInput]
  {
    match o.firstRun
    case SpawnFailed(m) => Invocation(Fault(m), [])
    case Exited(_, out, err) =>
      var probe := [Spawn(run, true), Probe(o.platform)];
      if !toInput then
        Invocation(Classify(out, err), probe + [Communicate(None)])
      else
        match o.rerun
        case SpawnFailed(m) => Invocation(Fault(m), probe + [AskInput])
        case Exited(_, out2, err2) =>
          Invocation(Classify(out2, err2),
                     probe + [AskInput, Spawn(run, true), Communicate(Some(FedInput(o.dialog)))])
  }

  /** The compiler stage lets the run go ahead. */
  predicate CompilePasses(language: string, o: Oracle)
  {
    language == "python" || (o.compile.Exited? && o.compile.returnCode == 0)
  }

  /** Lines 21-89 once the temporary directory exists. */
  function Attempt(code: string, language: string, o: Oracle, toInput: bool): (r: Invocation)
    ensures InsideWorkspace(r.trace)
    ensures r.result != EmptyInput
    ensures r.result == UnsupportedLanguage <==> language !in Supported
    ensures r.result == UnsupportedLanguage ==> r.trace == []
    ensures r.result.CompileError? <==>
      language in Supported - {"python"} && o.compile.Exited? && o.compile.returnCode != 0
    ensures r.result.CompileError? ==> r.result.detail == o.compile.stderr
    ensures language in Supported - {"python"} && o.compile.Exited? ==>
      |r.trace| >= 2 &&
      r.trace[..2] == [Spawn(Lookup(language, code, o.tempDir).value.compile.value, true),
                       Communicate(Some(code))]
    ensures AskInput in r.trace <==>
      language in Supported && CompilePasses(language, o) && o.firstRun.Exited? && toInput
  {
    match Lookup(language, code, o.tempDir)
    case None => Invocation(UnsupportedLanguage, [])
    case Some(spec) =>
      match CompileStage(code, spec, o.compile)
      case Stop(res, fx) => Invocation(res, fx)
      case Proceed(fx) =>
        var run := RunStage(spec.run, o, toInput);
        assert AskInput in fx + run.trace <==> AskInput in run.trace;
        InsideWorkspaceAppend(fx, run.trace);
        assert |fx| == 2 ==> (fx + run.trace)[..2] == fx;
        Invocation(run.result, fx + run.trace)
  }

  /** The handler with the probe's verdict `toInput` ("ask for input and
      re-run") supplied, so that the written probe and the intended one share
      every other step. */
  function Invoke(code: string, language: string, o: Oracle, toInput: bool): (r: Invocation)
    // blank source: nothing at all happens besides the message
    ensures r.result == EmptyInput <==> IsBlank(code)
    ensures IsBlank(code) ==> r.trace == []
    // otherwise the temporary directory brackets every other effect
    ensures !IsBlank(code) ==> Bracketed(r.trace, o.tempDir)
    ensures r.result == UnsupportedLanguage <==> !IsBlank(code) && language !in Supported
    ensures r.result == UnsupportedLanguage ==>
      r.trace == [CreateTempDir(o.tempDir), RemoveTempDir(o.tempDir)]
    ensures r.result.CompileError? <==>
      && !IsBlank(code) && language in Supported - {"python"}
      && o.compile.Exited? && o.compile.returnCode != 0
    ensures r.result.CompileError? ==> r.result.detail == o.compile.stderr
    // the compiler, when there is one, is the first thing started, fed the source
    ensures !IsBlank(code) && language in Supported - {"python"} && o.compile.Exited? ==>
      |r.trace| >= 3 &&
      r.trace[1..3] == [Spawn(Lookup(language, code, o.tempDir).value.compile.value, true),
                        Communicate(Some(code))]
    // the dialog is shown exactly when the run got as far as the probe and the
    // probe chose the input branch
    ensures AskInput in r.trace <==>
      && !IsBlank(code) && language in Supported && CompilePasses(language, o)
      && o.firstRun.Exited? && toInput
  {
    if IsBlank(code) then Invocation(EmptyInput, [])
    else
      var inner := Attempt(code, language, o, toInput);
      var t := [CreateTempDir(o.tempDir)] + inner.trace + [RemoveTempDir(o.tempDir)];
      WrapFacts(o.tempDir, inner.trace);
      Invocation(inner.result, t)
  }

  /** What wrapping a trace in the temporary directory's creation and
      removal keeps. */
  lemma WrapFacts(dir: string, inner: seq<Effect>)
    requires InsideWorkspace(inner)
    ensures var t := [CreateTempDir(dir)] + inner + [RemoveTempDir(dir)];
      && Bracketed(t, dir)
      && (AskInput in t <==> AskInput in inner)
      && (|inner| >= 2 ==> |t| >= 3 && t[1..3] == inner[..2])
  {
    var t := [CreateTempDir(dir)] + inner + [RemoveTempDir(dir)];
    BracketedWrap(dir, inner);
    assert t[1..|t| - 1] == inner;
    if |inner| >= 2 {
      assert t[1] == inner[0] && t[2] == inner[1];
    }
  }

  /** `compile_and_run` exactly as written (lines 13-98). */
  function CompileAndRun(code: string, language: string, o: Oracle): (r: Invocation)
    ensures r.result == EmptyInput <==> IsBlank(code)
    ensures IsBlank(code) ==> r.trace == []
    ensures !IsBlank(code) ==> Bracketed(r.trace, o.tempDir)
  {
    Invoke(code, language, o, ReadyListNonEmpty(o))
  }

  /** `compile_and_run` with the POSIX probe turned the right way round. */
  function CompileAndRunIntended(code: string, language: string, o: Oracle): (r: Invocation)
    ensures r.result == EmptyInput <==> IsBlank(code)
    ensures IsBlank(code) ==> r.trace == []
    ensures !IsBlank(code) ==> Bracketed(r.trace, o.tempDir)
  {
    Invoke(code, language, o, LooksBlocked(o))
  }

  lemma RunStageSpawns(run: seq<string>, o: Oracle, toInput: bool)
    ensures Spawned(RunStage(run, o, toInput).trace) ==
      if o.firstRun.SpawnFailed? then []
      else if toInput && o.rerun.Exited? then [run, run]
      else [run]
  {
    var s := Spawn(run, true);
    if o.firstRun.Exited? {
      var asked := [Probe(o.platform), AskInput];
      if !toInput {
        SpawnedOnce(s, [Probe(o.platform), Communicate(None)]);
      } else if o.rerun.Exited? {
        var fed := [Communicate(Some(FedInput(o.dialog)))];
        SpawnedOnce(s, fed);
        SpawnedAppend(asked, [s] + fed);
        NoSpawns(asked);
        SpawnedCons(s, asked + ([s] + fed));
        assert RunStage(run, o, toInput).trace == [s] + (asked + ([s] + fed));
      } else {
        SpawnedOnce(s, asked);
      }
    }
  }

  /** One process started, then only effects that start nothing. */
  lemma SpawnedOnce(s: Effect, rest: seq<Effect>)
    requires s.Spawn?
    requires forall i :: 0 <= i < |rest| ==> !rest[i].Spawn?
    ensures Spawned([s] + rest) == [s.command]
  {
    SpawnedCons(s, rest);
    NoSpawns(rest);
  }

  /** The processes started once the temporary directory exists. */
  lemma AttemptSpawns(code: string, language: string, o: Oracle, toInput: bool)
    requires language in Supported
    ensures
      var spec := Lookup(language, code, o.tempDir).value;
      var compiler := if spec.compile.Some? && o.compile.Exited? then [spec.compile.value] else [];
      var runs :=
        if !CompilePasses(language, o) || o.firstRun.SpawnFailed? then []
        else if toInput && o.rerun.Exited? then [spec.run, spec.run]
        else [spec.run];
      Spawned(Attempt(code, language, o, toInput).trace) == compiler + runs
  {
    var spec := Lookup(language, code, o.tempDir).value;
    var gate := CompileStage(code, spec, o.compile);
    var compiler := if spec.compile.Some? && o.compile.Exited? then [spec.compile.value] else [];
    if spec.compile.Some? && o.compile.Exited? {
      var fed := [Communicate(Some(code))];
      assert gate.effects == [Spawn(spec.compile.value, true)] + fed;
      SpawnedCons(Spawn(spec.compile.value, true), fed);
      NoSpawns(fed);
    } else {
      NoSpawns(gate.effects);
    }
    assert Spawned(gate.effects) == compiler;
    if gate.Proceed? {
      var stage := RunStage(spec.run, o, toInput);
      assert Attempt(code, language, o, toInput).trace == gate.effects + stage.trace;
      RunStageSpawns(spec.run, o, toInput);
      SpawnedAppend(gate.effects, stage.trace);
    } else {
      assert Attempt(code, language, o, toInput).trace == gate.effects;
    }
  }

  /** The processes the whole handler starts, in order. */
  lemma InvokeSpawns(code: string, language: string, o: Oracle, toInput: bool)
    requires !IsBlank(code) && language in Supported
    ensures Spawned(Invoke(code, language, o, toInput).trace) ==
      Spawned(Attempt(code, language, o, toInput).trace)
  {
    var inner := Attempt(code, language, o, toInput);
    var d := o.tempDir;
    SpawnedAppend([CreateTempDir(d)] + inner.trace, [RemoveTempDir(d)]);
    SpawnedAppend([CreateTempDir(d)], inner.trace);
    SpawnedOne(CreateTempDir(d));
    SpawnedOne(RemoveTempDir(d));
  }

  /** At most three processes are started: the compiler, if the language has
      one and it could be started, and then one or two runs of the same
      command; the second run happens only after the input dialog. */
  lemma ProcessCount(code: string, language: string, o: Oracle, toInput: bool)
    requires !IsBlank(code) && language in Supported
    ensures
      var r := Invoke(code, language, o, toInput);
      var spec := Lookup(language, code, o.tempDir).value;
      var compiler := if spec.compile.Some? && o.compile.Exited? then [spec.compile.value] else [];
      var spawned := Spawned(r.trace);
      && |compiler| <= |spawned| <= |compiler| + 2
      && spawned[..|compiler|] == compiler
      && (forall k :: |compiler| <= k < |spawned| ==> spawned[k] == spec.run)
      && (|spawned| == |compiler| + 2 <==> AskInput in r.trace && o.rerun.Exited?)
      && (|spawned| == |compiler| <==> !CompilePasses(language, o) || o.firstRun.SpawnFailed?)
  {
    InvokeSpawns(code, language, o, toInput);
    AttemptSpawns(code, language, o, toInput);
  }

  /** The run reaches the probe: the source is not blank, the language is
      known, the compiler (if any) succeeded and the program could be started. */
  predicate ReachesProbe(code: string, language: string, o: Oracle)
  {
    !IsBlank(code) && language in Supported && CompilePasses(language, o) && o.firstRun.Exited?
  }

  /** When the probe chooses `communicate()`, the first process's output is
      final and no input is requested. */
  lemma FirstRunIsFinal(code: string, language: string, o: Oracle, toInput: bool)
    requires ReachesProbe(code, language, o) && !toInput
    ensures
      var r := Invoke(code, language, o, toInput);
      && AskInput !in r.trace
      && r.result == Classify(o.firstRun.stdout, o.firstRun.stderr)
      && r.trace[|r.trace| - 2] == Communicate(None)
  {
    var spec := Lookup(language, code, o.tempDir).value;
    var gate := CompileStage(code, spec, o.compile);
    var run := RunStage(spec.run, o, toInput);
    assert Attempt(code, language, o, toInput).trace == gate.effects + run.trace;
  }

  /** When the probe chooses the dialog, the same command is started again and
      fed the dialog's text, or the empty string if the dialog was cancelled;
      the second run's output decides the result. */
  lemma RerunFeedsDialogText(code: string, language: string, o: Oracle, toInput: bool)
    requires ReachesProbe(code, language, o) && toInput && o.rerun.Exited?
    ensures
      var r := Invoke(code, language, o, toInput);
      var n := |r.trace|;
      && n >= 7
      && r.trace[n - 6..n - 1] ==
        [Spawn(Lookup(language, code, o.tempDir).value.run, true), Probe(o.platform), AskInput,
         Spawn(Lookup(language, code, o.tempDir).value.run, true), Communicate(Some(FedInput(o.dialog)))]
      && (!o.dialog.ok ==> r.trace[n - 2] == Communicate(Some("")))
      && r.result == Classify(o.rerun.stdout, o.rerun.stderr)
  {
    var spec := Lookup(language, code, o.tempDir).value;
    var gate := CompileStage(code, spec, o.compile);
    var run := RunStage(spec.run, o, toInput);
    var inner := Attempt(code, language, o, toInput);
    assert inner.trace == gate.effects + run.trace;
    var t := Invoke(code, language, o, toInput).trace;
    assert t == [CreateTempDir(o.tempDir)] + inner.trace + [RemoveTempDir(o.tempDir)];
    assert t[|t| - 6..|t| - 1] == run.trace;
  }

  /** The result never depends on the run processes' exit codes. */
  lemma ExitCodeIgnored(code: string, language: string, o: Oracle, toInput: bool, c1: int, c2: int)
    requires o.firstRun.Exited? && o.rerun.Exited?
    ensures
      var o' := o.(firstRun := o.firstRun.(returnCode := c1), rerun := o.rerun.(returnCode := c2));
      Invoke(code, language, o', toInput) == Invoke(code, language, o, toInput)
  {
    var o' := o.(firstRun := o.firstRun.(returnCode := c1), rerun := o.rerun.(returnCode := c2));
    if !IsBlank(code) && language in Supported {
      var spec := Lookup(language, code, o.tempDir).value;
      assert RunStage(spec.run, o', toInput) == RunStage(spec.run, o, toInput);
    }
  }

  /** Lines 91-92: a failure to start any process is reported as an error
      occurrence with the exception's message, and only then. */
  lemma FaultOnlyFromSpawnFailure(code: string, language: string, o: Oracle, toInput: bool)
    ensures
      var r := Invoke(code, language, o, toInput);
      r.result.Fault? <==>
        && !IsBlank(code) && language in Supported
        && (|| (language != "python" && o.compile.SpawnFailed?)
            || (CompilePasses(language, o) && o.firstRun.SpawnFailed?)
            || (CompilePasses(language, o) && o.firstRun.Exited? && toInput && o.rerun.SpawnFailed?))
  {
    if !IsBlank(code) && language in Supported {
      var spec := Lookup(language, code, o.tempDir).value;
      var gate := CompileStage(code, spec, o.compile);
      if gate.Proceed? {
        var run := RunStage(spec.run, o, toInput);
        assert Attempt(code, language, o, toInput).result == run.result;
      }
    }
  }

  // ---------------------------------------------------------------------
  // The probe as written and as intended.

  /** As written, on POSIX a program whose output stream is ready within the
      window (typically because it printed and exited) is sent to the input
      dialog and started a second time. */
  lemma PosixReadyAsksAsWritten(code: string, language: string, o: Oracle)
    requires ReachesProbe(code, language, o) && o.platform == Posix && o.streamReady
    ensures AskInput in CompileAndRun(code, language, o).trace
  {
  }

  /** As written, on POSIX a program that shows nothing within the window is
      drained by `communicate()` with its standard input closed: no input is
      ever requested. */
  lemma PosixSilentNeverAsksAsWritten(code: string, language: string, o: Oracle)
    requires ReachesProbe(code, language, o) && o.platform == Posix && !o.streamReady
    ensures AskInput !in CompileAndRun(code, language, o).trace
    ensures CompileAndRun(code, language, o).result == Classify(o.firstRun.stdout, o.firstRun.stderr)
  {
    FirstRunIsFinal(code, language, o, false);
  }

  /** The correction changes nothing on win32. */
  lemma Win32Unchanged(code: string, language: string, o: Oracle)
    requires o.platform == Win32
    ensures CompileAndRunIntended(code, language, o) == CompileAndRun(code, language, o)
  {
  }

  /** With the probe the right way round, a program that finished (or showed
      output) within the window keeps its first result on both platforms. */
  lemma IntendedFinishedNotAsked(code: string, language: string, o: Oracle)
    requires ReachesProbe(code, language, o)
    requires (o.platform == Posix && o.streamReady) || (o.platform == Win32 && o.exitedInTime)
    ensures AskInput !in CompileAndRunIntended(code, language, o).trace
    ensures CompileAndRunIntended(code, language, o).result ==
      Classify(o.firstRun.stdout, o.firstRun.stderr)
  {
    FirstRunIsFinal(code, language, o, false);
  }

  /** With the probe the right way round, a program that stays silent for the
      whole window is re-run with the user's input on both platforms. */
  lemma IntendedSilentAsked(code: string, language: string, o: Oracle)
    requires ReachesProbe(code, language, o) && o.rerun.Exited?
    requires (o.platform == Posix && !o.streamReady) || (o.platform == Win32 && !o.exitedInTime)
    ensures AskInput in CompileAndRunIntended(code, language, o).trace
    ensures CompileAndRunIntended(code, language, o).result ==
      Classify(o.rerun.stdout, o.rerun.stderr)
  {
    RerunFeedsDialogText(code, language, o, true);
  }

  const HelloInclude := "#include <stdio.h>\n"
  const HelloC := HelloInclude + "int main(){puts(\"hello\");}"

  /** The oracle of a C program that prints `hello` and exits at once on
      Linux: the compiler succeeds and stdout is ready well within 2 s. */
  function HelloOracle(): Oracle
  {
    Oracle("/tmp/t", Posix, Exited(0, "", ""), Exited(0, "hello\n", ""), true, true,
           DialogReply("", false), Exited(0, "hello\n", ""))
  }

  lemma HelloReachesProbe()
    ensures ReachesProbe(HelloC, "c", HelloOracle())
  {
    assert HelloC[0] == HelloInclude[0];
    assert !IsSpace(HelloC[0]);
  }

  /** The counterexample, as written: the hello program raises the input
      dialog and is started twice. */
  lemma HelloProgramAsWritten()
    ensures AskInput in CompileAndRun(HelloC, "c", HelloOracle()).trace
    ensures |Spawned(CompileAndRun(HelloC, "c", HelloOracle()).trace)| == 3
  {
    HelloReachesProbe();
    PosixReadyAsksAsWritten(HelloC, "c", HelloOracle());
    ProcessCount(HelloC, "c", HelloOracle(), true);
  }

  /** The same program with the corrected probe: started once, no dialog, and
      the console shows its output. */
  lemma HelloProgramIntended()
    ensures AskInput !in CompileAndRunIntended(HelloC, "c", HelloOracle()).trace
    ensures |Spawned(CompileAndRunIntended(HelloC, "c", HelloOracle()).trace)| == 2
    ensures CompileAndRunIntended(HelloC, "c", HelloOracle()).result == Success("hello\n")
  {
    HelloReachesProbe();
    IntendedFinishedNotAsked(HelloC, "c", HelloOracle());
    ProcessCount(HelloC, "c", HelloOracle(), false);
  }
}
