/** `Compiler.compile_and_run`, the older single-run handler: same blank check,
    language table, compile gate and classification as `CompileRun`, but one
    run process without a standard-input pipe, and no probe or re-run. */
module Compiler {
  import opened Common
  import opened PyStr
  import opened Toolchain

  datatype Oracle = Oracle(
    tempDir: string,         // the name `TemporaryDirectory()` chose
    compile: ProcessResult,
    run: ProcessResult)

  /** Lines 15-58 inside the `with` block. */
  function Attempt(code: string, language: string, o: Oracle): (r: Invocation)
    ensures InsideWorkspace(r.trace)
    ensures r.result != EmptyInput
    ensures r.result == UnsupportedLanguage <==> language !in Supported
    ensures r.result == UnsupportedLanguage ==> r.trace == []
  {
    match Lookup(language, code, o.tempDir)
    case None => Invocation(UnsupportedLanguage, [])
    case Some(spec) =>
      match CompileStage(code, spec, o.compile)
      case Stop(res, fx) => Invocation(res, fx)
      case Proceed(fx) =>
        match o.run
        case SpawnFailed(m) => Invocation(Fault(m), fx)
        case Exited(_, out, err) =>
          var run := [Spawn(spec.run, false), Communicate(None)];
          InsideWorkspaceAppend(fx, run);
          Invocation(Classify(out, err), fx + run)
  }

  /** `compile_and_run` (lines 10-58). */
  function CompileAndRun(code: string, language: string, o: Oracle): (r: Invocation)
    ensures r.result == EmptyInput <==> IsBlank(code)
    ensures IsBlank(code) ==> r.trace == []
    // the `with` block removes the directory on every path, unsupported included
    ensures !IsBlank(code) ==> Bracketed(r.trace, o.tempDir)
    ensures r.result == UnsupportedLanguage <==> !IsBlank(code) && language !in Supported
    ensures r.result == UnsupportedLanguage ==>
      r.trace == [CreateTempDir(o.tempDir), RemoveTempDir(o.tempDir)]
  {
    if IsBlank(code) then Invocation(EmptyInput, [])
    else
      var inner := Attempt(code, language, o);
      var t := [CreateTempDir(o.tempDir)] + inner.trace + [RemoveTempDir(o.tempDir)];
      BracketedWrap(o.tempDir, inner.trace);
      Invocation(inner.result, t)
  }

  /** Neither the readiness probe nor the input dialog appears. */
  predicate Quiet(t: seq<Effect>)
  {
    forall i :: 0 <= i < |t| ==> !t[i].Probe? && !t[i].AskInput?
  }

  lemma QuietAppend(a: seq<Effect>, b: seq<Effect>)
    requires Quiet(a) && Quiet(b)
    ensures Quiet(a + b)
  {
    forall i | 0 <= i < |a + b|
      ensures !(a + b)[i].Probe? && !(a + b)[i].AskInput?
    {
      if i >= |a| { assert (a + b)[i] == b[i - |a|]; }
    }
  }

  lemma AttemptQuiet(code: string, language: string, o: Oracle)
    ensures Quiet(Attempt(code, language, o).trace)
  {
    if language in Supported {
      var spec := Lookup(language, code, o.tempDir).value;
      var gate := CompileStage(code, spec, o.compile);
      var fx := gate.effects;
      assert fx == [] || fx == [Spawn(spec.compile.value, true), Communicate(Some(code))];
      assert Quiet(fx);
      if gate.Proceed? && o.run.Exited? {
        var run := [Spawn(spec.run, false), Communicate(None)];
        assert Attempt(code, language, o).trace == fx + run;
        QuietAppend(fx, run);
      }
    }
  }

  /** There is no probe and no input dialog: whatever the processes do, the
      trace never shows either. */
  lemma NoProbeNoDialog(code: string, language: string, o: Oracle)
    ensures Quiet(CompileAndRun(code, language, o).trace)
  {
    if !IsBlank(code) {
      var d := o.tempDir;
      var inner := Attempt(code, language, o).trace;
      AttemptQuiet(code, language, o);
      QuietAppend([CreateTempDir(d)], inner);
      QuietAppend([CreateTempDir(d)] + inner, [RemoveTempDir(d)]);
    }
  }

  /** The compile gate: a non-zero return code reports the compiler's standard
      error and starts nothing else; the compiler is the only process. */
  lemma CompileErrorStopsRun(code: string, language: string, o: Oracle)
    requires !IsBlank(code) && language in Supported - {"python"}
    requires o.compile.Exited? && o.compile.returnCode != 0
    ensures CompileAndRun(code, language, o).result == CompileError(o.compile.stderr)
    ensures Spawned(CompileAndRun(code, language, o).trace) ==
      [Lookup(language, code, o.tempDir).value.compile.value]
  {
    var spec := Lookup(language, code, o.tempDir).value;
    var fx := CompileStage(code, spec, o.compile).effects;
    var t := CompileAndRun(code, language, o).trace;
    assert t == [CreateTempDir(o.tempDir)] + fx + [RemoveTempDir(o.tempDir)];
    SpawnedSuffix(t, 3);
    SpawnedSuffix(t, 2);
    SpawnedSuffix(t, 1);
    SpawnedSuffix(t, 0);
    assert t[4..] == [];
    assert t[0..] == t;
  }

  /** The trace of a run that got past the compile gate. */
  lemma RunShape(code: string, language: string, o: Oracle)
    requires language in Supported
    requires language == "python" || (o.compile.Exited? && o.compile.returnCode == 0)
    requires o.run.Exited?
    ensures
      var spec := Lookup(language, code, o.tempDir).value;
      Attempt(code, language, o) ==
        Invocation(Classify(o.run.stdout, o.run.stderr),
                   CompileStage(code, spec, o.compile).effects + [Spawn(spec.run, false), Communicate(None)])
  {
  }

  /** Exactly one run process, without a standard-input pipe, after the
      compiler when there is one; its standard error decides the category. */
  lemma SingleRun(code: string, language: string, o: Oracle)
    requires !IsBlank(code) && language in Supported
    requires language == "python" || (o.compile.Exited? && o.compile.returnCode == 0)
    requires o.run.Exited?
    ensures
      var spec := Lookup(language, code, o.tempDir).value;
      var r := CompileAndRun(code, language, o);
      && r.result == Classify(o.run.stdout, o.run.stderr)
      && Spawned(r.trace) ==
           (if language == "python" then [] else [spec.compile.value]) + [spec.run]
      && r.trace[|r.trace| - 3] == Spawn(spec.run, false)
  {
    var spec := Lookup(language, code, o.tempDir).value;
    var fx := CompileStage(code, spec, o.compile).effects;
    var run := [Spawn(spec.run, false), Communicate(None)];
    var inner := fx + run;
    RunShape(code, language, o);
    var t := CompileAndRun(code, language, o).trace;
    assert t == [CreateTempDir(o.tempDir)] + inner + [RemoveTempDir(o.tempDir)];
    SpawnedWrapped(o.tempDir, inner);
    SpawnedAppend(fx, run);
    SpawnedPair(spec.run, false, None);
    if language != "python" {
      assert fx == [Spawn(spec.compile.value, true), Communicate(Some(code))];
      SpawnedPair(spec.compile.value, true, Some(code));
    }
    assert t[|t| - 3] == run[0];
  }

  /** Lines 57-58: starting a process fails only with an error occurrence
      carrying the exception's message. */
  lemma SpawnFailureIsFault(code: string, language: string, o: Oracle)
    requires !IsBlank(code) && language in Supported
    requires (language != "python" && o.compile.SpawnFailed?) ||
             ((language == "python" || (o.compile.Exited? && o.compile.returnCode == 0)) &&
              o.run.SpawnFailed?)
    ensures CompileAndRun(code, language, o).result ==
      Fault(if language != "python" && o.compile.SpawnFailed? then o.compile.message else o.run.message)
  {
  }
}
