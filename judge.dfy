/**
 * The judging engine: the build stage (`compileCode`), the run stage
 * (`runCode`), their composition (`execute`) and the fail-fast loop over a
 * problem's test cases (`judgeTestCases`).
 *
 * Starting a process is outside the model. The host it runs on is an oracle:
 * for each invocation (command, arguments, time limit, standard input and the
 * files the build stage wrote into the work directory, among them the driver
 * program around the user's code) it says how the process ended, how many
 * milliseconds the run stage measured and which number the random memory
 * estimate drew.
 */
module Judge {
  import opened Wrappers
  import Text
  import Comparator
  import Drivers

  datatype Verdict = Accepted | WrongAnswer | CompilationError | RuntimeError | TimeLimitExceeded

  /** The verdict as the engine spells it in its results. */
  function VerdictName(v: Verdict): string {
    match v
    case Accepted => "accepted"
    case WrongAnswer => "wrong_answer"
    case CompilationError => "compilation_error"
    case RuntimeError => "runtime_error"
    case TimeLimitExceeded => "time_limit_exceeded"
  }

  /** Different verdicts are spelled differently. */
  lemma VerdictNameInjective(a: Verdict, b: Verdict)
    ensures VerdictName(a) == VerdictName(b) <==> a == b
  {
  }

  /** JavaScript's `a || b` on strings: `b` when `a` is empty. */
  function OrElse(a: string, b: string): (r: string)
    ensures r == a || r == b
    ensures r == [] ==> a == [] && b == []
    ensures a != [] ==> r == a
  {
    if a != [] then a else b
  }

  /** What a written file holds: a body inside the Python driver, the user's
      code inside the JavaScript driver, or the user's code as it is. The
      file's text is `Contents` of it; the host is handed this description,
      which determines the text. */
  datatype Source = PythonProgram(body: string, fn: string) | JsProgram(code: string, fn: string) | Verbatim(code: string)

  function Contents(s: Source): string {
    match s
    case PythonProgram(body, fn) => Drivers.PythonWrap(body, fn)
    case JsProgram(code, fn) => Drivers.JsDriver(code, fn)
    case Verbatim(code) => code
  }

  datatype SourceFile = SourceFile(name: string, source: Source)

  /** A process the engine starts: the command, its arguments, the time
      limit, the standard input and the files the build stage wrote into
      the work directory. */
  datatype Invocation = Invocation(command: string, args: seq<string>, timeout: nat, input: string, files: seq<SourceFile>)

  /** How a started process ended, as the operating system reports it. The
      exit code is `None` when a signal killed the process. */
  datatype RawOutcome =
    | Closed(code: Option<int>, out: string, err: string, timedOut: bool)
    | SpawnFailed(message: string)

  datatype Host = Host(run: Invocation -> RawOutcome, elapsed: Invocation -> nat, draw: Invocation -> nat)

  datatype ProcessResult = ProcessResult(exitCode: Option<int>, stdout: string, stderr: string, timedOut: bool)

  /** `runProcess`: both captured streams are trimmed; a process that could not
      be started reports exit code -1 and the error message as its stderr. */
  function RunProcess(host: Host, inv: Invocation): (r: ProcessResult)
    ensures Trimmed(r.stdout)
    ensures host.run(inv).SpawnFailed? ==> r == ProcessResult(Some(-1), "", host.run(inv).message, false)
    ensures host.run(inv).Closed? ==>
              r.exitCode == host.run(inv).code && r.timedOut == host.run(inv).timedOut &&
              r.stdout == Text.Trim(host.run(inv).out) && r.stderr == Text.Trim(host.run(inv).err)
  {
    match host.run(inv)
    case Closed(code, out, err, timedOut) => ProcessResult(code, Text.Trim(out), Text.Trim(err), timedOut)
    case SpawnFailed(message) => ProcessResult(Some(-1), "", message, false)
  }

  predicate Supported(language: string) {
    language == "python" || language == "javascript" || language == "cpp" || language == "java"
  }

  /** What the build stage left in the work directory: the language, the
      user's code and the name of the function the driver calls. */
  datatype Workspace = Workspace(language: string, code: string, fn: string)

  /** The files the build stage writes: a driver program around the user's
      code for Python and JavaScript, the code as it is for C++ and Java,
      nothing for any other language. */
  function WrittenFiles(w: Workspace): seq<SourceFile> {
    if w.language == "python" then [SourceFile("solution.py", PythonProgram(Drivers.StripMainGuard(w.code), w.fn))]
    else if w.language == "javascript" then [SourceFile("solution.js", JsProgram(w.code, w.fn))]
    else if w.language == "cpp" then [SourceFile("solution.cpp", Verbatim(w.code))]
    else if w.language == "java" then [SourceFile("Solution.java", Verbatim(w.code))]
    else []
  }


  /** The checking or compiling process of each compiled language. */
  function BuildInvocation(language: string, code: string, fn: string): Invocation
    requires language == "javascript" || language == "cpp" || language == "java"
  {
    var files := WrittenFiles(Workspace(language, code, fn));
    if language == "javascript" then Invocation("node", ["--check", "solution.js"], 5000, "", files)
    else if language == "cpp" then Invocation("g++", ["-o", "solution", "solution.cpp"], 10000, "", files)
    else Invocation("javac", ["Solution.java"], 10000, "", files)
  }

  datatype CompileResult = CompileResult(verdict: Verdict, error: string)

  /** `compileCode`. */
  function CompileCode(host: Host, code: string, language: string, fn: string): (r: CompileResult)
    ensures r.verdict == Accepted || r.verdict == CompilationError
    ensures r.verdict == Accepted ==> Supported(language) && r.error == ""
    ensures !Supported(language) ==> r == CompileResult(CompilationError, "Unsupported language: " + language)
    ensures language == "python" ==> r.verdict == Accepted
    ensures (language == "javascript" || language == "cpp" || language == "java") ==>
              var p := RunProcess(host, BuildInvocation(language, code, fn));
              && (r.verdict == CompilationError <==> p.exitCode != Some(0))
              && (r.verdict == CompilationError ==> r.error == OrElse(p.stderr, p.stdout))
  {
    if language == "python" then CompileResult(Accepted, "")
    else if language == "javascript" || language == "cpp" || language == "java" then
      var p := RunProcess(host, BuildInvocation(language, code, fn));
      if p.exitCode != Some(0) then CompileResult(CompilationError, OrElse(p.stderr, p.stdout))
      else CompileResult(Accepted, "")
    else CompileResult(CompilationError, "Unsupported language: " + language)
  }

  /** Text with no white space at either end, as `trim` leaves it. */
  predicate Trimmed(s: string) {
    s != [] ==> !Text.IsWhite(s[0]) && !Text.IsWhite(s[|s| - 1])
  }

  /** The text after the last line break of trimmed output, trimmed: the line
      the driver printed the function's result on. */
  function LastLine(s: string): string {
    LineAfter(s, Text.LastIndexOf(s, '\n'))
  }

  /** The trimmed text after the line break at `k`, or all of `s` when `k` is -1. */
  function LineAfter(s: string, k: int): string
    requires -1 <= k < |s|
  {
    if k != -1 then Text.Trim(s[k + 1..]) else s
  }

  /** `r` is the last line of trimmed output `s` whose last line break is at
      `k` (-1 when there is none): a trimmed suffix of `s` without a line
      break, non-empty unless the output is, with only white space between
      the line break and it. */
  predicate IsLastLine(s: string, k: int, r: string) {
    && '\n' !in r && Trimmed(r)
    && |r| <= |s| && r == s[|s| - |r|..]
    && (s != [] ==> r != [])
    && -1 <= k && k + 1 <= |s| - |r|
    && Text.AllWhite(s[k + 1..|s| - |r|])
  }

  lemma LastLineShape(s: string)
    requires Trimmed(s)
    ensures IsLastLine(s, Text.LastIndexOf(s, '\n'), LastLine(s))
  {
    var k := Text.LastIndexOf(s, '\n');
    if k != -1 {
      LastLineTail(s, k);
    } else {
      SingleLine(s);
    }
  }

  /** Trimmed output without a line break is its own last line. */
  lemma SingleLine(s: string)
    requires Trimmed(s) && '\n' !in s
    ensures IsLastLine(s, -1, s)
  {
    assert s[0..] == s && s[0..0] == [];
  }

  /** After a line break inside trimmed text, `trim` removes only the line's
      leading white space. */
  lemma LastLineTail(s: string, k: int)
    requires Trimmed(s)
    requires 0 <= k < |s| && s[k] == '\n' && '\n' !in s[k + 1..]
    ensures IsLastLine(s, k, LineAfter(s, k))
  {
    var t := s[k + 1..];
    assert t != [] && !Text.IsWhite(t[|t| - 1]) by {
      assert k != |s| - 1;
      assert t[|t| - 1] == s[|s| - 1];
    }
    Text.TrimSolidShape(t);
    LineFromTail(s, k, t, Text.Trim(t));
  }

  /** A trimmed suffix of the text after the last line break, preceded there
      only by white space, is the last line. */
  lemma LineFromTail(s: string, k: nat, t: string, r: string)
    requires k < |s| && t == s[k + 1..] && '\n' !in t
    requires r != [] && |r| <= |t| && r == t[|t| - |r|..] && Text.AllWhite(t[..|t| - |r|])
    requires !Text.IsWhite(r[0]) && !Text.IsWhite(r[|r| - 1])
    ensures IsLastLine(s, k, r)
  {
    LineSlices(s, k, t, r);
  }

  /** A suffix of the text after position `k` is a suffix of the whole text,
      and what precedes it after `k` is a slice of the whole text. */
  lemma LineSlices(s: string, k: nat, t: string, r: string)
    requires k < |s| && t == s[k + 1..] && '\n' !in t
    requires |r| <= |t| && r == t[|t| - |r|..]
    ensures r == s[|s| - |r|..] && '\n' !in r
    ensures t[..|t| - |r|] == s[k + 1..|s| - |r|]
  {
    assert forall j :: 0 <= j < |r| ==> r[j] == t[|t| - |r| + j];
  }

  /** The running command of each supported language. */
  function RunInvocation(language: string, input: string, timeLimit: nat, w: Workspace): Invocation
    requires Supported(language)
  {
    var files := WrittenFiles(w);
    if language == "python" then Invocation("python", ["solution.py"], timeLimit, input, files)
    else if language == "javascript" then Invocation("node", ["solution.js"], timeLimit, input, files)
    else if language == "cpp" then Invocation("./solution", [], timeLimit, input, files)
    else Invocation("java", ["Solution"], timeLimit, input, files)
  }

  /** `fullOutput` is `None` where the engine leaves it undefined. */
  datatype RunResult = RunResult(verdict: Verdict, time: nat, memory: nat, output: string, error: string, fullOutput: Option<string>)

  /** `runCode`. A time-out is reported whatever the exit code; a non-zero exit
      is a runtime error; a clean exit keeps the last line of the output. */
  function RunCode(host: Host, language: string, w: Workspace, input: string, timeLimit: nat): (r: RunResult)
    ensures !Supported(language) ==> r == RunResult(RuntimeError, 0, 0, "", "Unsupported language: " + language, None)
    ensures Supported(language) ==>
              var inv := RunInvocation(language, input, timeLimit, w);
              var p := RunProcess(host, inv);
              && r.time == host.elapsed(inv)
              && 10 <= r.memory <= 59
              && (r.verdict == TimeLimitExceeded <==> p.timedOut)
              && (r.verdict == RuntimeError <==> !p.timedOut && p.exitCode != Some(0))
              && (r.verdict == Accepted <==> !p.timedOut && p.exitCode == Some(0))
              && (r.verdict == TimeLimitExceeded ==> r.error == "Time limit exceeded")
              && (r.verdict == RuntimeError ==> r.error == OrElse(p.stderr, "Runtime error") && r.error != "")
              && (r.verdict != Accepted ==> r.output == "" && r.fullOutput == None)
              && (r.verdict == Accepted ==> r.fullOutput == Some(p.stdout) && r.output == LastLine(p.stdout) && r.error == "")
  {
    if !Supported(language) then RunResult(RuntimeError, 0, 0, "", "Unsupported language: " + language, None)
    else
      var inv := RunInvocation(language, input, timeLimit, w);
      var p := RunProcess(host, inv);
      var time := host.elapsed(inv);
      var memory := host.draw(inv) % 50 + 10;
      if p.timedOut then RunResult(TimeLimitExceeded, time, memory, "", "Time limit exceeded", None)
      else if p.exitCode != Some(0) then RunResult(RuntimeError, time, memory, "", OrElse(p.stderr, "Runtime error"), None)
      else
        Text.TrimKeepsEdges(p.stdout);
        var stdout := Text.Trim(p.stdout);
        RunResult(Accepted, time, memory, LastLine(stdout), "", Some(stdout))
  }

  datatype ExecResult = ExecResult(verdict: Verdict, time: nat, memory: nat, output: string, error: string, fullOutput: Option<string>)

  /** `execute`: build, then run unless the build failed. */
  function Execute(host: Host, code: string, language: string, input: string, timeLimit: nat, fn: string): (r: ExecResult)
    ensures var c := CompileCode(host, code, language, fn);
            c.verdict != Accepted ==> r == ExecResult(c.verdict, 0, 0, "", c.error, None)
    ensures var c := CompileCode(host, code, language, fn);
            var run := RunCode(host, language, Workspace(language, code, fn), input, timeLimit);
            c.verdict == Accepted ==>
              && r.verdict == run.verdict && r.time == run.time && r.memory == run.memory
              && r.output == run.output && r.error == run.error
              && r.fullOutput == Some(OrElse(run.fullOutput.GetOr(""), run.output))
  {
    var c := CompileCode(host, code, language, fn);
    if c.verdict != Accepted then ExecResult(c.verdict, 0, 0, "", c.error, None)
    else
      var run := RunCode(host, language, Workspace(language, code, fn), input, timeLimit);
      ExecResult(run.verdict, run.time, run.memory, run.output, run.error,
                 Some(OrElse(run.fullOutput.GetOr(""), run.output)))
  }

  /** A failed build is reported without the program being run: hosts that
      agree on the build process give the same result, whatever they would
      do with the program itself. */
  lemma FailedBuildDoesNotRun(h1: Host, h2: Host, code: string, language: string, input: string, timeLimit: nat, fn: string)
    requires (language == "javascript" || language == "cpp" || language == "java") ==>
               h1.run(BuildInvocation(language, code, fn)) == h2.run(BuildInvocation(language, code, fn))
    requires CompileCode(h1, code, language, fn).verdict != Accepted
    ensures Execute(h1, code, language, input, timeLimit, fn) == Execute(h2, code, language, input, timeLimit, fn)
  {
  }

  /** The run stage sees the user's program only through the files written
      for it: workspaces that give the same files run alike. */
  lemma RunSeesFiles(host: Host, language: string, w1: Workspace, w2: Workspace, input: string, timeLimit: nat)
    requires WrittenFiles(w1) == WrittenFiles(w2)
    ensures RunCode(host, language, w1, input, timeLimit) == RunCode(host, language, w2, input, timeLimit)
  {
    if Supported(language) {
      assert RunInvocation(language, input, timeLimit, w1) == RunInvocation(language, input, timeLimit, w2);
    }
  }

  /** Python code is judged only by what precedes its first main guard: the
      driver removes the rest before the file is written, so two programs
      that agree up to it are judged alike on every host. */
  lemma MainGuardTailIgnored(host: Host, code1: string, code2: string, input: string, timeLimit: nat, fn: string)
    requires Drivers.StripMainGuard(code1) == Drivers.StripMainGuard(code2)
    ensures Execute(host, code1, "python", input, timeLimit, fn) == Execute(host, code2, "python", input, timeLimit, fn)
  {
    var w1 := Workspace("python", code1, fn);
    var w2 := Workspace("python", code2, fn);
    assert WrittenFiles(w1) == WrittenFiles(w2);
    RunSeesFiles(host, "python", w1, w2, input, timeLimit);
  }

  /** Whatever the host does, `execute` reports a verdict the engine can
      produce at that stage, and a clean run is always `accepted`. */
  lemma ExecuteVerdicts(host: Host, code: string, language: string, input: string, timeLimit: nat, fn: string)
    ensures var r := Execute(host, code, language, input, timeLimit, fn);
            && r.verdict != WrongAnswer
            && (r.verdict == Accepted ==> Supported(language) && r.error == "" && '\n' !in r.output)
            && (r.verdict == TimeLimitExceeded || r.verdict == RuntimeError ==> r.output == "")
  {
    RunVerdicts(host, language, Workspace(language, code, fn), input, timeLimit);
  }

  /** The run stage never reports a wrong answer or a failed build, and its
      clean runs keep one line of output. */
  lemma RunVerdicts(host: Host, language: string, w: Workspace, input: string, timeLimit: nat)
    ensures var r := RunCode(host, language, w, input, timeLimit);
            && r.verdict != WrongAnswer && r.verdict != CompilationError
            && (r.verdict == Accepted ==> Supported(language) && r.error == "" && '\n' !in r.output)
            && (r.verdict == TimeLimitExceeded || r.verdict == RuntimeError ==> r.output == "")
  {
    if Supported(language) {
      var p := RunProcess(host, RunInvocation(language, input, timeLimit, w));
      LastLineShape(p.stdout);
    }
  }

  datatype TestCase = TestCase(input: string, expectedOutput: string)

  /** The execution `judgeTestCases` makes of each test case: a five-second
      limit and the default function name already resolved by the caller. */
  function Runner(host: Host, code: string, language: string, fn: string): TestCase -> ExecResult {
    (tc: TestCase) => Execute(host, code, language, tc.input, 5000, fn)
  }

  /** A case passes when it runs cleanly and its output compares equal under `same`. */
  predicate Passes(e: ExecResult, tc: TestCase, same: (string, string) -> bool) {
    e.verdict == Accepted && same(e.output, tc.expectedOutput)
  }

  /** The largest of the figures, 0 for none. */
  function Peak(xs: seq<nat>): nat {
    if xs == [] then 0
    else
      var m := Peak(xs[..|xs| - 1]);
      if m < xs[|xs| - 1] then xs[|xs| - 1] else m
  }

  /** `Peak` is an upper bound of the figures that is one of them, or 0 for none. */
  lemma {:induction false} PeakIsMax(xs: seq<nat>)
    ensures forall k :: 0 <= k < |xs| ==> xs[k] <= Peak(xs)
    ensures xs == [] ==> Peak(xs) == 0
    ensures xs != [] ==> exists k :: 0 <= k < |xs| && Peak(xs) == xs[k]
  {
    if xs != [] {
      var init := xs[..|xs| - 1];
      PeakIsMax(init);
      assert forall k :: 0 <= k < |init| ==> xs[k] == init[k];
      if Peak(init) >= xs[|xs| - 1] && init != [] {
        var k :| 0 <= k < |init| && Peak(init) == init[k];
        assert Peak(xs) == xs[k];
      }
    }
  }

  lemma PeakAppend(xs: seq<nat>, x: nat)
    ensures Peak(xs + [x]) == if Peak(xs) < x then x else Peak(xs)
  {
    assert (xs + [x])[..|xs|] == xs;
  }

  /** The measured times of the executions of `tcs`, in order. */
  function Times(run: TestCase -> ExecResult, tcs: seq<TestCase>): seq<nat> {
    seq(|tcs|, k requires 0 <= k < |tcs| => run(tcs[k]).time)
  }

  /** The memory estimates of the executions of `tcs`, in order. */
  function Memories(run: TestCase -> ExecResult, tcs: seq<TestCase>): seq<nat> {
    seq(|tcs|, k requires 0 <= k < |tcs| => run(tcs[k]).memory)
  }

  /** One more case raises each peak to that case's figure if it is larger. */
  lemma PeaksStep(run: TestCase -> ExecResult, tcs: seq<TestCase>, i: nat)
    requires i < |tcs|
    ensures var t := Peak(Times(run, tcs[..i]));
            Peak(Times(run, tcs[..i + 1])) == if t < run(tcs[i]).time then run(tcs[i]).time else t
    ensures var m := Peak(Memories(run, tcs[..i]));
            Peak(Memories(run, tcs[..i + 1])) == if m < run(tcs[i]).memory then run(tcs[i]).memory else m
  {
    assert tcs[..i + 1] == tcs[..i] + [tcs[i]];
    assert Times(run, tcs[..i + 1]) == Times(run, tcs[..i]) + [run(tcs[i]).time];
    assert Memories(run, tcs[..i + 1]) == Memories(run, tcs[..i]) + [run(tcs[i]).memory];
    PeakAppend(Times(run, tcs[..i]), run(tcs[i]).time);
    PeakAppend(Memories(run, tcs[..i]), run(tcs[i]).memory);
  }

  /** `error` is `None` where the engine leaves the field out. */
  datatype FailedCase = FailedCase(index: nat, input: string, expectedOutput: string, actualOutput: string, error: Option<string>)

  datatype Report = Report(verdict: Verdict, passed: nat, total: nat, failed: Option<FailedCase>, time: nat, memory: nat)

  /** `r` is the fail-fast report on `tcs`: the leading `r.passed` cases pass,
      the next one (if any) is the reported failure with its verdict and
      output, the figures are the peaks over the passing cases, and `ran`
      executions were made. */
  ghost predicate Judged(r: Report, ran: nat, run: TestCase -> ExecResult, same: (string, string) -> bool, tcs: seq<TestCase>) {
    Reported(r, run, same, tcs) && ran == r.passed + (if r.failed.Some? then 1 else 0)
  }

  /** The report part of `Judged`: everything but the number of executions. */
  ghost predicate Reported(r: Report, run: TestCase -> ExecResult, same: (string, string) -> bool, tcs: seq<TestCase>) {
    && r.total == |tcs| && r.passed <= r.total
    && (forall k :: 0 <= k < r.passed ==> Passes(run(tcs[k]), tcs[k], same))
    && (r.failed.None? <==> r.passed == |tcs|)
    && (r.verdict == Accepted <==> r.failed.None?)
    && (r.failed.Some? ==>
          var i := r.passed;
          var e := run(tcs[i]);
          && !Passes(e, tcs[i], same)
          && r.failed.value.index == i + 1
          && r.failed.value.input == tcs[i].input
          && r.failed.value.expectedOutput == tcs[i].expectedOutput
          && (e.verdict != Accepted ==>
                r.verdict == e.verdict && r.failed.value.actualOutput == e.output && r.failed.value.error == Some(e.error))
          && (e.verdict == Accepted ==>
                r.verdict == WrongAnswer && r.failed.value.actualOutput == OrElse(e.fullOutput.GetOr(""), e.output)
                && r.failed.value.error == None))
    && r.time == Peak(Times(run, tcs[..r.passed]))
    && r.memory == Peak(Memories(run, tcs[..r.passed]))
  }

  /** The loop of `judgeTestCases` over any execution `run` and comparison
      `same`: run the cases in order and stop at the first one that does not
      pass. */
  method JudgeLoop(run: TestCase -> ExecResult, same: (string, string) -> bool, tcs: seq<TestCase>)
    returns (r: Report, ghost ran: nat)
    ensures Reported(r, run, same, tcs)
    ensures ran == r.passed + (if r.failed.Some? then 1 else 0)
  {
    r := Report(Accepted, 0, |tcs|, None, 0, 0);
    ran := 0;
    var i := 0;
    while i < |tcs|
      invariant 0 <= i <= |tcs|
      invariant r == Report(Accepted, i, |tcs|, None, r.time, r.memory)
      invariant ran == i
      invariant forall k :: 0 <= k < i ==> Passes(run(tcs[k]), tcs[k], same)
      invariant r.time == Peak(Times(run, tcs[..i]))
      invariant r.memory == Peak(Memories(run, tcs[..i]))
    {
      var tc := tcs[i];
      var e := run(tc);
      ran := ran + 1;
      if e.verdict != Accepted {
        r := r.(verdict := e.verdict, failed := Some(FailedCase(i + 1, tc.input, tc.expectedOutput, e.output, Some(e.error))));
        return;
      }
      if !same(e.output, tc.expectedOutput) {
        r := r.(verdict := WrongAnswer,
                 failed := Some(FailedCase(i + 1, tc.input, tc.expectedOutput, OrElse(e.fullOutput.GetOr(""), e.output), None)));
        return;
      }
      PeaksStep(run, tcs, i);
      r := r.(passed := r.passed + 1,
               time := if r.time < e.time then e.time else r.time,
               memory := if r.memory < e.memory then e.memory else r.memory);
      i := i + 1;
    }
    assert tcs[..i] == tcs;
  }

  /** `judgeTestCases`: the loop with `execute` under a five-second limit and
      `compareOutputs`. */
  method JudgeTestCases(host: Host, code: string, language: string, tcs: seq<TestCase>, fn: string)
    returns (r: Report, ghost ran: nat)
    ensures Reported(r, Runner(host, code, language, fn), Comparator.Compare, tcs)
    ensures ran == r.passed + (if r.failed.Some? then 1 else 0)
  {
    r, ran := JudgeLoop(Runner(host, code, language, fn), Comparator.Compare, tcs);
  }
}
