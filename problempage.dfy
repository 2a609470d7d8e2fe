/**
 * The problem page's own checks and its run loop: the validator shown before
 * a run, the simulated compiler, the output normalisation used to compare a
 * case's output with the expected one, the loop that runs every case without
 * stopping at a failure, and the rule that names the function a solution
 * defines.
 */
module ProblemPage {
  import opened Wrappers
  import Text

  datatype Check = Valid | Invalid(message: string)

  // ---------------------------------------------------------------------
  // The validator
  // ---------------------------------------------------------------------

  const NoPythonDefinition: string := "Python code should contain at least one function definition (def) or class definition."
  const NoJavaClass: string := "Java code should contain at least one class definition."
  const NoJavaMain: string := "Java code should contain a main method: public static void main(String[] args)"
  const NoCppStructure: string := "C++ code should contain #include directives and a main function."
  const NoCppMain: string := "C++ code should contain a main function: int main()"
  const UnbalancedBraces: string := "Unbalanced braces. Check your opening and closing braces."

  /** The message for a badly indented line, numbered from 1. */
  function IndentMessage(line: nat): string {
    "Line " + Text.NatToString(line) + ": Invalid indentation. Python uses 4 spaces for indentation."
  }

  /** How many white-space characters open the line. */
  function Leading(line: string): nat {
    |line| - |Text.TrimStart(line)|
  }

  /** A line that is neither blank nor a comment and whose indentation is not
      a multiple of four. */
  predicate Misindented(line: string) {
    var t := Text.Trim(line);
    t != [] && t[0] != '#' && Leading(line) % 4 != 0
  }

  /** Line `i` is the first misindented one. */
  predicate FirstMisindented(lines: seq<string>, i: int) {
    0 <= i < |lines| && Misindented(lines[i]) && forall j :: 0 <= j < i ==> !Misindented(lines[j])
  }

  /** No line is misindented. */
  predicate WellIndented(lines: seq<string>) {
    forall j :: 0 <= j < |lines| ==> !Misindented(lines[j])
  }

  /** There is at most one first misindented line. */
  lemma FirstMisindentedUnique(lines: seq<string>, i: int, k: int)
    requires FirstMisindented(lines, i) && FirstMisindented(lines, k)
    ensures i == k
  {
  }

  predicate Balanced(code: string, open: char, close: char) {
    Text.CountChar(code, open) == Text.CountChar(code, close)
  }

  const JavaMain: string := "public static void main"
  const CppMain: string := "int main"

  predicate JavaClass(code: string) {
    Text.Includes(code, "public class") || Text.Includes(code, "class ")
  }

  /** Java needs a class, then a main method, then balanced braces. */
  function JavaCheck(code: string): (c: Check)
    ensures c == Valid <==> JavaClass(code) && Text.Includes(code, JavaMain) && Balanced(code, '{', '}')
    ensures !JavaClass(code) ==> c == Invalid(NoJavaClass)
    ensures JavaClass(code) && !Text.Includes(code, JavaMain) ==>
              c == Invalid(NoJavaMain)
    ensures JavaClass(code) && Text.Includes(code, JavaMain) && !Balanced(code, '{', '}') ==> c == Invalid(UnbalancedBraces)
  {
    if !JavaClass(code) then Invalid(NoJavaClass)
    else if !Text.Includes(code, JavaMain) then Invalid(NoJavaMain)
    else if !Balanced(code, '{', '}') then Invalid(UnbalancedBraces)
    else Valid
  }

  /** C++ needs an include or a main function, then a main function, then
      balanced braces. */
  function CppCheck(code: string): (c: Check)
    ensures c == Valid <==> Text.Includes(code, CppMain) && Balanced(code, '{', '}')
    ensures !Text.Includes(code, "#include") && !Text.Includes(code, CppMain) ==> c == Invalid(NoCppStructure)
    ensures Text.Includes(code, "#include") && !Text.Includes(code, CppMain) ==> c == Invalid(NoCppMain)
    ensures Text.Includes(code, CppMain) && !Balanced(code, '{', '}') ==> c == Invalid(UnbalancedBraces)
  {
    if !Text.Includes(code, "#include") && !Text.Includes(code, CppMain) then Invalid(NoCppStructure)
    else if !Text.Includes(code, CppMain) then Invalid(NoCppMain)
    else if !Balanced(code, '{', '}') then Invalid(UnbalancedBraces)
    else Valid
  }

  /** The line scan: the first misindented line is reported by its number
      from 1, and the code passes when there is none. */
  method CheckIndentation(lines: seq<string>) returns (c: Check)
    ensures c == Valid <==> WellIndented(lines)
    ensures c != Valid ==> exists i :: FirstMisindented(lines, i) && c == Invalid(IndentMessage(i + 1))
  {
    var i := 0;
    while i < |lines|
      invariant 0 <= i <= |lines|
      invariant forall j :: 0 <= j < i ==> !Misindented(lines[j])
    {
      if Misindented(lines[i]) {
        assert FirstMisindented(lines, i);
        return Invalid(IndentMessage(i + 1));
      }
      i := i + 1;
    }
    c := Valid;
  }

  /** The validator run before code is sent: Python needs a definition and
      then correct indentation on every line, Java and C++ have their own
      checks, any other language passes. */
  method ValidateCode(code: string, language: string) returns (c: Check)
    ensures language == "python" && !Text.Includes(code, "def ") && !Text.Includes(code, "class ") ==>
              c == Invalid(NoPythonDefinition)
    ensures language == "python" && (Text.Includes(code, "def ") || Text.Includes(code, "class ")) ==>
              var lines := Text.Split(code, '\n');
              && (c == Valid <==> WellIndented(lines))
              && (c != Valid ==> exists i :: FirstMisindented(lines, i) && c == Invalid(IndentMessage(i + 1)))
    ensures language == "java" ==> c == JavaCheck(code)
    ensures language == "cpp" ==> c == CppCheck(code)
    ensures language != "python" && language != "java" && language != "cpp" ==> c == Valid
  {
    if language == "python" {
      if !Text.Includes(code, "def ") && !Text.Includes(code, "class ") {
        c := Invalid(NoPythonDefinition);
      } else {
        c := CheckIndentation(Text.Split(code, '\n'));
      }
    } else if language == "java" {
      c := JavaCheck(code);
    } else if language == "cpp" {
      c := CppCheck(code);
    } else {
      c := Valid;
    }
  }

  // ---------------------------------------------------------------------
  // The simulated compiler
  // ---------------------------------------------------------------------

  const EmptyCode: string := "Code cannot be empty"
  const NoPythonStatement: string := "Python code should contain at least one function, class, or print statement"
  const UnbalancedParens: string := "Unbalanced parentheses"
  const NoJavaClassDefinition: string := "Java code must contain a class definition"
  const UnbalancedBracesShort: string := "Unbalanced braces"
  const NoCMain: string := "C/C++ code must contain a main function"

  predicate PythonStatement(code: string) {
    Text.Includes(code, "def ") || Text.Includes(code, "class ") || Text.Includes(code, "print(")
  }

  predicate CMain(code: string) {
    Text.Includes(code, "int main") || Text.Includes(code, "void main")
  }

  /** The simulated compiler: blank code is refused first; then Python needs a
      definition or a print and balanced parentheses, Java a class and
      balanced braces, C and C++ a main function and balanced braces. */
  function CompileCheck(code: string, language: string): (r: Check)
    ensures Text.Trim(code) == [] ==> r == Invalid(EmptyCode)
    ensures language == "python" ==>
              && (r == Valid <==> Text.Trim(code) != [] && PythonStatement(code) && Balanced(code, '(', ')'))
              && (Text.Trim(code) != [] && PythonStatement(code) && !Balanced(code, '(', ')') ==> r == Invalid(UnbalancedParens))
              && (Text.Trim(code) != [] && !PythonStatement(code) ==> r == Invalid(NoPythonStatement))
    ensures language == "java" ==>
              && (r == Valid <==> Text.Trim(code) != [] && Text.Includes(code, "class ") && Balanced(code, '{', '}'))
              && (Text.Trim(code) != [] && !Text.Includes(code, "class ") ==> r == Invalid(NoJavaClassDefinition))
              && (Text.Trim(code) != [] && Text.Includes(code, "class ") && !Balanced(code, '{', '}') ==> r == Invalid(UnbalancedBracesShort))
    ensures language == "cpp" || language == "c" ==>
              && (r == Valid <==> Text.Trim(code) != [] && CMain(code) && Balanced(code, '{', '}'))
              && (Text.Trim(code) != [] && !CMain(code) ==> r == Invalid(NoCMain))
              && (Text.Trim(code) != [] && CMain(code) && !Balanced(code, '{', '}') ==> r == Invalid(UnbalancedBracesShort))
    ensures language != "python" && language != "java" && language != "cpp" && language != "c" ==>
              (r == Valid <==> Text.Trim(code) != [])
  {
    if Text.Trim(code) == [] then Invalid(EmptyCode)
    else if language == "python" then
      if !PythonStatement(code) then Invalid(NoPythonStatement)
      else if !Balanced(code, '(', ')') then Invalid(UnbalancedParens)
      else Valid
    else if language == "java" then
      if !Text.Includes(code, "class ") then Invalid(NoJavaClassDefinition)
      else if !Balanced(code, '{', '}') then Invalid(UnbalancedBracesShort)
      else Valid
    else if language == "cpp" || language == "c" then
      if !CMain(code) then Invalid(NoCMain)
      else if !Balanced(code, '{', '}') then Invalid(UnbalancedBracesShort)
      else Valid
    else Valid
  }

  /** Code made only of white space never compiles, in any language. */
  lemma CompileRefusesBlank(code: string, language: string)
    requires Text.AllWhite(code)
    ensures CompileCheck(code, language) == Invalid(EmptyCode)
  {
    Text.TrimEmptyIff(code);
  }

  // ---------------------------------------------------------------------
  // Output normalisation
  // ---------------------------------------------------------------------

  /** Each line with its trailing white space removed. */
  function TrimLines(lines: seq<string>): (r: seq<string>)
    ensures |r| == |lines|
    ensures forall i :: 0 <= i < |r| ==> r[i] == Text.TrimEnd(lines[i])
  {
    seq(|lines|, i requires 0 <= i < |lines| => Text.TrimEnd(lines[i]))
  }

  /** The comparison form of an output: trailing white space removed from
      every line and from the whole, an empty output staying empty. The
      result never ends in white space. */
  function NormalizeOutput(output: string): (r: string)
    ensures r == [] || !Text.IsWhite(r[|r| - 1])
  {
    if output == [] then []
    else Text.TrimEnd(Text.Join(TrimLines(Text.Split(output, '\n')), '\n'))
  }

  /** The string is empty or ends in a character that is not white space. */
  predicate SolidEnd(s: string) {
    s == [] || !Text.IsWhite(s[|s| - 1])
  }

  /** `trimEnd` is the only prefix that leaves white space alone behind it and
      does not itself end in white space. */
  lemma TrimEndUnique(s: string, r: string)
    requires |r| <= |s| && r == s[..|r|] && Text.AllWhite(s[|r|..])
    requires r != [] ==> !Text.IsWhite(r[|r| - 1])
    ensures Text.TrimEnd(s) == r
  {
  }

  /** A string that does not end in white space is its own `trimEnd`. */
  lemma TrimEndSolid(s: string)
    requires SolidEnd(s)
    ensures Text.TrimEnd(s) == s
  {
    assert s[..|s|] == s;
    TrimEndUnique(s, s);
  }

  /** White space appended to a string is cut off with the rest. */
  lemma TrimEndWhiteTail(s: string, w: char)
    requires Text.IsWhite(w)
    ensures Text.TrimEnd(s + [w]) == Text.TrimEnd(s)
  {
    var t := Text.TrimEnd(s);
    var sw := s + [w];
    assert sw[..|t|] == t;
    assert forall k :: 0 <= k < |sw| - |t| ==> sw[|t|..][k] == if |t| + k < |s| then s[|t|..][k] else w;
    TrimEndUnique(sw, t);
  }

  /** A join seen from its last piece. */
  lemma {:induction false} JoinLast(parts: seq<string>, sep: char)
    requires |parts| >= 2
    ensures Text.Join(parts, sep) == Text.Join(parts[..|parts| - 1], sep) + [sep] + parts[|parts| - 1]
    decreases |parts|
  {
    if |parts| > 2 {
      JoinLast(parts[1..], sep);
      assert parts[1..][..|parts| - 2] == parts[..|parts| - 1][1..];
    }
  }

  /** The join ends with its last piece. */
  lemma JoinEndsWithLast(parts: seq<string>, sep: char)
    requires |parts| >= 1 && parts[|parts| - 1] != []
    ensures var s := Text.Join(parts, sep);
            var p := parts[|parts| - 1];
            |p| <= |s| && s[|s| - 1] == p[|p| - 1]
  {
    if |parts| >= 2 {
      JoinLast(parts, sep);
    }
  }

  /** The number of pieces up to and including the last non-empty one. */
  function Kept(parts: seq<string>): (k: nat)
    ensures k <= |parts|
    ensures k > 0 ==> parts[k - 1] != []
    ensures forall i :: k <= i < |parts| ==> parts[i] == []
  {
    if parts == [] then 0
    else if parts[|parts| - 1] != [] then |parts|
    else Kept(parts[..|parts| - 1])
  }

  /** A join whose last piece ends in a non-white character is its own
      `trimEnd`. */
  lemma TrimEndSolidJoin(parts: seq<string>, sep: char)
    requires |parts| >= 1 && parts[|parts| - 1] != [] && SolidEnd(parts[|parts| - 1])
    ensures Text.TrimEnd(Text.Join(parts, sep)) == Text.Join(parts, sep)
  {
    JoinEndsWithLast(parts, sep);
    TrimEndSolid(Text.Join(parts, sep));
  }

  /** An empty last piece and its white separator are cut off by `trimEnd`. */
  lemma TrimEndEmptyLast(parts: seq<string>, sep: char)
    requires |parts| >= 2 && parts[|parts| - 1] == [] && Text.IsWhite(sep)
    ensures Text.TrimEnd(Text.Join(parts, sep)) == Text.TrimEnd(Text.Join(parts[..|parts| - 1], sep))
    ensures Kept(parts) == Kept(parts[..|parts| - 1])
  {
    var front := parts[..|parts| - 1];
    JoinLast(parts, sep);
    assert Text.Join(parts, sep) == Text.Join(front, sep) + [sep];
    TrimEndWhiteTail(Text.Join(front, sep), sep);
  }

  /** `trimEnd` of a join of pieces that do not end in white space drops the
      trailing empty pieces and their separators, and nothing else. */
  lemma {:induction false} TrimEndJoin(parts: seq<string>, sep: char)
    requires Text.IsWhite(sep)
    requires forall i :: 0 <= i < |parts| ==> SolidEnd(parts[i])
    ensures Text.TrimEnd(Text.Join(parts, sep)) == if Kept(parts) == 0 then [] else Text.Join(parts[..Kept(parts)], sep)
    decreases |parts|
  {
    var n := |parts|;
    if n == 0 {
    } else if parts[n - 1] != [] {
      TrimEndSolidJoin(parts, sep);
      assert parts[..n] == parts;
    } else if n == 1 {
    } else {
      var front := parts[..n - 1];
      TrimEndEmptyLast(parts, sep);
      forall i | 0 <= i < |front| ensures SolidEnd(front[i]) {
        assert front[i] == parts[i];
      }
      TrimEndJoin(front, sep);
      assert front[..Kept(front)] == parts[..Kept(parts)];
    }
  }

  /** Lines that hold no newline and do not end in white space. */
  predicate TidyLines(lines: seq<string>) {
    forall i :: 0 <= i < |lines| ==> '\n' !in lines[i] && SolidEnd(lines[i])
  }

  /** Tidy lines whose last line is not empty are already normalised: inner
      white space, inside a line or as blank lines between lines, is kept. */
  lemma NormalizeKeepsTidy(lines: seq<string>)
    requires |lines| >= 1 && TidyLines(lines) && lines[|lines| - 1] != []
    ensures NormalizeOutput(Text.Join(lines, '\n')) == Text.Join(lines, '\n')
  {
    var s := Text.Join(lines, '\n');
    JoinEndsWithLast(lines, '\n');
    Text.SplitJoin(lines, '\n');
    forall i | 0 <= i < |lines| ensures Text.TrimEnd(lines[i]) == lines[i] {
      TrimEndSolid(lines[i]);
    }
    assert TrimLines(lines) == lines;
    TrimEndSolid(s);
  }

  /** The lines a normalised output is made of: each line trimmed at its end,
      the trailing empty ones dropped. */
  function NormalizedLines(output: string): seq<string> {
    KeptLines(TrimLines(Text.Split(output, '\n')))
  }

  /** The pieces up to the last non-empty one. */
  function KeptLines(t: seq<string>): (lines: seq<string>)
    ensures lines == [] || lines[|lines| - 1] != []
  {
    var k := Kept(t);
    assert k > 0 ==> t[..k][k - 1] == t[k - 1];
    t[..k]
  }

  /** Pieces without a newline stay without one when trimmed, and no
      longer end in white space. */
  lemma TrimLinesTidy(pieces: seq<string>)
    requires forall i :: 0 <= i < |pieces| ==> '\n' !in pieces[i]
    ensures TidyLines(TrimLines(pieces))
  {
    var t := TrimLines(pieces);
    forall i | 0 <= i < |t| ensures '\n' !in t[i] && SolidEnd(t[i]) {
      assert t[i] == pieces[i][..|t[i]|];
    }
  }

  /** A prefix of tidy lines is tidy. */
  lemma TidyPrefix(lines: seq<string>, k: nat)
    requires TidyLines(lines) && k <= |lines|
    ensures TidyLines(lines[..k])
  {
    assert forall i :: 0 <= i < k ==> lines[..k][i] == lines[i];
  }

  /** A normalised output is the join of tidy lines ending in a non-empty
      one, or empty when there are none. */
  lemma NormalizeShape(output: string)
    ensures var r := NormalizeOutput(output);
            var lines := NormalizedLines(output);
            && TidyLines(lines)
            && (lines == [] ==> r == [])
            && (lines != [] ==> r == Text.Join(lines, '\n'))
  {
    var t := TrimLines(Text.Split(output, '\n'));
    TrimLinesTidy(Text.Split(output, '\n'));
    TrimEndJoin(t, '\n');
    var k := Kept(t);
    TidyPrefix(t, k);
    if output == [] {
      assert Text.Split(output, '\n') == [""];
      assert t == [""] && Kept(t) == 0;
      assert NormalizedLines(output) == [];
    } else {
      assert NormalizeOutput(output) == Text.TrimEnd(Text.Join(t, '\n'));
      assert NormalizedLines(output) == t[..k];
    }
  }

  /** Normalising twice is normalising once. */
  lemma NormalizeIdempotent(output: string)
    ensures NormalizeOutput(NormalizeOutput(output)) == NormalizeOutput(output)
  {
    NormalizeShape(output);
    var lines := NormalizedLines(output);
    if lines != [] {
      assert TidyLines(lines);
      assert lines[|lines| - 1] != [];
      NormalizeKeepsTidy(lines);
    }
  }

  /** An output without a newline is compared by its `trimEnd` alone. */
  lemma NormalizeOneLine(output: string)
    requires '\n' !in output
    ensures NormalizeOutput(output) == Text.TrimEnd(output)
  {
    if output != [] {
      Text.SplitJoin([output], '\n');
      assert TrimLines([output]) == [Text.TrimEnd(output)];
      TrimEndSolid(Text.TrimEnd(output));
    }
  }

  // ---------------------------------------------------------------------
  // The run loop
  // ---------------------------------------------------------------------

  /** A case as the page holds it. */
  datatype Sample = Sample(input: string, expectedOutput: string)

  /** What the simulated execution returns; the time and memory figures are
      the numbers their texts carry, `None` when absent. */
  datatype Execution = Execution(success: bool, output: string, error: Option<string>, time: Option<nat>, memory: Option<nat>)

  datatype CaseResult = CaseResult(status: string, input: string, expected: string, actual: string,
                                   error: Option<string>, time: Option<nat>, memory: Option<nat>)

  /** The problem's cases, or its sample as the one case when it has no case
      list at all (an empty list is kept as it is). */
  function CasesOf(testCases: Option<seq<Sample>>, sampleInput: string, sampleOutput: string): (r: seq<Sample>)
    ensures testCases.Some? ==> r == testCases.value
    ensures testCases.None? ==> r == [Sample(sampleInput, sampleOutput)]
  {
    match testCases
    case Some(tcs) => tcs
    case None => [Sample(sampleInput, sampleOutput)]
  }

  /** The execution succeeded and its output compares equal to the expected one. */
  predicate Matches(e: Execution, tc: Sample) {
    e.success && NormalizeOutput(e.output) == NormalizeOutput(tc.expectedOutput)
  }

  /** One case's entry in the results: a runtime error, a pass or a failure,
      with the raw output of a finished execution. */
  function ResultFor(e: Execution, tc: Sample): (r: CaseResult)
    ensures r.status == "passed" <==> Matches(e, tc)
    ensures r.status == "runtime_error" <==> !e.success
    ensures r.status == "failed" <==> e.success && !Matches(e, tc)
    ensures r.input == tc.input && r.expected == tc.expectedOutput && r.time == e.time && r.memory == e.memory
    ensures r.actual == (if e.success then e.output else "")
    ensures r.error == (if e.success then None else e.error)
  {
    if !e.success then CaseResult("runtime_error", tc.input, tc.expectedOutput, "", e.error, e.time, e.memory)
    else if Matches(e, tc) then CaseResult("passed", tc.input, tc.expectedOutput, e.output, None, e.time, e.memory)
    else CaseResult("failed", tc.input, tc.expectedOutput, e.output, None, e.time, e.memory)
  }

  /** Case `i` run by `exec(i, input)` and judged. */
  function Step(exec: (nat, string) -> Execution): (nat, Sample) -> CaseResult {
    (i: nat, tc: Sample) => ResultFor(exec(i, tc.input), tc)
  }

  /** The results of the cases, case `i` giving `step(i, case)`. */
  function Results(step: (nat, Sample) -> CaseResult, tcs: seq<Sample>): (rs: seq<CaseResult>)
    ensures |rs| == |tcs|
  {
    if tcs == [] then []
    else
      var n := |tcs| - 1;
      Results(step, tcs[..n]) + [step(n, tcs[n])]
  }

  /** Result `i` is the outcome of case `i`. */
  lemma {:induction false} ResultsAt(step: (nat, Sample) -> CaseResult, tcs: seq<Sample>)
    ensures forall i :: 0 <= i < |tcs| ==> Results(step, tcs)[i] == step(i, tcs[i])
  {
    if tcs != [] {
      var n := |tcs| - 1;
      var front := tcs[..n];
      ResultsAt(step, front);
      assert forall i :: 0 <= i < n ==> front[i] == tcs[i];
    }
  }

  /** How many results are passes. */
  function Passed(results: seq<CaseResult>): (n: nat)
    ensures n <= |results|
  {
    if results == [] then 0
    else Passed(results[..|results| - 1]) + (if results[|results| - 1].status == "passed" then 1 else 0)
  }

  /** Every result is a pass exactly when the count reaches the number of
      results. */
  lemma {:induction false} PassedAll(results: seq<CaseResult>)
    ensures Passed(results) == |results| <==> forall i :: 0 <= i < |results| ==> results[i].status == "passed"
  {
    if results != [] {
      var n := |results| - 1;
      var front := results[..n];
      PassedAll(front);
      assert forall i :: 0 <= i < n ==> front[i] == results[i];
    }
  }

  /** The time of a pass that reports one, zero otherwise. */
  function CaseTime(r: CaseResult): nat {
    if r.status == "passed" && r.time.Some? then r.time.value else 0
  }

  /** The memory of a pass that reports it, zero otherwise. */
  function CaseMemory(r: CaseResult): nat {
    if r.status == "passed" && r.memory.Some? then r.memory.value else 0
  }

  /** The summed time of the passes. */
  function TimeSum(results: seq<CaseResult>): nat {
    if results == [] then 0
    else TimeSum(results[..|results| - 1]) + CaseTime(results[|results| - 1])
  }

  /** The largest memory figure among the passes, or zero. */
  function MemoryPeak(results: seq<CaseResult>): (m: nat)
    ensures forall i :: 0 <= i < |results| ==> CaseMemory(results[i]) <= m
  {
    if results == [] then 0
    else
      var front := results[..|results| - 1];
      var m := MemoryPeak(front);
      var c := CaseMemory(results[|results| - 1]);
      assert forall j :: 0 <= j < |front| ==> front[j] == results[j];
      if m < c then c else m
  }

  /** The peak is zero or the memory of one of the passes. */
  lemma {:induction false} MemoryPeakAttained(results: seq<CaseResult>)
    ensures var m := MemoryPeak(results);
            m == 0 || exists i :: 0 <= i < |results| && m == CaseMemory(results[i])
  {
    if results != [] {
      var n := |results| - 1;
      var front := results[..n];
      MemoryPeakAttained(front);
      var m := MemoryPeak(front);
      if MemoryPeak(results) != m {
        assert MemoryPeak(results) == CaseMemory(results[n]);
      } else if m != 0 {
        var k :| 0 <= k < n && m == CaseMemory(front[k]);
        assert front[k] == results[k];
      }
    }
  }

  /** One result pushed, and the pass count, the time sum and the peak memory
      brought up to date with it. */
  method Record(results: seq<CaseResult>, passed: nat, totalTime: nat, maxMemory: nat, r: CaseResult)
    returns (results': seq<CaseResult>, passed': nat, totalTime': nat, maxMemory': nat)
    requires passed == Passed(results) && totalTime == TimeSum(results) && maxMemory == MemoryPeak(results)
    ensures results' == results + [r]
    ensures passed' == Passed(results') && totalTime' == TimeSum(results') && maxMemory' == MemoryPeak(results')
  {
    results' := results + [r];
    assert results'[..|results|] == results;
    passed', totalTime', maxMemory' := passed, totalTime, maxMemory;
    if r.status == "passed" {
      passed' := passed + 1;
      if r.time.Some? {
        totalTime' := totalTime + r.time.value;
      }
      if r.memory.Some? && maxMemory < r.memory.value {
        maxMemory' := r.memory.value;
      }
    }
  }

  /** `Math.round(total / count)` in exact arithmetic. */
  function RoundedMean(total: nat, count: nat): nat
    requires count > 0
  {
    (2 * total + count) / (2 * count)
  }

  /** The rounded mean is the integer nearest to total/count, halves up. */
  lemma RoundedMeanNearest(total: nat, count: nat)
    requires count > 0
    ensures var m := RoundedMean(total, count);
            (2 * m - 1) * count <= 2 * total < (2 * m + 1) * count
  {
    var m := RoundedMean(total, count);
    var d := 2 * count;
    assert m * d <= 2 * total + count < m * d + d;
    assert (2 * m - 1) * count == m * d - count;
    assert (2 * m + 1) * count == m * d + count;
  }

  /** The summary's time: the summed time of the passes spread over all
      `cases`, or a fixed figure when no pass reported a time. */
  function TimeText(totalTime: nat, cases: nat): string
    requires totalTime > 0 ==> cases > 0
  {
    if totalTime > 0 then "~" + Text.NatToString(RoundedMean(totalTime, cases)) + "ms" else "~800ms"
  }

  /** The summary's memory: the peak of the passes, or a fixed figure. */
  function MemoryText(maxMemory: nat): string {
    if maxMemory > 0 then "~" + Text.NatToString(maxMemory) + "MB" else "~12MB"
  }

  /** Read back, the summary's time is the whole number nearest to the
      passes' summed time over the number of all cases, and its memory is
      the peak; without a timed pass or a memory figure the fixed defaults
      stand. */
  lemma SummaryValues(totalTime: nat, maxMemory: nat, cases: nat)
    requires totalTime > 0 ==> cases > 0
    ensures var t := TimeText(totalTime, cases);
      if totalTime == 0 then t == "~800ms"
      else
        4 <= |t| && t[..1] == "~" && t[|t| - 2..] == "ms" &&
        (forall i :: 1 <= i < |t| - 2 ==> Text.IsDigitOf(t[i], 10)) &&
        var m := Text.DigitsValue(t[1..|t| - 2], 10);
        (2 * m - 1) * cases <= 2 * totalTime < (2 * m + 1) * cases
    ensures var u := MemoryText(maxMemory);
      if maxMemory == 0 then u == "~12MB"
      else
        4 <= |u| && u[..1] == "~" && u[|u| - 2..] == "MB" &&
        (forall i :: 1 <= i < |u| - 2 ==> Text.IsDigitOf(u[i], 10)) &&
        Text.DigitsValue(u[1..|u| - 2], 10) == maxMemory
  {
    if totalTime > 0 {
      var m := RoundedMean(totalTime, cases);
      var ds := Text.NatToString(m);
      var t := "~" + ds + "ms";
      assert t[1..|t| - 2] == ds;
      Text.NatToStringValue(m);
      RoundedMeanNearest(totalTime, cases);
    }
    if maxMemory > 0 {
      var ds := Text.NatToString(maxMemory);
      var u := "~" + ds + "MB";
      assert u[1..|u| - 2] == ds;
      Text.NatToStringValue(maxMemory);
    }
  }

  /** Only a pass adds time, so a positive sum needs at least one result. */
  lemma TimeSumEmpty(results: seq<CaseResult>)
    ensures TimeSum(results) > 0 ==> results != []
  {
  }

  /** The run loop: every case is executed whatever happened before it, case
      `i` by `exec(i, input)`; one result is kept per case, and the count,
      the summed time and the peak memory are those of the passes. The
      summary texts spread the time over all cases and fall back to fixed
      figures, as `TimeText` and `MemoryText` say. */
  method RunTestCases(exec: (nat, string) -> Execution, tcs: seq<Sample>)
    returns (passed: nat, total: nat, results: seq<CaseResult>, totalTime: nat, maxMemory: nat,
             executionTime: string, memoryUsed: string)
    ensures total == |tcs| && |results| == |tcs|
    ensures forall i :: 0 <= i < |tcs| ==> results[i] == ResultFor(exec(i, tcs[i].input), tcs[i])
    ensures passed == Passed(results) && passed <= total
    ensures totalTime == TimeSum(results)
    ensures maxMemory == MemoryPeak(results)
    ensures totalTime > 0 ==> total > 0
    ensures executionTime == TimeText(totalTime, total)
    ensures memoryUsed == MemoryText(maxMemory)
  {
    passed, total, results, totalTime, maxMemory := RunCases(exec, tcs);
    TimeSumEmpty(results);
    executionTime := TimeText(totalTime, total);
    memoryUsed := MemoryText(maxMemory);
  }

  /** The loop of `RunTestCases`. */
  method RunCases(exec: (nat, string) -> Execution, tcs: seq<Sample>)
    returns (passed: nat, total: nat, results: seq<CaseResult>, totalTime: nat, maxMemory: nat)
    ensures total == |tcs| && |results| == |tcs|
    ensures forall i :: 0 <= i < |tcs| ==> results[i] == ResultFor(exec(i, tcs[i].input), tcs[i])
    ensures passed == Passed(results) && passed <= total
    ensures totalTime == TimeSum(results)
    ensures maxMemory == MemoryPeak(results)
  {
    passed := 0;
    total := |tcs|;
    results := [];
    totalTime := 0;
    maxMemory := 0;
    for i := 0 to |tcs|
      invariant results == Results(Step(exec), tcs[..i])
      invariant passed == Passed(results)
      invariant totalTime == TimeSum(results)
      invariant maxMemory == MemoryPeak(results)
    {
      var r := ResultFor(exec(i, tcs[i].input), tcs[i]);
      assert Step(exec)(i, tcs[i]) == r;
      assert tcs[..i + 1][..i] == tcs[..i];
      results, passed, totalTime, maxMemory := Record(results, passed, totalTime, maxMemory, r);
    }
    assert tcs[..|tcs|] == tcs;
    ResultsAt(Step(exec), tcs);
    forall i | 0 <= i < |tcs| ensures results[i] == ResultFor(exec(i, tcs[i].input), tcs[i]) {
      assert results[i] == Step(exec)(i, tcs[i]);
    }
  }

  // ---------------------------------------------------------------------
  // The entry point
  // ---------------------------------------------------------------------

  predicate IdentStart(c: char) {
    ('a' <= c <= 'z') || ('A' <= c <= 'Z') || c == '_'
  }

  predicate IdentChar(c: char) {
    IdentStart(c) || ('0' <= c <= '9')
  }

  predicate IsIdentifier(name: string) {
    name != [] && IdentStart(name[0]) && forall i :: 0 < i < |name| ==> IdentChar(name[i])
  }

  /** The end of the run of identifier characters from `i`. */
  function IdentEnd(s: string, i: nat): (r: nat)
    requires i <= |s|
    ensures i <= r <= |s|
    ensures forall j :: i <= j < r ==> IdentChar(s[j])
    ensures r < |s| ==> !IdentChar(s[r])
    decreases |s| - i
  {
    if i < |s| && IdentChar(s[i]) then IdentEnd(s, i + 1) else i
  }

  /** The name of a `def name(` match starting at `i`: `def`, white space,
      an identifier, optional white space, an opening parenthesis. */
  function DefAt(s: string, i: nat): (r: Option<string>)
    requires i <= |s|
    ensures r.Some? ==> IsIdentifier(r.value)
  {
    if !(i + 3 <= |s| && s[i..i + 3] == "def") then None
    else
      var j := Text.WhiteEnd(s, i + 3);
      if j == i + 3 || j == |s| || !IdentStart(s[j]) then None
      else
        var k := IdentEnd(s, j + 1);
        var l := Text.WhiteEnd(s, k);
        if l < |s| && s[l] == '(' then Some(s[j..k]) else None
  }

  /** Where the leftmost match at or after `i` starts. */
  function FirstDef(s: string, i: nat): (r: Option<nat>)
    requires i <= |s|
    ensures r.Some? ==> i <= r.value <= |s| && DefAt(s, r.value).Some? && forall j :: i <= j < r.value ==> DefAt(s, j).None?
    ensures r.None? ==> forall j :: i <= j <= |s| ==> DefAt(s, j).None?
    decreases |s| - i
  {
    if DefAt(s, i).Some? then Some(i)
    else if i == |s| then None
    else FirstDef(s, i + 1)
  }

  /** The function a problem's Python solution defines first, or `solve`. */
  function EntryPoint(solution: Option<string>): (name: string)
    ensures IsIdentifier(name)
    ensures solution.None? ==> name == "solve"
    ensures solution.Some? && FirstDef(solution.value, 0).Some? ==> Some(name) == DefAt(solution.value, FirstDef(solution.value, 0).value)
    ensures solution.Some? && FirstDef(solution.value, 0).None? ==> name == "solve"
  {
    match solution
    case None => "solve"
    case Some(code) =>
      match FirstDef(code, 0)
      case Some(k) => DefAt(code, k).value
      case None => "solve"
  }

  /** The end of a run of identifier characters is where they stop. */
  lemma {:induction false} IdentEndAt(s: string, i: nat, k: nat)
    requires i <= k <= |s|
    requires forall j :: i <= j < k ==> IdentChar(s[j])
    requires k < |s| ==> !IdentChar(s[k])
    ensures IdentEnd(s, i) == k
    decreases k - i
  {
    if i < k {
      IdentEndAt(s, i + 1, k);
    }
  }

  /** A solution that opens with the default stub `def name(` for any
      identifier `name` yields `name` back. */
  lemma EntryPointOfStub(name: string, rest: string)
    requires IsIdentifier(name)
    ensures EntryPoint(Some("def " + name + "(" + rest)) == name
  {
    var s := "def " + name + "(" + rest;
    var e := 4 + |name|;
    assert s[0..3] == "def" && s[3] == ' ' && s[4] == name[0] && s[e] == '(';
    assert Text.WhiteEnd(s, 4) == 4;
    assert Text.WhiteEnd(s, 3) == 4;
    forall j | 5 <= j < e ensures IdentChar(s[j]) {
      assert s[j] == name[j - 4];
    }
    IdentEndAt(s, 5, e);
    assert Text.WhiteEnd(s, e) == e;
    assert s[4..e] == name;
    assert DefAt(s, 0) == Some(name);
  }
}
