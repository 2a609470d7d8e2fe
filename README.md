# SDE projects: the judge, the learner's progress and two REST backends, modelled in Dafny

This project models the core of three small JavaScript systems and proves properties of the model.

**ProblemSolver.io** is a coding-practice platform. Its backend and page are modelled as follows:

- Judging engine: a build stage (a driver program around the user's code, a syntax check or a compiler). Then a run stage, which keeps the last output line as the function's result, reports time-outs and runtime errors and estimates the memory. Then a fail-fast loop over a problem's test cases, and an output comparison that tries JSON first and normalised text otherwise.
- Submission route: screens the request, stores a pending record, judges it and writes the report back. For accepted code the model updates the learner's solved list, points, daily streak and badges. The source's own test never fires (see "## Findings").
- Progress route: recomputes the same figures from the stored submissions and writes back only what changed. The model selects the accepted submissions; the source's filter selects none (see "## Findings").
- Problem page: its own validators, a simulated compiler and simulated execution (built-in Two Sum and Valid Parentheses solutions), the output normalisation and a run loop that does not stop at a failure.
- Test-case script: fills in every problem's cases.

**Mini-Ecommerce-Backend** has shopping-cart routes, and order creation, which checks stock, copies the lines, lowers stock and empties the cart. Paying an order moves it from pending to paid.

**RESTful-Backend-API** has user routes with soft deletion and role-based access, and a paged user list.

One Dafny module per concern:

| module | file | what it holds |
|---|---|---|
| `Wrappers` | wrappers.dfy | `Option` |
| `Text` | text.dfy | the JavaScript string operations used: `trim`, `split`, `indexOf`, `parseInt`, `String` |
| `Json` | json.dfy | the part of `JSON.parse`/`JSON.stringify` the comparison relies on |
| `Drivers` | drivers.dfy | the driver programs and the removal of a Python main guard |
| `Comparator` | comparator.dfy | `compareOutputs` |
| `Judge` | judge.dfy | `compileCode`, `runCode`, `execute`, `judgeTestCases` over a host oracle |
| `Learners` | learners.dfy | the learner record, a class updated in place, and the accept update |
| `Submissions` | submissions.dfy | the submission route |
| `Progress` | progress.dfy | the progress route |
| `ProblemPage` | problempage.dfy | the page's validators, normalisation, run loop and entry-point rule |
| `Simulation` | simulation.dfy | the page's simulated execution |
| `TestCaseGen` | testcasegen.dfy | the test-case script |
| `Paging` | paging.dfy | page/limit parsing and page arithmetic shared by the list routes |
| `Shop` | shop.dfy | catalogue, cart (a class) and the cart routes |
| `Orders` | orders.dfy | orders (a class), the stock check and order creation |
| `Payments` | payments.dfy | payment processing |
| `Accounts` | accounts.dfy | the user routes over a store that is a class |

Routes that change stored records are methods on classes: `Learners.User`, `Shop.Cart`, `Shop.Catalogue`, `Orders.Order` and `Accounts.Directory`. Their `ensures` give the whole new state in terms of reference functions, and lemmas prove what those functions promise. Loops in the source are `while` loops with invariants, proved against a reference function. This holds for `judgeTestCases`, the problem page's run loop, the Two Sum and bracket loops, the streak loop, the progress tallies, the stock check and the test-case generator.

## Model

| member | source | states |
|---|---|---|
| Text.Trim | ProblemSolver.io/backend/services/CodeExecutor.js:339-340 | `trim` never lengthens its text and leaves no white space at either end |
| Text.TrimKeepsEdges | ProblemSolver.io/backend/services/CodeExecutor.js:280-281 | a text with no white space at either end is its own trim |
| Text.TrimIdempotent | ProblemSolver.io/backend/services/CodeExecutor.js:413-415 | trimming twice is trimming once |
| Text.IndexOf | ProblemSolver.io/frontend/src/pages/ProblemDetail.js:355-361 | the first position of the character, -1 exactly when it is absent |
| Text.LastIndexOf | ProblemSolver.io/backend/services/CodeExecutor.js:282-284 | the last position of the character, -1 exactly when it is absent, none after it |
| Text.Split | ProblemSolver.io/backend/services/CodeExecutor.js:280-289 | a split on a one-character separator has at least one piece, no piece holds the separator, and joining the pieces back gives the text |
| Text.ParseIntOfIntToString | RESTful-Backend-API/src/controllers/userController.js:8-9 | `parseInt` reads back every integer its decimal text writes |
| Json.RoundTrip | ProblemSolver.io/backend/services/CodeExecutor.js:406-410 | reading the writer's text of a value gives that value back |
| Json.LayoutRoundTrip | ProblemSolver.io/backend/services/CodeExecutor.js:406-410 | any layout of a value with white space between tokens reads back as that value |
| Json.SerializeInjective | ProblemSolver.io/backend/services/CodeExecutor.js:410 | two values get the same canonical text exactly when they are equal |
| Comparator.LineEndsAgree | ProblemSolver.io/backend/services/CodeExecutor.js:416-417 | replacing CRLF and then CR is one scan turning both line endings into LF |
| Comparator.StripLineEndBlanks | ProblemSolver.io/backend/services/CodeExecutor.js:418 | the result has no blank at the end of a line or of the text |
| Comparator.TrimBlanksEndSpec | ProblemSolver.io/backend/services/CodeExecutor.js:418 | the reference reading of one line cuts off exactly its trailing run of blanks and keeps the rest as it was |
| Comparator.StripLineByLine | ProblemSolver.io/backend/services/CodeExecutor.js:418 | a line and the line end after it become that line without its trailing blanks, followed by the same line end; the rest of the text is stripped the same way |
| Comparator.StripLastLine | ProblemSolver.io/backend/services/CodeExecutor.js:418 | the last line, with no line end after it, loses exactly its trailing blanks |
| Comparator.StripExample | ProblemSolver.io/backend/services/CodeExecutor.js:418 | blanks inside a line stay and blanks before a line end or the end of the text go: `"a b \t\nc \t"` becomes `"a b\nc"` |
| Comparator.NormalizeShape | ProblemSolver.io/backend/services/CodeExecutor.js:413-419 | the normalised text holds no carriage return and no blank at the end of a line |
| Comparator.JsonTier | ProblemSolver.io/backend/services/CodeExecutor.js:406-410 | when both sides read as JSON, they compare equal exactly when they are the same value |
| Comparator.SpacingIgnored | ProblemSolver.io/backend/services/CodeExecutor.js:406-410 | the writer's text and any spaced-out layout of the same value compare equal |
| Comparator.TextTierExact | ProblemSolver.io/backend/services/CodeExecutor.js:411-423 | when one side is not JSON, texts already in normal form compare equal only when they are identical |
| Comparator.CaseMatters | ProblemSolver.io/backend/services/CodeExecutor.js:406-423 | `true` is JSON and `True` is not, so the texts are compared, and they differ |
| Comparator.CompareReflexive | ProblemSolver.io/backend/services/CodeExecutor.js:404-426 | every output compares equal to itself |
| Comparator.CompareSymmetric | ProblemSolver.io/backend/services/CodeExecutor.js:404-426 | the comparison does not depend on which side is the expected one |
| Comparator.NormalizeFixed | ProblemSolver.io/backend/services/CodeExecutor.js:413-419 | trimmed text without carriage returns and without blanks at line ends is its own normal form |
| Drivers.StripMainGuard | ProblemSolver.io/backend/services/CodeExecutor.js:86 | the stripped code is a prefix of the user's code |
| Drivers.StripAtFirstGuard | ProblemSolver.io/backend/services/CodeExecutor.js:86 | the cut is at the leftmost match of the main-guard pattern, and there is a match there unless nothing was cut |
| Drivers.StripLeavesNoGuard | ProblemSolver.io/backend/services/CodeExecutor.js:86 | the stripped code holds no main guard at all |
| Drivers.StripIdempotent | ProblemSolver.io/backend/services/CodeExecutor.js:86 | stripping twice is stripping once |
| Drivers.StripWithoutGuard | ProblemSolver.io/backend/services/CodeExecutor.js:86 | code without a main guard is left as it is |
| Judge.VerdictNameInjective | ProblemSolver.io/backend/services/CodeExecutor.js:363-398 | different verdicts are spelled differently in the results |
| Judge.OrElse | ProblemSolver.io/backend/services/CodeExecutor.js:277-278 | the fallback of one string to another gives its first string when that is not empty and its second otherwise |
| Judge.RunProcess | ProblemSolver.io/backend/services/CodeExecutor.js:303-355 | both streams are trimmed; a process that could not start reports exit code -1 with the error message as its stderr |
| Judge.CompileCode | ProblemSolver.io/backend/services/CodeExecutor.js:73-227 | the build stage gives only accepted or a compilation error; Python is always accepted; an unsupported language gets its message; a checked or compiled language fails exactly when its build process exits non-zero, with stderr, or else stdout, as the error |
| Judge.LastLineShape | ProblemSolver.io/backend/services/CodeExecutor.js:280-289 | the kept output is a trimmed suffix of the output without a line break, non-empty unless the output is empty, preceded after the last line break only by white space |
| Judge.RunCode | ProblemSolver.io/backend/services/CodeExecutor.js:229-301 | a time-out is reported whatever the exit code; otherwise a non-zero exit is a runtime error with stderr or `Runtime error`; a clean exit keeps the last line as the output and the whole output as `fullOutput`; the memory figure lies in 10..59 |
| Judge.Execute | ProblemSolver.io/backend/services/CodeExecutor.js:13-71 | a failed build is returned as it is; otherwise the run's verdict, output, figures and error, with `fullOutput` falling back to the output |
| Judge.FailedBuildDoesNotRun | ProblemSolver.io/backend/services/CodeExecutor.js:31-38 | a failed build is reported without running the program: hosts that agree on the build give the same result |
| Judge.RunSeesFiles | ProblemSolver.io/backend/services/CodeExecutor.js:73-219 | the run depends on the code only through the files the build stage writes: workspaces that write the same files run the same way |
| Judge.MainGuardTailIgnored | ProblemSolver.io/backend/services/CodeExecutor.js:86 | Python code from its first main guard on is cut before it is wrapped, so what follows the guard never changes the result |
| Judge.ExecuteVerdicts | ProblemSolver.io/backend/services/CodeExecutor.js:13-71 | `execute` never reports a wrong answer, and a clean run is always accepted |
| Judge.RunVerdicts | ProblemSolver.io/backend/services/CodeExecutor.js:229-301 | the run stage reports neither a wrong answer nor a compilation error, and an accepted run's output holds no line break |
| Judge.PeakIsMax | ProblemSolver.io/backend/services/CodeExecutor.js:396-398 | the peak is an upper bound of the figures and one of them, or 0 for none |
| Judge.PeaksStep | ProblemSolver.io/backend/services/CodeExecutor.js:396-398 | one more passing case raises each peak to that case's figure when it is larger |
| Judge.JudgeLoop | ProblemSolver.io/backend/services/CodeExecutor.js:367-399 | the cases run in order and stop at the first that does not pass: the leading `passed` cases pass, the next is the reported failure with its index, verdict, output and expected output, the figures are the peaks over the passes, and only the cases up to the failure are executed |
| Judge.JudgeTestCases | ProblemSolver.io/backend/services/CodeExecutor.js:357-402 | the loop over `execute` with a five-second limit and `compareOutputs`, with the totals of the report |
| Learners.PointsFor | ProblemSolver.io/backend/routes/submissions.js:91-92 | a multiple of 10 between 10 and 30 |
| Learners.PointsTable | ProblemSolver.io/backend/routes/submissions.js:91-92 | Easy, Medium and Hard earn 10, 20 and 30, any other difficulty 10 |
| Learners.LowerCaseScoresDefault | ProblemSolver.io/backend/routes/submissions.js:91-92 | the lower-case difficulties `easy`, `medium` and `hard` find no entry in the title-case table and all earn the default 10 |
| Learners.AddMissingShape | ProblemSolver.io/backend/routes/submissions.js:79-94 | appending brings in nothing but the element, and a list without repeats stays without repeats |
| Learners.Award | ProblemSolver.io/backend/routes/submissions.js:116-130 | held badges are kept in front, and the first-solve badge, the streak badge from 3 days and the century badge from 100 points are present |
| Learners.AwardOnlyEarned | ProblemSolver.io/backend/routes/submissions.js:116-130 | only held or earned badges are present, and none twice |
| Learners.AcceptSolved | ProblemSolver.io/backend/routes/submissions.js:79-94 | a first solve appends the problem once and adds its points; a repeat solve changes neither the solved list nor the points |
| Learners.AcceptStreak | ProblemSolver.io/backend/routes/submissions.js:96-114 | the streak stays on the same day, grows by one the day after the last solve and restarts at 1 otherwise; the last solve is today |
| Learners.AcceptKeepsDistinct | ProblemSolver.io/backend/routes/submissions.js:79-130 | solved lists and badge lists without repeats stay without repeats |
| Learners.AcceptIdempotent | ProblemSolver.io/backend/routes/submissions.js:79-130 | accepting the same problem again on the same day changes nothing |
| Learners.User.constructor | ProblemSolver.io/backend/models/User.js:27-46 | a new learner has nothing solved, no points, no streak, no last solve and no badges |
| Learners.User.RecordAccepted | ProblemSolver.io/backend/routes/submissions.js:79-132 | the stored record becomes the accept update of the old record |
| Learners.User.CreditSolve | ProblemSolver.io/backend/routes/submissions.js:79-94 | an unsolved problem is appended and its points added; a solved one changes nothing |
| Learners.User.AdvanceStreak | ProblemSolver.io/backend/routes/submissions.js:96-114 | the streak stays on the day of the last solve and otherwise follows the streak rule; the last solve becomes today; nothing else changes |
| Learners.User.AwardBadges | ProblemSolver.io/backend/routes/submissions.js:116-130 | the stored badges become the awarded list |
| Learners.User.Reconcile | ProblemSolver.io/backend/routes/progress.js:137-156 | points, streak and badges take the recalculated values, the rest stays, and the record is saved exactly when one of the three differed |
| Submissions.Screen | ProblemSolver.io/backend/routes/submissions.js:17-41 | missing fields give 400, then an unknown problem 404, then a problem without test cases 400; a request passing all three names a stored problem with cases |
| Submissions.Created | ProblemSolver.io/backend/routes/submissions.js:44-52 | the new record is pending, with zero figures and the function name defaulting to `solve` |
| Submissions.RecordedReport | ProblemSolver.io/backend/routes/submissions.js:55-68 | the stored record keeps user, problem and code, counts at most all cases, is accepted exactly when every case passed, and carries an empty error on acceptance, none on a wrong answer, the engine's error otherwise |
| Submissions.AsWrittenNeverGamifies | ProblemSolver.io/backend/routes/submissions.js:73 | no verdict the engine produces passes the guard as written |
| Submissions.GamifiesOnAccept | ProblemSolver.io/backend/routes/submissions.js:73 | the corrected guard holds exactly for the accepted verdict |
| Submissions.Submit | ProblemSolver.io/backend/routes/submissions.js:14-140 | a refused request changes nothing; otherwise the reply is the judged record and the learner's record gets the accept update exactly when the code was accepted |
| Progress.WithStatus | ProblemSolver.io/backend/routes/progress.js:23-29 | the selected submissions are exactly those with the status, in order |
| Progress.AsWrittenSelectsNothing | ProblemSolver.io/backend/routes/progress.js:26 | over the statuses the submission route stores, the filter as written selects nothing |
| Progress.AcceptedExactly | ProblemSolver.io/backend/routes/progress.js:23-29 | the corrected filter keeps a submission exactly when its verdict is accepted |
| Progress.Unique | ProblemSolver.io/backend/routes/progress.js:32 | the distinct problem IDs: no repeats, nothing new and nothing lost |
| Progress.ByIdShape | ProblemSolver.io/backend/routes/progress.js:41-53 | an ID in the problem map maps to a listed problem with that ID, and every listed ID is in the map |
| Progress.SolvedAtMostTotal | ProblemSolver.io/backend/routes/progress.js:56-77 | for every topic and difficulty, distinct solves never outnumber the active problems |
| Progress.InactiveAddsNothing | ProblemSolver.io/backend/routes/progress.js:64-77 | an ID naming no active problem adds nothing to any count or to the points |
| Progress.PointsBounds | ProblemSolver.io/backend/routes/progress.js:64-77 | the points lie between 10 and 30 per solved active problem |
| Progress.PopulateTotals | ProblemSolver.io/backend/routes/progress.js:41-61 | per tracked key, the number of active problems with that key, and no solves yet |
| Progress.PopulateSolved | ProblemSolver.io/backend/routes/progress.js:64-77 | per key, the solved IDs naming an active problem with that key, and the summed points |
| Progress.PercentNearest | ProblemSolver.io/backend/routes/progress.js:80-84 | the percentage is the integer nearest to 100 times solved over total, halves up, 0 for no problems |
| Progress.PercentRange | ProblemSolver.io/backend/routes/progress.js:80-84 | a share of solved problems is between 0 and 100 |
| Progress.TopicProgress | ProblemSolver.io/backend/routes/progress.js:80-84 | one percentage per tracked topic |
| Progress.CurrentStreak | ProblemSolver.io/backend/routes/progress.js:93-123 | the streak is the length of the run of days with solves ending today, or yesterday when today has none |
| Progress.RunExtends | ProblemSolver.io/backend/routes/progress.js:93-123 | a run ending yesterday grows by one with a solve today, agreeing with the submission route's streak rule |
| Progress.RunUnique | ProblemSolver.io/backend/routes/progress.js:93-123 | the run length from a day is unique |
| Progress.NewBadgesDistinct | ProblemSolver.io/backend/routes/progress.js:126-134 | no badge appears twice |
| Progress.NewBadgesKeep | ProblemSolver.io/backend/routes/progress.js:126-134 | held badges are kept and the earned badges for 1, 10 and 50 solves and 3- and 7-day streaks are present |
| Progress.NewBadgesOnlyEarned | ProblemSolver.io/backend/routes/progress.js:126-134 | nothing but held and earned badges is present |
| Progress.NewBadgesIdempotent | ProblemSolver.io/backend/routes/progress.js:126-134 | recomputing the badges changes nothing |
| Progress.GetProgress | ProblemSolver.io/backend/routes/progress.js:14-175 | a missing learner gives 404 and nothing changes; otherwise the page's figures over the accepted submissions and the write-back of points, streak and badges |
| ProblemPage.FirstMisindentedUnique | ProblemSolver.io/frontend/src/pages/ProblemDetail.js:197-210 | there is at most one first badly indented line |
| ProblemPage.CheckIndentation | ProblemSolver.io/frontend/src/pages/ProblemDetail.js:197-210 | the first badly indented line is reported by its number from 1, and the code passes exactly when there is none |
| ProblemPage.JavaCheck | ProblemSolver.io/frontend/src/pages/ProblemDetail.js:211-235 | Java needs a class, then a main method, then balanced braces, each with its message |
| ProblemPage.CppCheck | ProblemSolver.io/frontend/src/pages/ProblemDetail.js:236-261 | C++ needs an include or a main function, then a main function, then balanced braces |
| ProblemPage.ValidateCode | ProblemSolver.io/frontend/src/pages/ProblemDetail.js:180-264 | Python needs a definition and then correct indentation; Java and C++ have their checks; other languages pass |
| ProblemPage.CompileCheck | ProblemSolver.io/frontend/src/pages/ProblemDetail.js:286-335 | blank code is refused first; then Python needs a definition or a print and balanced parentheses, Java a class and balanced braces, C and C++ a main function and balanced braces |
| ProblemPage.CompileRefusesBlank | ProblemSolver.io/frontend/src/pages/ProblemDetail.js:291-293 | white space alone never compiles, in any language |
| ProblemPage.NormalizeOutput | ProblemSolver.io/frontend/src/pages/ProblemDetail.js:557-564 | the normalised output never ends in white space |
| ProblemPage.NormalizeShape | ProblemSolver.io/frontend/src/pages/ProblemDetail.js:557-564 | a normalised output is the join of lines without trailing white space, ending in a non-empty one, or empty |
| ProblemPage.NormalizeIdempotent | ProblemSolver.io/frontend/src/pages/ProblemDetail.js:557-564 | normalising twice is normalising once |
| ProblemPage.NormalizeKeepsTidy | ProblemSolver.io/frontend/src/pages/ProblemDetail.js:557-564 | inner white space, inside a line or as blank lines between lines, is kept |
| ProblemPage.NormalizeOneLine | ProblemSolver.io/frontend/src/pages/ProblemDetail.js:557-564 | an output without a newline is compared by its `trimEnd` alone |
| ProblemPage.CasesOf | ProblemSolver.io/frontend/src/pages/ProblemDetail.js:528-530 | the problem's cases, or its sample as the one case when it has no list; an empty list stays empty |
| ProblemPage.ResultFor | ProblemSolver.io/frontend/src/pages/ProblemDetail.js:543-598 | passed exactly when the execution succeeded with a matching output, a runtime error exactly when it failed, failed otherwise; the raw output of a successful execution, the error of a failed one |
| ProblemPage.ResultsAt | ProblemSolver.io/frontend/src/pages/ProblemDetail.js:537-599 | result `i` is the outcome of case `i`, one per case |
| ProblemPage.PassedAll | ProblemSolver.io/frontend/src/pages/ProblemDetail.js:602-608 | every result passes exactly when the pass count reaches the number of results |
| ProblemPage.MemoryPeakAttained | ProblemSolver.io/frontend/src/pages/ProblemDetail.js:569-588 | the peak memory is zero or the memory of one of the results |
| ProblemPage.Record | ProblemSolver.io/frontend/src/pages/ProblemDetail.js:569-598 | one result is pushed, and the count, the time sum and the peak include it |
| ProblemPage.RunTestCases | ProblemSolver.io/frontend/src/pages/ProblemDetail.js:527-623 | every case runs whatever happened before, one result per case, with the count, summed time and peak memory of the passes; the returned time text spreads that sum over all cases, and the fixed "~800ms" and "~12MB" stand when nothing was measured |
| ProblemPage.RunCases | ProblemSolver.io/frontend/src/pages/ProblemDetail.js:532-599 | the loop alone: one result per case in order, with the count, summed time and peak memory of the passes |
| ProblemPage.RoundedMeanNearest | ProblemSolver.io/frontend/src/pages/ProblemDetail.js:604 | the rounded mean is the whole number nearest to the total over the count, halves up |
| ProblemPage.SummaryValues | ProblemSolver.io/frontend/src/pages/ProblemDetail.js:602-606 | the summary time reads back as the nearest whole mean over all cases, the memory as the peak, each between "~" and its unit; otherwise the fixed defaults |
| ProblemPage.EntryPoint | ProblemSolver.io/frontend/src/pages/ProblemDetail.js:76-84 | the name is the identifier of the first `def name(` in the solution, or `solve` |
| ProblemPage.EntryPointOfStub | ProblemSolver.io/frontend/src/pages/ProblemDetail.js:76-84 | a solution that opens with `def name(` yields that name |
| Simulation.IsValid | ProblemSolver.io/frontend/src/pages/ProblemDetail.js:402-438 | the stack loop answers true exactly when the string is valid |
| Simulation.ReduceAppend | ProblemSolver.io/frontend/src/pages/ProblemDetail.js:417-433 | scanning a concatenation is scanning the first part, then the second from where it left off |
| Simulation.ValidConcat | ProblemSolver.io/frontend/src/pages/ProblemDetail.js:417-433 | two valid strings in a row make a valid string |
| Simulation.ValidWrap | ProblemSolver.io/frontend/src/pages/ProblemDetail.js:417-433 | a valid string between an opener and its closer is valid |
| Simulation.ValidShape | ProblemSolver.io/frontend/src/pages/ProblemDetail.js:417-433 | a valid string holds brackets only, and an even number of them |
| Simulation.StripQuotes | ProblemSolver.io/frontend/src/pages/ProblemDetail.js:404-407 | one pair of surrounding quotes is removed; a lone quote leaves the empty string |
| Simulation.FirstPairSums | ProblemSolver.io/frontend/src/pages/ProblemDetail.js:376-387 | a pair of numbers found adds up to the target; a non-number pairs only with a non-number |
| Simulation.TwoSum | ProblemSolver.io/frontend/src/pages/ProblemDetail.js:376-391 | the one-pass loop returns the reference search's answer: the first index whose complement occurs before it, with the last such earlier index |
| Simulation.ParseTwoSum | ProblemSolver.io/frontend/src/pages/ProblemDetail.js:355-366 | an input with fewer than two lines is a format error |
| Simulation.ParseTwoSumOfText | ProblemSolver.io/frontend/src/pages/ProblemDetail.js:355-366 | an input written as the problem statement writes it reads back as its numbers and target |
| Simulation.ExecuteCode | ProblemSolver.io/frontend/src/pages/ProblemDetail.js:337-525 | endless-loop code fails; Two Sum and Valid Parentheses code defining the function gets the built-in answer, and code lacking it the missing-function error; other problems get the print simulation |
| TestCaseGen.GenerateGenericTestCases | ProblemSolver.io/backend/scripts/populate_testcases.js:9-19 | the loop builds the generic list |
| TestCaseGen.GenericShape | ProblemSolver.io/backend/scripts/populate_testcases.js:9-19 | exactly `count` copies of the sample, each hidden exactly from index 2 on |
| TestCaseGen.GenericShown | ProblemSolver.io/backend/scripts/populate_testcases.js:15 | the first two copies are shown, or all when there are fewer |
| TestCaseGen.PopulateShape | ProblemSolver.io/backend/scripts/populate_testcases.js:45-68 | length and order kept; every field but the cases kept; a title with a hand-written list gets it, a problem without a sample eight copies of `test`, any other eight copies of its sample |
| TestCaseGen.PopulateIdempotent | ProblemSolver.io/backend/scripts/populate_testcases.js:45-68 | running the script twice gives what running it once gives |
| TestCaseGen.PopulatedCounts | ProblemSolver.io/backend/scripts/populate_testcases.js:22-68 | every problem ends up with eight cases, two of them shown |
| TestCaseGen.ValidParenthesesAgree | ProblemSolver.io/backend/scripts/populate_testcases.js:33-42 | the simulated Valid Parentheses solution answers every hand-written case as its expected output says |
| Paging.Param | RESTful-Backend-API/src/controllers/userController.js:8-9 | a missing, unparsable or zero parameter gives the default, any other reading is kept |
| Paging.CeilDiv | Mini-Ecommerce-Backend/src/controllers/orderController.js:29 | the number of pages is the least whole number of that many pages covering the records |
| Paging.NextPageIff | Mini-Ecommerce-Backend/src/controllers/orderController.js:31-32 | with a positive limit there is a next page exactly when the page is before the last, a previous one exactly from page 2 |
| Paging.PagesCoverRecords | RESTful-Backend-API/src/controllers/userController.js:22-27 | no pages for no records, every page from the first to the last starts at a record, and a page past the last starts past them |
| Shop.Catalogue.Find | Mini-Ecommerce-Backend/src/controllers/cartController.js:26 | the product exactly when the identifier is stored |
| Shop.AddedHeld | Mini-Ecommerce-Backend/src/controllers/cartController.js:37-49 | adding raises the held quantity of that product by exactly the amount, and no other product's |
| Shop.AddedLines | Mini-Ecommerce-Backend/src/controllers/cartController.js:37-49 | a line is appended only when the product had none, so one line per product stays one line per product |
| Shop.StockCheckIgnoresCart | Mini-Ecommerce-Backend/src/controllers/cartController.js:27-29 | with 1 in stock and 1 in the cart, one more is accepted and the cart then holds 2 |
| Shop.WithdrawnOne | Mini-Ecommerce-Backend/src/controllers/cartController.js:110 | pulling an identifier only one line has removes exactly that line, the others keeping their order |
| Shop.WithdrawnNone | Mini-Ecommerce-Backend/src/controllers/cartController.js:110 | pulling an identifier no line has changes nothing |
| Shop.Cart.constructor | Mini-Ecommerce-Backend/src/controllers/cartController.js:33-35 | a cart created for a user without one has no lines and a zero total |
| Shop.Cart.Add | Mini-Ecommerce-Backend/src/controllers/cartController.js:41-49 | the lines become the added lines, the total unchanged |
| Shop.Cart.SetQuantity | Mini-Ecommerce-Backend/src/controllers/cartController.js:83 | the line at the index gets exactly the quantity, the others unchanged |
| Shop.Cart.Pull | Mini-Ecommerce-Backend/src/controllers/cartController.js:110 | the lines become the pulled lines, the total unchanged |
| Shop.Cart.Clear | Mini-Ecommerce-Backend/src/controllers/cartController.js:130-131 | no lines and a zero total |
| Shop.AddToCart | Mini-Ecommerce-Backend/src/controllers/cartController.js:22-61 | an unavailable product gives 400 and touches no cart; otherwise the user's cart, created empty when missing, gets the line |
| Shop.UpdateCartItem | Mini-Ecommerce-Backend/src/controllers/cartController.js:63-94 | 404 without a cart or the line, 400 when the product cannot supply the quantity, otherwise the line's quantity becomes exactly the requested one |
| Shop.RemoveFromCart | Mini-Ecommerce-Backend/src/controllers/cartController.js:96-121 | 404 without a cart or the line, otherwise the line is pulled out |
| Shop.ClearCart | Mini-Ecommerce-Backend/src/controllers/cartController.js:123-141 | 404 without a cart, otherwise no lines and a zero total |
| Orders.Order.constructor | Mini-Ecommerce-Backend/src/models/Order.js:39-57 | a new order is pending, not deleted and without a payment |
| Orders.FirstShortage | Mini-Ecommerce-Backend/src/controllers/orderController.js:73-77 | no shortage exactly when every line's product exists and has the quantity in stock |
| Orders.CheckStock | Mini-Ecommerce-Backend/src/controllers/orderController.js:73-77 | the loop stops at the first line short of stock |
| Orders.Snapshot | Mini-Ecommerce-Backend/src/controllers/orderController.js:80-86 | one order line per cart line, in order, with the product's name, the line's price and quantity and their product |
| Orders.DecreasedStock | Mini-Ecommerce-Backend/src/controllers/orderController.js:96-100 | the same products with the same names and prices, each stock lowered by the quantity held of it over all lines |
| Orders.NoShortage | Mini-Ecommerce-Backend/src/controllers/orderController.js:73-77 | a passed check means every line's product exists with enough stock |
| Orders.HeldOneLine | Mini-Ecommerce-Backend/src/controllers/orderController.js:96-100 | with one line per product, the held quantity is that of its one line, or 0 |
| Orders.StockStaysNatural | Mini-Ecommerce-Backend/src/controllers/orderController.js:73-100 | with one line per product, an order that passed the check leaves no stock negative |
| Orders.SplitLinesOversell | Mini-Ecommerce-Backend/src/controllers/orderController.js:73-100 | two lines of one product pass the check one by one and drive its stock below zero |
| Orders.DecreaseStock | Mini-Ecommerce-Backend/src/controllers/orderController.js:96-100 | the catalogue's products become the decreased products |
| Orders.CreateOrder | Mini-Ecommerce-Backend/src/controllers/orderController.js:61-116 | a missing or empty cart gives 400, a short line 400 with the product's name (500 when the product is gone), with nothing changed; otherwise a pending order of the cart's lines and total, stock lowered, cart emptied |
| Orders.OrdersMeta | Mini-Ecommerce-Backend/src/controllers/orderController.js:27-33 | the page and limit from the query, the number of pages, and next/previous flags as the route computes them |
| Payments.Record | Mini-Ecommerce-Backend/src/controllers/paymentController.js:28-35 | the payment carries the order's amount, order and user, SUCCESS or FAILED, and a date exactly on success |
| Payments.ProcessPayment | Mini-Ecommerce-Backend/src/controllers/paymentController.js:6-52 | an order not the user's or deleted gives 404, not pending 400, with no payment written; otherwise the payment is written, and on success the order is PAID and points to it, on failure it is unchanged with 400 |
| Payments.PaymentsMeta | Mini-Ecommerce-Backend/src/controllers/paymentController.js:93-99 | the payment list's page description is the order list's |
| Accounts.GetUser | RESTful-Backend-API/src/controllers/userController.js:38-58 | shown exactly when the user is live and the caller is an administrator or the user; 404 exactly for a missing or deleted user; 403 exactly for someone else's live record |
| Accounts.Patched | RESTful-Backend-API/src/controllers/userController.js:92-95 | the body's fields are set and the others kept |
| Accounts.Active | RESTful-Backend-API/src/controllers/userController.js:12-17 | the counted users are exactly the live ones |
| Accounts.SoftDeleteEffect | RESTful-Backend-API/src/controllers/userController.js:117 | every record is kept, the deleted one with the mark set; the user is no longer live and the list counts one fewer |
| Accounts.LiveIn | RESTful-Backend-API/src/controllers/userController.js:12-15 | only live users, each listed user kept, in order |
| Accounts.Window | RESTful-Backend-API/src/controllers/userController.js:12-15 | skip then limit: the records from position `skip` on, at most `limit` of them, in order |
| Accounts.ActiveCount | RESTful-Backend-API/src/controllers/userController.js:17-21 | when the stored order lists every user once, its live users are as many as the count |
| Accounts.GetUsers | RESTful-Backend-API/src/controllers/userController.js:6-33 | refused exactly for a negative skip; otherwise live users only, at most the limit, and the page description over all live users |
| Accounts.ListedWindow | RESTful-Backend-API/src/controllers/userController.js:8-15 | with positive page and limit, the window of live users from `(page-1)·limit` on |
| Accounts.ListedPages | RESTful-Backend-API/src/controllers/userController.js:6-33 | with positive page and limit, a page up to the last is not empty and holds the live users from `(page-1)·limit` on |
| Accounts.UpdateEffect | RESTful-Backend-API/src/controllers/userController.js:92-95 | an update of a live record keeps every other record; the record stays live unless the body sets the deletion mark, which takes it out of the list |
| Accounts.SelfPromotion | RESTful-Backend-API/src/controllers/userController.js:87-95 | the whole body is copied, role included: a live user who is not an administrator may give their own record the administrator role, and with it is shown every live record |
| Accounts.Directory.constructor | RESTful-Backend-API/src/controllers/userController.js:12 | the store holds the given users |
| Accounts.Directory.UpdateUser | RESTful-Backend-API/src/controllers/userController.js:79-104 | 404 for a missing or deleted user and 403 for someone else's record, with nothing changed; otherwise only that record is patched and shown |
| Accounts.Directory.DeleteUser | RESTful-Backend-API/src/controllers/userController.js:109-126 | 404 for a missing or deleted user, otherwise the soft delete and nothing else |

## Left out

- Processes, files and time. Starting processes, the file system itself, the per-execution directory name, timers and killing a process are not modelled. Each invocation hands the host oracle the files the build stage wrote (`Judge.WrittenFiles`: the driver program around the code, or the code as it is). The oracle says how each invocation ends, how much time the run took and which random memory figure it drew.
- Submissions.Submit: updates the learner when the engine's verdict is `accepted`, the corrected test of "## Findings". As written, the route tests `Accepted` and never updates the learner (`Submissions.AsWrittenNeverGamifies`).
- Progress.GetProgress: counts the submissions stored as `accepted`, the corrected filter of "## Findings". As written, the route selects `Accepted` and finds none (`Progress.AsWrittenSelectsNothing`).
- The problem page's console panel (`updateConsoleData`) is not modelled. `ProblemPage.RunTestCases` returns the figures it shows.
- Randomness. The page's simulated time and memory figures, the backend's memory estimate and the mock payment outcome are drawn at random in the source. Here they are parameters.
- Printed output on the page. The print simulation for problems other than Two Sum and Valid Parentheses matches print-call patterns against the whole code, where a `.` in a pattern does not cross a line end. Its output is taken as a parameter of `Simulation.ExecuteCode`. The `Promise.race` time-out around the page's execution is not modelled.
- JSON. `JSON.parse` is modelled for null, booleans, integers, strings without escape sequences and arrays. Objects, fractions, exponents and escapes are read as "not JSON", so the comparison falls back to text for them.
- Comparator.JsonTier: states the JSON tier only for the values the model reads as JSON, because of the subset above.
- Progress.PercentNearest: `Math.round(solved / total * 100)` works in floating point. The model computes the nearest whole percentage exactly, halves up, so it can differ where a floating-point quotient lands just beside a half.
- Dates. Calendar days are whole numbers, with yesterday as `today - 1`. Time zones and the `YYYY-MM-DD` text form are not modelled.
- Hand-written test cases. `specificTestCases` is looked up by title. A title naming a property every JavaScript object inherits (such as `constructor`) would find an inherited value; the model knows only the two real titles.
- The Two Sum hand-written cases are not checked against the simulated solution. The Valid Parentheses ones are (`TestCaseGen.ValidParenthesesAgree`).
- Reading and writing `problems.json`, and the count line the script prints, are not modelled.
- `ObjectId` cast errors are not modelled, nor the database failures that the routes turn into 500 replies. The exception is a product that vanishes before order creation, which is modelled.
- Mongoose validators (`runValidators`) are not modelled, nor the `Cart` model's save hooks. `totalAmount` changes only where a route sets it.
- The user list's sort order is a parameter `order`, the store's users newest first. The database's `skip`/`limit` are modelled as a window that refuses a negative skip and reads a negative limit as its magnitude.
- Orders.OrdersMeta and Payments.PaymentsMeta: the order and payment lists are modelled by their page description only, not by the query that fetches the records.
- Authentication and routing middleware are not modelled: token checks, admin-only routes, and the request validators in front of the cart routes. The caller is a parameter.
- Identifiers that the database assigns to new records (order, payment, cart line) are parameters.
- Some routes are not part of this model:
  - the read-only routes `getCart`, `getOrder` and `getPayment`;
  - the submission list, and the run route beside the submission route;
  - `updateOrderStatus` and `createUser`, whose bodies are a single database call.
- Logging and response formatting are not modelled (`logger`, `populate`, the `sendSuccess`/`sendError` envelopes).
- Integers are unbounded. JavaScript numbers lose precision above 2^53, which ordinary use of these routes does not reach.

## Findings

| source | as written | input that shows it | evidently intended | confidence | as-written member | corrected member |
|---|---|---|---|---|---|---|
| ProblemSolver.io/backend/routes/submissions.js:73 | the learner's record is updated only when the verdict equals `Accepted` in title case, but the engine spells every verdict in lower case (`accepted`) | any submission whose every test case passes: its verdict is `accepted`, so solved list, points, streak and badges stay as they were | update the learner whenever the code is accepted | not executed | Submissions.AsWrittenNeverGamifies | Submissions.GamifiesOnAccept |
| ProblemSolver.io/backend/routes/progress.js:26 | the progress page selects submissions with status `Accepted` in title case, while the submission route stores `pending` or the engine's lower-case verdict | a learner with an accepted submission: the page shows no solves, no points and no streak | select the submissions whose stored status is `accepted` | not executed | Progress.AsWrittenSelectsNothing | Progress.AcceptedExactly |
