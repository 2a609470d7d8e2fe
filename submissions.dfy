/**
 * The submission route: it screens the request, stores a pending record,
 * judges the code against the problem's test cases, copies the judge's
 * report into the record and, when the code is accepted, updates the
 * learner's solved list, points, streak and badges.
 */
module Submissions {
  import opened Wrappers
  import Text
  import Judge
  import Comparator
  import Learners

  /** The request body. A field the client left out is `None`; an empty
      code or language string is as falsy as a missing one. */
  datatype Request = Request(problemId: Option<int>, code: string, language: string, functionName: Option<string>)

  /** A stored problem, as far as the route reads it. */
  datatype Problem = Problem(id: int, difficulty: string, testCases: seq<Judge.TestCase>)

  /** A stored submission. `errorMessage` is `None` while the column is unset. */
  datatype Submission = Submission(
    userId: int, problemId: int, code: string, language: string, functionName: string,
    status: string, executionTime: nat, memoryUsed: nat, testCasesPassed: nat, totalTestCases: nat,
    errorMessage: Option<string>)

  datatype Reply = Rejected(code: nat, message: string) | Saved(submission: Submission)

  const MissingFields: string := "Please provide problemId, code, and language"
  const NoTestCases: string := "No test cases available for this problem"

  function NotFound(id: int): string {
    "Problem with ID " + Text.IntToString(id) + " not found"
  }

  /** The request names a problem (a non-zero ID), some code and a language. */
  predicate Provided(req: Request) {
    req.problemId.Some? && req.problemId.value != 0 && req.code != [] && req.language != []
  }

  datatype Screening = Refuse(reply: Reply) | Proceed(problem: Problem)

  /** The three guards in their order: missing fields, an unknown problem, a
      problem without test cases. */
  function Screen(req: Request, problems: map<int, Problem>): (r: Screening)
    ensures r.Refuse? ==> r.reply.Rejected?
    ensures !Provided(req) ==> r == Refuse(Rejected(400, MissingFields))
    ensures Provided(req) && req.problemId.value !in problems ==> r == Refuse(Rejected(404, NotFound(req.problemId.value)))
    ensures Provided(req) && req.problemId.value in problems && problems[req.problemId.value].testCases == [] ==>
              r == Refuse(Rejected(400, NoTestCases))
    ensures r.Proceed? <==> Provided(req) && req.problemId.value in problems && problems[req.problemId.value].testCases != []
    ensures r.Proceed? ==> r.problem == problems[req.problemId.value]
  {
    if !Provided(req) then Refuse(Rejected(400, MissingFields))
    else if req.problemId.value !in problems then Refuse(Rejected(404, NotFound(req.problemId.value)))
    else
      var p := problems[req.problemId.value];
      if |p.testCases| == 0 then Refuse(Rejected(400, NoTestCases)) else Proceed(p)
  }

  /** The record created before judging: pending, with the column defaults
      for the figures and the function name defaulting to `solve`. */
  function Created(userId: int, p: Problem, req: Request): (s: Submission)
    ensures s.status == "pending" && s.totalTestCases == |p.testCases| && s.testCasesPassed == 0
    ensures s.problemId == p.id && s.userId == userId && s.code == req.code && s.language == req.language
    ensures s.functionName != [] && (req.functionName.Some? && req.functionName.value != [] ==> s.functionName == req.functionName.value)
    ensures s.errorMessage.None?
  {
    Submission(userId, p.id, req.code, req.language, Judge.OrElse(req.functionName.GetOr(""), "solve"),
               "pending", 0, 0, 0, |p.testCases|, None)
  }

  /** The error column: the failed case's error, or empty when nothing failed. */
  function ErrorMessage(r: Judge.Report): Option<string> {
    if r.failed.Some? then r.failed.value.error else Some("")
  }

  /** The record after the judge's report is written into it. */
  function Recorded(s: Submission, r: Judge.Report): Submission {
    s.(status := Judge.VerdictName(r.verdict), executionTime := r.time, memoryUsed := r.memory,
       testCasesPassed := r.passed, totalTestCases := r.total, errorMessage := ErrorMessage(r))
  }

  /** For a fail-fast report on the problem's cases (under any execution
      `run` that, like the engine's execution, never itself reports a
      wrong answer, and any comparison `same`), the stored record keeps
      the user, problem and code, counts at most all the cases, is accepted
      exactly when every case passed, and carries an empty error on
      acceptance, no error on a wrong answer and the engine's error
      otherwise. */
  lemma RecordedReport(run: Judge.TestCase -> Judge.ExecResult, same: (string, string) -> bool,
                       userId: int, p: Problem, req: Request, r: Judge.Report)
    requires Judge.Reported(r, run, same, p.testCases)
    requires r.passed < |p.testCases| ==> run(p.testCases[r.passed]).verdict != Judge.WrongAnswer
    ensures var s := Recorded(Created(userId, p, req), r);
            && s.userId == userId && s.problemId == p.id && s.code == req.code && s.language == req.language
            && s.totalTestCases == |p.testCases| && s.testCasesPassed <= s.totalTestCases
            && (s.status == "accepted" <==> s.testCasesPassed == s.totalTestCases)
            && (r.verdict == Judge.Accepted ==> s.errorMessage == Some(""))
            && (r.verdict == Judge.WrongAnswer ==> s.errorMessage == None)
            && (r.verdict != Judge.Accepted && r.verdict != Judge.WrongAnswer ==>
                  s.errorMessage == Some(run(p.testCases[r.passed]).error))
  {
    Judge.VerdictNameInjective(r.verdict, Judge.Accepted);
  }

  /** The gamification guard as written: the verdict compared with
      `Accepted` in title case. */
  predicate GamifiesAsWritten(status: string) {
    status == "Accepted"
  }

  /** No verdict the engine produces passes the guard as written, so the
      learner's record is never updated. */
  lemma AsWrittenNeverGamifies(v: Judge.Verdict)
    ensures !GamifiesAsWritten(Judge.VerdictName(v))
  {
    assert Judge.VerdictName(v)[0] != 'A';
  }

  /** The guard as intended: the verdict is the engine's spelling of accepted. */
  predicate Gamifies(status: string) {
    status == Judge.VerdictName(Judge.Accepted)
  }

  /** The intended guard holds exactly for accepted code. */
  lemma GamifiesOnAccept(v: Judge.Verdict)
    ensures Gamifies(Judge.VerdictName(v)) <==> v == Judge.Accepted
  {
    Judge.VerdictNameInjective(v, Judge.Accepted);
  }

  /** POST of a submission. A refused request changes nothing and runs
      nothing; otherwise the reply is the judged record, and the learner's
      record (when it exists) gets the accept update exactly when the code
      is accepted. */
  method Submit(host: Judge.Host, userId: int, req: Request, problems: map<int, Problem>, user: Learners.User?, today: int)
    returns (reply: Reply, ghost report: Judge.Report, ghost ran: nat)
    modifies user
    ensures Screen(req, problems).Refuse? ==> reply == Screen(req, problems).reply && ran == 0
    ensures Screen(req, problems).Proceed? ==>
              var p := Screen(req, problems).problem;
              && Judge.Judged(report, ran, Judge.Runner(host, req.code, req.language, req.functionName.GetOr("solve")), Comparator.Compare, p.testCases)
              && reply == Saved(Recorded(Created(userId, p, req), report))
              && (user != null && report.verdict == Judge.Accepted ==>
                    user.Snapshot() == Learners.Accept(old(user.Snapshot()), p.id, p.difficulty, today))
    ensures user != null && (Screen(req, problems).Refuse? || report.verdict != Judge.Accepted) ==> unchanged(user)
  {
    report := Judge.Report(Judge.Accepted, 0, 0, None, 0, 0);
    ran := 0;
    var screening := Screen(req, problems);
    if screening.Refuse? {
      reply := screening.reply;
      return;
    }
    var problem := screening.problem;
    var pending := Created(userId, problem, req);
    var judged;
    judged, ran := Judge.JudgeTestCases(host, req.code, req.language, problem.testCases, req.functionName.GetOr("solve"));
    report := judged;
    GamifiesOnAccept(judged.verdict);
    if Gamifies(Judge.VerdictName(judged.verdict)) && user != null {
      user.RecordAccepted(problem.id, problem.difficulty, today);
    }
    reply := Saved(Recorded(pending, judged));
  }
}
