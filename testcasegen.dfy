/**
 * The script that fills in the problems' test cases: the two problems with a
 * hand-written list get that list, every other problem gets eight copies of
 * its sample, the first two visible and the rest hidden, with "test" for both
 * sides when the problem has no sample at all.
 */
module TestCaseGen {
  import opened Wrappers
  import Simulation

  datatype TestCase = TestCase(input: string, expectedOutput: string, isHidden: bool)

  /** A stored problem. The fields the script does not read are `rest`; a
      missing or empty sample is the empty string. */
  datatype Problem<R> = Problem(title: string, sampleInput: string, sampleOutput: string,
                                testCases: seq<TestCase>, rest: R)

  /** The number of generated copies when none is given. */
  const DefaultCount: nat := 8

  /** The number of copies shown to the learner. */
  const Visible: nat := 2

  /** `count` copies of the sample; the copy at index `i` is hidden from
      index 2 on. */
  function Generic(sampleInput: string, sampleOutput: string, count: nat): (cases: seq<TestCase>)
  {
    seq(count, i => TestCase(sampleInput, sampleOutput, i >= Visible))
  }

  /** The generator: an array grown one copy per turn of the loop. */
  method GenerateGenericTestCases(sampleInput: string, sampleOutput: string, count: nat) returns (cases: seq<TestCase>)
    ensures cases == Generic(sampleInput, sampleOutput, count)
  {
    cases := [];
    for i := 0 to count
      invariant cases == Generic(sampleInput, sampleOutput, i)
    {
      cases := cases + [TestCase(sampleInput, sampleOutput, i >= Visible)];
    }
  }

  /** Exactly `count` copies of the sample, each hidden exactly when its
      index is at least 2. */
  lemma GenericShape(sampleInput: string, sampleOutput: string, count: nat)
    ensures var cases := Generic(sampleInput, sampleOutput, count);
            && |cases| == count
            && (forall i :: 0 <= i < count ==> cases[i].input == sampleInput && cases[i].expectedOutput == sampleOutput)
            && (forall i :: 0 <= i < count ==> (cases[i].isHidden <==> i >= 2))
  {
  }

  /** The number of cases shown to the learner. */
  function Shown(cases: seq<TestCase>): nat {
    if cases == [] then 0 else Shown(cases[..|cases| - 1]) + (if cases[|cases| - 1].isHidden then 0 else 1)
  }

  /** The first two copies are shown, or all of them when there are fewer. */
  lemma {:induction false} GenericShown(sampleInput: string, sampleOutput: string, count: nat)
    ensures Shown(Generic(sampleInput, sampleOutput, count)) == if count < Visible then count else Visible
  {
    if count > 0 {
      var cases := Generic(sampleInput, sampleOutput, count);
      assert cases[..count - 1] == Generic(sampleInput, sampleOutput, count - 1);
      GenericShown(sampleInput, sampleOutput, count - 1);
    }
  }

  /** The hand-written lists, by title. */
  function Specific(title: string): (cases: Option<seq<TestCase>>)
  {
    if title == "Two Sum" then Some(TwoSumCases)
    else if title == "Valid Parentheses" then Some(ValidParenthesesCases)
    else None
  }

  const TwoSumCases: seq<TestCase> := [
    TestCase("[2,7,11,15]\n9", "[0,1]", false),
    TestCase("[3,2,4]\n6", "[1,2]", false),
    TestCase("[3,3]\n6", "[0,1]", true),
    TestCase("[2,7,11,15]\n26", "[2,3]", true),
    TestCase("[1,2,3,4,5]\n9", "[3,4]", true),
    TestCase("[-1,-2,-3,-4,-5]\n-8", "[2,4]", true),
    TestCase("[10,20,30,40,50]\n90", "[3,4]", true),
    TestCase("[5,25,75]\n100", "[1,2]", true)
  ]

  const ValidParenthesesCases: seq<TestCase> := [
    TestCase("()", "true", false),
    TestCase("()[]{}", "true", false),
    TestCase("(]", "false", true),
    TestCase("([)]", "false", true),
    TestCase("{[]}", "true", true),
    TestCase("", "true", true),
    TestCase("((", "false", true),
    TestCase("}}{", "false", true)
  ]

  /** Both sides of the sample are missing or empty. */
  predicate NoSample<R>(p: Problem<R>) {
    p.sampleInput == [] && p.sampleOutput == []
  }

  /** The test cases a problem is given. */
  function CasesFor<R>(p: Problem<R>): seq<TestCase> {
    match Specific(p.title)
    case Some(cases) => cases
    case None =>
      if NoSample(p) then Generic("test", "test", DefaultCount)
      else Generic(p.sampleInput, p.sampleOutput, DefaultCount)
  }

  /** The problem with its test cases replaced. */
  function Populated<R>(p: Problem<R>): Problem<R> {
    p.(testCases := CasesFor(p))
  }

  /** The script's pass over the problem list. */
  function Populate<R>(problems: seq<Problem<R>>): (r: seq<Problem<R>>)
  {
    seq(|problems|, i requires 0 <= i < |problems| => Populated(problems[i]))
  }

  /** The list keeps its length and order; each problem keeps every field
      but its test cases, which are the hand-written list for a title that
      has one, eight copies of "test" when the problem has no sample, and
      eight copies of the sample otherwise. */
  lemma PopulateShape<R>(problems: seq<Problem<R>>)
    ensures var r := Populate(problems);
            && |r| == |problems|
            && (forall i :: 0 <= i < |r| ==>
                  && r[i].title == problems[i].title && r[i].sampleInput == problems[i].sampleInput
                  && r[i].sampleOutput == problems[i].sampleOutput && r[i].rest == problems[i].rest)
            && (forall i :: 0 <= i < |r| && Specific(problems[i].title).Some? ==>
                  r[i].testCases == Specific(problems[i].title).value)
            && (forall i :: 0 <= i < |r| && Specific(problems[i].title).None? && NoSample(problems[i]) ==>
                  r[i].testCases == Generic("test", "test", DefaultCount))
            && (forall i :: 0 <= i < |r| && Specific(problems[i].title).None? && !NoSample(problems[i]) ==>
                  r[i].testCases == Generic(problems[i].sampleInput, problems[i].sampleOutput, DefaultCount))
  {
  }

  /** Running the script twice gives what running it once gives: the new
      cases depend only on fields the script leaves alone. */
  lemma PopulateIdempotent<R>(problems: seq<Problem<R>>)
    ensures Populate(Populate(problems)) == Populate(problems)
  {
  }

  /** A list whose first two cases are shown and whose others are hidden
      shows two. */
  lemma {:induction false} ShownFirstTwo(cases: seq<TestCase>)
    requires |cases| >= 2 && !cases[0].isHidden && !cases[1].isHidden
    requires forall i :: 2 <= i < |cases| ==> cases[i].isHidden
    ensures Shown(cases) == 2
    decreases |cases|
  {
    var init := cases[..|cases| - 1];
    if |cases| == 2 {
      assert init[..0] == [] && init[0] == cases[0];
      assert Shown(init) == 1;
    } else {
      ShownFirstTwo(init);
    }
  }

  /** Every problem ends up with eight test cases, two of them shown. */
  lemma PopulatedCounts<R>(p: Problem<R>)
    ensures |CasesFor(p)| == DefaultCount && Shown(CasesFor(p)) == Visible
  {
    match Specific(p.title)
    case Some(cases) =>
      ShownFirstTwo(TwoSumCases);
      ShownFirstTwo(ValidParenthesesCases);
    case None =>
      GenericShown(p.sampleInput, p.sampleOutput, DefaultCount);
      GenericShown("test", "test", DefaultCount);
  }

  /** The simulated Valid Parentheses solution answers every hand-written
      case as its expected output says. */
  lemma ValidParenthesesAgree(k: nat)
    requires k < |ValidParenthesesCases|
    ensures var c := ValidParenthesesCases[k];
            Simulation.ValidParens(c.input) <==> c.expectedOutput == "true"
  {
    if k == 0 {
      Simulation.PairExample();
    } else if k == 1 {
      Simulation.ValidExample();
    } else if k == 2 {
      Simulation.MismatchExample();
    } else if k == 3 {
      Simulation.CrossedExample();
    } else if k == 4 {
      Simulation.NestedExample();
    } else if k == 6 {
      Simulation.UnclosedExample();
    } else if k == 7 {
      Simulation.StrayCloserExample();
    }
  }
}
