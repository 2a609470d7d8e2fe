/**
 * The problem page's simulated execution: code that looks like an endless
 * loop is refused, the Two Sum problem (ID "1") and the Valid Parentheses
 * problem (ID "2") are answered by a built-in correct solution when the code
 * defines the expected function, and any other problem gets the output of
 * the page's print simulation.
 */
module Simulation {
  import opened Wrappers
  import Text
  import ProblemPage

  // ---------------------------------------------------------------------
  // Valid Parentheses
  // ---------------------------------------------------------------------

  predicate IsCloser(c: char) {
    c == ')' || c == '}' || c == ']'
  }

  predicate IsOpener(c: char) {
    c == '(' || c == '{' || c == '['
  }

  /** The opener a closer must meet on top of the stack. */
  function OpenerOf(c: char): (o: char)
    requires IsCloser(c)
    ensures IsOpener(o)
  {
    if c == ')' then '(' else if c == '}' then '{' else '['
  }

  /** The scan from stack `st` over `s`: a closer pops the top, which must be
      its opener; any other character is pushed. `None` is a mismatch,
      otherwise the stack left at the end. */
  function Reduce(st: seq<char>, s: string): Option<seq<char>>
    decreases |s|
  {
    if s == [] then Some(st)
    else if IsCloser(s[0]) then
      if st != [] && st[|st| - 1] == OpenerOf(s[0]) then Reduce(st[..|st| - 1], s[1..]) else None
    else Reduce(st + [s[0]], s[1..])
  }

  /** The string is valid: the scan from an empty stack ends with an empty
      stack. */
  predicate ValidParens(s: string) {
    Reduce([], s) == Some([])
  }

  /** The simulated solution: a stack of characters, a loop over the string
      that stops at the first mismatch, and the answer "valid and the stack
      is empty". */
  method IsValid(s: string) returns (valid: bool)
    ensures valid <==> ValidParens(s)
  {
    var stack: seq<char> := [];
    var ok := true;
    var i := 0;
    while i < |s|
      invariant 0 <= i <= |s|
      invariant Reduce([], s) == Reduce(stack, s[i..])
      decreases |s| - i
    {
      var c := s[i];
      assert s[i..][0] == c && s[i..][1..] == s[i + 1..];
      if IsCloser(c) {
        var top := if |stack| > 0 then stack[|stack| - 1] else '#';
        if OpenerOf(c) != top {
          ok := false;
          break;
        }
        stack := stack[..|stack| - 1];
      } else {
        stack := stack + [c];
      }
      i := i + 1;
    }
    valid := ok && |stack| == 0;
    if ok {
      assert s[i..] == [];
    }
  }

  /** Scanning a concatenation is scanning the first part, then the second
      from where the first left off. */
  lemma {:induction false} ReduceAppend(st: seq<char>, a: string, b: string)
    ensures Reduce(st, a + b) == match Reduce(st, a) case None => None case Some(m) => Reduce(m, b)
    decreases |a|
  {
    if a == [] {
      assert a + b == b;
    } else {
      assert (a + b)[0] == a[0] && (a + b)[1..] == a[1..] + b;
      if IsCloser(a[0]) {
        if st != [] && st[|st| - 1] == OpenerOf(a[0]) {
          ReduceAppend(st[..|st| - 1], a[1..], b);
        }
      } else {
        ReduceAppend(st + [a[0]], a[1..], b);
      }
    }
  }

  /** A string that scans from the empty stack scans the same way on top of
      any stack, never reaching below it. */
  lemma {:induction false} ReduceOnTop(st: seq<char>, s: string, r: seq<char>)
    requires Reduce([], s) == Some(r)
    ensures Reduce(st, s) == Some(st + r)
    decreases |s|
  {
    assert st + [] == st;
    ReduceOnTopFrom(st, [], s, r);
  }

  /** The same, from any stack `base` that the string scans from. */
  lemma {:induction false} ReduceOnTopFrom(st: seq<char>, base: seq<char>, s: string, r: seq<char>)
    requires Reduce(base, s) == Some(r)
    ensures Reduce(st + base, s) == Some(st + r)
    decreases |s|
  {
    if s == [] {
    } else if IsCloser(s[0]) {
      var b := base[..|base| - 1];
      assert (st + base)[..|st + base| - 1] == st + b;
      ReduceOnTopFrom(st, b, s[1..], r);
    } else {
      assert (st + base) + [s[0]] == st + (base + [s[0]]);
      ReduceOnTopFrom(st, base + [s[0]], s[1..], r);
    }
  }

  /** Two valid strings in a row make a valid string. */
  lemma ValidConcat(a: string, b: string)
    requires ValidParens(a) && ValidParens(b)
    ensures ValidParens(a + b)
  {
    ReduceAppend([], a, b);
  }

  /** A valid string between an opener and its closer is valid. */
  lemma ValidWrap(c: char, s: string)
    requires IsCloser(c) && ValidParens(s)
    ensures ValidParens([OpenerOf(c)] + s + [c])
  {
    var o := OpenerOf(c);
    ReduceAppend([], [o], s + [c]);
    assert [o] + s + [c] == [o] + (s + [c]);
    assert Reduce([], [o]) == Some([o]) by {
      assert [o][1..] == [];
    }
    ReduceAppend([o], s, [c]);
    ReduceOnTop([o], s, []);
    assert [o] + [] == [o];
    assert Reduce([o], [c]) == Some([]) by {
      assert [c][1..] == [];
      assert [o][..0] == [];
    }
  }

  /** The characters that are neither openers nor closers. */
  function Others(s: string): nat {
    if s == [] then 0 else (if IsOpener(s[0]) || IsCloser(s[0]) then 0 else 1) + Others(s[1..])
  }

  /** The characters that are not openers. */
  function Strays(st: seq<char>): nat {
    if st == [] then 0 else Strays(st[..|st| - 1]) + (if IsOpener(st[|st| - 1]) then 0 else 1)
  }

  lemma StraysAppend(st: seq<char>, c: char)
    ensures Strays(st + [c]) == Strays(st) + (if IsOpener(c) then 0 else 1)
  {
    assert (st + [c])[..|st|] == st;
  }

  /** Only an opener is ever popped, so every character that is not a
      bracket stays on the stack; with the length, every push is one more
      and every pop one fewer. */
  lemma {:induction false} ReduceCounts(st: seq<char>, s: string, r: seq<char>)
    requires Reduce(st, s) == Some(r)
    ensures Strays(st) + Others(s) == Strays(r)
    ensures (|st| + |s| - |r|) % 2 == 0 && |r| <= |st| + |s|
    decreases |s|
  {
    if s != [] {
      if IsCloser(s[0]) {
        var b := st[..|st| - 1];
        assert st == b + [st[|st| - 1]];
        StraysAppend(b, st[|st| - 1]);
        ReduceCounts(b, s[1..], r);
      } else {
        StraysAppend(st, s[0]);
        ReduceCounts(st + [s[0]], s[1..], r);
      }
    }
  }

  /** A valid string holds brackets only, and an even number of them. */
  lemma ValidShape(s: string)
    requires ValidParens(s)
    ensures Others(s) == 0 && |s| % 2 == 0
  {
    ReduceCounts([], s, []);
  }

  /** "()" is valid. */
  lemma PairExample()
    ensures ValidParens("()")
  {
    ValidWrap(')', "");
    assert ['('] + "" + [')'] == "()";
  }

  /** "{[]}" is valid. */
  lemma NestedExample()
    ensures ValidParens("{[]}")
  {
    ValidWrap(']', "");
    assert ['['] + "" + [']'] == "[]";
    ValidWrap('}', "[]");
    assert ['{'] + "[]" + ['}'] == "{[]}";
  }

  /** "((" leaves two openers unclosed. */
  lemma UnclosedExample()
    ensures !ValidParens("((")
  {
    assert "(("[1..] == "(" && "("[1..] == [];
    assert [] + ['('] == "(" && "(" + ['('] == "((";
    assert Reduce([], "((") == Reduce("(", "(");
    assert Reduce("(", "(") == Reduce("((", []);
  }

  /** "}}{" starts with a closer and nothing open. */
  lemma StrayCloserExample()
    ensures !ValidParens("}}{")
  {
    assert "}}{"[0] == '}';
  }

  /** The sample strings from the problem statement: "()[]{}" is valid. */
  lemma ValidExample()
    ensures ValidParens("()[]{}")
  {
    ValidWrap(')', "");
    ValidWrap(']', "");
    ValidWrap('}', "");
    assert ['('] + "" + [')'] == "()" && ['['] + "" + [']'] == "[]" && ['{'] + "" + ['}'] == "{}";
    ValidConcat("()", "[]");
    assert "()" + "[]" == "()[]";
    ValidConcat("()[]", "{}");
    assert "()[]" + "{}" == "()[]{}";
  }

  /** "(]" closes a bracket with the wrong closer. */
  lemma MismatchExample()
    ensures !ValidParens("(]")
  {
    assert "(]"[1..] == "]";
    assert Reduce([], "(]") == Reduce(['('], "]");
  }

  /** "([)]" closes the outer bracket before the inner one. */
  lemma CrossedExample()
    ensures !ValidParens("([)]")
  {
    assert "([)]"[1..] == "[)]" && "[)]"[1..] == ")]";
    assert Reduce([], "([)]") == Reduce(['(', '['], ")]");
  }

  /** The input with one pair of surrounding double quotes removed; a lone
      quote leaves the empty string. */
  function StripQuotes(s: string): (r: string)
    ensures |s| >= 2 && s[0] == '"' && s[|s| - 1] == '"' ==> r == s[1..|s| - 1]
    ensures s == "\"" ==> r == []
    ensures !(s != [] && s[0] == '"' && s[|s| - 1] == '"') ==> r == s
  {
    if s != [] && s[0] == '"' && s[|s| - 1] == '"' then
      if |s| >= 2 then s[1..|s| - 1] else []
    else s
  }

  // ---------------------------------------------------------------------
  // Two Sum
  // ---------------------------------------------------------------------

  /** The key looked up for an entry: `target - n`, not a number when the
      entry is not one. */
  function Complement(target: int, n: Option<int>): Option<int> {
    match n
    case None => None
    case Some(v) => Some(target - v)
  }

  /** The last index before `i` holding `v`. */
  function LastBefore(nums: seq<Option<int>>, v: Option<int>, i: nat): (r: Option<nat>)
    requires i <= |nums|
    ensures r.Some? ==> r.value < i && nums[r.value] == v && forall k :: r.value < k < i ==> nums[k] != v
    ensures r.None? ==> forall k :: 0 <= k < i ==> nums[k] != v
  {
    if i == 0 then None
    else if nums[i - 1] == v then Some(i - 1)
    else LastBefore(nums, v, i - 1)
  }

  /** The answer searched for from index `i` on: the first index whose
      complement occurs before it, with the last such earlier index. */
  function FirstPair(nums: seq<Option<int>>, target: int, i: nat): (r: Option<(nat, nat)>)
    requires i <= |nums|
    ensures r.Some? ==> var (j, k) := r.value;
              && i <= k < |nums| && j < k && nums[j] == Complement(target, nums[k])
              && (forall m :: j < m < k ==> nums[m] != nums[j])
              && (forall m, l :: i <= m < k && 0 <= l < m ==> nums[l] != Complement(target, nums[m]))
    ensures r.None? ==> forall m, l :: i <= m < |nums| && 0 <= l < m ==> nums[l] != Complement(target, nums[m])
    decreases |nums| - i
  {
    if i == |nums| then None
    else
      match LastBefore(nums, Complement(target, nums[i]), i)
      case Some(j) => Some((j, i))
      case None => FirstPair(nums, target, i + 1)
  }

  /** A pair of numbers adds up to the target; a pair found by a non-number
      is a pair of non-numbers, since their keys are equal. */
  lemma FirstPairSums(nums: seq<Option<int>>, target: int)
    ensures var r := FirstPair(nums, target, 0);
            r.Some? ==> var (j, k) := r.value;
              && (nums[k].Some? ==> nums[j].Some? && nums[j].value + nums[k].value == target)
              && (nums[k].None? ==> nums[j].None?)
  {
  }

  /** The `seen` table after the first `i` entries: each value met so far
      with the last index where it was met. */
  function Seen(nums: seq<Option<int>>, i: nat): (m: map<Option<int>, nat>)
    requires i <= |nums|
    ensures forall v :: v in m <==> LastBefore(nums, v, i).Some?
    ensures forall v :: v in m ==> m[v] == LastBefore(nums, v, i).value
  {
    if i == 0 then map[]
    else Seen(nums, i - 1)[nums[i - 1] := i - 1]
  }

  /** The simulated solution: one pass that looks each complement up in the
      table of values seen so far, then records the current value at the
      current index. */
  method TwoSum(nums: seq<Option<int>>, target: int) returns (r: Option<(nat, nat)>)
    ensures r == FirstPair(nums, target, 0)
  {
    var seen: map<Option<int>, nat> := map[];
    var i := 0;
    while i < |nums|
      invariant 0 <= i <= |nums|
      invariant seen == Seen(nums, i)
      invariant FirstPair(nums, target, 0) == FirstPair(nums, target, i)
      decreases |nums| - i
    {
      var complement := Complement(target, nums[i]);
      if complement in seen {
        return Some((seen[complement], i));
      }
      seen := seen[nums[i] := i];
      i := i + 1;
    }
    r := None;
  }

  /** The printed answer: `[j,i]`, or `[]` when there is none. */
  function PairText(r: Option<(nat, nat)>): string {
    match r
    case Some((j, i)) => "[" + Text.NatToString(j) + "," + Text.NatToString(i) + "]"
    case None => "[]"
  }

  /** Where the first `[`, followed by at least one character other than
      `]` and then a `]`, starts at or after `i`. */
  function BracketFrom(s: string, i: nat): (r: Option<nat>)
    requires i <= |s|
    ensures r.Some? ==> i <= r.value < |s| && BracketAt(s, r.value) && forall p :: i <= p < r.value ==> !BracketAt(s, p)
    ensures r.None? ==> forall p :: i <= p < |s| ==> !BracketAt(s, p)
    decreases |s| - i
  {
    if i == |s| then None
    else if BracketAt(s, i) then Some(i)
    else BracketFrom(s, i + 1)
  }

  /** A bracketed group `[...]` with a non-empty inside opens at `p`. */
  predicate BracketAt(s: string, p: nat)
    requires p < |s|
  {
    var q := Text.FindFrom(s, ']', p + 1);
    s[p] == '[' && p + 1 < q < |s|
  }

  /** `match(/\[([^\]]+)\]/)`: the inside of the leftmost such group. */
  function BracketGroup(s: string): (g: Option<string>)
  {
    match BracketFrom(s, 0)
    case None => None
    case Some(p) => Some(s[p + 1..Text.FindFrom(s, ']', p + 1)])
  }

  datatype Parsed = BadInput | Input(nums: seq<Option<int>>, target: int)

  /** Each piece read by `parseInt` after trimming, `None` being NaN. */
  function ParseNumbers(pieces: seq<string>): (ns: seq<Option<int>>)
    ensures |ns| == |pieces|
    ensures forall k :: 0 <= k < |pieces| ==> ns[k] == Text.ParseInt(Text.Trim(pieces[k]))
  {
    if pieces == [] then [] else [Text.ParseInt(Text.Trim(pieces[0]))] + ParseNumbers(pieces[1..])
  }

  /** The two input lines: the bracketed numbers, each read by `parseInt`,
      and the target, which must be a number. */
  function ParseTwoSum(input: string): (p: Parsed)
    ensures |Text.Split(Text.Trim(input), '\n')| < 2 ==> p == BadInput
  {
    var lines := Text.Split(Text.Trim(input), '\n');
    if |lines| < 2 then BadInput
    else
      var group := BracketGroup(Text.Trim(lines[0]));
      var target := Text.ParseInt(Text.Trim(lines[1]));
      if group.None? || target.None? then BadInput
      else Input(ParseNumbers(Text.Split(group.value, ',')), target.value)
  }

  /** The decimal texts of the numbers. */
  function Numerals(nums: seq<int>): (strs: seq<string>)
    ensures |strs| == |nums|
    ensures forall k :: 0 <= k < |nums| ==> strs[k] == Text.IntToString(nums[k])
  {
    if nums == [] then [] else [Text.IntToString(nums[0])] + Numerals(nums[1..])
  }

  /** The numbers as the problem statement writes them. */
  function NumbersText(nums: seq<int>): string {
    Text.Join(Numerals(nums), ',')
  }

  /** The input as the problem statement writes it: the bracketed numbers,
      then the target on the next line. */
  function TwoSumInput(nums: seq<int>, target: int): string {
    "[" + NumbersText(nums) + "]" + "\n" + Text.IntToString(target)
  }

  /** The numbers as numbers. */
  function AsNumbers(nums: seq<int>): (ns: seq<Option<int>>)
    ensures |ns| == |nums| && forall k :: 0 <= k < |nums| ==> ns[k] == Some(nums[k])
  {
    if nums == [] then [] else [Some(nums[0])] + AsNumbers(nums[1..])
  }

  /** A piece that can sit inside `[...]` on one line: non-empty, without
      comma, `]` or newline, and without white space at its ends. */
  predicate Plain(t: string) {
    Line(t) && ',' !in t && ']' !in t
  }

  /** A non-empty line without white space at its ends. */
  predicate Line(t: string) {
    t != [] && '\n' !in t && !Text.IsWhite(t[0]) && !Text.IsWhite(t[|t| - 1])
  }

  /** Each numeral is plain. */
  lemma NumeralsPlain(nums: seq<int>)
    ensures forall k :: 0 <= k < |nums| ==> Plain(Numerals(nums)[k])
  {
    forall k | 0 <= k < |nums|
      ensures Plain(Numerals(nums)[k])
    {
      NumeralShape(nums[k]);
    }
  }

  /** Each numeral reads back as its number. */
  lemma NumeralsParse(nums: seq<int>)
    ensures forall k :: 0 <= k < |nums| ==> Text.ParseInt(Text.Trim(Numerals(nums)[k])) == Some(nums[k])
  {
    forall k | 0 <= k < |nums|
      ensures Text.ParseInt(Text.Trim(Numerals(nums)[k])) == Some(nums[k])
    {
      NumeralShape(nums[k]);
      Text.ParseIntOfIntToString(nums[k]);
    }
  }

  /** Pieces that each read back as a number read back as the numbers. */
  lemma ParseNumbersOf(strs: seq<string>, nums: seq<int>)
    requires |strs| == |nums|
    requires forall k :: 0 <= k < |strs| ==> Text.ParseInt(Text.Trim(strs[k])) == Some(nums[k])
    ensures ParseNumbers(strs) == AsNumbers(nums)
  {
  }

  /** The comma-separated numbers split back into their texts, which read
      back as the numbers. */
  lemma NumbersTextParse(nums: seq<int>)
    requires nums != []
    ensures ParseNumbers(Text.Split(NumbersText(nums), ',')) == AsNumbers(nums)
  {
    var strs := Numerals(nums);
    NumeralsPlain(nums);
    assert forall k :: 0 <= k < |strs| ==> ',' !in strs[k];
    Text.SplitJoin(strs, ',');
    NumeralsParse(nums);
    ParseNumbersOf(strs, nums);
  }

  /** The first line `[n0,n1,...]` of the input holds no newline, starts
      with the bracket and has the numbers as its group. */
  lemma NumbersLine(nums: seq<int>)
    requires nums != []
    ensures var first := "[" + NumbersText(nums) + "]";
            && Line(first)
            && BracketGroup(Text.Trim(first)) == Some(NumbersText(nums))
  {
    NumeralsPlain(nums);
    JoinPlain(Numerals(nums));
    var g := NumbersText(nums);
    var first := "[" + g + "]";
    assert first[|first| - 1] == ']' && first[0] == '[';
    assert '\n' !in first by {
      assert forall c :: c in first ==> c == '[' || c in g || c == ']';
    }
    Text.TrimKeepsEdges(first);
    BracketGroupOf(g);
  }

  /** Two lines without a newline and with no white space at their ends
      trim to themselves and split back into the two lines. */
  lemma TwoLines(first: string, second: string)
    requires Line(first) && Line(second)
    ensures Text.Split(Text.Trim(first + "\n" + second), '\n') == [first, second]
  {
    var input := first + "\n" + second;
    assert Text.Join([first, second], '\n') == input;
    Text.SplitJoin([first, second], '\n');
    Text.TrimKeepsEdges(input);
  }

  /** Two lines whose first holds a bracketed group and whose second is a
      number are read as that group's numbers and that target. */
  lemma ParseTwoSumOfLines(input: string, first: string, second: string, g: string, target: int)
    requires Text.Split(Text.Trim(input), '\n') == [first, second]
    requires BracketGroup(Text.Trim(first)) == Some(g)
    requires Text.ParseInt(Text.Trim(second)) == Some(target)
    ensures ParseTwoSum(input) == Input(ParseNumbers(Text.Split(g, ',')), target)
  {
  }

  /** An input of the form `[n0,n1,...]` on one line and the target on the
      next is read back as those numbers and that target. */
  lemma ParseTwoSumOfText(nums: seq<int>, target: int)
    requires nums != []
    ensures ParseTwoSum(TwoSumInput(nums, target)) == Input(AsNumbers(nums), target)
  {
    var g := NumbersText(nums);
    var t := Text.IntToString(target);
    TwoSumLines(nums, target);
    NumbersLine(nums);
    NumbersTextParse(nums);
    NumeralShape(target);
    Text.ParseIntOfIntToString(target);
    ParseTwoSumOfLines(TwoSumInput(nums, target), "[" + g + "]", t, g, target);
  }

  /** The input splits into the bracketed line and the target's line. */
  lemma TwoSumLines(nums: seq<int>, target: int)
    requires nums != []
    ensures Text.Split(Text.Trim(TwoSumInput(nums, target)), '\n') == ["[" + NumbersText(nums) + "]", Text.IntToString(target)]
  {
    NumeralShape(target);
    NumbersLine(nums);
    TwoLines("[" + NumbersText(nums) + "]", Text.IntToString(target));
  }

  /** The decimal text of an integer is plain and its own trim. */
  lemma NumeralShape(n: int)
    ensures Plain(Text.IntToString(n)) && Text.Trim(Text.IntToString(n)) == Text.IntToString(n)
  {
    var t := Text.IntToString(n);
    Text.IntToStringLead(n);
    var d := Text.NatToString(if n < 0 then -n else n);
    assert forall c :: c in d ==> Text.IsDecimalDigit(c);
    assert t == d || t == "-" + d;
    assert t[|t| - 1] == d[|d| - 1];
    Text.TrimKeepsEdges(t);
  }

  /** A comma-join of plain pieces is plain but for its commas. */
  lemma {:induction false} JoinPlain(parts: seq<string>)
    requires |parts| >= 1
    requires forall k :: 0 <= k < |parts| ==> Plain(parts[k])
    ensures var s := Text.Join(parts, ',');
            && s != [] && ']' !in s && '\n' !in s && !Text.IsWhite(s[0]) && !Text.IsWhite(s[|s| - 1])
    decreases |parts|
  {
    if |parts| > 1 {
      JoinPlain(parts[1..]);
      var s := Text.Join(parts, ',');
      var rest := Text.Join(parts[1..], ',');
      assert s == parts[0] + [','] + rest;
      assert s[|s| - 1] == rest[|rest| - 1];
      assert Plain(parts[0]);
    } else {
      assert Plain(parts[0]);
    }
  }

  /** `[g]` for a non-empty `g` without `]` is the group `g`. */
  lemma BracketGroupOf(g: string)
    requires g != [] && ']' !in g
    ensures BracketGroup("[" + g + "]") == Some(g)
  {
    var s := "[" + g + "]";
    assert s[1..|s| - 1] == g;
    assert ']' !in s[1..|s| - 1];
    FindFromAt(s, ']', 1, |s| - 1);
    assert BracketAt(s, 0);
  }

  /** The first occurrence of `c` from `i` is at `k` when `c` is there and
      not before it. */
  lemma {:induction false} FindFromAt(s: string, c: char, i: nat, k: nat)
    requires i <= k < |s| && s[k] == c && c !in s[i..k]
    ensures Text.FindFrom(s, c, i) == k
  {
  }

  // ---------------------------------------------------------------------
  // The simulated execution
  // ---------------------------------------------------------------------

  const LoopDetected: string := "Time Limit Exceeded: Possible infinite loop detected"
  const BadFormat: string := "Invalid input format"

  /** Code that contains one of the three endless-loop spellings. */
  predicate EndlessLoop(code: string) {
    Text.Includes(code, "while True:") || Text.Includes(code, "while(true)") || Text.Includes(code, "while (true)")
  }

  predicate DefinesTwoSum(code: string, language: string) {
    || (language == "python" && Text.Includes(code, "def two_sum"))
    || (language == "java" && (Text.Includes(code, "public int[] twoSum") || Text.Includes(code, "int[] twoSum")))
    || ((language == "cpp" || language == "c") && (Text.Includes(code, "vector<int> twoSum") || Text.Includes(code, "twoSum(")))
  }

  function TwoSumMissing(language: string): string {
    if language == "python" then "Function two_sum not found"
    else if language == "java" then "Method twoSum not found"
    else "Function twoSum not found"
  }

  predicate DefinesIsValid(code: string, language: string) {
    || (language == "python" && Text.Includes(code, "def is_valid"))
    || (language == "java" && (Text.Includes(code, "public boolean isValid") || Text.Includes(code, "boolean isValid")))
    || ((language == "cpp" || language == "c") && (Text.Includes(code, "bool isValid") || Text.Includes(code, "isValid(")))
  }

  function IsValidMissing(language: string): string {
    if language == "python" then "Function is_valid not found"
    else if language == "java" then "Method isValid not found"
    else "Function isValid not found"
  }

  /** A failed execution: the error, no output, no figures. */
  function Failure(error: string): ProblemPage.Execution {
    ProblemPage.Execution(false, "", Some(error), None, None)
  }

  /** A finished execution with its output and figures. */
  function Success(output: string, time: nat, memory: nat): ProblemPage.Execution {
    ProblemPage.Execution(true, output, None, Some(time), Some(memory))
  }

  /** The simulated execution of `code` on one input. The time and memory
      figures, drawn at random by the page, are parameters, and so is the
      output of the print simulation used for other problems. */
  method ExecuteCode(code: string, language: string, input: string, problemId: string,
                     time: nat, memory: nat, printed: string) returns (e: ProblemPage.Execution)
    ensures EndlessLoop(code) ==> e == Failure(LoopDetected)
    ensures !EndlessLoop(code) && problemId == "1" ==>
              match ParseTwoSum(input)
              case BadInput => e == Failure(BadFormat)
              case Input(nums, target) =>
                e == if DefinesTwoSum(code, language) then Success(PairText(FirstPair(nums, target, 0)), time, memory)
                     else Failure(TwoSumMissing(language))
    ensures !EndlessLoop(code) && problemId == "2" ==>
              e == if DefinesIsValid(code, language)
                   then Success(if ValidParens(StripQuotes(Text.Trim(input))) then "true" else "false", time, memory)
                   else Failure(IsValidMissing(language))
    ensures !EndlessLoop(code) && problemId != "1" && problemId != "2" ==> e == Success(printed, time, memory)
  {
    if EndlessLoop(code) {
      return Failure(LoopDetected);
    }
    if problemId == "1" {
      match ParseTwoSum(input)
      case BadInput =>
        e := Failure(BadFormat);
      case Input(nums, target) =>
        if DefinesTwoSum(code, language) {
          var r := TwoSum(nums, target);
          e := Success(PairText(r), time, memory);
        } else {
          e := Failure(TwoSumMissing(language));
        }
    } else if problemId == "2" {
      if DefinesIsValid(code, language) {
        var valid := IsValid(StripQuotes(Text.Trim(input)));
        e := Success(if valid then "true" else "false", time, memory);
      } else {
        e := Failure(IsValidMissing(language));
      }
    } else {
      e := Success(printed, time, memory);
    }
  }
}
