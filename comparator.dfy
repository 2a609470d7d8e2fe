/**
 * The judge's output comparison: canonical JSON texts when both sides read
 * as JSON, otherwise the texts after trimming, unifying line endings and
 * removing blanks at the end of every line.
 */
module Comparator {
  import opened Wrappers
  import Text
  import Json

  predicate IsBlank(c: char) {
    c == ' ' || c == '\t'
  }

  /** The characters before which a multiline `$` matches. */
  predicate IsLineEnd(c: char) {
    c == '\n' || c == '\r' || c == ' ' || c == ' '
  }

  /** `s.replace(/\r\n/g, '\n')`: leftmost pairs, without overlap. */
  function ReplaceCrLf(s: string): (r: string)
    ensures |r| <= |s|
  {
    if |s| >= 2 && s[0] == '\r' && s[1] == '\n' then "\n" + ReplaceCrLf(s[2..])
    else if s == [] then []
    else [s[0]] + ReplaceCrLf(s[1..])
  }

  /** `s.replace(/\r/g, '\n')`. */
  function ReplaceCr(s: string): (r: string)
    ensures |r| == |s|
    ensures forall i :: 0 <= i < |s| ==> r[i] == (if s[i] == '\r' then '\n' else s[i])
  {
    if s == [] then [] else [if s[0] == '\r' then '\n' else s[0]] + ReplaceCr(s[1..])
  }

  /** Reference reading of line endings: CRLF and a lone CR both become LF, in one scan. */
  function UnifyLineEnds(s: string): (r: string)
    ensures '\r' !in r
  {
    if s == [] then []
    else if s[0] == '\r' && |s| >= 2 && s[1] == '\n' then "\n" + UnifyLineEnds(s[2..])
    else if s[0] == '\r' then "\n" + UnifyLineEnds(s[1..])
    else [s[0]] + UnifyLineEnds(s[1..])
  }

  /** The two replacements in a row are the one-scan reading. */
  lemma {:induction false} LineEndsAgree(s: string)
    ensures ReplaceCr(ReplaceCrLf(s)) == UnifyLineEnds(s)
  {
    if |s| >= 2 && s[0] == '\r' && s[1] == '\n' {
      LineEndsAgree(s[2..]);
      assert ReplaceCr("\n" + ReplaceCrLf(s[2..])) == "\n" + ReplaceCr(ReplaceCrLf(s[2..]));
    } else if s != [] {
      LineEndsAgree(s[1..]);
      assert ReplaceCr([s[0]] + ReplaceCrLf(s[1..])) == ReplaceCr([s[0]]) + ReplaceCr(ReplaceCrLf(s[1..])) by {
        ReplaceCrAppend([s[0]], ReplaceCrLf(s[1..]));
      }
    }
  }

  lemma ReplaceCrAppend(a: string, b: string)
    ensures ReplaceCr(a + b) == ReplaceCr(a) + ReplaceCr(b)
  {
    var l := ReplaceCr(a + b);
    var r := ReplaceCr(a) + ReplaceCr(b);
    assert |l| == |r|;
    forall i | 0 <= i < |l| ensures l[i] == r[i] {
      if i < |a| {
        assert (a + b)[i] == a[i];
      } else {
        assert (a + b)[i] == b[i - |a|];
      }
    }
  }

  /** The end of the run of blanks that starts at `i`. */
  function BlankEnd(s: string, i: nat): (r: nat)
    requires i <= |s|
    ensures i <= r <= |s|
    ensures forall k :: i <= k < r ==> IsBlank(s[k])
    ensures r == |s| || !IsBlank(s[r])
    decreases |s| - i
  {
    if i < |s| && IsBlank(s[i]) then BlankEnd(s, i + 1) else i
  }

  /** No blank stands at the end of a line or of the text. */
  predicate NoLineEndBlanks(s: string) {
    forall i :: 0 <= i < |s| && IsBlank(s[i]) ==> i + 1 < |s| && !IsLineEnd(s[i + 1])
  }

  /** `s.replace(/[ \t]+$/gm, '')`: a maximal run of blanks goes when a line end
      or the end of the text follows it, and stays otherwise. */
  function StripLineEndBlanks(s: string): (r: string)
    ensures NoLineEndBlanks(r)
    ensures r != [] ==> !IsBlank(r[0]) || (s != [] && r[0] == s[0])
    decreases |s|
  {
    if s == [] then []
    else if IsBlank(s[0]) then
      var k := BlankEnd(s, 0);
      var tail := StripLineEndBlanks(s[k..]);
      if k == |s| || IsLineEnd(s[k]) then tail
      else
        assert s[k..] != [] && !IsBlank(s[k..][0]);
        assert tail != [] ==> !IsBlank(tail[0]);
        s[..k] + tail
    else [s[0]] + StripLineEndBlanks(s[1..])
  }

  /** A text without line ends: one line. */
  predicate OneLine(t: string) {
    forall i :: 0 <= i < |t| ==> !IsLineEnd(t[i])
  }

  /** Reference reading of one line: its trailing blanks cut off from the
      end, one at a time. */
  function TrimBlanksEnd(t: string): string
    decreases |t|
  {
    if t != [] && IsBlank(t[|t| - 1]) then TrimBlanksEnd(t[..|t| - 1]) else t
  }

  /** What is cut off is a run of blanks at the end, and what is left ends
      in a character that is not blank. */
  lemma {:induction false} TrimBlanksEndSpec(t: string)
    ensures var r := TrimBlanksEnd(t);
      |r| <= |t| && r == t[..|r|] &&
      (forall i :: |r| <= i < |t| ==> IsBlank(t[i])) &&
      (r == [] || !IsBlank(r[|r| - 1]))
    decreases |t|
  {
    if t != [] && IsBlank(t[|t| - 1]) {
      var t' := t[..|t| - 1];
      TrimBlanksEndSpec(t');
      var r := TrimBlanksEnd(t');
      assert t'[..|r|] == t[..|r|];
    }
  }

  /** Cutting the trailing blanks of a concatenation cuts into the first
      part only when the second part is all blanks. */
  lemma {:induction false} TrimBlanksEndAppend(p: string, q: string)
    ensures TrimBlanksEnd(p + q) == if TrimBlanksEnd(q) == [] then TrimBlanksEnd(p) else p + TrimBlanksEnd(q)
    decreases |q|
  {
    if q != [] {
      if IsBlank(q[|q| - 1]) {
        var q' := q[..|q| - 1];
        assert (p + q)[..|p + q| - 1] == p + q';
        TrimBlanksEndAppend(p, q');
      }
    } else {
      assert p + q == p;
    }
  }

  /** One step of the stripping at a character that is not blank. */
  lemma StripSolidStep(s: string)
    requires s != [] && !IsBlank(s[0])
    ensures StripLineEndBlanks(s) == [s[0]] + StripLineEndBlanks(s[1..])
  {
  }

  /** One step of the stripping at a run of blanks. */
  lemma StripBlankStep(s: string)
    requires s != [] && IsBlank(s[0])
    ensures var k := BlankEnd(s, 0);
      StripLineEndBlanks(s) == if k == |s| || IsLineEnd(s[k]) then StripLineEndBlanks(s[k..]) else s[..k] + StripLineEndBlanks(s[k..])
  {
  }

  /** A line followed by a line end or the end of the text loses exactly its
      trailing blanks, and what follows is stripped on its own. */
  lemma {:induction false} StripLine(a: string, rest: string)
    requires OneLine(a)
    requires rest == [] || IsLineEnd(rest[0])
    ensures StripLineEndBlanks(a + rest) == TrimBlanksEnd(a) + StripLineEndBlanks(rest)
    decreases |a|
  {
    if a == [] {
      assert a + rest == rest;
    } else if IsBlank(a[0]) {
      StripBlankRun(a, rest);
    } else {
      var s := a + rest;
      OneLineSuffix(a, 1);
      calc {
        StripLineEndBlanks(s);
        { StripSolidStep(s); }
        [a[0]] + StripLineEndBlanks(s[1..]);
        { assert s[1..] == a[1..] + rest; }
        [a[0]] + StripLineEndBlanks(a[1..] + rest);
        { StripLine(a[1..], rest); }
        [a[0]] + (TrimBlanksEnd(a[1..]) + StripLineEndBlanks(rest));
        { TrimBlanksEndAppend([a[0]], a[1..]); assert [a[0]] + a[1..] == a; }
        TrimBlanksEnd(a) + StripLineEndBlanks(rest);
      }
    }
  }

  /** A suffix of a line is a line. */
  lemma OneLineSuffix(a: string, k: nat)
    requires OneLine(a) && k <= |a|
    ensures OneLine(a[k..])
  {
    forall i | 0 <= i < |a[k..]| ensures !IsLineEnd(a[k..][i]) { assert a[k..][i] == a[k + i]; }
  }

  /** `StripLine` for a line that starts with a blank. */
  lemma {:induction false} StripBlankRun(a: string, rest: string)
    requires OneLine(a) && a != [] && IsBlank(a[0])
    requires rest == [] || IsLineEnd(rest[0])
    ensures StripLineEndBlanks(a + rest) == TrimBlanksEnd(a) + StripLineEndBlanks(rest)
    decreases |a|, 0
  {
    var s := a + rest;
    var k := BlankEnd(s, 0);
    BlankRunInLine(a, rest);
    if k == |a| {
      StripAllBlank(a, rest);
    } else {
      var p, q := a[..k], a[k..];
      assert a == p + q && s == p + (q + rest);
      OneLineSuffix(a, k);
      calc {
        StripLineEndBlanks(s);
        { StripBlankThenSolid(p, q + rest); }
        p + StripLineEndBlanks(q + rest);
        { StripLine(q, rest); }
        p + (TrimBlanksEnd(q) + StripLineEndBlanks(rest));
        { TrimBlanksEndSpec(q); TrimBlanksEndAppend(p, q); }
        TrimBlanksEnd(a) + StripLineEndBlanks(rest);
      }
    }
  }

  /** The run of blanks at the start of a line followed by a line end or the
      end of the text ends inside the line. */
  lemma BlankRunInLine(a: string, rest: string)
    requires rest == [] || IsLineEnd(rest[0])
    ensures var k := BlankEnd(a + rest, 0);
      k <= |a| && (forall i :: 0 <= i < k ==> IsBlank(a[i])) && (k < |a| ==> !IsBlank(a[k]))
  {
    var s := a + rest;
    var k := BlankEnd(s, 0);
    assert rest != [] ==> s[|a|] == rest[0];
    assert k <= |a|;
    forall i | 0 <= i <= k && i < |a| ensures s[i] == a[i] { }
  }

  /** A run of blanks before a character that is neither blank nor a line
      end stays. */
  lemma StripBlankThenSolid(p: string, t: string)
    requires p != [] && forall i :: 0 <= i < |p| ==> IsBlank(p[i])
    requires t != [] && !IsBlank(t[0]) && !IsLineEnd(t[0])
    ensures StripLineEndBlanks(p + t) == p + StripLineEndBlanks(t)
  {
    var s := p + t;
    assert s[|p|] == t[0];
    assert BlankEnd(s, 0) == |p|;
    StripBlankStep(s);
    assert s[..|p|] == p && s[|p|..] == t;
  }

  /** `StripLine` for a line of blanks only. */
  lemma StripAllBlank(a: string, rest: string)
    requires a != [] && forall i :: 0 <= i < |a| ==> IsBlank(a[i])
    requires rest == [] || IsLineEnd(rest[0])
    ensures StripLineEndBlanks(a + rest) == TrimBlanksEnd(a) + StripLineEndBlanks(rest)
  {
    var s := a + rest;
    assert rest != [] ==> s[|a|] == rest[0];
    assert BlankEnd(s, 0) == |a|;
    TrimBlanksEndSpec(a);
    calc {
      StripLineEndBlanks(s);
      { StripBlankStep(s); assert s[|a|..] == rest; }
      StripLineEndBlanks(rest);
      { assert TrimBlanksEnd(a) == []; }
      TrimBlanksEnd(a) + StripLineEndBlanks(rest);
    }
  }

  /** The stripping works line by line: a line and the line end after it
      become the line without its trailing blanks and the same line end,
      and the rest of the text is stripped in the same way. */
  lemma StripLineByLine(a: string, c: char, b: string)
    requires OneLine(a) && IsLineEnd(c)
    ensures StripLineEndBlanks(a + [c] + b) == TrimBlanksEnd(a) + [c] + StripLineEndBlanks(b)
  {
    var rest := [c] + b;
    calc {
      StripLineEndBlanks(a + [c] + b);
      { assert a + [c] + b == a + rest; }
      StripLineEndBlanks(a + rest);
      { StripLine(a, rest); }
      TrimBlanksEnd(a) + StripLineEndBlanks(rest);
      { StripSolidStep(rest); assert rest[1..] == b; }
      TrimBlanksEnd(a) + ([c] + StripLineEndBlanks(b));
    }
  }

  /** The last line, with no line end after it, loses its trailing blanks. */
  lemma StripLastLine(a: string)
    requires OneLine(a)
    ensures StripLineEndBlanks(a) == TrimBlanksEnd(a)
  {
    StripLine(a, []);
    assert a + [] == a;
  }

  /** Trailing blanks go line by line; blanks inside a line stay. */
  lemma StripExample()
    ensures StripLineEndBlanks("a b \t\nc \t") == "a b\nc"
  {
    var first, last := "a b \t", "c \t";
    assert OneLine(first) && OneLine(last);
    calc {
      StripLineEndBlanks("a b \t\nc \t");
      { assert "a b \t\nc \t" == first + ['\n'] + last; }
      StripLineEndBlanks(first + ['\n'] + last);
      { StripLineByLine(first, '\n', last); }
      TrimBlanksEnd(first) + ['\n'] + StripLineEndBlanks(last);
      { StripLastLine(last); }
      TrimBlanksEnd(first) + ['\n'] + TrimBlanksEnd(last);
      { assert TrimBlanksEnd(first) == "a b"; assert TrimBlanksEnd(last) == "c"; }
      "a b\nc";
    }
  }

  /** The text form compared when JSON does not apply. */
  function Normalize(s: string): string {
    StripLineEndBlanks(ReplaceCr(ReplaceCrLf(Text.Trim(s))))
  }

  /** `compareOutputs(actual, expected)`. */
  function Compare(actual: string, expected: string): bool {
    match (Json.Parse(actual), Json.Parse(expected))
    case (Some(a), Some(e)) => Json.Serialize(a) == Json.Serialize(e)
    case _ => Normalize(actual) == Normalize(expected)
  }

  lemma CompareReflexive(s: string)
    ensures Compare(s, s)
  {
  }

  lemma CompareSymmetric(a: string, b: string)
    ensures Compare(a, b) == Compare(b, a)
  {
  }

  /** When both sides read as JSON, they compare equal exactly when they are the same value. */
  lemma JsonTier(actual: string, expected: string, a: Json.Json, e: Json.Json)
    requires Json.Parse(actual) == Some(a) && Json.Parse(expected) == Some(e)
    ensures Compare(actual, expected) <==> a == e
  {
    Json.SerializeInjective(a, e);
  }

  /** The normalised text holds no carriage return and no blank at a line end. */
  lemma NormalizeShape(s: string)
    ensures '\r' !in Normalize(s)
    ensures NoLineEndBlanks(Normalize(s))
  {
    var u := ReplaceCr(ReplaceCrLf(Text.Trim(s)));
    LineEndsAgree(Text.Trim(s));
    StripKeepsOut(u, '\r');
  }

  /** Removing blanks brings in no other character. */
  lemma {:induction false} StripKeepsOut(s: string, c: char)
    requires c !in s
    ensures c !in StripLineEndBlanks(s)
    decreases |s|
  {
    if s != [] {
      if IsBlank(s[0]) {
        var k := BlankEnd(s, 0);
        assert c !in s[k..] by {
          forall i | 0 <= i < |s[k..]| ensures s[k..][i] != c { assert s[k..][i] == s[k + i]; }
        }
        StripKeepsOut(s[k..], c);
        assert c !in s[..k] by {
          forall i | 0 <= i < k ensures s[..k][i] != c { assert s[..k][i] == s[i]; }
        }
      } else {
        assert c !in s[1..] by {
          forall i | 0 <= i < |s[1..]| ensures s[1..][i] != c { assert s[1..][i] == s[i + 1]; }
        }
        StripKeepsOut(s[1..], c);
      }
    }
  }

  /** Re-serialisation ignores white space after the commas: the writer's
      text and any spaced-out layout of the same value compare equal. */
  lemma SpacingIgnored(j: Json.Json, gap: string)
    requires Json.WellFormed(j) && Json.Blank(gap)
    ensures Compare(Json.Serialize(j), Json.Layout(j, gap))
  {
    Json.RoundTrip(j);
    Json.LayoutRoundTrip(j, gap);
  }

  /** Text which is its own normal form. */
  predicate IsNormal(s: string) {
    Text.Trim(s) == s && '\r' !in s && NoLineEndBlanks(s)
  }

  /** When one side is not JSON, texts already in normal form compare equal
      only when they are identical: the comparison is exact, case included. */
  lemma TextTierExact(a: string, b: string)
    requires Json.Parse(a) == None || Json.Parse(b) == None
    requires IsNormal(a) && IsNormal(b)
    ensures Compare(a, b) <==> a == b
  {
    NormalizeFixed(a);
    NormalizeFixed(b);
  }

  /** `true` reads as JSON but `True` does not, so the text comparison decides,
      and it tells them apart. */
  lemma CaseMatters(a: string, b: string)
    requires |a| == 4 && a[0] == 't' && a[1] == 'r' && a[2] == 'u' && a[3] == 'e'
    requires |b| == 4 && b[0] == 'T' && b[1..] == a[1..]
    ensures !Compare(a, b)
  {
    assert Json.Parse(b) == None by {
      Json.ValueAt(b);
      assert Json.LeadOf(b[0]) == Json.LeadOther;
    }
    assert Compare(a, b) <==> a == b by {
      WordIsNormal(a);
      WordIsNormal(b);
      TextTierExact(a, b);
    }
    assert a[0] != b[0];
  }

  lemma ReadTrue(a: string)
    requires |a| == 4 && a[0] == 't' && a[1] == 'r' && a[2] == 'u' && a[3] == 'e'
    ensures Json.Parse(a) == Some(Json.JBool(true))
  {
    assert a == "true" + "";
    Json.ValueOfWord("true", Json.JBool(true), "");
    assert Json.SkipWhite("") == "";
  }

  /** A text without white space is its own normal form. */
  lemma WordIsNormal(s: string)
    requires forall i :: 0 <= i < |s| ==> !Text.IsWhite(s[i])
    ensures IsNormal(s)
  {
    assert Text.Trim(s) == s by {
      Text.TrimKeepsEdges(s);
    }
    assert '\r' !in s && NoLineEndBlanks(s) by {
      forall i | 0 <= i < |s| ensures s[i] != '\r' && !IsBlank(s[i]) {
        assert !Text.IsWhite(s[i]);
      }
    }
  }

  /** Text already trimmed, without carriage returns and without blanks at
      line ends, is its own normal form. */
  lemma NormalizeFixed(s: string)
    requires IsNormal(s)
    ensures Normalize(s) == s
  {
    CrLfFixed(s);
    CrFixed(s);
    StripFixed(s);
  }

  lemma {:induction false} CrLfFixed(s: string)
    requires '\r' !in s
    ensures ReplaceCrLf(s) == s
  {
    if s != [] {
      assert s[0] != '\r';
      assert '\r' !in s[1..] by {
        forall i | 0 <= i < |s[1..]| ensures s[1..][i] != '\r' { assert s[1..][i] == s[i + 1]; }
      }
      CrLfFixed(s[1..]);
      assert [s[0]] + s[1..] == s;
    }
  }

  lemma CrFixed(s: string)
    requires '\r' !in s
    ensures ReplaceCr(s) == s
  {
    var r := ReplaceCr(s);
    forall i | 0 <= i < |s| ensures r[i] == s[i] {
      assert s[i] != '\r';
    }
  }

  lemma {:induction false} StripFixed(s: string)
    requires NoLineEndBlanks(s)
    ensures StripLineEndBlanks(s) == s
    decreases |s|
  {
    if s != [] {
      if IsBlank(s[0]) {
        var k := BlankEnd(s, 0);
        assert k > 0;
        assert k < |s| && !IsLineEnd(s[k]) by {
          assert IsBlank(s[k - 1]);
        }
        SuffixNoLineEndBlanks(s, k);
        StripFixed(s[k..]);
        assert s[..k] + s[k..] == s;
      } else {
        SuffixNoLineEndBlanks(s, 1);
        StripFixed(s[1..]);
        assert [s[0]] + s[1..] == s;
      }
    }
  }

  /** A suffix of text without blanks at line ends has none either. */
  lemma SuffixNoLineEndBlanks(s: string, k: nat)
    requires NoLineEndBlanks(s) && k <= |s|
    ensures NoLineEndBlanks(s[k..])
  {
    var t := s[k..];
    forall i | 0 <= i < |t| && IsBlank(t[i]) ensures i + 1 < |t| && !IsLineEnd(t[i + 1]) {
      assert t[i] == s[k + i];
    }
  }
}
