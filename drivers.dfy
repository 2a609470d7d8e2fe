/**
 * The programs the judge writes into its workspace before compiling: the
 * Python driver, the JavaScript driver, and the removal of a user's own
 * `if __name__ == "__main__":` block from Python code.
 *
 * The removal is the regular expression
 *   if\s+__name__\s*==\s*['"]__main__['"]\s*:[\s\S]*
 * replaced by nothing. Every white-space run in the pattern is followed by a
 * character that is not white space, so at a given start position at most one
 * match exists and greedy skipping finds it; `[\s\S]*` takes the rest of the
 * text, so only the leftmost match matters.
 */
module Drivers {
  import opened Wrappers
  import Text

  predicate LitAt(s: string, i: nat, lit: string) {
    i + |lit| <= |s| && s[i..i + |lit|] == lit
  }

  predicate IsQuote(c: char) {
    c == '\'' || c == '"'
  }

  /** The main-guard pattern matches at position `p` of `s`. */
  predicate GuardAt(s: string, p: nat) {
    MatchFrom(s, p, 0)
  }

  /** Where stage `stage` of the pattern ends when it is tried at `i`, if it
      matches there: 0 is `if`, 1 is `\s+__name__`, 2 is `\s*==`, 3 is
      `\s*['"]__main__['"]` and 4 is `\s*:`. */
  function StageEnd(s: string, i: nat, stage: nat): (r: Option<nat>)
    ensures r.Some? ==> i < r.value <= |s|
  {
    if i > |s| then None
    else if stage == 0 then (if LitAt(s, i, "if") then Some(i + 2) else None)
    else
      var a := Text.WhiteEnd(s, i);
      if stage == 1 then (if a > i && LitAt(s, a, "__name__") then Some(a + 8) else None)
      else if stage == 2 then (if LitAt(s, a, "==") then Some(a + 2) else None)
      else if stage == 3 then
        (if a + 9 < |s| && IsQuote(s[a]) && LitAt(s, a + 1, "__main__") && IsQuote(s[a + 9])
         then Some(a + 10) else None)
      else (if a < |s| && s[a] == ':' then Some(a + 1) else None)
  }

  /** Stage `stage` and the stages after it match from `i`. */
  predicate MatchFrom(s: string, i: nat, stage: nat)
    decreases 4 - stage
  {
    match StageEnd(s, i, stage)
    case None => false
    case Some(j) => stage >= 4 || MatchFrom(s, j, stage + 1)
  }

  /** The least position in `[p, n)` where `f` holds, or `n` when there is none. */
  function FirstFrom(f: nat -> bool, n: nat, p: nat): (r: nat)
    requires p <= n
    ensures p <= r <= n
    decreases n - p
  {
    if p == n then p
    else if f(p) then p
    else FirstFrom(f, n, p + 1)
  }

  /** `FirstFrom` finds a position where `f` holds, and `f` holds nowhere before it. */
  lemma {:induction false} FirstFromIsFirst(f: nat -> bool, n: nat, p: nat)
    requires p <= n
    ensures FirstFrom(f, n, p) < n ==> f(FirstFrom(f, n, p))
    ensures forall q: nat :: p <= q < FirstFrom(f, n, p) ==> !f(q)
    decreases n - p
  {
    if p < n && !f(p) {
      FirstFromIsFirst(f, n, p + 1);
    }
  }

  /** The leftmost match at or after `p`, or `|s|` when there is none. */
  function FirstGuardFrom(s: string, p: nat): (r: nat)
    requires p <= |s|
    ensures p <= r <= |s|
  {
    FirstFrom((q: nat) => GuardAt(s, q), |s|, p)
  }

  /** The user's Python code with everything from the first main guard on removed. */
  function StripMainGuard(code: string): (r: string)
    ensures |r| <= |code| && r == code[..|r|]
  {
    code[..FirstGuardFrom(code, 0)]
  }

  /** The cut is at the leftmost match: one is there unless nothing was cut,
      and none lies before it. */
  lemma StripAtFirstGuard(code: string)
    ensures |StripMainGuard(code)| < |code| ==> GuardAt(code, |StripMainGuard(code)|)
    ensures forall q: nat :: q < |StripMainGuard(code)| ==> !GuardAt(code, q)
  {
    var f := (q: nat) => GuardAt(code, q);
    var k := FirstFrom(f, |code|, 0);
    FirstFromIsFirst(f, |code|, 0);
    assert |StripMainGuard(code)| == k;
    forall q: nat | q < k
      ensures !GuardAt(code, q)
    {
      assert !f(q);
    }
    if k < |code| {
      assert f(k);
    }
  }

  lemma WhiteEndExtend(s: string, t: string, i: nat)
    requires i <= |s| && Text.WhiteEnd(s, i) < |s|
    ensures Text.WhiteEnd(s + t, i) == Text.WhiteEnd(s, i)
    decreases |s| - i
  {
    if Text.IsWhite(s[i]) {
      assert (s + t)[i] == s[i];
      WhiteEndExtend(s, t, i + 1);
    }
  }

  lemma LitAtExtend(s: string, t: string, i: nat, lit: string)
    requires LitAt(s, i, lit)
    ensures LitAt(s + t, i, lit)
  {
    assert (s + t)[i..i + |lit|] == s[i..i + |lit|];
  }

  /** A match that lies inside `s` is still a match once text is appended. */
  lemma {:induction false} MatchExtend(s: string, t: string, i: nat, stage: nat)
    requires MatchFrom(s, i, stage)
    ensures MatchFrom(s + t, i, stage)
    decreases 4 - stage
  {
    var j := StageEnd(s, i, stage).value;
    StageExtend(s, t, i, stage);
    if stage < 4 {
      MatchExtend(s, t, j, stage + 1);
    }
  }

  /** A stage that matches inside `s` ends at the same place once text is appended. */
  lemma StageExtend(s: string, t: string, i: nat, stage: nat)
    requires StageEnd(s, i, stage).Some?
    ensures StageEnd(s + t, i, stage) == StageEnd(s, i, stage)
  {
    if stage == 0 {
      LitAtExtend(s, t, i, "if");
    } else {
      var a := Text.WhiteEnd(s, i);
      assert a < |s| by {
        if stage == 1 {
          assert LitAt(s, a, "__name__");
        } else if stage == 2 {
          assert LitAt(s, a, "==");
        }
      }
      WhiteEndExtend(s, t, i);
      if stage == 1 {
        LitAtExtend(s, t, a, "__name__");
      } else if stage == 2 {
        LitAtExtend(s, t, a, "==");
      } else if stage == 3 {
        assert (s + t)[a] == s[a] && (s + t)[a + 9] == s[a + 9];
        LitAtExtend(s, t, a + 1, "__main__");
      } else {
        assert (s + t)[a] == s[a];
      }
    }
  }

  lemma GuardAtExtend(s: string, t: string, p: nat)
    requires GuardAt(s, p)
    ensures GuardAt(s + t, p)
  {
    MatchExtend(s, t, p, 0);
  }

  /** The stripped code holds no main guard at all. */
  lemma StripLeavesNoGuard(code: string, q: nat)
    ensures !GuardAt(StripMainGuard(code), q)
  {
    var r := StripMainGuard(code);
    if q < |r| {
      StripAtFirstGuard(code);
      NoGuardInPrefix(code, r, q);
    }
  }

  /** A match inside a prefix would be a match of the whole text. */
  lemma NoGuardInPrefix(code: string, r: string, q: nat)
    requires |r| <= |code| && r == code[..|r|] && !GuardAt(code, q)
    ensures !GuardAt(r, q)
  {
    if GuardAt(r, q) {
      var tail := code[|r|..];
      assert r + tail == code;
      GuardAtExtend(r, tail, q);
    }
  }

  /** Stripping twice is stripping once. */
  lemma StripIdempotent(code: string)
    ensures StripMainGuard(StripMainGuard(code)) == StripMainGuard(code)
  {
    var r := StripMainGuard(code);
    var k := FirstGuardFrom(r, 0);
    StripAtFirstGuard(r);
    if k < |r| {
      StripLeavesNoGuard(code, k);
    }
    assert r[..|r|] == r;
  }

  /** Code without a main guard is left as it is. */
  lemma StripWithoutGuard(code: string)
    requires forall q: nat :: q < |code| ==> !GuardAt(code, q)
    ensures StripMainGuard(code) == code
  {
    StripAtFirstGuard(code);
    assert code[..|code|] == code;
  }

  const PythonPrologue: string := "\nimport sys\nimport json\n\n"

  function PythonEpilogue(fn: string): string {
    "\n\nif __name__ == \"__main__\":\n" +
    "    try:\n" +
    "        # Read all stdin\n" +
    "        input_str = sys.stdin.read().strip()\n" +
    "        if not input_str:\n" +
    "            sys.exit(0)\n" +
    "            \n" +
    "        lines = input_str.split('\\n')\n" +
    "        args = []\n" +
    "        for line in lines:\n" +
    "            line = line.strip()\n" +
    "            if line:\n" +
    "                try:\n" +
    "                    # Attempt JSON parse\n" +
    "                    args.append(json.loads(line))\n" +
    "                except json.JSONDecodeError:\n" +
    "                    # Fallback for simple integers/strings if not valid JSON\n" +
    "                    try:\n" +
    "                        args.append(eval(line))\n" +
    "                    except:\n" +
    "                        args.append(line)\n" +
    "\n" +
    "        # Call solve function\n" +
    "        if '" + fn + "' in globals():\n" +
    "            print(f\"Input Args: {args}\") # Debug: Show input in console\n" +
    "            result = " + fn + "(*args)\n" +
    "            print(json.dumps(result))\n" +
    "        else:\n" +
    "            print(\"Error: Function '" + fn + "' not found. Please define 'def " + fn + "(...):'\", file=sys.stderr)\n" +
    "            sys.exit(1)\n" +
    "            \n" +
    "    except Exception as e:\n" +
    "        print(f\"Runtime Error: {str(e)}\", file=sys.stderr)\n" +
    "        sys.exit(1)\n"
  }

  /** The Python driver around a body that holds no main guard of its own:
      the body between the imports and the driver's own main block. */
  function PythonWrap(body: string, fn: string): string {
    PythonPrologue + body + PythonEpilogue(fn)
  }

  /** `solution.py`: the stripped user code inside the Python driver. */
  function PythonDriver(code: string, fn: string): string {
    PythonWrap(StripMainGuard(code), fn)
  }

  const JsPrologue: string := "\nconst fs = require('fs');\n\n// --- USER CODE START ---\n"

  function JsEpilogue(fn: string): string {
    "\n// --- USER CODE END ---\n" +
    "\n" +
    "// --- DRIVER CODE ---\n" +
    "try {\n" +
    "  // Read all stdin\n" +
    "  let input = '';\n" +
    "  try {\n" +
    "    input = fs.readFileSync(0, 'utf-8').trim();\n" +
    "  } catch (e) {\n" +
    "    // No input provided or error reading\n" +
    "  }\n" +
    "\n" +
    "  if (input) {\n" +
    "    const lines = input.split('\\n');\n" +
    "    const args = lines.map(line => {\n" +
    "      line = line.trim();\n" +
    "      if (!line) return undefined;\n" +
    "      try {\n" +
    "        return JSON.parse(line);\n" +
    "      } catch (e) {\n" +
    "        // Fallback for simple types similar to Python's eval assumption\n" +
    "        if (!isNaN(line)) return Number(line);\n" +
    "        if (line === 'true') return true;\n" +
    "        if (line === 'false') return false;\n" +
    "        // Strip quotes if they exist but JSON.parse failed (unlikely but safe)\n" +
    "        return line.replace(/^['\"]|['\"]$/g, '');\n" +
    "      }\n" +
    "    }).filter(arg => arg !== undefined);\n" +
    "\n" +
    "    if (typeof " + fn + " !== 'function') {\n" +
    "      console.error(\"Function '" + fn + "' not found or is not defined.\");\n" +
    "      process.exit(1);\n" +
    "    }\n" +
    "\n" +
    "    // Call the function with parsed arguments\n" +
    "    const result = " + fn + "(...args);\n" +
    "    \n" +
    "    // Output result as JSON\n" +
    "    console.log(JSON.stringify(result));\n" +
    "  }\n" +
    "} catch (error) {\n" +
    "  console.error(\"Runtime Error: \" + error.message);\n" +
    "  process.exit(1);\n" +
    "}\n"
  }

  /** `solution.js`: the user code verbatim, between the start and end markers. */
  function JsDriver(code: string, fn: string): string {
    JsPrologue + code + JsEpilogue(fn)
  }
}
