/**
 * The JavaScript string primitives the judge, the client page and the
 * controllers rely on: `trim`/`trimStart`/`trimEnd`, `split` and `join` on one
 * character, `indexOf`/`lastIndexOf` of a character, `includes`, counting the
 * matches of a one-character regular expression, `startsWith`/`endsWith`,
 * `parseInt` without a radix, and number-to-text conversion.
 */
module Text {
  import opened Wrappers

  /** ECMAScript WhiteSpace and LineTerminator code points: the set that
      `trim`, `trimStart`, `trimEnd`, `parseInt` and the regular expression
      class `\s` all use. */
  predicate IsWhite(c: char) {
    || c == '\t' || c == '\n' || c == '\U{000B}' || c == '\U{000C}' || c == '\r'
    || c == ' ' || c == '\U{00A0}' || c == '\U{1680}'
    || ('\U{2000}' <= c <= '\U{200A}')
    || c == '\U{2028}' || c == '\U{2029}' || c == '\U{202F}' || c == '\U{205F}'
    || c == '\U{3000}' || c == '\U{FEFF}'
  }

  predicate AllWhite(s: string) {
    forall i :: 0 <= i < |s| ==> IsWhite(s[i])
  }

  /** The first index at or after `i` that does not hold white space, or
      `|s|` when there is none. */
  function WhiteEnd(s: string, i: nat): (r: nat)
    requires i <= |s|
    ensures i <= r <= |s|
    ensures AllWhite(s[i..r])
    ensures r == |s| || !IsWhite(s[r])
    decreases |s| - i
  {
    if i < |s| && IsWhite(s[i]) then WhiteEnd(s, i + 1) else i
  }

  /** The index just after the last character before `i` that is not white
      space, or 0 when there is none. */
  function WhiteStart(s: string, i: nat): (r: nat)
    requires i <= |s|
    ensures r <= i
    ensures AllWhite(s[r..i])
    ensures r == 0 || !IsWhite(s[r - 1])
  {
    if i > 0 && IsWhite(s[i - 1]) then
      var r := WhiteStart(s, i - 1);
      assert forall k :: 0 <= k < i - 1 - r ==> s[r..i][k] == s[r..i - 1][k];
      r
    else i
  }

  /** `s.trimStart()`: the suffix left after the longest all-white prefix. */
  function TrimStart(s: string): (r: string)
    ensures |r| <= |s| && r == s[|s| - |r|..]
    ensures AllWhite(s[..|s| - |r|])
    ensures r != [] ==> !IsWhite(r[0])
  {
    var k := WhiteEnd(s, 0);
    assert forall j :: 0 <= j < k ==> s[..k][j] == s[j];
    s[k..]
  }

  /** `s.trimEnd()`: the prefix left after the longest all-white suffix. */
  function TrimEnd(s: string): (r: string)
    ensures |r| <= |s| && r == s[..|r|]
    ensures AllWhite(s[|r|..])
    ensures r != [] ==> !IsWhite(r[|r| - 1])
  {
    var k := WhiteStart(s, |s|);
    assert forall j :: 0 <= j < |s| - k ==> s[k..][j] == s[k + j];
    s[..k]
  }

  /** `s.trim()`. */
  function Trim(s: string): (r: string)
    ensures |r| <= |s|
    ensures r != [] ==> !IsWhite(r[0]) && !IsWhite(r[|r| - 1])
  {
    TrimEnd(TrimStart(s))
  }

  /** `trim` keeps exactly the characters between the white margins. */
  lemma TrimIsInner(s: string)
    ensures var lead := |s| - |TrimStart(s)|;
            && lead + |Trim(s)| <= |s|
            && Trim(s) == s[lead..lead + |Trim(s)|]
            && AllWhite(s[..lead]) && AllWhite(s[lead + |Trim(s)|..])
  {
    var t := TrimStart(s);
    PrefixOfSuffix(s, |s| - |t|, t, TrimEnd(t));
  }

  /** A prefix of a suffix is a slice. */
  lemma PrefixOfSuffix(s: string, lead: nat, t: string, r: string)
    requires lead <= |s| && t == s[lead..] && |r| <= |t| && r == t[..|r|]
    ensures lead + |r| <= |s| && r == s[lead..lead + |r|] && t[|r|..] == s[lead + |r|..]
  {
  }

  /** A string with no white space at either end is its own trim. */
  lemma TrimKeepsEdges(s: string)
    requires s != [] ==> !IsWhite(s[0]) && !IsWhite(s[|s| - 1])
    ensures Trim(s) == s
  {
    assert s[0..] == s && s[..|s|] == s;
  }

  /** Trimming twice is trimming once. */
  lemma TrimIdempotent(s: string)
    ensures Trim(Trim(s)) == Trim(s)
  {
    TrimKeepsEdges(Trim(s));
  }

  /** When the last character is not white space, `trim` only removes the
      leading white space. */
  lemma TrimSolidEnd(s: string)
    requires s != [] && !IsWhite(s[|s| - 1])
    ensures Trim(s) == TrimStart(s) && Trim(s) != []
  {
    var k := WhiteEnd(s, 0);
    var t := s[k..];
    assert k < |s|;
    assert t[|t| - 1] == s[|s| - 1];
    assert t[..|t|] == t;
  }

  /** When the last character is not white space, `trim` leaves a non-empty
      suffix with no white space at either end and only white space before it. */
  lemma TrimSolidShape(s: string)
    requires s != [] && !IsWhite(s[|s| - 1])
    ensures var r := Trim(s);
            && r != [] && |r| <= |s| && r == s[|s| - |r|..]
            && AllWhite(s[..|s| - |r|])
            && !IsWhite(r[0]) && !IsWhite(r[|r| - 1])
  {
    TrimSolidEnd(s);
  }

  /** An all-white string trims to the empty string, and only such a string. */
  lemma TrimEmptyIff(s: string)
    ensures Trim(s) == [] <==> AllWhite(s)
  {
    var k := WhiteEnd(s, 0);
    if AllWhite(s) {
      assert k == |s|;
    } else {
      assert k < |s|;
      var t := s[k..];
      assert t[0] == s[k];
      assert WhiteStart(t, |t|) > 0;
    }
  }

  predicate StartsWith(s: string, p: string) {
    |p| <= |s| && s[..|p|] == p
  }

  predicate EndsWith(s: string, p: string) {
    |p| <= |s| && s[|s| - |p|..] == p
  }

  /** `t` occurs in `s` starting at index `i`. */
  predicate OccursAt(s: string, t: string, i: int) {
    0 <= i <= |s| - |t| && s[i..i + |t|] == t
  }

  /** `s.includes(t)`. */
  predicate Includes(s: string, t: string) {
    exists i | 0 <= i <= |s| - |t| :: OccursAt(s, t, i)
  }

  /** `t` occurs in `s` starting at index `i`. */
  lemma IncludesAt(s: string, t: string, i: nat)
    requires i + |t| <= |s| && s[i..i + |t|] == t
    ensures Includes(s, t)
  {
    assert OccursAt(s, t, i);
  }

  /** `(s.match(/c/g) || []).length`: how many times the character occurs. */
  function CountChar(s: string, c: char): (n: nat)
    ensures n == multiset(s)[c]
    ensures n <= |s|
  {
    if s == [] then 0
    else
      assert s == [s[0]] + s[1..];
      (if s[0] == c then 1 else 0) + CountChar(s[1..], c)
  }

  /** The first index at or after `i` that holds `c`, or `|s|` when there is none. */
  function FindFrom(s: string, c: char, i: nat): (r: nat)
    requires i <= |s|
    ensures i <= r <= |s|
    ensures r < |s| ==> s[r] == c
    ensures c !in s[i..r]
    decreases |s| - i
  {
    if i == |s| || s[i] == c then i
    else
      var r := FindFrom(s, c, i + 1);
      assert s[i..r] == [s[i]] + s[i + 1..r];
      r
  }

  /** The last index before `i` that holds `c`, or -1 when there is none. */
  function FindBefore(s: string, c: char, i: nat): (r: int)
    requires i <= |s|
    ensures -1 <= r < i
    ensures r >= 0 ==> s[r] == c
    ensures forall j :: r < j < i ==> s[j] != c
  {
    if i == 0 then -1
    else if s[i - 1] == c then i - 1
    else FindBefore(s, c, i - 1)
  }

  /** `s.indexOf(c)`, -1 when absent. */
  function IndexOf(s: string, c: char): (r: int)
    ensures -1 <= r < |s|
    ensures r == -1 <==> c !in s
    ensures r >= 0 ==> s[r] == c && c !in s[..r]
  {
    var k := FindFrom(s, c, 0);
    assert s[0..k] == s[..k];
    if k == |s| then (assert s[..k] == s; -1) else k
  }

  /** `s.lastIndexOf(c)`, -1 when absent. */
  function LastIndexOf(s: string, c: char): (r: int)
    ensures -1 <= r < |s|
    ensures r == -1 <==> c !in s
    ensures r >= 0 ==> s[r] == c && c !in s[r + 1..]
  {
    FindBefore(s, c, |s|)
  }

  /** `parts.join(sep)` for a one-character separator. */
  function Join(parts: seq<string>, sep: char): string {
    if |parts| == 0 then ""
    else if |parts| == 1 then parts[0]
    else parts[0] + [sep] + Join(parts[1..], sep)
  }

  /** `s.split(sep)` for a one-character separator: never empty, the pieces
      hold no separator, and joining them back gives `s`. */
  function Split(s: string, sep: char): (parts: seq<string>)
    ensures |parts| >= 1
    ensures forall i :: 0 <= i < |parts| ==> sep !in parts[i]
    ensures Join(parts, sep) == s
    decreases |s|
  {
    var k := IndexOf(s, sep);
    if k == -1 then [s]
    else
      var rest := Split(s[k + 1..], sep);
      SplitStep(s, sep, k, rest);
      [s[..k]] + rest
  }

  /** One piece in front of the pieces of the rest. */
  lemma SplitStep(s: string, sep: char, k: nat, rest: seq<string>)
    requires k < |s| && sep !in s[..k]
    requires |rest| >= 1 && Join(rest, sep) == s[k + 1..] && s[k] == sep
    requires forall i :: 0 <= i < |rest| ==> sep !in rest[i]
    ensures var parts := [s[..k]] + rest;
            && (forall i :: 0 <= i < |parts| ==> sep !in parts[i])
            && Join(parts, sep) == s
  {
    var parts := [s[..k]] + rest;
    assert parts[1..] == rest;
    assert s == s[..k] + [sep] + s[k + 1..];
    assert forall i :: 1 <= i < |parts| ==> parts[i] == rest[i - 1];
  }

  /** The index of the first occurrence is the one with no occurrence before it. */
  lemma IndexOfIs(s: string, c: char, k: nat)
    requires k < |s| && s[k] == c && c !in s[..k]
    ensures IndexOf(s, c) == k
  {
    assert c in s by { assert s[k] == c; }
  }

  /** The join of two or more pieces, seen from its first separator. */
  lemma JoinHead(parts: seq<string>, sep: char)
    requires |parts| >= 2 && sep !in parts[0]
    ensures var s := Join(parts, sep);
            var p := parts[0];
            && |p| < |s| && IndexOf(s, sep) == |p| && s[|p| + 1..] == Join(parts[1..], sep) && s[..|p|] == p
  {
    var s := Join(parts, sep);
    var p := parts[0];
    assert s == p + [sep] + Join(parts[1..], sep);
    assert s[..|p|] == p;
    IndexOfIs(s, sep, |p|);
    assert s[|p| + 1..] == Join(parts[1..], sep);
  }

  /** Splitting a join of separator-free pieces gives back the pieces. */
  lemma {:induction false} SplitJoin(parts: seq<string>, sep: char)
    requires |parts| >= 1
    requires forall i :: 0 <= i < |parts| ==> sep !in parts[i]
    ensures Split(Join(parts, sep), sep) == parts
  {
    if |parts| == 1 {
      assert IndexOf(parts[0], sep) == -1;
    } else {
      JoinHead(parts, sep);
      SplitJoin(parts[1..], sep);
      assert [parts[0]] + parts[1..] == parts;
    }
  }

  predicate IsDecimalDigit(c: char) {
    '0' <= c <= '9'
  }

  predicate IsHexDigit(c: char) {
    IsDecimalDigit(c) || 'a' <= c <= 'f' || 'A' <= c <= 'F'
  }

  function DigitValue(c: char): (d: nat)
    requires IsHexDigit(c)
    ensures d < 16
    ensures IsDecimalDigit(c) ==> d < 10
  {
    if IsDecimalDigit(c) then c as int - '0' as int
    else if 'a' <= c <= 'f' then c as int - 'a' as int + 10
    else c as int - 'A' as int + 10
  }

  predicate IsDigitOf(c: char, radix: nat) {
    if radix == 16 then IsHexDigit(c) else IsDecimalDigit(c)
  }

  predicate AllDigits(ds: string, radix: nat) {
    forall j :: 0 <= j < |ds| ==> IsDigitOf(ds[j], radix)
  }

  /** The first index at or after `i` that does not hold a digit of the
      radix, or `|s|` when there is none. */
  function DigitEnd(s: string, i: nat, radix: nat): (r: nat)
    requires i <= |s|
    ensures i <= r <= |s|
    ensures AllDigits(s[i..r], radix)
    ensures r < |s| ==> !IsDigitOf(s[r], radix)
    decreases |s| - i
  {
    if i < |s| && IsDigitOf(s[i], radix) then DigitEnd(s, i + 1, radix) else i
  }

  /** The longest prefix of `s` made of digits of the radix. */
  function DigitPrefix(s: string, radix: nat): (ds: string)
    ensures |ds| <= |s| && ds == s[..|ds|]
    ensures forall i :: 0 <= i < |ds| ==> IsDigitOf(ds[i], radix)
    ensures |ds| < |s| ==> !IsDigitOf(s[|ds|], radix)
  {
    var k := DigitEnd(s, 0, radix);
    assert forall i :: 0 <= i < k ==> s[..k][i] == s[i];
    s[..k]
  }

  /** A run of digits from `i` to `k` that ends at `k` is where `DigitEnd` stops. */
  lemma {:induction false} DigitEndAt(s: string, i: nat, k: nat, radix: nat)
    requires i <= k <= |s|
    requires forall j :: i <= j < k ==> IsDigitOf(s[j], radix)
    requires k < |s| ==> !IsDigitOf(s[k], radix)
    ensures DigitEnd(s, i, radix) == k
    decreases k - i
  {
    if i < k {
      DigitEndAt(s, i + 1, k, radix);
    }
  }

  /** The value of a digit string, most significant digit first. */
  function DigitsValue(ds: string, radix: nat): nat
    requires radix == 10 || radix == 16
    requires forall i :: 0 <= i < |ds| ==> IsDigitOf(ds[i], radix)
  {
    if ds == [] then 0
    else
      assert IsDigitOf(ds[|ds| - 1], radix);
      DigitsValue(ds[..|ds| - 1], radix) * radix + DigitValue(ds[|ds| - 1])
  }

  /** `parseInt(s)` without a radix: leading white space is skipped, an
      optional sign is read, a `0x`/`0X` prefix selects radix 16, and the
      longest run of digits is read; with no digit the result is NaN (None).
      Numbers are unbounded, so no floating-point rounding happens here. */
  function ParseInt(s: string): Option<int> {
    ParseSigned(s[WhiteEnd(s, 0)..])
  }

  /** `parseInt` after the leading white space: the sign, then the magnitude. */
  function ParseSigned(t: string): Option<int> {
    var negative := t != [] && t[0] == '-';
    var signed := t != [] && (t[0] == '-' || t[0] == '+');
    match ParseMagnitude(if signed then t[1..] else t)
    case None => None
    case Some(v) => Some(if negative then -(v as int) else v as int)
  }

  /** The digits after the sign: hexadecimal after `0x` or `0X`, decimal
      otherwise, none at all being NaN. */
  function ParseMagnitude(u: string): Option<nat> {
    var hex := |u| >= 2 && u[0] == '0' && (u[1] == 'x' || u[1] == 'X');
    var radix := if hex then 16 else 10;
    var ds := DigitPrefix(if hex then u[2..] else u, radix);
    if ds == [] then None else Some(DigitsValue(ds, radix))
  }

  function DigitChar(d: nat): (c: char)
    requires d < 10
    ensures IsDecimalDigit(c) && DigitValue(c) == d
  {
    ('0' as int + d) as char
  }

  /** The decimal text of a natural number, as `String(n)` writes it. */
  function NatToString(n: nat): (s: string)
    ensures s != []
    ensures forall i :: 0 <= i < |s| ==> IsDecimalDigit(s[i])
    ensures s[0] == '0' ==> n == 0
  {
    if n < 10 then [DigitChar(n)] else NatToString(n / 10) + [DigitChar(n % 10)]
  }

  /** The decimal text of an integer, as `String(i)` writes it. */
  function IntToString(i: int): string {
    if i < 0 then "-" + NatToString(-i) else NatToString(i)
  }

  /** The decimal text of an integer starts with a minus sign or a digit. */
  lemma IntToStringLead(i: int)
    ensures IntToString(i) != []
    ensures IntToString(i)[0] == '-' || IsDecimalDigit(IntToString(i)[0])
  {
    if i < 0 {
      assert IntToString(i)[0] == '-';
    } else {
      assert IntToString(i)[0] == NatToString(i)[0];
    }
  }

  lemma {:induction false} NatToStringValue(n: nat)
    ensures DigitsValue(NatToString(n), 10) == n
  {
    if n >= 10 {
      var s := NatToString(n);
      assert s[..|s| - 1] == NatToString(n / 10);
      NatToStringValue(n / 10);
    }
  }

  /** `parseInt` reads back what `String` writes. */
  lemma ParseIntOfIntToString(i: int)
    ensures ParseInt(IntToString(i)) == Some(i)
  {
    var n: nat := if i < 0 then -i else i;
    NatToStringValue(n);
    if i < 0 {
      ParseNegative(IntToString(i), NatToString(n), n);
    } else {
      ParseNonNegative(NatToString(n));
    }
  }

  /** Text written by `NatToString`: digits, with no leading zero. */
  predicate Numeral(ds: string) {
    && ds != []
    && (forall i :: 0 <= i < |ds| ==> IsDecimalDigit(ds[i]))
    && (ds[0] == '0' ==> |ds| == 1)
  }

  lemma ParseNonNegative(ds: string)
    requires Numeral(ds)
    ensures ParseInt(ds) == Some(DigitsValue(ds, 10) as int)
  {
    StartsSolid(ds);
    MagnitudeOfNumeral(ds);
    SignedPlain(ds, DigitsValue(ds, 10));
  }

  /** A minus sign in front of a numeral, at the start of the text. */
  lemma ParseNegative(s: string, ds: string, m: nat)
    requires Numeral(ds) && s == "-" + ds && m == DigitsValue(ds, 10)
    ensures ParseInt(s) == Some(-(m as int))
  {
    StartsSolid(s);
    MagnitudeOfNumeral(ds);
    SignedMinus(ds, m);
  }

  /** With no sign, `parseInt` reads the magnitude as it is. */
  lemma SignedPlain(t: string, m: nat)
    requires t != [] && t[0] != '-' && t[0] != '+' && ParseMagnitude(t) == Some(m)
    ensures ParseSigned(t) == Some(m as int)
  {
  }

  /** A minus sign negates the magnitude that follows it. */
  lemma SignedMinus(u: string, m: nat)
    requires ParseMagnitude(u) == Some(m)
    ensures ParseSigned("-" + u) == Some(-(m as int))
  {
    assert ("-" + u)[1..] == u;
  }

  /** A numeral is read in decimal, all of it. */
  lemma MagnitudeOfNumeral(ds: string)
    requires Numeral(ds)
    ensures ParseMagnitude(ds) == Some(DigitsValue(ds, 10))
  {
    DigitPrefixAll(ds, 10);
  }

  /** Text that starts with a character other than white space has no
      leading white space to skip. */
  lemma StartsSolid(s: string)
    requires s != [] && !IsWhite(s[0])
    ensures s[WhiteEnd(s, 0)..] == s
  {
    assert s[0..] == s;
  }

  lemma DigitPrefixAll(s: string, radix: nat)
    requires forall i :: 0 <= i < |s| ==> IsDigitOf(s[i], radix)
    ensures DigitPrefix(s, radix) == s
  {
    DigitEndAt(s, 0, |s|, radix);
  }
}
