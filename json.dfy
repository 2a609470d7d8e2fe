/**
 * The part of `JSON.parse`/`JSON.stringify` the output comparator relies on:
 * literals, integers, strings without escape sequences, and arrays. The
 * writer produces the canonical, space-free text `JSON.stringify` produces
 * for such values; the reader accepts JSON white space anywhere between
 * tokens. The reader refuses (None) fractions, exponents, escape sequences
 * and objects, which the model does not cover.
 */
module Json {
  import opened Wrappers
  import Text

  datatype Json =
    | JNull
    | JBool(b: bool)
    | JNum(n: int)
    | JStr(s: string)
    | JArr(items: seq<Json>)

  /** A string body `JSON.stringify` writes without escapes. */
  predicate PlainChar(c: char) {
    c != '"' && c != '\\' && c >= ' '
  }

  predicate PlainString(s: string) {
    forall i :: 0 <= i < |s| ==> PlainChar(s[i])
  }

  /** Every string inside the value is plain. */
  predicate WellFormed(j: Json) {
    match j
    case JStr(s) => PlainString(s)
    case JArr(items) => forall i :: 0 <= i < |items| ==> WellFormed(items[i])
    case _ => true
  }

  /** The text of `j` with `gap` written after every comma; with an empty gap
      this is what `JSON.stringify(j)` writes. */
  function Layout(j: Json, gap: string): string {
    match j
    case JNull => "null"
    case JBool(b) => if b then "true" else "false"
    case JNum(n) => Text.IntToString(n)
    case JStr(s) => "\"" + s + "\""
    case JArr(items) => "[" + LayoutItems(items, gap) + "]"
  }

  function LayoutItems(items: seq<Json>, gap: string): string
    decreases items
  {
    if items == [] then ""
    else if |items| == 1 then Layout(items[0], gap)
    else Layout(items[0], gap) + "," + gap + LayoutItems(items[1..], gap)
  }

  /** `JSON.stringify(j)`. */
  function Serialize(j: Json): string {
    Layout(j, "")
  }

  predicate IsJsonWhite(c: char) {
    c == ' ' || c == '\t' || c == '\n' || c == '\r'
  }

  /** Text made only of JSON white space. */
  predicate Blank(gap: string) {
    forall i :: 0 <= i < |gap| ==> IsJsonWhite(gap[i])
  }

  /** The first index at or after `i` that does not hold JSON white space. */
  function JsonWhiteEnd(s: string, i: nat): (r: nat)
    requires i <= |s|
    ensures i <= r <= |s|
    ensures r == |s| || !IsJsonWhite(s[r])
    decreases |s| - i
  {
    if i < |s| && IsJsonWhite(s[i]) then JsonWhiteEnd(s, i + 1) else i
  }

  /** A run of white space from `i` to `k` that ends at `k` is where
      `JsonWhiteEnd` stops. */
  lemma {:induction false} JsonWhiteEndAt(s: string, i: nat, k: nat)
    requires i <= k <= |s|
    requires forall j :: i <= j < k ==> IsJsonWhite(s[j])
    requires k == |s| || !IsJsonWhite(s[k])
    ensures JsonWhiteEnd(s, i) == k
    decreases k - i
  {
    if i < k {
      JsonWhiteEndAt(s, i + 1, k);
    }
  }

  /** The text after the leading JSON white space. */
  function SkipWhite(s: string): (r: string)
    ensures |r| <= |s|
    ensures r != [] ==> !IsJsonWhite(r[0])
  {
    s[JsonWhiteEnd(s, 0)..]
  }

  lemma SkipWhiteStays(s: string)
    requires s != [] && !IsJsonWhite(s[0])
    ensures SkipWhite(s) == s
  {
    assert s[0..] == s;
  }

  /** Skipping `k` white characters and stopping at a non-white one. */
  lemma SkipWhiteAt(s: string, k: nat)
    requires k <= |s| && (forall j :: 0 <= j < k ==> IsJsonWhite(s[j]))
    requires k == |s| || !IsJsonWhite(s[k])
    ensures SkipWhite(s) == s[k..]
  {
    JsonWhiteEndAt(s, 0, k);
  }

  /** The first index at or after `i` that does not hold a plain character. */
  function PlainEnd(s: string, i: nat): (r: nat)
    requires i <= |s|
    ensures i <= r <= |s|
    ensures r == |s| || !PlainChar(s[r])
    decreases |s| - i
  {
    if i < |s| && PlainChar(s[i]) then PlainEnd(s, i + 1) else i
  }

  /** `PlainEnd` reads no further than the first character that is not plain. */
  lemma {:induction false} PlainEndAt(s: string, i: nat, k: nat)
    requires i <= k <= |s|
    requires forall j :: i <= j < k ==> PlainChar(s[j])
    requires k == |s| || !PlainChar(s[k])
    ensures PlainEnd(s, i) == k
    decreases k - i
  {
    if i < k {
      PlainEndAt(s, i + 1, k);
    }
  }

  /** Plain characters from `i` up to where `PlainEnd` stops. */
  lemma {:induction false} PlainEndPlain(s: string, i: nat)
    requires i <= |s|
    ensures forall j :: i <= j < PlainEnd(s, i) ==> PlainChar(s[j])
    decreases |s| - i
  {
    if i < |s| && PlainChar(s[i]) {
      PlainEndPlain(s, i + 1);
    }
  }

  /** The characters of a string literal up to its closing quote, and the
      text after that quote. */
  function ParseStringBody(s: string): (r: Option<(string, string)>)
    ensures r.Some? ==> |r.value.1| < |s| && PlainString(r.value.0)
  {
    var k := PlainEnd(s, 0);
    if k < |s| && s[k] == '"' then
      PlainEndPlain(s, 0);
      assert forall j :: 0 <= j < k ==> s[..k][j] == s[j];
      Some((s[..k], s[k + 1..]))
    else None
  }

  /** Digits of a number without its sign: `0` alone or a run not starting
      with `0`, and not followed by a fraction or an exponent. */
  function ParseUnsigned(t: string): (r: Option<(nat, string)>)
    ensures r.Some? ==> |r.value.1| < |t|
  {
    if t == [] || !Text.IsDecimalDigit(t[0]) then None
    else
      var ds := if t[0] == '0' then "0" else Text.DigitPrefix(t, 10);
      var rest := t[|ds|..];
      if rest != [] && (rest[0] == '.' || rest[0] == 'e' || rest[0] == 'E') then None
      else Some((Text.DigitsValue(ds, 10), rest))
  }

  function ParseNumber(s: string): (r: Option<(int, string)>)
    ensures r.Some? ==> |r.value.1| < |s|
  {
    if s != [] && s[0] == '-' then
      match ParseUnsigned(s[1..])
      case None => None
      case Some((v, rest)) => Some((-(v as int), rest))
    else
      match ParseUnsigned(s)
      case None => None
      case Some((v, rest)) => Some((v as int, rest))
  }

  /** How a value whose first character is `c` is read. */
  datatype Lead = LeadNull | LeadTrue | LeadFalse | LeadNumber | LeadString | LeadArray | LeadOther

  function LeadOf(c: char): Lead {
    if c == 'n' then LeadNull
    else if c == 't' then LeadTrue
    else if c == 'f' then LeadFalse
    else if c == '-' || Text.IsDecimalDigit(c) then LeadNumber
    else if c == '"' then LeadString
    else if c == '[' then LeadArray
    else LeadOther
  }

  /** A literal word standing for `v`. */
  function ParseWord(t: string, word: string, v: Json): (r: Option<(Json, string)>)
    requires word != []
    ensures r.Some? ==> r.value.0 == v && |r.value.1| < |t|
  {
    if Text.StartsWith(t, word) then Some((v, t[|word|..])) else None
  }

  /** One value after optional white space, and the text after it. */
  function ParseValue(s: string): (r: Option<(Json, string)>)
    ensures r.Some? ==> |r.value.1| < |s| && WellFormed(r.value.0)
    decreases |s|, 3
  {
    var t := SkipWhite(s);
    if t == [] then None else ParseToken(t)
  }

  /** One value starting at the first character of `t`. */
  function ParseToken(t: string): (r: Option<(Json, string)>)
    requires t != []
    ensures r.Some? ==> |r.value.1| < |t| && WellFormed(r.value.0)
    decreases |t|, 2
  {
    match LeadOf(t[0])
    case LeadNull => ParseWord(t, "null", JNull)
    case LeadTrue => ParseWord(t, "true", JBool(true))
    case LeadFalse => ParseWord(t, "false", JBool(false))
    case LeadNumber =>
      (match ParseNumber(t)
       case None => None
       case Some((n, rest)) => Some((JNum(n), rest)))
    case LeadString =>
      (match ParseStringBody(t[1..])
       case None => None
       case Some((body, rest)) => Some((JStr(body), rest)))
    case LeadArray => ParseArray(t)
    case LeadOther => None
  }

  /** An array starting at its `[`. */
  function ParseArray(t: string): (r: Option<(Json, string)>)
    requires t != [] && t[0] == '['
    ensures r.Some? ==> |r.value.1| < |t| && WellFormed(r.value.0)
    decreases |t|, 1
  {
    var u := SkipWhite(t[1..]);
    if u != [] && u[0] == ']' then Some((JArr([]), u[1..]))
    else
      match ParseElements(u)
      case None => None
      case Some((items, rest)) => Some((JArr(items), rest))
  }

  /** The elements of a non-empty array and the text after its `]`. */
  function ParseElements(s: string): (r: Option<(seq<Json>, string)>)
    ensures r.Some? ==> |r.value.1| < |s|
    ensures r.Some? ==> forall i :: 0 <= i < |r.value.0| ==> WellFormed(r.value.0[i])
    decreases |s|, 4
  {
    match ParseValue(s)
    case None => None
    case Some((v, rest)) =>
      var u := SkipWhite(rest);
      if u != [] && u[0] == ',' then
        match ParseElements(u[1..])
        case None => None
        case Some((vs, rest')) => Some(([v] + vs, rest'))
      else if u != [] && u[0] == ']' then Some(([v], u[1..]))
      else None
  }

  /** `JSON.parse(s)`: one value, then only white space. */
  function Parse(s: string): Option<Json> {
    match ParseValue(s)
    case None => None
    case Some((j, rest)) => if SkipWhite(rest) == [] then Some(j) else None
  }

  /** What may follow a value in the writer's output. */
  predicate Follower(rest: string) {
    rest == [] || rest[0] == ',' || rest[0] == ']'
  }

  lemma DigitPrefixStops(ds: string, rest: string)
    requires forall i :: 0 <= i < |ds| ==> Text.IsDecimalDigit(ds[i])
    requires Follower(rest)
    ensures Text.DigitPrefix(ds + rest, 10) == ds
  {
    if ds != [] {
      assert (ds + rest)[1..] == ds[1..] + rest;
      DigitPrefixStops(ds[1..], rest);
    }
  }

  lemma StringBodyRoundTrip(body: string, rest: string)
    requires PlainString(body)
    ensures ParseStringBody(body + "\"" + rest) == Some((body, rest))
  {
    var s := body + "\"" + rest;
    assert forall j :: 0 <= j < |body| ==> s[j] == body[j];
    assert s[|body|] == '"';
    PlainEndAt(s, 0, |body|);
    assert s[..|body|] == body && s[|body| + 1..] == rest;
  }

  lemma UnsignedRoundTrip(m: nat, rest: string)
    requires Follower(rest)
    ensures ParseUnsigned(Text.NatToString(m) + rest) == Some((m, rest))
  {
    var ds := Text.NatToString(m);
    var t := ds + rest;
    assert t[0] == ds[0];
    assert Text.DigitPrefix(t, 10) == ds by {
      DigitPrefixStops(ds, rest);
    }
    assert (if t[0] == '0' then "0" else Text.DigitPrefix(t, 10)) == ds by {
      if t[0] == '0' { assert ds == "0"; }
    }
    assert t[|ds|..] == rest;
    Text.NatToStringValue(m);
  }

  lemma NumberRoundTrip(n: int, rest: string)
    requires Follower(rest)
    ensures ParseNumber(Text.IntToString(n) + rest) == Some((n, rest))
  {
    if n < 0 {
      NegativeRoundTrip(-n, rest);
    } else {
      NonNegativeRoundTrip(n, rest);
    }
  }

  lemma NegativeRoundTrip(m: nat, rest: string)
    requires m > 0 && Follower(rest)
    ensures ParseNumber(Text.IntToString(-(m as int)) + rest) == Some((-(m as int), rest))
  {
    var t := Text.NatToString(m) + rest;
    var s := "-" + t;
    assert Text.IntToString(-(m as int)) + rest == s;
    assert s[1..] == t;
    UnsignedRoundTrip(m, rest);
  }

  lemma NonNegativeRoundTrip(n: nat, rest: string)
    requires Follower(rest)
    ensures ParseNumber(Text.IntToString(n) + rest) == Some((n, rest))
  {
    var t := Text.NatToString(n) + rest;
    assert Text.IntToString(n) + rest == t;
    assert t[0] == Text.NatToString(n)[0];
    UnsignedRoundTrip(n, rest);
  }

  /** Reading at a character that is not white space starts right there. */
  lemma ValueAt(t: string)
    requires t != [] && !IsJsonWhite(t[0])
    ensures ParseValue(t) == ParseToken(t)
  {
    SkipWhiteStays(t);
  }

  lemma ValueOfArray(t: string)
    requires t != [] && t[0] == '['
    ensures ParseValue(t) == ParseArray(t)
  {
    ValueAt(t);
    assert LeadOf(t[0]) == LeadArray;
  }

  lemma ValueOfNumber(t: string, n: int, rest: string)
    requires t != [] && (t[0] == '-' || Text.IsDecimalDigit(t[0]))
    requires ParseNumber(t) == Some((n, rest))
    ensures ParseValue(t) == Some((JNum(n), rest))
  {
    ValueAt(t);
    assert LeadOf(t[0]) == LeadNumber;
  }

  lemma ValueOfString(t: string, body: string, rest: string)
    requires t != [] && t[0] == '"'
    requires ParseStringBody(t[1..]) == Some((body, rest))
    ensures ParseValue(t) == Some((JStr(body), rest))
  {
    ValueAt(t);
    assert LeadOf(t[0]) == LeadString;
  }

  /** A literal word followed by `rest` reads as its value. */
  lemma ValueOfWord(word: string, v: Json, rest: string)
    requires (word, v) == ("null", JNull) || (word, v) == ("true", JBool(true)) || (word, v) == ("false", JBool(false))
    ensures ParseValue(word + rest) == Some((v, rest))
  {
    var t := word + rest;
    assert t[0] == word[0];
    ValueAt(t);
    assert t[..|word|] == word && t[|word|..] == rest;
  }

  /** The reader reads back the writer's text for any well-formed value,
      laid out with white space after its commas and followed by what may
      follow it. */
  lemma {:induction false} ValueRoundTrip(j: Json, gap: string, rest: string)
    requires WellFormed(j) && Blank(gap) && Follower(rest)
    ensures ParseValue(Layout(j, gap) + rest) == Some((j, rest))
    decreases j, 2
  {
    match j
    case JNull => ValueOfWord("null", j, rest);
    case JBool(b) => if b { ValueOfWord("true", j, rest); } else { ValueOfWord("false", j, rest); }
    case JNum(n) => NumberValueRoundTrip(n, rest);
    case JStr(body) => StringValueRoundTrip(body, rest);
    case JArr(items) => ArrayRoundTrip(j, gap, rest);
  }

  lemma NumberValueRoundTrip(n: int, rest: string)
    requires Follower(rest)
    ensures ParseValue(Text.IntToString(n) + rest) == Some((JNum(n), rest))
  {
    var s := Text.IntToString(n) + rest;
    Text.IntToStringLead(n);
    assert s[0] == Text.IntToString(n)[0];
    NumberRoundTrip(n, rest);
    ValueOfNumber(s, n, rest);
  }

  lemma StringValueRoundTrip(body: string, rest: string)
    requires PlainString(body)
    ensures ParseValue("\"" + body + "\"" + rest) == Some((JStr(body), rest))
  {
    var s := "\"" + body + "\"" + rest;
    assert s[1..] == body + "\"" + rest;
    StringBodyRoundTrip(body, rest);
    ValueOfString(s, body, rest);
  }

  lemma {:induction false} ArrayRoundTrip(j: Json, gap: string, rest: string)
    requires j.JArr? && WellFormed(j) && Blank(gap) && Follower(rest)
    ensures ParseValue(Layout(j, gap) + rest) == Some((j, rest))
    decreases j, 1
  {
    var s := "[" + LayoutItems(j.items, gap) + "]" + rest;
    assert Layout(j, gap) + rest == s;
    ValueOfArray(s);
    if j.items == [] {
      assert s == "[]" + rest;
      ArrayEmpty(rest);
    } else {
      NonEmptyArrayRoundTrip(j, gap, rest);
    }
  }

  lemma {:induction false} NonEmptyArrayRoundTrip(j: Json, gap: string, rest: string)
    requires j.JArr? && j.items != [] && WellFormed(j) && Blank(gap) && Follower(rest)
    ensures ParseArray("[" + LayoutItems(j.items, gap) + "]" + rest) == Some((j, rest))
    decreases j, 0, |j.items| + 1, 0
  {
    var items := j.items;
    var u := LayoutItems(items, gap) + "]" + rest;
    var s := "[" + u;
    assert "[" + LayoutItems(items, gap) + "]" + rest == s;
    assert s[1..] == u;
    assert u != [] && !IsJsonWhite(u[0]) && u[0] != ']' by {
      ItemsStart(items, gap, "]" + rest);
      assert u == LayoutItems(items, gap) + ("]" + rest);
    }
    assert ParseElements(u) == Some((items, rest)) by {
      ItemsRoundTrip(j, 0, gap, rest);
      assert items[0..] == items;
    }
    ArrayItems(s, items, rest);
  }

  lemma ArrayEmpty(rest: string)
    ensures ParseArray("[]" + rest) == Some((JArr([]), rest))
  {
    var t := "[]" + rest;
    assert t[1..] == "]" + rest;
    SkipWhiteStays(t[1..]);
    assert t[1..][1..] == rest;
  }

  lemma ArrayItems(t: string, items: seq<Json>, rest: string)
    requires t != [] && t[0] == '['
    requires t[1..] != [] && !IsJsonWhite(t[1]) && t[1] != ']'
    requires ParseElements(t[1..]) == Some((items, rest))
    ensures ParseArray(t) == Some((JArr(items), rest))
  {
    SkipWhiteStays(t[1..]);
  }

  /** The text of a value is not empty and starts with neither white space
      nor a closing bracket. */
  lemma LayoutStart(j: Json, gap: string)
    ensures var w := Layout(j, gap); w != [] && !IsJsonWhite(w[0]) && w[0] != ']'
  {
    match j
    case JNull =>
    case JBool(b) =>
    case JNum(n) => Text.IntToStringLead(n);
    case JStr(s) => assert Layout(j, gap)[0] == '"';
    case JArr(items) => assert Layout(j, gap)[0] == '[';
  }

  lemma ItemsStart(items: seq<Json>, gap: string, tail: string)
    requires items != []
    ensures var u := LayoutItems(items, gap) + tail; u != [] && !IsJsonWhite(u[0]) && u[0] != ']'
  {
    var first := Layout(items[0], gap);
    LayoutStart(items[0], gap);
    var w := LayoutItems(items, gap);
    if |items| > 1 {
      assert w == first + ("," + gap + LayoutItems(items[1..], gap));
      HeadOf(first, "," + gap + LayoutItems(items[1..], gap));
    }
    HeadOf(w, tail);
  }

  /** A non-empty text keeps its first character when more text follows. */
  lemma HeadOf(a: string, b: string)
    requires a != []
    ensures a + b != [] && (a + b)[0] == a[0]
  {
  }

  /** The last element, followed by the closing bracket. */
  lemma ElementsLast(s: string, v: Json, rest: string)
    requires ParseValue(s) == Some((v, "]" + rest))
    ensures ParseElements(s) == Some(([v], rest))
  {
    SkipWhiteStays("]" + rest);
    assert ("]" + rest)[1..] == rest;
  }

  /** An element followed by a comma and the remaining elements. */
  lemma ElementsMore(s: string, v: Json, tail: string, vs: seq<Json>, rest: string)
    requires ParseValue(s) == Some((v, "," + tail))
    requires ParseElements(tail) == Some((vs, rest))
    ensures ParseElements(s) == Some(([v] + vs, rest))
  {
    SkipWhiteStays("," + tail);
    assert ("," + tail)[1..] == tail;
  }

  /** White space in front of the elements changes nothing. */
  lemma ElementsAfterGap(gap: string, w: string)
    requires Blank(gap) && w != [] && !IsJsonWhite(w[0])
    ensures ParseElements(gap + w) == ParseElements(w)
  {
    var s := gap + w;
    assert s[|gap|] == w[0] && s[|gap|..] == w;
    SkipWhiteAt(s, |gap|);
    SkipWhiteStays(w);
  }

  /** The elements of array `j` from index `k` on, as the writer lays them out. */
  lemma {:induction false} ItemsRoundTrip(j: Json, k: nat, gap: string, rest: string)
    requires j.JArr? && k < |j.items|
    requires WellFormed(j) && Blank(gap) && Follower(rest)
    ensures ParseElements(LayoutItems(j.items[k..], gap) + "]" + rest) == Some((j.items[k..], rest))
    decreases j, 0, |j.items| - k, 1
  {
    if k + 1 == |j.items| {
      LastItemRoundTrip(j, k, gap, rest);
    } else {
      MoreItemsRoundTrip(j, k, gap, rest);
    }
  }

  lemma {:induction false} LastItemRoundTrip(j: Json, k: nat, gap: string, rest: string)
    requires j.JArr? && k + 1 == |j.items|
    requires WellFormed(j) && Blank(gap) && Follower(rest)
    ensures ParseElements(LayoutItems(j.items[k..], gap) + "]" + rest) == Some((j.items[k..], rest))
    decreases j, 0, |j.items| - k, 0
  {
    var items := j.items[k..];
    var first := items[0];
    assert first == j.items[k] && WellFormed(first);
    var s := Layout(first, gap) + ("]" + rest);
    assert LayoutItems(items, gap) + "]" + rest == s;
    assert ParseValue(s) == Some((first, "]" + rest)) by {
      ValueRoundTrip(first, gap, "]" + rest);
    }
    assert ParseElements(s) == Some((items, rest)) by {
      ElementsLast(s, first, rest);
      assert |items| == 1;
      assert items == [first];
    }
  }

  lemma {:induction false} MoreItemsRoundTrip(j: Json, k: nat, gap: string, rest: string)
    requires j.JArr? && k + 1 < |j.items|
    requires WellFormed(j) && Blank(gap) && Follower(rest)
    ensures ParseElements(LayoutItems(j.items[k..], gap) + "]" + rest) == Some((j.items[k..], rest))
    decreases j, 0, |j.items| - k, 0
  {
    var items := j.items[k..];
    var first := items[0];
    assert first == j.items[k] && WellFormed(first);
    assert items[1..] == j.items[k + 1..];
    var tail := gap + (LayoutItems(items[1..], gap) + "]" + rest);
    var s := Layout(first, gap) + ("," + tail);
    assert LayoutItems(items, gap) + "]" + rest == s;
    assert ParseValue(s) == Some((first, "," + tail)) by {
      ValueRoundTrip(first, gap, "," + tail);
    }
    GapItemsRoundTrip(j, k + 1, gap, rest);
    ElementsMore(s, first, tail, items[1..], rest);
    HeadTail(items);
  }

  /** The elements after a comma and its gap. */
  lemma {:induction false} GapItemsRoundTrip(j: Json, k: nat, gap: string, rest: string)
    requires j.JArr? && k < |j.items|
    requires WellFormed(j) && Blank(gap) && Follower(rest)
    ensures ParseElements(gap + (LayoutItems(j.items[k..], gap) + "]" + rest)) == Some((j.items[k..], rest))
    decreases j, 0, |j.items| - k, 2
  {
    var w := LayoutItems(j.items[k..], gap) + "]" + rest;
    ItemsRoundTrip(j, k, gap, rest);
    ItemsStart(j.items[k..], gap, "]" + rest);
    assert w == LayoutItems(j.items[k..], gap) + ("]" + rest);
    ElementsAfterGap(gap, w);
  }

  lemma HeadTail<T>(s: seq<T>)
    requires s != []
    ensures [s[0]] + s[1..] == s
  {
  }

  /** `JSON.parse` reads any layout of a well-formed value back as that value. */
  lemma LayoutRoundTrip(j: Json, gap: string)
    requires WellFormed(j) && Blank(gap)
    ensures Parse(Layout(j, gap)) == Some(j)
  {
    ValueRoundTrip(j, gap, "");
    assert Layout(j, gap) + "" == Layout(j, gap);
  }

  /** `JSON.parse(JSON.stringify(j))` gives back `j`. */
  lemma RoundTrip(j: Json)
    requires WellFormed(j)
    ensures Parse(Serialize(j)) == Some(j)
  {
    LayoutRoundTrip(j, "");
  }

  /** Different well-formed values have different texts. */
  lemma SerializeInjective(a: Json, b: Json)
    requires WellFormed(a) && WellFormed(b)
    ensures Serialize(a) == Serialize(b) <==> a == b
  {
    RoundTrip(a);
    RoundTrip(b);
  }
}
