/**
 * The clean-up the backend applies to a language model's reply before handing it to
 * `json.loads`: markdown fences off, the text cut to its outermost braces, control characters
 * removed, and (in the recommendation agent) a few repairs of common mistakes. Each step is a
 * function on strings; the two `clean_llm_json` routines compose them.
 */
module LlmJson {
  import opened PyText

  const Fence: string := "```"

  // ---------------------------------------------------------------- step 1: markdown fences

  predicate IsAsciiLetter(c: char)
  {
    'a' <= c <= 'z' || 'A' <= c <= 'Z'
  }

  /** `[a-zA-Z]*` matched greedily at the start: drops the leading ASCII letters. */
  function DropLetters(s: string): (r: string)
    ensures |r| <= |s| && r == s[|s| - |r|..]
    ensures r == [] || !IsAsciiLetter(r[0])
    ensures forall i :: 0 <= i < |s| - |r| ==> IsAsciiLetter(s[i])
  {
    if s != [] && IsAsciiLetter(s[0]) then DropLetters(s[1..]) else s
  }

  /** `re.sub(r"^```[a-zA-Z]*\s*", "", s)`: an opening fence, its language tag and the
   *  whitespace after it. */
  function DropOpeningFence(s: string): (r: string)
  {
    if StartsWith(s, Fence) then LStrip(DropLetters(s[|Fence|..])) else s
  }

  /** `re.sub(r"\s*```$", "", s)` on text that does not end in whitespace: a closing fence at the
   *  very end and the whitespace before it. */
  function DropClosingFence(s: string): (r: string)
  {
    if EndsWith(s, Fence) then RStrip(s[..|s| - |Fence|]) else s
  }

  /** Step 1: only when the reply contains a fence, both fence substitutions on stripped text. */
  function StripFences(raw: string): (r: string)
    ensures !Contains(raw, Fence) ==> r == raw
    ensures |r| <= |raw|
  {
    if Contains(raw, Fence) then DropClosingFence(Strip(DropOpeningFence(Strip(raw)))) else raw
  }

  /** A reply wrapped in fences, the opening one tagged with a language name, comes out as the
   *  text between the fences without the whitespace around it. */
  lemma StripFencesWrapped(tag: string, before: string, body: string, after: string)
    requires forall i :: 0 <= i < |tag| ==> IsAsciiLetter(tag[i])
    requires forall i :: 0 <= i < |before| ==> IsSpace(before[i])
    requires forall i :: 0 <= i < |after| ==> IsSpace(after[i])
    requires body != [] && !IsSpace(body[0]) && !IsAsciiLetter(body[0]) && !IsSpace(body[|body| - 1])
    ensures StripFences(Fence + tag + before + body + after + Fence) == body
  {
    Regrouped(Fence + tag + before, body, after, Fence);
    assert (body + after + Fence)[0] == body[0];
    OpenedWrapped(tag, before, body + after + Fence);
    ClosedWrapped(body, after);
  }

  lemma Regrouped(a: string, b: string, c: string, d: string)
    ensures a + b + c + d == a + (b + c + d)
  {
  }

  /** The opening half of `StripFences` on a wrapped reply: the reply holds a fence, and
   *  stripping it and dropping the tagged opening fence leaves the rest. */
  lemma OpenedWrapped(tag: string, before: string, unfenced: string)
    requires forall i :: 0 <= i < |tag| ==> IsAsciiLetter(tag[i])
    requires forall i :: 0 <= i < |before| ==> IsSpace(before[i])
    requires unfenced != [] && !IsSpace(unfenced[0]) && !IsAsciiLetter(unfenced[0]) && !IsSpace(unfenced[|unfenced| - 1])
    ensures Contains(Fence + tag + before + unfenced, Fence)
    ensures DropOpeningFence(Strip(Fence + tag + before + unfenced)) == unfenced
  {
    var raw := Fence + tag + before + unfenced;
    RightNested(Fence, tag, before, unfenced);
    var rest := tag + (before + unfenced);
    assert raw == Fence + rest;
    assert raw[..|Fence|] == Fence;
    assert raw[0] == Fence[0];
    assert raw[|raw| - 1] == unfenced[|unfenced| - 1];
    StripUnpadded(raw);
    OpeningFenceOff(tag, before, unfenced);
  }

  lemma RightNested(a: string, b: string, c: string, d: string)
    ensures a + b + c + d == a + (b + (c + d))
  {
  }

  /** The closing half of `StripFences` on a wrapped reply. */
  lemma ClosedWrapped(body: string, after: string)
    requires forall i :: 0 <= i < |after| ==> IsSpace(after[i])
    requires body != [] && !IsSpace(body[0]) && !IsSpace(body[|body| - 1])
    ensures DropClosingFence(Strip(body + after + Fence)) == body
  {
    StripUnpadded(body + after + Fence);
    ClosingFenceOff(body, after);
  }

  lemma OpeningFenceOff(tag: string, before: string, rest: string)
    requires forall i :: 0 <= i < |tag| ==> IsAsciiLetter(tag[i])
    requires forall i :: 0 <= i < |before| ==> IsSpace(before[i])
    requires rest != [] && !IsSpace(rest[0]) && !IsAsciiLetter(rest[0])
    ensures DropOpeningFence(Fence + (tag + (before + rest))) == rest
  {
    var spaced := before + rest;
    FenceThen(tag + spaced);
    SpacedStart(before, rest);
    LettersThenBody(tag, spaced);
    SpaceThenBody(before, rest);
  }

  lemma SpacedStart(before: string, rest: string)
    requires forall i :: 0 <= i < |before| ==> IsSpace(before[i])
    requires rest != [] && !IsAsciiLetter(rest[0])
    ensures before + rest != [] && !IsAsciiLetter((before + rest)[0])
  {
    if before != [] {
      assert IsSpace(before[0]);
    }
  }

  lemma FenceThen(t: string)
    ensures DropOpeningFence(Fence + t) == LStrip(DropLetters(t))
  {
    var raw := Fence + t;
    assert raw[..|Fence|] == Fence;
    assert raw[|Fence|..] == t;
  }

  lemma ClosingFenceOff(body: string, after: string)
    requires forall i :: 0 <= i < |after| ==> IsSpace(after[i])
    requires body != [] && !IsSpace(body[|body| - 1])
    ensures DropClosingFence(body + after + Fence) == body
  {
    var s := body + after + Fence;
    assert s[|s| - |Fence|..] == Fence;
    assert s[..|s| - |Fence|] == body + after;
    TrailingSpace(body, after);
  }

  lemma LettersThenBody(letters: string, rest: string)
    requires forall i :: 0 <= i < |letters| ==> IsAsciiLetter(letters[i])
    requires rest != [] && !IsAsciiLetter(rest[0])
    ensures DropLetters(letters + rest) == rest
    decreases |letters|
  {
    if letters != [] {
      assert (letters + rest)[1..] == letters[1..] + rest;
      LettersThenBody(letters[1..], rest);
    }
  }

  lemma SpaceThenBody(spaces: string, rest: string)
    requires forall i :: 0 <= i < |spaces| ==> IsSpace(spaces[i])
    requires rest != [] && !IsSpace(rest[0])
    ensures LStrip(spaces + rest) == rest
    decreases |spaces|
  {
    if spaces != [] {
      assert (spaces + rest)[1..] == spaces[1..] + rest;
      SpaceThenBody(spaces[1..], rest);
    }
  }

  lemma TrailingSpace(body: string, spaces: string)
    requires forall i :: 0 <= i < |spaces| ==> IsSpace(spaces[i])
    requires body != [] && !IsSpace(body[|body| - 1])
    ensures RStrip(body + spaces) == body
    decreases |spaces|
  {
    if spaces != [] {
      var s := body + spaces;
      assert s[..|s| - 1] == body + spaces[..|spaces| - 1];
      TrailingSpace(body, spaces[..|spaces| - 1]);
    } else {
      assert body + spaces == body;
    }
  }

  // ---------------------------------------------------------------- step 2: outermost braces

  /** Step 2: from the first '{' to the last '}' when both occur (empty when the last '}' comes
   *  before the first '{', as a Python slice is); unchanged otherwise. */
  function ExtractObject(s: string): (r: string)
    ensures '{' !in s || '}' !in s ==> r == s
    ensures |r| <= |s|
    ensures '{' in s && '}' in s ==> r == [] || (r[0] == '{' && r[|r| - 1] == '}')
  {
    Span(s, Find(s, '{'), RFind(s, '}'))
  }

  /** `s[i:j + 1]` when neither index is -1, `s` otherwise. */
  function Span(s: string, i: int, j: int): string
  {
    if i != -1 && j != -1 then Slice(s, i, j + 1) else s
  }

  lemma SpanOrdered(s: string, i: int, j: int)
    requires 0 <= i <= j < |s|
    ensures var r := Span(s, i, j); r == s[i..j + 1] && |r| == j + 1 - i && r[0] == s[i] && r[|r| - 1] == s[j]
  {
  }

  lemma SpanCrossed(s: string, i: int, j: int)
    requires 0 <= j < i < |s|
    ensures Span(s, i, j) == ""
  {
    assert SliceIndex(i, |s|) == i && SliceIndex(j + 1, |s|) == j + 1;
  }

  /** A reply missing either brace passes unchanged. */
  lemma ExtractObjectWithoutBraces(s: string)
    requires '{' !in s || '}' !in s
    ensures ExtractObject(s) == s
  {
  }

  /** When the reply has a first '{' at `i` and a last '}' at `j >= i`, the text is cut to exactly
   *  `s[i..j + 1]`. */
  lemma ExtractObjectSpan(s: string, i: nat, j: nat)
    requires i <= j < |s|
    requires s[i] == '{' && '{' !in s[..i]
    requires s[j] == '}' && '}' !in s[j + 1..]
    ensures ExtractObject(s) == s[i..j + 1]
    ensures ExtractObject(s)[0] == '{' && ExtractObject(s)[j - i] == '}'
  {
    FindIs(s, '{', i);
    RFindIs(s, '}', j);
    SpanOrdered(s, i, j);
  }

  /** When every '}' comes before the first '{', nothing is left. */
  lemma ExtractObjectCrossed(s: string, i: nat, j: nat)
    requires j < i < |s|
    requires s[i] == '{' && '{' !in s[..i]
    requires s[j] == '}' && '}' !in s[j + 1..]
    ensures ExtractObject(s) == ""
  {
    FindIs(s, '{', i);
    RFindIs(s, '}', j);
    SpanCrossed(s, i, j);
  }

  /** `Find` returns the first position of the character. */
  lemma FindIs(s: string, c: char, i: nat)
    requires i < |s| && s[i] == c && c !in s[..i]
    ensures Find(s, c) == i
  {
    assert c in s;
    var r := Find(s, c);
    Absent(s[..i], c);
    Absent(s[..r], c);
  }

  /** `RFind` returns the last position of the character. */
  lemma RFindIs(s: string, c: char, j: nat)
    requires j < |s| && s[j] == c && c !in s[j + 1..]
    ensures RFind(s, c) == j
  {
    assert c in s;
    var r := RFind(s, c);
    Absent(s[j + 1..], c);
    Absent(s[r + 1..], c);
  }

  /** A character absent from a text differs from each of its characters. */
  lemma Absent(t: string, c: char)
    requires c !in t
    ensures forall k :: 0 <= k < |t| ==> t[k] != c
  {
  }

  // ---------------------------------------------------------------- step 3: control characters

  /** The characters of `[\x00-\x1F\x7F]`. */
  predicate IsControl(c: char)
  {
    c <= '\U{1f}' || c == '\U{7f}'
  }

  /** Step 3: `re.sub(r"[\x00-\x1F\x7F]", "", s)`. */
  function DropControls(s: string): (r: string)
    ensures |r| <= |s|
    ensures forall i :: 0 <= i < |r| ==> !IsControl(r[i])
    ensures forall c :: c in r <==> c in s && !IsControl(c)
  {
    if s == [] then []
    else
      var rest := DropControls(s[1..]);
      assert forall c :: c in s <==> c == s[0] || c in s[1..];
      (if IsControl(s[0]) then [] else [s[0]]) + rest
  }

  /** Text without control characters passes step 3 unchanged. */
  lemma {:induction false} DropControlsClean(s: string)
    requires forall i :: 0 <= i < |s| ==> !IsControl(s[i])
    ensures DropControls(s) == s
  {
    if s != [] {
      DropControlsClean(s[1..]);
    }
  }

  // ---------------------------------------------------------------- steps 4 to 6 (recommendations)

  predicate IsCurlyQuote(c: char)
  {
    c == '“' || c == '”' || c == '‘' || c == '’'
  }

  /** Step 4: curly double quotes to '"' and curly single quotes to '\''. */
  function StraightenQuotes(s: string): (r: string)
    ensures |r| == |s|
    ensures forall i :: 0 <= i < |r| ==> !IsCurlyQuote(r[i])
    ensures forall i :: 0 <= i < |s| && !IsCurlyQuote(s[i]) ==> r[i] == s[i]
  {
    ReplaceChar(ReplaceChar(ReplaceChar(ReplaceChar(s, '“', '"'), '”', '"'), '‘', '\''), '’', '\'')
  }

  /** The index of the first newline of `t` when no '"' comes before it, -1 otherwise: where the
   *  lazy `([^"]*?)\n` after a quote stops. */
  function NewlineBeforeQuote(t: string): (k: int)
    ensures -1 <= k < |t|
    ensures k >= 0 ==> t[k] == '\n' && '"' !in t[..k] && '\n' !in t[..k]
    ensures '\n' !in t ==> k == -1
  {
    var k := Find(t, '\n');
    if k >= 0 && '"' !in t[..k] then k else -1
  }

  /** Step 5: `re.sub(r'\"([^"]*?)\n', r'"\1",\n', s)`: a quote whose text runs into a newline
   *  without a closing quote gets one, and a comma, before the newline. Matches are scanned left
   *  to right and do not overlap. */
  function CloseQuotes(s: string): (r: string)
    ensures |r| >= |s|
    ensures r == [] <==> s == []
    decreases |s|
  {
    if s == [] then []
    else if s[0] == '"' && NewlineBeforeQuote(s[1..]) >= 0 then
      var k := NewlineBeforeQuote(s[1..]);
      "\"" + s[1..k + 1] + "\",\n" + CloseQuotes(s[k + 2..])
    else [s[0]] + CloseQuotes(s[1..])
  }

  /** Without a newline there is nothing for step 5 to repair. */
  lemma {:induction false} CloseQuotesWithoutNewline(s: string)
    requires '\n' !in s
    ensures CloseQuotes(s) == s
    decreases |s|
  {
    if s != [] {
      assert '\n' !in s[1..];
      CloseQuotesWithoutNewline(s[1..]);
    }
  }

  predicate IsCloser(c: char)
  {
    c == '}' || c == ']'
  }

  /** Step 6: `re.sub(r',\s*([}\]])', r'\1', s)`: a comma followed by nothing but whitespace
   *  before a '}' or ']' is removed together with that whitespace. */
  function DropTrailingCommas(s: string): (r: string)
    ensures |r| <= |s|
    decreases |s|
  {
    if s == [] then []
    else if s[0] == ',' && LStrip(s[1..]) != [] && IsCloser(LStrip(s[1..])[0]) then
      var rest := LStrip(s[1..]);
      [rest[0]] + DropTrailingCommas(rest[1..])
    else [s[0]] + DropTrailingCommas(s[1..])
  }

  /** A trailing comma and the whitespace after it go; the closer stays. */
  lemma DropTrailingCommaBefore(spaces: string, closer: char, rest: string)
    requires forall i :: 0 <= i < |spaces| ==> IsSpace(spaces[i])
    requires IsCloser(closer)
    ensures DropTrailingCommas("," + spaces + [closer] + rest) == [closer] + DropTrailingCommas(rest)
  {
    var s := "," + spaces + [closer] + rest;
    assert s[1..] == spaces + ([closer] + rest);
    SpaceThenBody(spaces, [closer] + rest);
    assert LStrip(s[1..]) == [closer] + rest;
    assert ([closer] + rest)[1..] == rest;
  }

  /** The characters step 6 never removes. */
  function Significant(s: string): (r: string)
  {
    if s == [] then []
    else (if s[0] == ',' || IsSpace(s[0]) then [] else [s[0]]) + Significant(s[1..])
  }

  lemma {:induction false} SignificantOfSpaces(spaces: string, rest: string)
    requires forall i :: 0 <= i < |spaces| ==> IsSpace(spaces[i])
    ensures Significant(spaces + rest) == Significant(rest)
    decreases |spaces|
  {
    if spaces != [] {
      var s := spaces + rest;
      assert s[0] == spaces[0] && IsSpace(s[0]);
      assert s[1..] == spaces[1..] + rest;
      assert Significant(s) == Significant(s[1..]);
      SignificantOfSpaces(spaces[1..], rest);
    } else {
      assert spaces + rest == rest;
    }
  }

  /** Step 6 removes only commas and whitespace: every other character survives, in order. */
  lemma {:induction false} DropTrailingCommasKeepsText(s: string)
    ensures Significant(DropTrailingCommas(s)) == Significant(s)
    decreases |s|
  {
    if s != [] {
      if s[0] == ',' && LStrip(s[1..]) != [] && IsCloser(LStrip(s[1..])[0]) {
        DropTrailingCommasKeepsText(LStrip(s[1..])[1..]);
        KeepsTextAtComma(s);
      } else {
        DropTrailingCommasKeepsText(s[1..]);
        KeepsTextElsewhere(s);
      }
    }
  }

  /** The step for a removed comma, given the claim for what follows the closer. */
  lemma KeepsTextAtComma(s: string)
    requires s != [] && s[0] == ',' && LStrip(s[1..]) != [] && IsCloser(LStrip(s[1..])[0])
    requires var t := LStrip(s[1..])[1..]; Significant(DropTrailingCommas(t)) == Significant(t)
    ensures Significant(DropTrailingCommas(s)) == Significant(s)
  {
    var rest := LStrip(s[1..]);
    var t := rest[1..];
    SignificantAtComma(s);
    CommaDropped(s);
    SignificantCons(rest[0], DropTrailingCommas(t));
  }

  /** What is left of a removed comma: the closer, then the text after it. */
  lemma CommaDropped(s: string)
    requires s != [] && s[0] == ',' && LStrip(s[1..]) != [] && IsCloser(LStrip(s[1..])[0])
    ensures DropTrailingCommas(s) == [LStrip(s[1..])[0]] + DropTrailingCommas(LStrip(s[1..])[1..])
  {
  }

  /** The comma and the whitespace after it are not significant. */
  lemma SignificantAtComma(s: string)
    requires s != [] && s[0] == ',' && LStrip(s[1..]) != [] && IsCloser(LStrip(s[1..])[0])
    ensures Significant(s) == [LStrip(s[1..])[0]] + Significant(LStrip(s[1..])[1..])
  {
    var rest := LStrip(s[1..]);
    assert Significant(s) == Significant(s[1..]) by {
      HeadTail(s);
      SignificantCons(s[0], s[1..]);
    }
    assert Significant(s[1..]) == Significant(rest) by {
      var n := |s[1..]| - |rest|;
      assert s[1..] == s[1..][..n] + rest;
      SignificantOfSpaces(s[1..][..n], rest);
    }
    assert Significant(rest) == [rest[0]] + Significant(rest[1..]) by {
      HeadTail(rest);
      SignificantCons(rest[0], rest[1..]);
    }
  }

  lemma HeadTail(x: string)
    requires x != []
    ensures x == [x[0]] + x[1..]
  {
  }

  /** The step for any other character, given the claim for the rest. */
  lemma KeepsTextElsewhere(s: string)
    requires s != [] && !(s[0] == ',' && LStrip(s[1..]) != [] && IsCloser(LStrip(s[1..])[0]))
    requires Significant(DropTrailingCommas(s[1..])) == Significant(s[1..])
    ensures Significant(DropTrailingCommas(s)) == Significant(s)
  {
    assert DropTrailingCommas(s) == [s[0]] + DropTrailingCommas(s[1..]);
    SignificantCons(s[0], DropTrailingCommas(s[1..]));
    assert s == [s[0]] + s[1..];
    SignificantCons(s[0], s[1..]);
  }

  lemma SignificantCons(c: char, t: string)
    ensures Significant([c] + t) == (if c == ',' || IsSpace(c) then [] else [c]) + Significant(t)
  {
    assert ([c] + t)[1..] == t;
  }

  /** Text without a comma passes step 6 unchanged. */
  lemma {:induction false} DropTrailingCommasWithoutComma(s: string)
    requires ',' !in s
    ensures DropTrailingCommas(s) == s
    decreases |s|
  {
    if s != [] {
      assert ',' !in s[1..];
      DropTrailingCommasWithoutComma(s[1..]);
    }
  }
}
