/**
 * The recovery ladder of `cleanAndParseJson` (services/gemini.ts): empty text gives `{}`;
 * otherwise the text is parsed as it is; failing that, every "```json" and then every
 * "```" is deleted, the text is cut from the first `{` to the last `}` when both occur,
 * and that candidate is parsed. `JSON.parse` is not modelled: it is the parameter
 * `parse`, any function from text to a value or to a parse error (`None`).
 */
module ResponseNormalizer {
  import opened Wrappers
  import opened JsStrings
  import opened JsValues

  const JsonFence := "```json"
  const Fence := "```"

  /**
   * `text.replace(/```json/g, '').replace(/```/g, '')`: the stripped text holds no
   * "```" and so no "```json", and text without a backtick is kept as it is.
   */
  function StripFences(text: string): (r: string)
    ensures !Contains(r, Fence)
    ensures !Contains(r, JsonFence)
    ensures '`' !in text ==> r == text
  {
    var r := RemoveAll(RemoveAll(text, JsonFence), Fence);
    assert '`' !in text ==> r == text by {
      if '`' !in text {
        RemoveAllKeepsPlainPrefix(text, "", JsonFence);
        RemoveAllKeepsPlainPrefix(text, "", Fence);
        assert text + "" == text;
      }
    }
    RemoveFenceLeavesNone(RemoveAll(text, JsonFence));
    assert !Contains(r, JsonFence) by {
      if Contains(r, JsonFence) {
        assert JsonFence == Fence + "json";
        ContainsLonger(r, Fence, "json");
      }
    }
    r
  }

  /**
   * `clean.substring(start, end + 1)` when `clean` holds both a `{` and a `}`, where
   * `start` is the first `{` and `end` the last `}`; `clean` itself otherwise. The
   * candidate is never longer than `clean`, and when it holds both braces it runs from a
   * `{` to a `}`.
   */
  function BraceCandidate(clean: string): (r: string)
    ensures |r| <= |clean|
    ensures '{' in r && '}' in r ==> |r| >= 2 && r[0] == '{' && r[|r| - 1] == '}'
  {
    var start := IndexOf(clean, '{');
    var end := LastIndexOf(clean, '}');
    if start != -1 && end != -1 then
      if start < end then
        var r := Substring(clean, start, end + 1);
        assert r == clean[start..end + 1];
        assert r[0] == clean[start] && r[|r| - 1] == clean[end];
        r
      else
        NoBraceBetween(clean, end, start);
        Substring(clean, start, end + 1)
    else clean
  }

  /**
   * What `cleanAndParseJson` returns, or `None` where it throws "Invalid JSON format".
   * Empty text gives `{}` without consulting the parser; otherwise the outcome is one of
   * the parser's own results, and it fails exactly when neither the text nor its cleaned
   * candidate parses.
   */
  function CleanAndParseJson(parse: string -> Option<Value>, text: string): (r: Option<Value>)
    ensures text == "" ==> r == Some(EmptyObject)
    ensures text != "" ==>
              (r.None? <==> parse(text).None? && parse(BraceCandidate(StripFences(text))).None?)
    ensures text != "" && r.Some? ==>
              r == parse(text) || r == parse(BraceCandidate(StripFences(text)))
  {
    if text == "" then Some(EmptyObject)
    else
      match parse(text)
      case Some(v) => Some(v)
      case None => parse(BraceCandidate(StripFences(text)))
  }

  /** `c` first occurs in `s` at index `i`. */
  predicate FirstAt(s: string, c: char, i: int) {
    0 <= i < |s| && s[i] == c && c !in s[..i]
  }

  /** `c` last occurs in `s` at index `j`. */
  predicate LastAt(s: string, c: char, j: int) {
    0 <= j < |s| && s[j] == c && c !in s[j + 1..]
  }

  // ---------------------------------------------------------------------------
  // The ladder

  /** Text that parses as it stands gives exactly that parse; nothing is stripped or cut. */
  lemma DirectParseWins(parse: string -> Option<Value>, text: string)
    requires text != "" && parse(text).Some?
    ensures CleanAndParseJson(parse, text) == parse(text)
  {
  }

  /**
   * The parser is consulted on two strings only, the text and its cleaned candidate: two
   * parsers that agree on both give the same outcome.
   */
  lemma ParserConsultedOnTextAndCandidate(p: string -> Option<Value>, q: string -> Option<Value>, text: string)
    requires p(text) == q(text)
    requires p(BraceCandidate(StripFences(text))) == q(BraceCandidate(StripFences(text)))
    ensures CleanAndParseJson(p, text) == CleanAndParseJson(q, text)
  {
  }

  /**
   * A response that does not parse directly but whose cleaned text has its first `{` at
   * `i` before its last `}` at `j` yields the parse of exactly that span.
   */
  lemma RecoversBraceSpan(parse: string -> Option<Value>, text: string, i: int, j: int)
    requires text != "" && parse(text).None?
    requires FirstAt(StripFences(text), '{', i) && LastAt(StripFences(text), '}', j) && i < j
    ensures CleanAndParseJson(parse, text) == parse(StripFences(text)[i..j + 1])
  {
    CandidateIsSpan(StripFences(text), i, j);
  }

  /**
   * A reply fenced as "```json", then `j`, then "```", with no backtick inside, is read
   * from `j` cut to its braces when it does not parse as it stands; when `j` runs from a
   * `{` to a `}`, `j` itself is parsed.
   */
  lemma FencedReplyRecovered(parse: string -> Option<Value>, j: string)
    requires '`' !in j
    ensures var text := JsonFence + j + Fence;
      CleanAndParseJson(parse, text)
        == if parse(text).Some? then parse(text) else parse(BraceCandidate(j))
    ensures var text := JsonFence + j + Fence;
      parse(text).None? && |j| >= 2 && j[0] == '{' && j[|j| - 1] == '}' ==>
        CleanAndParseJson(parse, text) == parse(j)
  {
    StripFencedReply(j);
    if |j| >= 2 && j[0] == '{' && j[|j| - 1] == '}' {
      CandidateIsSpan(j, 0, |j| - 1);
      assert j[0..|j|] == j;
    }
  }

  // ---------------------------------------------------------------------------
  // Stripping the fences

  /** Deleting "```" leaves no "``" at the front of text that did not start with one. */
  lemma {:induction false} NoLeadingTickPair(t: string)
    requires !StartsWith(t, "``")
    ensures !StartsWith(RemoveAll(t, Fence), "``")
  {
    if |t| >= 2 {
      assert !StartsWith(t, Fence);
      var rest := RemoveAll(t[1..], Fence);
      assert RemoveAll(t, Fence) == [t[0]] + rest;
      if t[0] == '`' {
        assert t[1] != '`';
        assert !StartsWith(t[1..], Fence);
        assert rest == [t[1]] + RemoveAll(t[2..], Fence);
      }
    }
  }

  /** Once every "```" is deleted left to right, none remains: deletion never creates one. */
  lemma {:induction false} RemoveFenceLeavesNone(s: string)
    ensures !Contains(RemoveAll(s, Fence), Fence)
    decreases |s|
  {
    if |s| == 0 {
    } else if StartsWith(s, Fence) {
      RemoveFenceLeavesNone(s[|Fence|..]);
    } else {
      var rest := RemoveAll(s[1..], Fence);
      RemoveFenceLeavesNone(s[1..]);
      var r := [s[0]] + rest;
      assert r[1..] == rest;
      if s[0] == '`' {
        assert !StartsWith(s[1..], "``");
        NoLeadingTickPair(s[1..]);
      }
      assert !StartsWith(r, Fence);
    }
  }

  /** Stripping is idempotent. */
  lemma StripFencesIdempotent(text: string)
    ensures StripFences(StripFences(text)) == StripFences(text)
  {
  }

  /** A reply fenced as "```json", then `j`, then "```", strips to exactly `j`. */
  lemma StripFencedReply(j: string)
    requires '`' !in j
    ensures StripFences(JsonFence + j + Fence) == j
  {
    assert JsonFence + j + Fence == JsonFence + (j + Fence);
    RemoveAllDropsLeadingMatch(JsonFence, j + Fence);
    RemoveAllKeepsPlainPrefix(j, Fence, JsonFence);
    if Contains(Fence, JsonFence) {
      ContainsNeedsRoom(Fence, JsonFence);
    }
    assert RemoveAll(Fence, JsonFence) == Fence;
    RemoveAllKeepsPlainPrefix(j, Fence, Fence);
    RemoveAllDropsLeadingMatch(Fence, "");
    assert Fence + "" == Fence;
    assert j + "" == j;
  }

  // ---------------------------------------------------------------------------
  // Cutting to the braces

  /** Between a last `}` and a later first `{` there is no brace at all. */
  lemma NoBraceBetween(clean: string, j: int, i: int)
    requires 0 <= j < i < |clean|
    requires '{' !in clean[..i] && '}' !in clean[j + 1..]
    ensures '{' !in clean[j + 1..i] && '}' !in clean[j + 1..i]
  {
    var c := clean[j + 1..i];
    forall x | 0 <= x < |c| ensures c[x] != '{' && c[x] != '}' {
      assert c[x] == clean[..i][j + 1 + x];
      assert c[x] == clean[j + 1..][x];
    }
  }

  /** `indexOf` finds the first occurrence. */
  lemma FirstAtIsIndexOf(s: string, c: char, i: int)
    requires FirstAt(s, c, i)
    ensures IndexOf(s, c) == i
  {
  }

  /** `lastIndexOf` finds the last occurrence. */
  lemma LastAtIsLastIndexOf(s: string, c: char, j: int)
    requires LastAt(s, c, j)
    ensures LastIndexOf(s, c) == j
  {
  }

  /** When the first `{` precedes the last `}`, the candidate is exactly that inclusive span. */
  lemma CandidateIsSpan(clean: string, i: int, j: int)
    requires FirstAt(clean, '{', i) && LastAt(clean, '}', j) && i < j
    ensures BraceCandidate(clean) == clean[i..j + 1]
    ensures BraceCandidate(clean)[0] == '{'
    ensures BraceCandidate(clean)[|BraceCandidate(clean)| - 1] == '}'
  {
    FirstAtIsIndexOf(clean, '{', i);
    LastAtIsLastIndexOf(clean, '}', j);
    var c := clean[i..j + 1];
    assert BraceCandidate(clean) == Substring(clean, i, j + 1) == c;
    assert c[0] == clean[i];
    assert c[|c| - 1] == clean[j];
  }

  /** Without a `{` or without a `}`, the whole cleaned text is the candidate. */
  lemma CandidateWithoutBraces(clean: string)
    requires '{' !in clean || '}' !in clean
    ensures BraceCandidate(clean) == clean
  {
  }

  /**
   * When the last `}` comes before the first `{`, `substring` swaps its bounds: the
   * candidate is the text strictly between them, and it holds no brace at all.
   */
  lemma CandidateWhenBracesReversed(clean: string, i: int, j: int)
    requires FirstAt(clean, '{', i) && LastAt(clean, '}', j) && j < i
    ensures BraceCandidate(clean) == clean[j + 1..i]
    ensures '{' !in BraceCandidate(clean) && '}' !in BraceCandidate(clean)
  {
    FirstAtIsIndexOf(clean, '{', i);
    LastAtIsLastIndexOf(clean, '}', j);
    NoBraceBetween(clean, j, i);
  }
}
