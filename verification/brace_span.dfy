/** The span selected by `re.search(r"\{.*\}", raw_text, re.DOTALL)` in
    `LlamaVerifier._post_process_json`, stated as index arithmetic on the text.

    A span is the half-open index range `[start, end)` of the text it matched. */
module BraceSpan {
  import opened Python

  datatype Span = Span(start: nat, end: nat)

  /** `text[i..j]` is a match of `\{.*\}` under DOTALL: it opens with `{`,
      closes with a later `}`, and `.` accepts every character in between. */
  ghost predicate IsMatch(text: string, i: int, j: int) {
    0 <= i && i + 2 <= j <= |text| && text[i] == '{' && text[j - 1] == '}'
  }

  /** The match `re.search` reports: the leftmost start at which the pattern
      matches, and at that start the longest match, because the greedy `.*`
      backtracks from the end of the text to the nearest `}`. */
  ghost predicate IsSearchResult(text: string, i: int, j: int) {
    && IsMatch(text, i, j)
    && (forall i', j' :: IsMatch(text, i', j') ==> i <= i')
    && (forall j' :: IsMatch(text, i, j') ==> j' <= j)
  }

  /** Some `{` occurs before some `}`. */
  ghost predicate OpenBeforeClose(text: string) {
    exists i, j :: 0 <= i < j < |text| && text[i] == '{' && text[j] == '}'
  }

  /** `text.find(c)`: the index of the first occurrence of `c`, if any. */
  function FirstIndexOf(text: string, c: char): (r: Option<nat>)
    ensures r.None? <==> c !in text
    ensures r.Some? ==> r.value < |text| && text[r.value] == c && c !in text[..r.value]
  {
    if |text| == 0 then None
    else if text[0] == c then Some(0)
    else
      match FirstIndexOf(text[1..], c)
      case None => None
      case Some(k) =>
        assert text[..k + 1] == [text[0]] + text[1..][..k];
        Some(k + 1)
  }

  /** `text.rfind(c)`: the index of the last occurrence of `c`, if any. */
  function LastIndexOf(text: string, c: char): (r: Option<nat>)
    ensures r.None? <==> c !in text
    ensures r.Some? ==> r.value < |text| && text[r.value] == c && c !in text[r.value + 1..]
  {
    if |text| == 0 then None
    else if text[|text| - 1] == c then Some(|text| - 1)
    else
      match LastIndexOf(text[..|text| - 1], c)
      case None => None
      case Some(k) =>
        assert text[k + 1..] == text[..|text| - 1][k + 1..] + [text[|text| - 1]];
        Some(k)
  }

  /** The brace span: from the first `{` to the last `}`, both included, when
      the first `{` comes before the last `}`. */
  function Find(text: string): (r: Option<Span>)
    ensures r.Some? ==> r.value.start + 2 <= r.value.end <= |text|
    ensures r.Some? ==> text[r.value.start] == '{' && text[r.value.end - 1] == '}'
  {
    match (FirstIndexOf(text, '{'), LastIndexOf(text, '}'))
    case (Some(i), Some(k)) => if i < k then Some(Span(i, k + 1)) else None
    case _ => None
  }

  /** The text a span selects: `m.group(0)`. */
  function Group(text: string, sp: Span): (g: string)
    requires sp.start <= sp.end <= |text|
    ensures |g| == sp.end - sp.start
    ensures forall k :: 0 <= k < |g| ==> g[k] == text[sp.start + k]
  {
    text[sp.start..sp.end]
  }

  /** A character missing from `text[..n]` occurs at no index below `n`. */
  lemma AbsentBefore(text: string, c: char, n: int)
    requires 0 <= n <= |text| && c !in text[..n]
    ensures forall t :: 0 <= t < n ==> text[t] != c
  {
    forall t | 0 <= t < n ensures text[t] != c {
      assert text[..n][t] == text[t];
    }
  }

  /** A character missing from `text[m..n]` occurs at no index in that range. */
  lemma AbsentBetween(text: string, c: char, m: int, n: int)
    requires 0 <= m <= n <= |text| && c !in text[m..n]
    ensures forall t :: m <= t < n ==> text[t] != c
  {
    forall t | m <= t < n ensures text[t] != c {
      assert text[m..n][t - m] == text[t];
    }
  }

  /** A span exists exactly when some `{` precedes some `}`; it then runs from the
      first `{` to the last `}`, and it is the match `re.search` reports. */
  lemma FindIsRegexSearch(text: string)
    ensures Find(text).Some? <==> OpenBeforeClose(text)
    ensures Find(text).None? <==> forall i, j :: !IsMatch(text, i, j)
    ensures Find(text).Some? ==> IsSearchResult(text, Find(text).value.start, Find(text).value.end)
    ensures Find(text).Some? ==>
      && '{' !in text[..Find(text).value.start]
      && '}' !in text[Find(text).value.end..]
  {
    assert text[..|text|] == text;
    var first, last := FirstIndexOf(text, '{'), LastIndexOf(text, '}');
    if first.Some? {
      AbsentBefore(text, '{', first.value);
    } else {
      AbsentBefore(text, '{', |text|);
    }
    if last.Some? {
      AbsentBetween(text, '}', last.value + 1, |text|);
    } else {
      AbsentBefore(text, '}', |text|);
    }
    if first.Some? && last.Some? && first.value < last.value {
      assert IsMatch(text, first.value, last.value + 1);
    }
  }

  /** When `i` is the first `{` and `j` the last `}` and `i < j`, the span runs
      from `i` to `j` inclusive. */
  lemma FindIsFirstOpenToLastClose(text: string, i: int, j: int)
    requires 0 <= i < j < |text| && text[i] == '{' && text[j] == '}'
    requires '{' !in text[..i] && '}' !in text[j + 1..]
    ensures Find(text) == Some(Span(i, j + 1))
  {
  }

  /** `re.search` reports at most one match: the search result is unique. */
  lemma SearchResultUnique(text: string, i: int, j: int, i': int, j': int)
    requires IsSearchResult(text, i, j) && IsSearchResult(text, i', j')
    ensures i == i' && j == j'
  {
  }

  /** When a prefix of the text already holds a `{`, a span, if any, starts inside
      that prefix: nothing appended after it can move the start. */
  lemma {:induction false} SpanStartsInPrefix(prefix: string, rest: string)
    requires '{' in prefix
    ensures Find(prefix + rest).Some? ==> Find(prefix + rest).value.start < |prefix|
  {
    var text := prefix + rest;
    var i :| 0 <= i < |prefix| && prefix[i] == '{';
    assert text[i] == '{';
    assert '{' in text;
  }
}
