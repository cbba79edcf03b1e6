/** `LlamaVerifier._post_process_json`: turns the raw text the language model
    produced into a result record, and never raises.

    `json.loads` is not modelled: it is the parameter `parse`, which yields the
    decoded value, or None where `json.loads` raises. */
module Extractor {
  import opened Python
  import opened Json
  import opened BraceSpan

  /** The record returned when the output cannot be decoded: label UNKNOWN,
      confidence 0.0, the raw output verbatim as explanation, no sources. */
  function Fallback(raw: string): (r: Value)
    ensures r.Object? && UniqueKeys(r.members)
    ensures Keys(r.members) == ["label", "confidence", "explanation", "sources"]
    ensures Get(r.members, "label") == Some(Str("UNKNOWN"))
    ensures Get(r.members, "confidence") == Some(Float(0.0))
    ensures Get(r.members, "explanation") == Some(Str(raw))
    ensures Get(r.members, "sources") == Some(Array([]))
  {
    var tail := [("sources", Array([]))];
    var middle := [("explanation", Str(raw))] + tail;
    var rest := [("confidence", Float(0.0))] + middle;
    var ms := [("label", Str("UNKNOWN"))] + rest;
    assert ms[1..] == rest && rest[1..] == middle && middle[1..] == tail;
    assert Get(tail, "sources") == Some(Array([]));
    assert Get(middle, "explanation") == Some(Str(raw));
    assert Get(rest, "confidence") == Some(Float(0.0));
    Object(ms)
  }

  /** The text handed to `json.loads`: `m.group(0)` when the search finds a
      brace span, the whole output when it does not. */
  function ParseTarget(raw: string): (t: string)
    ensures !OpenBeforeClose(raw) ==> t == raw
    ensures OpenBeforeClose(raw) ==> exists i, j :: IsSearchResult(raw, i, j) && t == raw[i..j]
  {
    FindIsRegexSearch(raw);
    match Find(raw)
    case None => raw
    case Some(sp) => Group(raw, sp)
  }

  /** Decode `raw`: parse the brace span when there is one, the whole text
      otherwise; any parse failure gives the fallback record. */
  function PostProcess(raw: string, parse: string -> Option<Value>): (r: Value)
    ensures r == Fallback(raw)
         || (!OpenBeforeClose(raw) && parse(raw) == Some(r))
         || exists i, j :: IsSearchResult(raw, i, j) && parse(raw[i..j]) == Some(r)
  {
    match parse(ParseTarget(raw))
    case Some(v) => v
    case None => Fallback(raw)
  }

  /** Without a `{` before a `}`, the whole output goes to the parser: its value
      is returned unchanged when it parses, the fallback record otherwise. */
  lemma PostProcessWithoutSpan(raw: string, parse: string -> Option<Value>)
    requires forall i, j :: 0 <= i < j < |raw| ==> !(raw[i] == '{' && raw[j] == '}')
    ensures parse(raw).Some? ==> PostProcess(raw, parse) == parse(raw).value
    ensures parse(raw).None? ==> PostProcess(raw, parse) == Fallback(raw)
  {
  }

  /** With a span, only the span goes to the parser: its value is returned
      unchanged when it parses, and the fallback record otherwise, with no second
      attempt on the whole output. */
  lemma PostProcessWithSpan(raw: string, parse: string -> Option<Value>, i: int, j: int)
    requires 0 <= i < j < |raw| && raw[i] == '{' && raw[j] == '}'
    requires '{' !in raw[..i] && '}' !in raw[j + 1..]
    ensures parse(raw[i..j + 1]).Some? ==> PostProcess(raw, parse) == parse(raw[i..j + 1]).value
    ensures parse(raw[i..j + 1]).None? ==> PostProcess(raw, parse) == Fallback(raw)
  {
    FindIsFirstOpenToLastClose(raw, i, j);
    FindIsRegexSearch(raw);
    assert ParseTarget(raw) == raw[i..j + 1];
  }

  /** The fallback record comes out exactly when the text handed to the parser
      fails to parse. */
  lemma FallbackOnlyOnParseFailure(raw: string, parse: string -> Option<Value>)
    requires parse(ParseTarget(raw)) != Some(Fallback(raw))
    ensures PostProcess(raw, parse) == Fallback(raw) <==> parse(ParseTarget(raw)).None?
  {
  }

  /** The corrected extraction: a decoded value that is not a JSON object is
      treated like a parse failure, so the result is always a record. */
  function ExtractRecord(raw: string, parse: string -> Option<Value>): (r: Value)
    ensures r.Object?
    ensures PostProcess(raw, parse).Object? ==> r == PostProcess(raw, parse)
    ensures !PostProcess(raw, parse).Object? ==> r == Fallback(raw)
  {
    var v := PostProcess(raw, parse);
    if v.Object? then v else Fallback(raw)
  }
}
