/** `LlamaVerifier.classify`: build the prompt, generate, extract a record, and
    fall back to the news search for sources when the record has none.

    The model runtime is the parameter `generate` (the whole expression
    `self.pipe(prompt, max_new_tokens=200, do_sample=False)[0]["generated_text"]`),
    and the body of `search_newsapi` is the parameter `body`. */
module Classifier {
  import opened Python
  import opened Json
  import opened BraceSpan
  import opened Extractor
  import opened PromptTemplates

  /** What `classify` hands back, together with the queries for which it
      evaluated the search call: the call's only observable effect. */
  datatype Classified = Classified(outcome: Outcome<Value>, searches: seq<string>)

  /** `parsed.get("sources")` is truthy: in a dict, the entry under `sources`
      exists and holds a truthy value. */
  predicate HasSources(members: seq<(string, Value)>): (b: bool)
    ensures b ==> "sources" in Keys(members)
    ensures UniqueKeys(members) ==>
      (b <==> exists i :: 0 <= i < |members| && members[i].0 == "sources" && Truthy(members[i].1))
  {
    match Get(members, "sources")
    case None => false
    case Some(v) => Truthy(v)
  }

  /** The sources fallback: when `parsed.get("sources")` is missing or falsy,
      evaluate the search call for the news text; on success overwrite
      `parsed["sources"]`, on any exception keep `parsed` as it is. `parsed.get`
      on a value that is not a dict raises AttributeError, outside the `try`. */
  function Enrich(parsed: Value, newsText: string, search: string -> Outcome<seq<string>>): (c: Classified)
    ensures !parsed.Object? ==> c == Classified(Raised(AttributeError), [])
    ensures parsed.Object? ==> c.outcome.Returned? && c.outcome.value.Object?
    ensures |c.searches| <= 1
    ensures |c.searches| == 1 <==> parsed.Object? && !HasSources(parsed.members)
    ensures forall q :: q in c.searches ==> q == newsText
  {
    if !parsed.Object? then Classified(Raised(AttributeError), [])
    else if HasSources(parsed.members) then Classified(Returned(parsed), [])
    else
      match search(newsText)
      case Returned(urls) => Classified(Returned(Object(Set(parsed.members, "sources", Strings(urls)))), [newsText])
      case Raised(_) => Classified(Returned(parsed), [newsText])
  }

  /** A record whose sources are present and truthy is returned as it is, and the
      search is never consulted. */
  lemma EnrichKeepsPresentSources(parsed: Value, newsText: string, search: string -> Outcome<seq<string>>)
    requires parsed.Object? && HasSources(parsed.members)
    ensures Enrich(parsed, newsText, search) == Classified(Returned(parsed), [])
  {
  }

  /** When the search raises, the extracted record comes back exactly as it was. */
  lemma EnrichSwallowsSearchFailure(parsed: Value, newsText: string, search: string -> Outcome<seq<string>>)
    requires parsed.Object? && search(newsText).Raised?
    ensures Enrich(parsed, newsText, search).outcome == Returned(parsed)
  {
  }

  /** A successful search replaces (does not merge) `sources` and changes no other
      key: every other key keeps its value, and the key order is kept, with
      `sources` appended when it was missing. */
  lemma {:induction false} EnrichReplacesOnlySources(parsed: Value, newsText: string, search: string -> Outcome<seq<string>>)
    requires parsed.Object? && !HasSources(parsed.members) && search(newsText).Returned?
    ensures var r := Enrich(parsed, newsText, search).outcome;
      && r.Returned? && r.value.Object?
      && Get(r.value.members, "sources") == Some(Strings(search(newsText).value))
      && (forall k :: k != "sources" ==> Get(r.value.members, k) == Get(parsed.members, k))
      && ("sources" in Keys(parsed.members) ==> Keys(r.value.members) == Keys(parsed.members))
      && ("sources" !in Keys(parsed.members) ==> Keys(r.value.members) == Keys(parsed.members) + ["sources"])
      && (UniqueKeys(parsed.members) ==> UniqueKeys(r.value.members))
  {
    var urls := Strings(search(newsText).value);
    SetThenGet(parsed.members, "sources", urls);
    forall k | k != "sources"
      ensures Get(Set(parsed.members, "sources", urls), k) == Get(parsed.members, k)
    {
      SetKeepsOtherKeys(parsed.members, "sources", urls, k);
    }
    if UniqueKeys(parsed.members) {
      SetKeepsUniqueKeys(parsed.members, "sources", urls);
    }
  }

  /** Enrichment settles: once a search has filled in at least one URL, running
      the fallback again changes nothing and searches nothing. */
  lemma EnrichSettles(parsed: Value, newsText: string, search: string -> Outcome<seq<string>>)
    requires parsed.Object? && !HasSources(parsed.members)
    requires search(newsText).Returned? && |search(newsText).value| > 0
    ensures var once := Enrich(parsed, newsText, search).outcome.value;
      Enrich(once, newsText, search) == Classified(Returned(once), [])
  {
    var urls := Strings(search(newsText).value);
    var once := Object(Set(parsed.members, "sources", urls));
    assert Enrich(parsed, newsText, search).outcome.value == once;
    SetThenGet(parsed.members, "sources", urls);
    assert Truthy(urls);
  }

  /** A parameter of a Python function: its name and whether it has a default. */
  datatype Param = Param(name: string, hasDefault: bool)

  /** The signature `search_newsapi(query, api_key, page_size=3)`. */
  const SearchParams: seq<Param> := [Param("query", false), Param("api_key", false), Param("page_size", true)]

  /** The arguments a call supplies: how many by position, which by keyword. */
  datatype CallShape = CallShape(positional: nat, keywords: set<string>)

  /** `search_newsapi(news_text, page_size=3)`, as `classify` writes the call. */
  const AsWrittenCall := CallShape(1, {"page_size"})

  /** `search_newsapi(news_text, api_key, page_size=3)`, the call the signature asks for. */
  const IntendedCall := CallShape(2, {"page_size"})

  /** The parameters from index `from` on that get no argument and have no default. */
  function Unfilled(params: seq<Param>, from: nat, keywords: set<string>): (names: seq<string>)
    ensures forall n :: n in names <==>
      exists i :: from <= i < |params| && params[i].name == n && n !in keywords && !params[i].hasDefault
    decreases |params| - from
  {
    if from >= |params| then []
    else
      var here := if params[from].name !in keywords && !params[from].hasDefault then [params[from].name] else [];
      var rest := Unfilled(params, from + 1, keywords);
      assert forall n :: n in here + rest <==> n in here || n in rest;
      here + rest
  }

  /** Python binds the call's arguments to the parameters: not too many positional
      arguments, every keyword names a parameter not already filled by position,
      and every parameter without a default receives an argument. */
  predicate Binds(params: seq<Param>, call: CallShape) {
    && call.positional <= |params|
    && (forall k :: k in call.keywords ==>
          exists i :: call.positional <= i < |params| && params[i].name == k)
    && |Unfilled(params, call.positional, call.keywords)| == 0
  }

  /** Against `search_newsapi(query, api_key, page_size=3)`: a call that supplies
      no `api_key` does not bind, and one that passes query and key by position,
      with at most `page_size` by keyword, does. */
  lemma SearchCallShapes(call: CallShape)
    ensures call.positional < 2 && "api_key" !in call.keywords ==> !Binds(SearchParams, call)
    ensures (call.positional == 2 && call.keywords <= {"page_size"}) || (call.positional == 3 && call.keywords == {})
      ==> Binds(SearchParams, call)
  {
    assert SearchParams[1].name == "api_key" && SearchParams[2].name == "page_size";
    if call.positional < 2 && "api_key" !in call.keywords {
      assert "api_key" in Unfilled(SearchParams, call.positional, call.keywords);
    }
    if (call.positional == 2 && call.keywords <= {"page_size"}) || (call.positional == 3 && call.keywords == {}) {
      var names := Unfilled(SearchParams, call.positional, call.keywords);
      assert forall n :: n !in names;
    }
  }

  /** The body of `search_newsapi` once its arguments are bound: query, key and
      page size in, a list of URLs or an exception out. */
  type SearchBody = (string, string, int) -> Outcome<seq<string>>

  /** Evaluating a call to `search_newsapi` of the given shape: a TypeError when
      the arguments do not bind, otherwise the body on the query, the key the call
      passes and the page size 3. */
  function CallSearch(body: SearchBody, call: CallShape, query: string, apiKey: string): (r: Outcome<seq<string>>)
    ensures r == Raised(TypeError) || r == body(query, apiKey, 3)
    ensures call.positional < 2 && "api_key" !in call.keywords ==> r == Raised(TypeError)
    ensures call.positional > |SearchParams| ==> r == Raised(TypeError)
    ensures (call.positional == 2 && call.keywords <= {"page_size"}) || (call.positional == 3 && call.keywords == {})
      ==> r == body(query, apiKey, 3)
  {
    SearchCallShapes(call);
    if Binds(SearchParams, call) then body(query, apiKey, 3) else Raised(TypeError)
  }

  /** The call as written leaves `api_key` without an argument, so it raises
      TypeError before the body runs, whatever the body and the key. */
  lemma AsWrittenCallRaises(body: SearchBody, query: string, apiKey: string)
    ensures CallSearch(body, AsWrittenCall, query, apiKey) == Raised(TypeError)
  {
  }

  /** Passing the key by position makes the arguments bind, so the body runs. */
  lemma IntendedCallRunsBody(body: SearchBody, query: string, apiKey: string)
    ensures CallSearch(body, IntendedCall, query, apiKey) == body(query, apiKey, 3)
  {
  }

  /** `classify(news_text)`: a failure to build the prompt or to generate
      propagates; otherwise the output is extracted and enriched. */
  function Classify(newsText: string, useFewShot: bool, dumps: Value -> string,
                    generate: string -> Outcome<string>, parse: string -> Option<Value>,
                    search: string -> Outcome<seq<string>>): (c: Classified)
    ensures var g := generate(RenderedPrompt(newsText, useFewShot, dumps));
      g.Raised? ==> c == Classified(Raised(g.error), [])
    ensures var g := generate(RenderedPrompt(newsText, useFewShot, dumps));
      g.Returned? ==> c == Enrich(PostProcess(g.value, parse), newsText, search)
  {
    match BuildPrompt(newsText, useFewShot, dumps)
    case Raised(x) => Classified(Raised(x), [])
    case Returned(prompt) =>
      match generate(prompt)
      case Raised(x) => Classified(Raised(x), [])
      case Returned(out) => Enrich(PostProcess(out, parse), newsText, search)
  }

  /** `classify` as written: the search call has the shape of line 74. That call
      passes no key; the empty key given to `CallSearch` is never read, because
      the arguments do not bind. Once the model has answered, the extracted value
      is returned unchanged when it is a dict (no sources are ever added, whatever
      the search body would find), and AttributeError is raised when it is not. */
  function ClassifyAsWritten(newsText: string, useFewShot: bool, dumps: Value -> string,
                             generate: string -> Outcome<string>, parse: string -> Option<Value>,
                             body: SearchBody): (c: Classified)
    ensures var g := generate(RenderedPrompt(newsText, useFewShot, dumps));
      g.Raised? ==> c.outcome == Raised(g.error)
    ensures var g := generate(RenderedPrompt(newsText, useFewShot, dumps));
      g.Returned? ==> var v := PostProcess(g.value, parse);
        c.outcome == (if v.Object? then Returned(v) else Raised(AttributeError))
  {
    var search := q => CallSearch(body, AsWrittenCall, q, "");
    assert search(newsText) == Raised(TypeError);
    Classify(newsText, useFewShot, dumps, generate, parse, search)
  }

  /** The corrected `classify`: a decoded value that is not a dict counts as a
      parse failure, and the search is called with the key. It never raises once
      the model has produced its output: it always returns a dict, and it searches
      exactly when the extracted record has no truthy sources. */
  function ClassifyCorrected(newsText: string, useFewShot: bool, dumps: Value -> string,
                             generate: string -> Outcome<string>, parse: string -> Option<Value>,
                             body: SearchBody, apiKey: string): (c: Classified)
    ensures var g := generate(RenderedPrompt(newsText, useFewShot, dumps));
      g.Raised? ==> c == Classified(Raised(g.error), [])
    ensures var g := generate(RenderedPrompt(newsText, useFewShot, dumps));
      g.Returned? ==> && c.outcome.Returned? && c.outcome.value.Object?
                      && (|c.searches| == 1 <==> !HasSources(ExtractRecord(g.value, parse).members))
    ensures |c.searches| <= 1 && forall q :: q in c.searches ==> q == newsText
  {
    match BuildPrompt(newsText, useFewShot, dumps)
    case Raised(x) => Classified(Raised(x), [])
    case Returned(prompt) =>
      assert prompt == RenderedPrompt(newsText, useFewShot, dumps);
      match generate(prompt)
      case Raised(x) => Classified(Raised(x), [])
      case Returned(out) => Enrich(ExtractRecord(out, parse), newsText, q => CallSearch(body, IntendedCall, q, apiKey))
  }

  /** As written, a record with empty sources keeps them empty even when the
      search body would have found URLs. */
  lemma AsWrittenKeepsEmptySources(newsText: string, useFewShot: bool, dumps: Value -> string,
                                   generate: string -> Outcome<string>, parse: string -> Option<Value>,
                                   body: SearchBody, out: string, urls: seq<string>)
    requires generate(RenderedPrompt(newsText, useFewShot, dumps)) == Returned(out)
    requires PostProcess(out, parse).Object?
    requires Get(PostProcess(out, parse).members, "sources") == Some(Array([]))
    requires forall key :: body(newsText, key, 3) == Returned(urls)
    requires |urls| > 0
    ensures var r := ClassifyAsWritten(newsText, useFewShot, dumps, generate, parse, body).outcome;
      r.Returned? && r.value.Object? && Get(r.value.members, "sources") == Some(Array([]))
  {
  }

  /** With the key passed, a record whose sources are missing or falsy gets the
      URLs the search body finds, and keeps every other key as it was. */
  lemma CorrectedFillsMissingSources(newsText: string, useFewShot: bool, dumps: Value -> string,
                                     generate: string -> Outcome<string>, parse: string -> Option<Value>,
                                     body: SearchBody, apiKey: string, out: string, urls: seq<string>)
    requires generate(RenderedPrompt(newsText, useFewShot, dumps)) == Returned(out)
    requires !HasSources(ExtractRecord(out, parse).members)
    requires body(newsText, apiKey, 3) == Returned(urls)
    ensures var r := ClassifyCorrected(newsText, useFewShot, dumps, generate, parse, body, apiKey).outcome;
      && r.Returned? && r.value.Object?
      && Get(r.value.members, "sources") == Some(Strings(urls))
      && forall k :: k != "sources" ==> Get(r.value.members, k) == Get(ExtractRecord(out, parse).members, k)
  {
    var search := q => CallSearch(body, IntendedCall, q, apiKey);
    IntendedCallRunsBody(body, newsText, apiKey);
    assert search(newsText) == Returned(urls);
    EnrichReplacesOnlySources(ExtractRecord(out, parse), newsText, search);
  }

  /** As written, output without a brace span that decodes to something other
      than a dict (a number, a string, a list, true/false or null) makes
      `parsed.get` raise AttributeError out of `classify`. */
  lemma NonObjectOutputRaises(newsText: string, useFewShot: bool, dumps: Value -> string,
                              generate: string -> Outcome<string>, parse: string -> Option<Value>,
                              body: SearchBody, out: string)
    requires generate(RenderedPrompt(newsText, useFewShot, dumps)) == Returned(out)
    requires forall i, j :: 0 <= i < j < |out| ==> !(out[i] == '{' && out[j] == '}')
    requires parse(out).Some? && !parse(out).value.Object?
    ensures ClassifyAsWritten(newsText, useFewShot, dumps, generate, parse, body).outcome == Raised(AttributeError)
  {
    PostProcessWithoutSpan(out, parse);
  }

  /** `json.loads` decodes a text that starts with `{` to a dict, if it decodes it at all. */
  ghost predicate BracedTextsDecodeToDicts(parse: string -> Option<Value>) {
    forall s :: |s| > 0 && s[0] == '{' && parse(s).Some? ==> parse(s).value.Object?
  }

  /** For a parser that behaves like `json.loads` on braced text, the fallback
      step raises exactly when the output has no brace span and decodes, as a
      whole, to something other than a dict. */
  lemma RaisesExactlyForBracelessNonDict(out: string, newsText: string, parse: string -> Option<Value>,
                                         search: string -> Outcome<seq<string>>)
    requires BracedTextsDecodeToDicts(parse)
    ensures Enrich(PostProcess(out, parse), newsText, search).outcome.Raised?
      <==> !OpenBeforeClose(out) && parse(out).Some? && !parse(out).value.Object?
  {
    var t := ParseTarget(out);
    if OpenBeforeClose(out) {
      var i, j :| IsSearchResult(out, i, j) && t == out[i..j];
      assert t[0] == '{';
    }
  }

  /** When the model runtime echoes the prompt before its continuation and the
      serialised examples contain a `{`, the span handed to the parser starts
      inside the echoed prompt, so the model's own answer is never parsed alone. */
  lemma EchoedExamplesCaptureSpanStart(newsText: string, dumps: Value -> string, completion: string)
    requires '{' in ExamplesBlock(true, dumps)
    ensures var prompt := RenderedPrompt(newsText, true, dumps);
      Find(prompt + completion).Some? ==> Find(prompt + completion).value.start < |prompt|
  {
    var block := ExamplesBlock(true, dumps);
    var prompt := RenderedPrompt(newsText, true, dumps);
    var k :| 0 <= k < |block| && block[k] == '{';
    assert prompt == Instructions + block + (Middle + newsText + Tail);
    assert prompt[|Instructions| + k] == '{';
    SpanStartsInPrefix(prompt, completion);
  }
}
