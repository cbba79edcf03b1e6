# Fake news verifier: classification pipeline in Dafny

This project models the request path of a small service that asks a language
model whether a news text is REAL or FAKE. It covers three steps:

- **Prompt builder** (`build_prompt`). It renders a fixed instruction template,
  optionally with two few-shot examples serialised as JSON, around the news text.
- **Result extraction** (`LlamaVerifier._post_process_json`). It takes the raw
  text the model produced. The greedy search `\{.*\}` (DOTALL) picks a brace
  span, and `json.loads` decodes the span, or the whole text when there is no
  span. Any decoding failure gives the fixed `UNKNOWN` record, which carries the
  raw text verbatim.
- **Sources fallback** in `LlamaVerifier.classify`. When the extracted record
  has no truthy `sources`, it calls the news search and overwrites `sources`
  with the result. Any exception from that call is swallowed.

Modules follow the program's structure:

| file | module | what it holds |
|---|---|---|
| `python.dfy` | `Python` | `Option`, the exceptions that matter, `Outcome` (a value or a raised exception) |
| `json.dfy` | `Json` | decoded JSON values; Python truthiness; a dict as an ordered list of pairs with `d.get(k)` and `d[k] = v` |
| `brace_span.dfy` | `BraceSpan` | the span `re.search(r"\{.*\}", text, re.DOTALL)` selects, with the regex's leftmost-greedy semantics as the reference |
| `extractor.dfy` | `Extractor` | `_post_process_json`, its fallback record, and a corrected variant |
| `prompt_templates.dfy` | `PromptTemplates` | `FEW_SHOT_EXAMPLES`, the field-copying comprehension, `PROMPT_TEMPLATE`, `str.format`, `build_prompt` |
| `classifier.dfy` | `Classifier` | the sources fallback, argument binding of the `search_newsapi` call, the whole `classify`, and a corrected variant |

Several collaborators are opaque, so the model takes them as function parameters:

- `json.loads` is `parse: string -> Option<Value>`. `None` stands for "raises".
- `json.dumps(..., indent=2)` is `dumps: Value -> string`.
- The model runtime call `self.pipe(...)[0]["generated_text"]` is `generate: string -> Outcome<string>`.
- The body of `search_newsapi` is `body: (query, api_key, page_size) -> Outcome<seq<string>>`.

Each result therefore holds for every behaviour of these collaborators. Every
operation is a Dafny function of its inputs and these parameters. So
`build_prompt` is pure and deterministic by construction, and that needs no lemma.

Where the program's own annotations and comments promise more than its code
does, the model follows the code:

- `_post_process_json` is annotated to return `Dict[str, Any]`
  (app/classifier.py:51), but a successful decode is returned as it is. A
  decoded value that is not a dict breaks the annotation and makes `classify`
  raise (see Findings).
- The comment "If sources empty, fallback to NewsAPI search"
  (app/classifier.py:71) promises a search. As written, the call can never bind
  its arguments, so no search runs (see Findings).
- The prompt asks for "up to 3 URLs" (app/prompt_templates.py:26), and
  `search_newsapi` says it returns "up to page_size article URLs"
  (app/source_search.py:10). Nothing in the code limits `sources` to three
  entries: the model's answer is kept as decoded, and the search result is
  stored as returned.

## Model

| member | source | states |
|---|---|---|
| `Json.Get` | app/classifier.py:72 | `d.get(k)` yields a value exactly when `k` is a key; the value is one stored under `k`, and for a dict with unique keys it is the only one |
| `Json.Set` | app/classifier.py:75 | `d[k] = v` keeps the key order when `k` exists and appends `k` otherwise; entries under other keys stay at their positions |
| `Json.SetThenGet` | app/classifier.py:75 | after `d[k] = v`, `d.get(k)` is `v` |
| `Json.SetKeepsOtherKeys` | app/classifier.py:75 | `d[k] = v` leaves `d.get(k')` unchanged for every other key `k'` |
| `Json.SetKeepsUniqueKeys` | app/classifier.py:75 | assignment never duplicates a key |
| `BraceSpan.Find` | app/classifier.py:53 | a found span lies inside the text, is at least two characters long, starts with `{` and ends with `}` |
| `BraceSpan.Group` | app/classifier.py:60 | `m.group(0)` is the contiguous substring the span covers, character for character |
| `BraceSpan.FindIsRegexSearch` | app/classifier.py:53 | a span exists iff some `{` precedes some `}`, iff the pattern matches somewhere; the span runs from the first `{` to the last `}` and is the leftmost, then longest, match |
| `BraceSpan.FindIsFirstOpenToLastClose` | app/classifier.py:53 | when the first `{` is at `i`, the last `}` at `j` and `i < j`, the span is exactly `[i, j]` inclusive |
| `BraceSpan.SearchResultUnique` | app/classifier.py:53 | the leftmost-greedy match is unique, so any two correct implementations agree |
| `BraceSpan.SpanStartsInPrefix` | app/classifier.py:53 | once a prefix contains `{`, no text appended after it can move the span's start out of that prefix |
| `Extractor.Fallback` | app/classifier.py:58 | the fallback dict has keys label, confidence, explanation, sources in that order, with `"UNKNOWN"`, `0.0`, the raw text verbatim and `[]` |
| `Extractor.ParseTarget` | app/classifier.py:53-61 | the parser gets the whole text when no `{` precedes a `}`, and otherwise exactly the leftmost-greedy match |
| `Extractor.PostProcess` | app/classifier.py:51-64 | total: the result is the fallback record, or what the whole text decodes to (when there is no span), or what the regex match decodes to |
| `Extractor.PostProcessWithoutSpan` | app/classifier.py:54-58 | with no `{` before a `}`, a decodable text is returned as decoded, unchanged, and an undecodable one gives the fallback record |
| `Extractor.PostProcessWithSpan` | app/classifier.py:59-64 | with a span from the first `{` to the last `}`, only the span is decoded. Its value is returned unchanged on success, with no clamping or checking. On failure the result is the fallback record, even if the whole text would decode |
| `Extractor.FallbackOnlyOnParseFailure` | app/classifier.py:51-64 | unless the parser itself yields the fallback record, the fallback record comes out exactly when decoding the parser's input fails |
| `Extractor.ExtractRecord` | app/classifier.py:51-64 | corrected extraction: always a dict; equal to the as-written result when that is a dict, else the fallback record |
| `PromptTemplates.Select` | app/prompt_templates.py:51 | evaluating `e[k]` for each field succeeds iff every field is a key; the pairs come out in field order with the stored values; otherwise KeyError names a missing field |
| `PromptTemplates.Project` | app/prompt_templates.py:51 | the comprehension body raises TypeError exactly for a non-dict and KeyError for a missing field; otherwise it yields a dict with exactly text, label, explanation and sources, in that order, holding `e`'s values |
| `PromptTemplates.ProjectAll` | app/prompt_templates.py:50-53 | the comprehension succeeds iff every element projects; the result has one entry per example, in order |
| `PromptTemplates.SelectOwnKeys` | app/prompt_templates.py:51 | copying a dict's own keys in its own order reproduces the dict |
| `PromptTemplates.ProjectExample` | app/prompt_templates.py:4-17 | each example literal already has exactly the four copied fields, so projection gives it back |
| `PromptTemplates.FewShotListIsExamples` | app/prompt_templates.py:50-53 | the list handed to `json.dumps` equals FEW_SHOT_EXAMPLES: both entries, in order, each with exactly text/label/explanation/sources |
| `PromptTemplates.Format` | app/prompt_templates.py:55 | `template.format(**args)` succeeds iff every field has an argument, and otherwise raises KeyError for a missing one |
| `PromptTemplates.FormatTwoFields` | app/prompt_templates.py:55 | the arguments are substituted verbatim; braces inside them are not read as fields |
| `PromptTemplates.Example` | app/prompt_templates.py:4-17 | each FEW_SHOT_EXAMPLES entry is a dict whose keys are text, label, explanation and sources, in that order |
| `PromptTemplates.BuildPrompt` | app/prompt_templates.py:45-55 | `build_prompt` never raises. It yields instructions, then the slot, then the news line and the closing lines. The slot is `json.dumps` of the examples list with `use_few_shot`, and the empty string without it |
| `PromptTemplates.NewsTextVerbatim` | app/prompt_templates.py:36 | in the prompt `build_prompt` returns, the news text appears verbatim right after `News: "` and right before the rest of the template, which opens with the closing `"` |
| `PromptTemplates.FewShotChangesOnlyExamplesSlot` | app/prompt_templates.py:46-55 | for the same news text, the prompts with and without examples share everything but the examples slot |
| `PromptTemplates.PromptFraming` | app/prompt_templates.py:20-40 | every prompt starts with "You are a news verifier." and ends with "Output (JSON):" |
| `Classifier.HasSources` | app/classifier.py:72 | `parsed.get("sources")` is truthy only when `sources` is a key; in a dict with unique keys, exactly when the entry under `sources` holds a truthy value |
| `Classifier.Enrich` | app/classifier.py:71-78 | a non-dict raises AttributeError with no search. A dict always comes back as a dict. The search call is evaluated once, with the news text, exactly when `sources` is missing or falsy |
| `Classifier.EnrichKeepsPresentSources` | app/classifier.py:72 | a dict with truthy sources is returned as it is and the search is never evaluated |
| `Classifier.EnrichSwallowsSearchFailure` | app/classifier.py:73-77 | when the search raises, the extracted dict is returned exactly as extracted |
| `Classifier.EnrichReplacesOnlySources` | app/classifier.py:73-75 | on a successful search, `sources` becomes the found URLs (replaced, not merged), every other key keeps its value, the key order is kept (`sources` appended if missing) and keys stay unique |
| `Classifier.EnrichSettles` | app/classifier.py:72-75 | after a search that found at least one URL, running the fallback again changes nothing and searches nothing |
| `Classifier.Unfilled` | app/source_search.py:9 | lists exactly the parameters from a position on that get no keyword argument and have no default |
| `Classifier.CallSearch` | app/classifier.py:74 | evaluating a call to `search_newsapi` either raises TypeError or runs the body on (query, key, 3). A call that supplies no `api_key`, or too many positional arguments, raises TypeError. A call with query and key by position, and at most `page_size` by keyword, runs the body |
| `Classifier.AsWrittenCallRaises` | app/classifier.py:74 | `search_newsapi(news_text, page_size=3)` leaves `api_key` unfilled, so it raises TypeError whatever the body and key |
| `Classifier.IntendedCallRunsBody` | app/source_search.py:9 | passing the key by position binds, so the body runs on (query, key, 3) |
| `Classifier.Classify` | app/classifier.py:66-78 | `classify` feeds the generator exactly the rendered prompt. An exception from generation propagates with no search. Otherwise the result is the sources fallback applied to what `_post_process_json` extracts from the output |
| `Classifier.ClassifyAsWritten` | app/classifier.py:66-78 | as written, once the model has answered, `classify` returns the extracted value unchanged if it is a dict and raises AttributeError otherwise; the search body never matters. A generation error propagates |
| `Classifier.AsWrittenKeepsEmptySources` | app/classifier.py:74-77 | as written, empty sources stay empty even when the search body would find URLs |
| `Classifier.CorrectedFillsMissingSources` | app/classifier.py:72-75 | with the key passed, missing or falsy sources become the URLs found and no other key changes |
| `Classifier.NonObjectOutputRaises` | app/classifier.py:56 | as written, output with no span that decodes to a non-dict makes `classify` raise AttributeError |
| `Classifier.RaisesExactlyForBracelessNonDict` | app/classifier.py:53-72 | for a parser that decodes braced text only to dicts, the fallback step raises iff the output has no span and decodes as a whole to a non-dict |
| `Classifier.ClassifyCorrected` | app/classifier.py:66-78 | the corrected `classify` always returns a dict once the model has answered, and it searches at most once, with the news text, exactly when the extracted record has no truthy sources. A generation error propagates with no search |
| `Classifier.EchoedExamplesCaptureSpanStart` | app/classifier.py:67-69 | if the runtime echoes the prompt before its continuation and the serialised examples contain `{`, the parsed span starts inside the echoed prompt |

## Left out

- Model and tokenizer loading, device selection and generation settings (app/classifier.py:24-49, the `max_new_tokens` and `do_sample` arguments at line 68). These belong to a foreign library, so generation is the opaque parameter `generate`.
- Whether the runtime echoes the prompt. That depends on the library's defaults. Only the conditional consequence, `EchoedExamplesCaptureSpanStart`, is stated.
- The `HUGGINGFACE_TOKEN` check at import time (app/classifier.py:16-21) and app/config.py: environment reading and printing.
- The lazily created singleton `get_verifier` (app/classifier.py:82-88). It is global mutable state with an unsynchronised first use.
- The JSON grammar of `json.loads` and `json.dumps`. Both are parameters. As a consequence, the claim that the prompt without examples does not contain the serialised examples is not stated: it depends on what `dumps` produces.
- JSON numbers are `Int` or `Float` over exact reals. Binary floating-point rounding and the NaN and Infinity values that `json.loads` accepts are not represented. Only zero-ness (Python truthiness) and the constant `0.0` matter here.
- The body of `search_newsapi` (app/source_search.py:9-29). It is an HTTP client with a timeout and its own exception handling, so it is the parameter `body`. Nothing in it truncates to `page_size`, and the model does not invent such a bound.
- Parsing of the template string by `str.format`. `PROMPT_TEMPLATE` is written already split into its literal text and its two fields. Format specs and conversions do not occur in it.
- `Classifier.Enrich`: its `searches` log records each evaluation of the call at app/classifier.py:74, including one that fails at argument binding. It does not record network requests.
- app/server.py, streamlit_app.py and app/utils.py: web framework, UI and caching plumbing.
- Logging.

## Findings

| source | as written | input that shows it | evidently intended | confidence | as-written member | corrected member |
|---|---|---|---|---|---|---|
| app/classifier.py:74 | `search_newsapi(news_text, page_size=3)` omits `api_key`, which app/source_search.py:9 requires with no default. Every call raises TypeError, and lines 76-77 swallow it | model output `{"label":"REAL","confidence":1.0,"explanation":"x","sources":[]}` with a search that would return `["http://x.example/1"]`: the result keeps `sources: []` | the configured key is passed and the found URLs replace the empty sources | high; not executed | `Classifier.AsWrittenKeepsEmptySources` | `Classifier.CorrectedFillsMissingSources` |
| app/classifier.py:56 | with no brace span, the whole output is decoded and returned even when it is not a dict. Then `parsed.get` at line 72, outside the `try`, raises AttributeError out of `classify` | model output `42`, `"REAL"` or `null`: `classify` raises instead of returning the `UNKNOWN` record | a decoded value that is not a dict is treated like a parse failure | medium; not executed | `Classifier.NonObjectOutputRaises` | `Classifier.ClassifyCorrected` |
