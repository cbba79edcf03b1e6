/** `build_prompt` and its constants: the two few-shot examples, the list
    comprehension that copies four fields out of each, and the instruction
    template with its two replacement fields.

    `json.dumps(..., indent=2)` is not modelled: it is the parameter `dumps`. */
module PromptTemplates {
  import opened Python
  import opened Json

  /** One few-shot example as the dict literal in FEW_SHOT_EXAMPLES writes it. */
  function Example(text: string, verdict: string, explanation: string, sources: seq<string>): (e: Value)
    ensures e.Object? && Keys(e.members) == ExampleFields
  {
    Object([("text", Str(text)),
            ("label", Str(verdict)),
            ("explanation", Str(explanation)),
            ("sources", Strings(sources))])
  }

  const FewShotExamples: seq<Value> := [
    Example("Government passes new tax reform to help small businesses.",
            "REAL",
            "Reliable reporting, cites official finance ministry release.",
            ["https://example.com/official-release"]),
    Example("Aliens land in downtown Manhattan, government confirms.",
            "FAKE",
            "No credible sources; sensational wording and no official release.",
            [])
  ]

  /** The fields the comprehension in `build_prompt` copies, in its order. */
  const ExampleFields: seq<string> := ["text", "label", "explanation", "sources"]

  /** Evaluates `e[k]` for each field `k` in order, collecting the pairs of a dict
      display; the first missing key raises KeyError. */
  function Select(members: seq<(string, Value)>, fields: seq<string>): (r: Outcome<seq<(string, Value)>>)
    ensures r.Returned? <==> forall i :: 0 <= i < |fields| ==> Get(members, fields[i]).Some?
    ensures r.Returned? ==> |r.value| == |fields|
    ensures r.Returned? ==> forall i :: 0 <= i < |fields| ==> r.value[i] == (fields[i], Get(members, fields[i]).value)
    ensures r.Raised? ==> r.error.KeyError? && r.error.key in fields && Get(members, r.error.key).None?
  {
    if |fields| == 0 then Returned([])
    else
      match Get(members, fields[0])
      case None => Raised(KeyError(fields[0]))
      case Some(v) =>
        match Select(members, fields[1..])
        case Raised(e) => Raised(e)
        case Returned(rest) => Returned([(fields[0], v)] + rest)
  }

  /** The comprehension body `{"text": e["text"], ..., "sources": e["sources"]}`:
      TypeError when `e` is not a dict, KeyError when a field is missing. */
  function Project(e: Value): (r: Outcome<Value>)
    ensures r.Returned? <==>
      e.Object? && forall i :: 0 <= i < |ExampleFields| ==> Get(e.members, ExampleFields[i]).Some?
    ensures r.Returned? ==> r.value.Object? && |r.value.members| == |ExampleFields|
    ensures r.Returned? ==> forall i :: 0 <= i < |ExampleFields| ==>
      r.value.members[i] == (ExampleFields[i], Get(e.members, ExampleFields[i]).value)
    ensures r == Raised(TypeError) <==> !e.Object?
  {
    if !e.Object? then Raised(TypeError)
    else
      match Select(e.members, ExampleFields)
      case Raised(x) => Raised(x)
      case Returned(ms) => Returned(Object(ms))
  }

  /** The list comprehension over a list of examples: the first exception wins. */
  function ProjectAll(es: seq<Value>): (r: Outcome<seq<Value>>)
    ensures r.Returned? <==> forall i :: 0 <= i < |es| ==> Project(es[i]).Returned?
    ensures r.Returned? ==> |r.value| == |es|
    ensures r.Returned? ==> forall i :: 0 <= i < |es| ==> Project(es[i]) == Returned(r.value[i])
  {
    if |es| == 0 then Returned([])
    else
      match Project(es[0])
      case Raised(x) => Raised(x)
      case Returned(v) =>
        match ProjectAll(es[1..])
        case Raised(x) => Raised(x)
        case Returned(vs) => Returned([v] + vs)
  }

  /** Copying a dict's own keys, in its own order, gives back the dict itself. */
  lemma SelectOwnKeys(members: seq<(string, Value)>)
    requires UniqueKeys(members)
    ensures Select(members, Keys(members)) == Returned(members)
  {
    var ks := Keys(members);
    forall i | 0 <= i < |ks| ensures Get(members, ks[i]) == Some(members[i].1) {
      assert ks[i] in ks;
    }
    var r := Select(members, ks);
    assert r.value == members;
  }

  /** An example has exactly the four copied fields, in that order, so the
      comprehension body gives it back unchanged. */
  lemma ProjectExample(text: string, verdict: string, explanation: string, sources: seq<string>)
    ensures Project(Example(text, verdict, explanation, sources))
      == Returned(Example(text, verdict, explanation, sources))
  {
    var ms := Example(text, verdict, explanation, sources).members;
    assert Keys(ms) == ExampleFields;
    SelectOwnKeys(ms);
  }

  /** The comprehension reproduces FEW_SHOT_EXAMPLES entry for entry: both
      entries, in order, each with exactly text, label, explanation and sources. */
  lemma FewShotListIsExamples()
    ensures ProjectAll(FewShotExamples) == Returned(FewShotExamples)
  {
    ProjectExample("Government passes new tax reform to help small businesses.",
                   "REAL",
                   "Reliable reporting, cites official finance ministry release.",
                   ["https://example.com/official-release"]);
    ProjectExample("Aliens land in downtown Manhattan, government confirms.",
                   "FAKE",
                   "No credible sources; sensational wording and no official release.",
                   []);
    var r := ProjectAll(FewShotExamples);
    assert r.value == FewShotExamples;
  }

  /** A format string after `str.format` has split it: literal text and
      replacement fields. */
  datatype Piece = Literal(text: string) | Field(name: string)

  /** `template.format(**args)` for a template whose fields are plain names:
      literal text is copied, each field is replaced by its argument verbatim,
      and a field without an argument raises KeyError. */
  function Format(template: seq<Piece>, args: map<string, string>): (r: Outcome<string>)
    ensures r.Returned? <==> forall i :: 0 <= i < |template| && template[i].Field? ==> template[i].name in args
    ensures r.Raised? ==> r.error.KeyError? && r.error.key !in args
  {
    if |template| == 0 then Returned("")
    else
      var head := match template[0]
        case Literal(t) => Returned(t)
        case Field(n) => if n in args then Returned(args[n]) else Raised(KeyError(n));
      if head.Raised? then head
      else
        match Format(template[1..], args)
        case Raised(e) => Raised(e)
        case Returned(rest) => Returned(head.value + rest)
  }

  /** The opening and closing lines of the template; `.strip()` leaves no
      whitespace before the first or after the last. */
  const Opening := "You are a news verifier."
  const Closing := "Output (JSON):"
  const NewsOpen := "News: \""

  /** PROMPT_TEMPLATE, split at its two replacement fields. */
  const Instructions := Opening + AfterOpening
  const AfterOpening :=
    " Given a short news text, answer whether the news is REAL or FAKE.\n"
    + "Return a JSON object only (no extra commentary) with the following keys:\n"
    + "- label: \"REAL\" or \"FAKE\"\n"
    + "- confidence: a float between 0.0 and 1.0\n"
    + "- explanation: one-sentence reasoning\n"
    + "- sources: list of up to 3 URLs (strings). If none found, return an empty list.\n"
    + "\n\nExamples:\n"
  const Middle := BeforeNews + NewsOpen
  const BeforeNews := "\n\n\nNow evaluate this news item and respond with JSON only:\n\n\n"
  const Tail := BeforeClosing + Closing
  const BeforeClosing := "\"\n\n\n"

  const PromptTemplate: seq<Piece> := [
    Literal(Instructions), Field("few_shot_examples"), Literal(Middle), Field("news_text"), Literal(Tail)
  ]

  /** `build_prompt(news_text, use_few_shot)`: it never raises, and its result is
      the template with the examples block and the news text substituted verbatim. */
  function BuildPrompt(newsText: string, useFewShot: bool, dumps: Value -> string): (r: Outcome<string>)
    ensures r == Returned(RenderedPrompt(newsText, useFewShot, dumps))
  {
    FewShotListIsExamples();
    FormatTwoFields(Instructions, "few_shot_examples", Middle, "news_text", Tail,
                    map["few_shot_examples" := ExamplesBlock(useFewShot, dumps), "news_text" := newsText]);
    var fewShot :=
      if useFewShot then
        match ProjectAll(FewShotExamples)
        case Raised(x) => Raised(x)
        case Returned(list) => Returned(dumps(Array(list)))
      else Returned("");
    match fewShot
    case Raised(x) => Raised(x)
    case Returned(block) => Format(PromptTemplate, map["few_shot_examples" := block, "news_text" := newsText])
  }

  /** What fills the examples slot: the serialised few-shot list, or nothing. */
  function ExamplesBlock(useFewShot: bool, dumps: Value -> string): (block: string) {
    if useFewShot then dumps(Array(FewShotExamples)) else ""
  }

  /** Formatting a template of two fields between three literals substitutes
      the two arguments verbatim: their own braces are never read as fields. */
  lemma FormatTwoFields(a: string, f: string, b: string, g: string, c: string, args: map<string, string>)
    requires f in args && g in args
    ensures Format([Literal(a), Field(f), Literal(b), Field(g), Literal(c)], args)
      == Returned(a + args[f] + b + args[g] + c)
  {
    var t := [Literal(a), Field(f), Literal(b), Field(g), Literal(c)];
    assert t[1..][1..][1..][1..] == [Literal(c)] && [Literal(c)][1..] == [];
    assert c + "" == c;
    assert Format([Literal(c)], args) == Returned(c);
    assert Format(t[1..][1..][1..], args) == Returned(args[g] + c);
    assert Format(t[1..][1..], args) == Returned(b + (args[g] + c));
    assert Format(t[1..], args) == Returned(args[f] + (b + (args[g] + c)));
    assert Format(t, args) == Returned(a + (args[f] + (b + (args[g] + c))));
    assert a + (args[f] + (b + (args[g] + c))) == a + args[f] + b + args[g] + c;
  }

  /** The prompt as the template's text reads: instructions, examples block,
      the lines before the news item, the news text, and the closing lines. */
  function RenderedPrompt(newsText: string, useFewShot: bool, dumps: Value -> string): (prompt: string) {
    Instructions + ExamplesBlock(useFewShot, dumps) + Middle + newsText + Tail
  }

  /** In `a + open + x + tail`, `x` sits right after `open` and right before `tail`. */
  lemma Framed(a: string, open: string, x: string, tail: string)
    ensures var p := a + open + x + tail;
      var k := |p| - |tail| - |x|;
      && |open| <= k
      && p[k - |open|..k] == open
      && p[k..k + |x|] == x
      && p[k + |x|..] == tail
  {
    var p := a + open + x + tail;
    assert p == a + (open + (x + tail));
  }

  /** In the prompt `build_prompt` renders, the news text sits verbatim between
      `News: "` and the rest of the template, which opens with the closing quote. */
  lemma NewsTextVerbatim(newsText: string, useFewShot: bool, dumps: Value -> string)
    ensures var p := RenderedPrompt(newsText, useFewShot, dumps);
      var k := |p| - |Tail| - |newsText|;
      && |NewsOpen| <= k
      && p[k - |NewsOpen|..k] == NewsOpen
      && p[k..k + |newsText|] == newsText
      && p[k + |newsText|..] == Tail
    ensures Tail[0] == '"'
  {
    Regroup(Instructions, ExamplesBlock(useFewShot, dumps), BeforeNews, NewsOpen, newsText, Tail);
    Framed(Instructions + ExamplesBlock(useFewShot, dumps) + BeforeNews, NewsOpen, newsText, Tail);
  }

  /** Moving the opening of the news line out of the lines before it. */
  lemma Regroup(i: string, x: string, b: string, o: string, n: string, t: string)
    ensures i + x + (b + o) + n + t == (i + x + b) + o + n + t
  {
  }

  /** With and without examples the prompts for the same news text agree outside
      the examples slot: the same instructions before it, the same rest after it. */
  lemma FewShotChangesOnlyExamplesSlot(newsText: string, dumps: Value -> string)
    ensures BuildPrompt(newsText, true, dumps).Returned? && BuildPrompt(newsText, false, dumps).Returned?
    ensures var withExamples := BuildPrompt(newsText, true, dumps).value;
      var without := BuildPrompt(newsText, false, dumps).value;
      && |Instructions| <= |without|
      && without[..|Instructions|] == Instructions
      && withExamples == Instructions + dumps(Array(FewShotExamples)) + without[|Instructions|..]
  {
    SlotOnly(Instructions, dumps(Array(FewShotExamples)), Middle, newsText, Tail);
  }

  /** `a + x + m + n + t` and `a + "" + m + n + t` share the head `a` and differ
      only by `x` after it. */
  lemma SlotOnly(a: string, x: string, m: string, n: string, t: string)
    ensures var without := a + "" + m + n + t;
      && |a| <= |without|
      && without[..|a|] == a
      && a + x + m + n + t == a + x + without[|a|..]
  {
    var without := a + "" + m + n + t;
    assert without == a + (m + n + t);
    assert without[|a|..] == m + n + t;
  }

  /** `(o + a) + x + m + n + (b + c)` starts with `o` and ends with `c`. */
  lemma Bracketed(o: string, a: string, x: string, m: string, n: string, b: string, c: string)
    ensures var p := (o + a) + x + m + n + (b + c);
      && |o| + |c| <= |p|
      && p[..|o|] == o
      && p[|p| - |c|..] == c
  {
    var p := (o + a) + x + m + n + (b + c);
    assert p == o + (a + x + m + n + b) + c;
  }

  /** Every prompt opens with "You are a news verifier." and ends with
      "Output (JSON):", since the template was stripped of surrounding blank lines. */
  lemma PromptFraming(newsText: string, useFewShot: bool, dumps: Value -> string)
    ensures BuildPrompt(newsText, useFewShot, dumps).Returned?
    ensures var p := BuildPrompt(newsText, useFewShot, dumps).value;
      && |Opening| + |Closing| <= |p|
      && p[..|Opening|] == Opening
      && p[|p| - |Closing|..] == Closing
  {
    Bracketed(Opening, AfterOpening, ExamplesBlock(useFewShot, dumps), Middle, newsText, BeforeClosing, Closing);
  }
}
