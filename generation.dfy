/**
  * The generation engine's grounding prompt: a constant template with one
  * placeholder for the retrieved context and one for the query.
  */
module GroundingTemplate {
  import opened Results

  /** A prompt template: text with `{name}` placeholders. */
  datatype PromptTemplate = PromptTemplate(template: string)

  /** The pieces, one after the other. */
  function Concat(pieces: seq<string>): string {
    if pieces == [] then "" else pieces[0] + Concat(pieces[1..])
  }

  // The lines of the engine's template, each as pieces of at most sixteen
  // characters; concatenated, they are its text character for character.
  // Short literals keep the verifier's reasoning about brace-free text cheap.

  const IntroLine: seq<string> :=
    ["You are the RAG ", "AI, a Language ", "Architect. Use ", "the provided ", "context to ",
     "answer the ", "question.\n"]
  const ContextHeading: seq<string> := ["Context ", "Information:\n"]
  const Rule: seq<string> := ["----------------", "------\n"]
  const InstructionsHeading: seq<string> := ["Instructions:\n"]
  const FirstInstruction: seq<string> := ["1. Answer in ", "the same ", "language as the ", "query.\n"]
  const SecondInstruction: seq<string> :=
    ["2. If the ", "context doesn't ", "contain the ", "answer, say you ", "don't know. Do ", "not ",
     "hallucinate.\n"]
  const ThirdInstruction: seq<string> := ["3. Cite the ", "source ", "(metadata) if ", "available.\n"]

  const ContextSlot: string := "{context_str}"
  const QuerySlot: string := "{query_str}"

  /** Everything before the context placeholder. */
  const IndicIntro: string := Concat(IntroLine + ContextHeading + Rule)

  /** Everything between the two placeholders. */
  const IndicInstructions: string :=
    Concat(["\n"] + Rule + InstructionsHeading + FirstInstruction + SecondInstruction + ThirdInstruction
           + ["Query: "])

  /** Everything after the query placeholder. */
  const IndicClosing: string := "\n" + "Answer:"

  const IndicTemplate: string :=
    IndicIntro + (ContextSlot + (IndicInstructions + (QuerySlot + IndicClosing)))

  /** The position of the first `}` in `s`, if any. */
  function CloseAt(s: string): (r: Option<nat>)
    ensures r.Some? ==> r.value < |s| && s[r.value] == '}' && '}' !in s[..r.value]
    ensures r.None? ==> '}' !in s
  {
    if s == [] then None
    else if s[0] == '}' then Some(0)
    else match CloseAt(s[1..])
      case None => None
      case Some(k) => Some(k + 1)
  }

  function Prepend(name: string, fields: Option<seq<string>>): Option<seq<string>> {
    match fields
    case None => None
    case Some(fs) => Some([name] + fs)
  }

  /**
    * The placeholder names of a template, in order, or None when a brace is
    * unbalanced (a `{` without its `}`, a `}` outside a placeholder, or a `{`
    * inside one).
    */
  function TemplateFields(s: string): Option<seq<string>>
    decreases |s|
  {
    if s == [] then Some([])
    else if s[0] == '}' then None
    else if s[0] != '{' then TemplateFields(s[1..])
    else match CloseAt(s[1..])
      case None => None
      case Some(k) =>
        var name := s[1..k + 1];
        if '{' in name then None else Prepend(name, TemplateFields(s[k + 2..]))
  }

  /** Text with no brace at all. */
  predicate Plain(s: string) {
    '{' !in s && '}' !in s
  }

  /** Text without braces contributes no placeholder. */
  lemma {:induction false} PlainTextFields(a: string, b: string)
    requires Plain(a)
    ensures TemplateFields(a + b) == TemplateFields(b)
    decreases |a|
  {
    if a != [] {
      assert (a + b)[0] == a[0];
      assert (a + b)[1..] == a[1..] + b;
      PlainTextFields(a[1..], b);
    } else {
      assert a + b == b;
    }
  }

  lemma {:induction false} CloseOfPlaceholder(name: string, b: string)
    requires '}' !in name
    ensures CloseAt(name + "}" + b) == Some(|name|)
    decreases |name|
  {
    if name != [] {
      assert (name + "}" + b)[1..] == name[1..] + "}" + b;
      CloseOfPlaceholder(name[1..], b);
    }
  }

  /** `{name}` contributes the placeholder `name`. */
  lemma PlaceholderFields(name: string, b: string, fields: seq<string>)
    requires Plain(name)
    requires TemplateFields(b) == Some(fields)
    ensures TemplateFields("{" + name + "}" + b) == Some([name] + fields)
  {
    var s := "{" + name + "}" + b;
    assert s[1..] == name + "}" + b;
    CloseOfPlaceholder(name, b);
    assert s[1..|name| + 1] == name;
    assert s[|name| + 2..] == b;
  }

  /** Plain text followed by `{name}` adds the placeholder `name` in front. */
  lemma SlotAfterText(text: string, name: string, b: string, fields: seq<string>)
    requires Plain(text) && Plain(name)
    requires TemplateFields(b) == Some(fields)
    ensures TemplateFields(text + (("{" + name + "}") + b)) == Some([name] + fields)
  {
    PlaceholderFields(name, b, fields);
    PlainTextFields(text, ("{" + name + "}") + b);
  }

  /**
    * Plain text, a placeholder, plain text, another placeholder and plain
    * text: the template's fields are the two placeholders' names, in order.
    */
  lemma TwoSlotFields(intro: string, first: string, middle: string, second: string, closing: string)
    requires Plain(intro) && Plain(first) && Plain(middle) && Plain(second) && Plain(closing)
    ensures TemplateFields(intro + (("{" + first + "}") + (middle + (("{" + second + "}") + closing))))
         == Some([first, second])
  {
    PlainTextFields(closing, []);
    assert closing + [] == closing;
    SlotAfterText(middle, second, closing, []);
    assert [second] + [] == [second];
    SlotAfterText(intro, first, middle + (("{" + second + "}") + closing), [second]);
    assert [first] + [second] == [first, second];
  }

  lemma SlotNames()
    ensures ContextSlot == "{" + "context_str" + "}" && Plain("context_str")
    ensures QuerySlot == "{" + "query_str" + "}" && Plain("query_str")
  {
  }

  lemma {:induction false} ConcatPlain(pieces: seq<string>)
    requires forall i :: 0 <= i < |pieces| ==> Plain(pieces[i])
    ensures Plain(Concat(pieces))
    decreases |pieces|
  {
    if pieces != [] {
      ConcatPlain(pieces[1..]);
    }
  }

  lemma IntroLinePlain() ensures forall i :: 0 <= i < |IntroLine| ==> Plain(IntroLine[i]) {}
  lemma RulePlain() ensures forall i :: 0 <= i < |Rule| ==> Plain(Rule[i]) {}
  lemma FirstInstructionPlain() ensures forall i :: 0 <= i < |FirstInstruction| ==> Plain(FirstInstruction[i]) {}
  lemma SecondInstructionPlain() ensures forall i :: 0 <= i < |SecondInstruction| ==> Plain(SecondInstruction[i]) {}
  lemma ThirdInstructionPlain() ensures forall i :: 0 <= i < |ThirdInstruction| ==> Plain(ThirdInstruction[i]) {}

  lemma IntroPlain()
    ensures Plain(IndicIntro)
  {
    IntroLinePlain();
    RulePlain();
    assert forall i :: 0 <= i < |ContextHeading| ==> Plain(ContextHeading[i]);
    ConcatPlain(IntroLine + ContextHeading + Rule);
  }

  lemma InstructionsPlain()
    ensures Plain(IndicInstructions)
  {
    RulePlain();
    FirstInstructionPlain();
    SecondInstructionPlain();
    ThirdInstructionPlain();
    assert Plain("\n") && Plain("Query: ");
    assert forall i :: 0 <= i < |InstructionsHeading| ==> Plain(InstructionsHeading[i]);
    ConcatPlain(["\n"] + Rule + InstructionsHeading + FirstInstruction + SecondInstruction + ThirdInstruction
                + ["Query: "]);
  }

  /** Appending in front leaves the last `n` characters alone. */
  lemma SuffixKept(front: string, back: string, n: nat)
    requires n <= |back|
    ensures (front + back)[|front + back| - n..] == back[|back| - n..]
  {
  }

  /**
    * The grounding template has exactly two placeholders, the context before
    * the query, and its last words are the answer cue.
    */
  lemma IndicTemplateShape()
    ensures TemplateFields(IndicTemplate) == Some(["context_str", "query_str"])
    ensures |IndicTemplate| >= 7 && IndicTemplate[|IndicTemplate| - 7..] == "Answer:"
  {
    IntroPlain();
    InstructionsPlain();
    assert Plain(IndicClosing);
    SlotNames();
    TwoSlotFields(IndicIntro, "context_str", IndicInstructions, "query_str", IndicClosing);
    var t3 := QuerySlot + IndicClosing;
    var t2 := IndicInstructions + t3;
    var t1 := ContextSlot + t2;
    assert IndicClosing[|IndicClosing| - 7..] == "Answer:";
    SuffixKept(QuerySlot, IndicClosing, 7);
    SuffixKept(IndicInstructions, t3, 7);
    SuffixKept(ContextSlot, t2, 7);
    SuffixKept(IndicIntro, t1, 7);
  }

  /** The engine's grounding prompt. */
  function GetIndicPrompt(): (t: PromptTemplate)
    ensures TemplateFields(t.template) == Some(["context_str", "query_str"])
    ensures |t.template| >= 7 && t.template[|t.template| - 7..] == "Answer:"
  {
    IndicTemplateShape();
    PromptTemplate(IndicTemplate)
  }
}

/**
  * The generator: the API-key guard, and the prompt it builds from the
  * retrieved nodes and the query. The hosted language model is an opaque
  * completion function.
  */
module Generation {
  import opened Results
  import SearchLogic

  const LlmModel: string := "llama-3.3-70b-versatile"

  /** A generator bound to one hosted model and one API key. */
  datatype Generator = Generator(model: string, apiKey: string)

  datatype GeneratorError = MissingApiKey

  /** The API key comes from the environment, so it may be absent. */
  function NewGenerator(apiKey: Option<string>): (r: Result<Generator, GeneratorError>)
    ensures r.Err? <==> apiKey == None || apiKey == Some("")
    ensures r.Err? ==> r.error == MissingApiKey
    ensures r.Ok? ==> r.value.model == LlmModel && apiKey == Some(r.value.apiKey)
  {
    match apiKey
    case None => Err(MissingApiKey)
    case Some(key) => if key == "" then Err(MissingApiKey) else Ok(Generator(LlmModel, key))
  }

  const Separator: string := "\n\n"

  /** The node texts in order, with a blank line between consecutive texts. */
  function ContextText(texts: seq<string>): (r: string)
    ensures texts == [] ==> r == ""
  {
    if texts == [] then ""
    else if |texts| == 1 then texts[0]
    else texts[0] + Separator + ContextText(texts[1..])
  }

  /** Splits at every blank-line separator, scanning left to right. */
  function SplitContext(s: string): (r: seq<string>)
    ensures |r| >= 1
    decreases |s|
  {
    if |s| < 2 then [s]
    else if s[0] == '\n' && s[1] == '\n' then [""] + SplitContext(s[2..])
    else
      var rest := SplitContext(s[1..]);
      [[s[0]] + rest[0]] + rest[1..]
  }

  /** `t` holds no separator. */
  predicate NoSeparator(t: string) {
    forall i :: 0 <= i < |t| - 1 ==> !(t[i] == '\n' && t[i + 1] == '\n')
  }

  /** `t` can be told apart from a following separator. */
  predicate Separable(t: string) {
    NoSeparator(t) && (t == [] || t[|t| - 1] != '\n')
  }

  lemma {:induction false} SplitWhole(t: string)
    requires NoSeparator(t)
    ensures SplitContext(t) == [t]
    decreases |t|
  {
    if |t| >= 2 {
      assert !(t[0] == '\n' && t[1] == '\n');
      SplitWhole(t[1..]);
      assert [t[0]] + t[1..] == t;
    }
  }

  lemma {:induction false} SplitFirst(t: string, rest: string)
    requires Separable(t)
    ensures SplitContext(t + Separator + rest) == [t] + SplitContext(rest)
    decreases |t|
  {
    var s := t + Separator + rest;
    if t == [] {
      assert s == "\n\n" + rest;
      assert s[2..] == rest;
    } else {
      assert s[0] == t[0];
      if |t| == 1 {
        assert s[1] == '\n';
        assert t[0] != '\n';
      } else {
        assert s[1] == t[1];
        assert !(t[0] == '\n' && t[1] == '\n');
      }
      assert s[1..] == t[1..] + Separator + rest;
      SplitFirst(t[1..], rest);
      assert [t[0]] + t[1..] == t;
    }
  }

  /**
    * Splitting the context at its separators gives back the node texts, when
    * no text holds a blank line or ends in a line break.
    */
  lemma {:induction false} SplitContextText(texts: seq<string>)
    requires texts != []
    requires forall i :: 0 <= i < |texts| ==> Separable(texts[i])
    ensures SplitContext(ContextText(texts)) == texts
    decreases |texts|
  {
    if |texts| == 1 {
      SplitWhole(texts[0]);
    } else {
      SplitContextText(texts[1..]);
      SplitFirst(texts[0], ContextText(texts[1..]));
      assert texts == [texts[0]] + texts[1..];
    }
  }

  const PromptHeader: string := "Context Information:\n"
  const QueryLabel: string := "Query: "
  const AdvisorInstruction: string :=
    "As an Advisor, provide a concise, grounded answer based strictly on the context. "
    + "If the information is not present, admit it. Match the query's language."

  /** The prompt sent to the model: the context first, then the query, then the instruction. */
  function BuildPrompt(query: string, texts: seq<string>): string {
    PromptHeader + (ContextText(texts) + Separator + QueryLabel + query) + (Separator + AdvisorInstruction)
  }

  /** The position of the last line break in `s`, if any. */
  function LastNewline(s: string): (r: Option<nat>)
    ensures r.Some? ==> r.value < |s| && s[r.value] == '\n' && '\n' !in s[r.value + 1..]
    ensures r.None? ==> '\n' !in s
    decreases |s|
  {
    if s == [] then None
    else if s[|s| - 1] == '\n' then Some(|s| - 1)
    else LastNewline(s[..|s| - 1])
  }

  lemma {:induction false} LastNewlineBefore(a: string, b: string)
    requires '\n' !in b
    ensures LastNewline(a + "\n" + b) == Some(|a|)
    decreases |b|
  {
    var s := a + "\n" + b;
    if b != [] {
      assert s[|s| - 1] == b[|b| - 1];
      assert s[..|s| - 1] == a + "\n" + b[..|b| - 1];
      LastNewlineBefore(a, b[..|b| - 1]);
    }
  }

  /**
    * Reads `body` as a context, a blank line, `marker` and a query: the query
    * is what follows the last line break.
    */
  function SplitBody(body: string, marker: string): Option<(string, string)> {
    match LastNewline(body)
    case None => None
    case Some(k) =>
      if 1 <= k && body[k - 1] == '\n' && k + 1 + |marker| <= |body|
         && body[k + 1..k + 1 + |marker|] == marker
      then Some((body[..k - 1], body[k + 1 + |marker|..]))
      else None
  }

  /** Reads `p` as `header`, a body split by `SplitBody`, and `tail`. */
  function SplitPrompt(p: string, header: string, marker: string, tail: string): Option<(string, string)> {
    if |p| < |header| + |tail| || p[..|header|] != header || p[|p| - |tail|..] != tail
    then None
    else SplitBody(p[|header|..|p| - |tail|], marker)
  }

  /** Reads a prompt built by `BuildPrompt` back into its context and its query. */
  function ParsePrompt(p: string): Option<(string, string)> {
    SplitPrompt(p, PromptHeader, QueryLabel, Separator + AdvisorInstruction)
  }

  lemma SplitFramed(header: string, body: string, marker: string, tail: string)
    ensures SplitPrompt(header + body + tail, header, marker, tail) == SplitBody(body, marker)
  {
    var p := header + body + tail;
    assert p[..|header|] == header;
    assert p[|p| - |tail|..] == tail;
    assert p[|header|..|p| - |tail|] == body;
  }

  lemma SplitBuiltBody(ctx: string, marker: string, query: string)
    requires '\n' !in marker && '\n' !in query
    ensures SplitBody(ctx + Separator + marker + query, marker) == Some((ctx, query))
  {
    var body := ctx + Separator + marker + query;
    assert '\n' !in marker + query;
    assert body == (ctx + "\n") + "\n" + (marker + query);
    LastNewlineBefore(ctx + "\n", marker + query);
    var k := |ctx| + 1;
    assert body[k - 1] == '\n';
    assert body[k + 1..k + 1 + |marker|] == marker;
    assert body[..k - 1] == ctx;
    assert body[k + 1 + |marker|..] == query;
  }

  /**
    * The prompt determines its context and its query, the context first,
    * whenever the query is a single line.
    */
  lemma ParseBuildPrompt(query: string, texts: seq<string>)
    requires '\n' !in query
    ensures ParsePrompt(BuildPrompt(query, texts)) == Some((ContextText(texts), query))
  {
    var body := ContextText(texts) + Separator + QueryLabel + query;
    SplitFramed(PromptHeader, body, QueryLabel, Separator + AdvisorInstruction);
    assert '\n' !in QueryLabel;
    SplitBuiltBody(ContextText(texts), QueryLabel, query);
  }

  /**
    * Asks the model to complete the prompt built from the query and the
    * texts of the context nodes, and answers with the completion's text.
    */
  function GenerateResponse(g: Generator, query: string, contextNodes: seq<SearchLogic.Node>,
                            complete: (Generator, string) -> string): (answer: string)
    reads set n | n in contextNodes
    ensures answer == complete(g, BuildPrompt(query, SearchLogic.Texts(contextNodes)))
  {
    complete(g, BuildPrompt(query, SearchLogic.Texts(contextNodes)))
  }
}
