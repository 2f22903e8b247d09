/** The prompt builder and the query side of the LLM client: how a request
    (background, context, prompt, optional answer format) becomes one
    delimited query string, how that string is sent to the backend once, and
    how the backend's answer comes back. */
module Brain {
  import opened Wrappers
  import opened Builtins

  /** A pydantic model instance, seen only through what the prompt builder
      needs of it: the name of its class, `type(model).__name__`, and its
      `model_dump_json(indent=None, warnings=False)`. */
  datatype ModelValue = ModelValue(typeName: string, dumpJson: string)

  /** What format_data_model and ask may be handed as context: a str, a model,
      a list of these (nested lists included), or anything else, named by its
      type. Python's None is `Unsupported("NoneType")`. */
  datatype Data =
    | Str(text: string)
    | Model(model: ModelValue)
    | List(items: seq<Data>)
    | Unsupported(typeName: string)

  /** The model class handed as expected_format, seen through the foreign
      calls ask makes with it: the text of
      `json.dumps(model_json_schema(), indent=2)`, and the reading of a raw
      answer by `json.loads` followed by the class constructor, which either
      builds an instance or raises. */
  datatype ResponseFormat = ResponseFormat(schemaJson: string, parse: string -> Result<ModelValue, Exception>)

  datatype LLMRequest = LLMRequest(
    prompt: string,
    background: Option<string>,
    context: Data,
    expectedFormat: Option<ResponseFormat>)

  /** What ask returns: the raw answer, or the instance built from it. */
  datatype Answer = Raw(text: string) | Typed(model: ModelValue)

  const HtmlStyle := "<html>"
  const CapsStyle := "caps:"
  const ListSeparator := ",\n"
  const SchemaInstruction := "Please return an answer matching the below format (given by the pydantic basemodel.model_json_schema() function):\n"

  // ---------------------------------------------------------------------
  // apply_delimiter

  /** The content of an html-style block named `name`, if `block` is one. */
  function UnwrapTag(name: string, block: string): Option<string> {
    var open, close := "\n<" + name + ">\n", "\n</" + name + ">\n";
    if |open| + |close| <= |block| && block[..|open|] == open && block[|block| - |close|..] == close
    then Some(block[|open|..|block| - |close|])
    else None
  }

  /** The content of a caps-style block labelled `name`, if `block` is one: the
      head is upper-cased and there is no closing tag, only a final newline. */
  function UnwrapCaps(name: string, block: string): Option<string> {
    var open := "<" + Upper(name) + ":\n";
    if |open| + 1 <= |block| && block[..|open|] == open && block[|block| - 1] == '\n'
    then Some(block[|open|..|block| - 1])
    else None
  }

  /** apply_delimiter: wrap `query` in a block named `blockName`. The two known
      styles succeed and their blocks unwrap back to `query`; any other style
      raises ValueError and builds nothing. */
  function ApplyDelimiter(blockName: string, query: string, delimiterType: string): (r: Result<string, Exception>)
    ensures r.Ok? <==> delimiterType == HtmlStyle || delimiterType == CapsStyle
    ensures r.Err? ==> r.error == ValueError("invalid delimiter_type: " + delimiterType)
  {
    if delimiterType == HtmlStyle then Ok("\n<" + blockName + ">\n" + query + "\n</" + blockName + ">\n")
    else if delimiterType == CapsStyle then Ok("<" + Upper(blockName) + ":\n" + query + "\n")
    else Err(ValueError("invalid delimiter_type: " + delimiterType))
  }

  /** An html-style block gives back what it wraps. */
  lemma HtmlRoundTrip(blockName: string, query: string)
    ensures UnwrapTag(blockName, ApplyDelimiter(blockName, query, HtmlStyle).value) == Some(query)
  {
    var open, close := "\n<" + blockName + ">\n", "\n</" + blockName + ">\n";
    var block := ApplyDelimiter(blockName, query, HtmlStyle).value;
    assert block == open + query + close;
    ThreeParts(open, query, close);
  }

  /** A caps-style block gives back what it wraps. */
  lemma CapsRoundTrip(blockName: string, query: string)
    ensures UnwrapCaps(blockName, ApplyDelimiter(blockName, query, CapsStyle).value) == Some(query)
  {
    var head := "<" + Upper(blockName) + ":\n";
    var block := ApplyDelimiter(blockName, query, CapsStyle).value;
    assert block == head + query + "\n";
    ThreeParts(head, query, "\n");
  }

  /** The html-style block the query is assembled from; that style cannot fail. */
  function HtmlBlock(name: string, text: string): string {
    ApplyDelimiter(name, text, HtmlStyle).value
  }

  // ---------------------------------------------------------------------
  // format_data_model

  /** The values format_data_model renders without raising: strs, models and
      lists of them, however deeply nested. */
  predicate Formattable(d: Data) {
    match d
    case Str(_) => true
    case Model(_) => true
    case List(items) => forall k :: 0 <= k < |items| ==> Formattable(items[k])
    case Unsupported(_) => false
  }

  function UnsupportedType(typeName: string): Exception {
    TypeError("Arg model must be type BaseModel or list[BaseModel]; got <class '" + typeName + "'>")
  }

  /** format_data_model as it is evidently meant (see
      FormatDataModelAsWritten): with the `return query` its source lacks,
      and with a model's name read from its class, `type(model).__name__`.
      A str comes back verbatim, a model as its class name and JSON, a list as its rendered elements joined by ",\n"
      inside "{\n" ... "\n}". It raises TypeError exactly when some element,
      at any depth, is not a str, a model or a list. */
  function FormatDataModel(d: Data): (r: Result<string, Exception>)
    ensures r.Ok? <==> Formattable(d)
    ensures r.Err? ==> r.error.TypeError?
    ensures d.Str? ==> r == Ok(d.text)
    ensures d.Model? ==> r == Ok(d.model.typeName + ": " + d.model.dumpJson)
    ensures d.List? && r.Ok? ==> |r.value| >= 4 && r.value[..2] == "{\n" && r.value[|r.value| - 2..] == "\n}"
    decreases d, 1
  {
    match d
    case List(items) =>
      var parts :- FormatEach(items, d);
      var inner := Join(ListSeparator, parts);
      var r := "{\n" + inner + "\n}";
      assert r[..2] == "{\n" && r[|r| - 2..] == "\n}";
      Ok(r)
    case Model(m) => Ok(m.typeName + ": " + m.dumpJson)
    case Str(s) => Ok(s)
    case Unsupported(t) => Err(UnsupportedType(t))
  }

  /** The list comprehension inside format_data_model: render every element in
      order, stopping at the first that raises. */
  function FormatEach(items: seq<Data>, ghost parent: Data): (r: Result<seq<string>, Exception>)
    requires forall k :: 0 <= k < |items| ==> items[k] < parent
    ensures r.Ok? <==> forall k :: 0 <= k < |items| ==> Formattable(items[k])
    ensures r.Err? ==> r.error.TypeError?
    ensures r.Ok? ==> |r.value| == |items|
    ensures r.Ok? ==> forall k :: 0 <= k < |items| ==> FormatDataModel(items[k]) == Ok(r.value[k])
    decreases parent, 0, |items|
  {
    if items == [] then Ok([])
    else
      var first :- FormatDataModel(items[0]);
      var rest :- FormatEach(items[1..], parent);
      Ok([first] + rest)
  }

  /** A rendered list is exactly its elements' renderings, in order, joined
      by ",\n" inside "{\n" ... "\n}". */
  lemma ListRendering(items: seq<Data>)
    requires FormatDataModel(List(items)).Ok?
    ensures FormatDataModel(List(items)).value ==
      "{\n" + Join(ListSeparator, seq(|items|, k requires 0 <= k < |items| => FormatDataModel(items[k]).value)) + "\n}"
  {
    var parts := FormatEach(items, List(items)).value;
    assert parts == seq(|items|, k requires 0 <= k < |items| => FormatDataModel(items[k]).value);
  }

  /** The elements of a rendered list can be read back: the text between the
      braces splits at ",\n" into the elements' own renderings, provided
      there is at least one element and none of their renderings holds ",\n". */
  lemma ListRenderingSplitsBack(items: seq<Data>, parts: seq<string>)
    requires |items| == |parts| > 0
    requires forall k :: 0 <= k < |items| ==> FormatDataModel(items[k]) == Ok(parts[k])
    requires forall k :: 0 <= k < |parts| ==> !HoldsPair(parts[k], ListSeparator)
    ensures FormatDataModel(List(items)).Ok?
    ensures var r := FormatDataModel(List(items)).value;
      Split(r[2..|r| - 2], ListSeparator) == parts
  {
    var d := List(items);
    assert forall k :: 0 <= k < |items| ==> Formattable(items[k]);
    var each := FormatEach(items, d);
    assert each.value == parts;
    var inner := Join(ListSeparator, parts);
    var r := "{\n" + inner + "\n}";
    assert FormatDataModel(d).value == r;
    assert r[2..|r| - 2] == inner;
    SplitJoin(ListSeparator, parts);
  }

  /** The error an instance raises when asked for `__name__`, which only its
      class has. */
  function NoNameAttribute(typeName: string): Exception {
    AttributeError("'" + typeName + "' object has no attribute '__name__'")
  }

  /** format_data_model as chadGPT/brain.py:28-44 has it. Two things differ
      from the rendering it evidently means. The model branch reads
      `model.__name__` on an instance, and a pydantic instance has no such
      attribute, so it raises AttributeError. And the function ends without
      `return query`, so a call that does not raise returns None: a str, and
      an empty list, give None, while a non-empty list either raises on an
      element or hands ",\n".join a list of Nones, which raises TypeError.
      The rest of this model uses FormatDataModel. */
  function FormatDataModelAsWritten(d: Data): (r: Result<Option<string>, Exception>)
    ensures r.Ok? <==> d.Str? || d == List([])
    ensures r.Ok? ==> r.value == None
    ensures d.Model? ==> r == Err(NoNameAttribute(d.model.typeName))
    decreases d, 1
  {
    match d
    case List(items) =>
      var rendered :- FormatEachAsWritten(items, d);
      if rendered == [] then Ok(None)
      else Err(TypeError("sequence item 0: expected str instance, NoneType found"))
    case Model(m) => Err(NoNameAttribute(m.typeName))
    case Str(_) => Ok(None)
    case Unsupported(t) => Err(UnsupportedType(t))
  }

  /** The comprehension as written: it raises at the first element whose
      call raises, and otherwise collects one None per element. */
  function FormatEachAsWritten(items: seq<Data>, ghost parent: Data): (r: Result<seq<Option<string>>, Exception>)
    requires forall k :: 0 <= k < |items| ==> items[k] < parent
    ensures r.Ok? <==> forall k :: 0 <= k < |items| ==> FormatDataModelAsWritten(items[k]).Ok?
    ensures r.Ok? ==> |r.value| == |items| && forall k :: 0 <= k < |r.value| ==> r.value[k] == None
    decreases parent, 0, |items|
  {
    if items == [] then Ok([])
    else
      var first :- FormatDataModelAsWritten(items[0]);
      var rest :- FormatEachAsWritten(items[1..], parent);
      Ok([first] + rest)
  }

  /** As written, format_data_model never yields the text it builds: on every
      input it either raises or returns None, and on every input the corrected
      version renders it raises or returns None instead. */
  lemma {:induction false} AsWrittenNeverReturnsText(d: Data)
    ensures FormatDataModel(d).Ok? ==> FormatDataModelAsWritten(d) != Ok(Some(FormatDataModel(d).value))
    ensures d.List? && |d.items| > 0 ==> FormatDataModelAsWritten(d).Err?
  {
  }

  // ---------------------------------------------------------------------
  // ask

  /** The text an f-string gives for an optional str: the str itself, or the
      literal "None". */
  function Render(x: Option<string>): (r: string)
    ensures x.None? ==> r == "None"
    ensures x.Some? ==> r == x.value
  {
    match x
    case Some(s) => s
    case None => "None"
  }

  /** The context text ask delimits: a str is used verbatim, without going
      through format_data_model; anything else is rendered by it. */
  function ContextText(context: Data): (r: Result<string, Exception>)
    ensures context.Str? ==> r == Ok(context.text) && r == FormatDataModel(context)
    ensures !context.Str? ==> r == FormatDataModel(context)
  {
    if context.Str? then Ok(context.text) else FormatDataModel(context)
  }

  const PromptOpen := "\n<prompt> "
  const PromptClose := " </prompt>\n"

  /** The prompt line: the prompt verbatim between "<prompt> " on a fresh
      line and " </prompt>" ending its line. */
  function PromptBlock(prompt: string): (r: string)
    ensures |r| == |PromptOpen| + |prompt| + |PromptClose|
    ensures r[..|PromptOpen|] == PromptOpen
    ensures r[|PromptOpen|..|r| - |PromptClose|] == prompt
    ensures r[|r| - |PromptClose|..] == PromptClose
  {
    var r := PromptOpen + prompt + PromptClose;
    ThreeParts(PromptOpen, prompt, PromptClose);
    r
  }

  /** What follows the prompt block: nothing without an expected format, and
      otherwise the instruction line followed by the JSON schema. */
  function SchemaBlock(expectedFormat: Option<ResponseFormat>): (r: string)
    ensures r == [] <==> expectedFormat.None?
    ensures expectedFormat.Some? ==> SchemaInstruction <= r
    ensures expectedFormat.Some? ==> r[|SchemaInstruction|..] == expectedFormat.value.schemaJson
  {
    if expectedFormat.None? then "" else SchemaInstruction + expectedFormat.value.schemaJson
  }

  /** The query ask builds before it calls submit_query. It fails, with a
      TypeError, exactly when the context is neither a str nor formattable.
      Otherwise it is the background block (the literal "None" inside it when
      there is no background), then the context block, then the prompt block,
      then the schema instruction and schema if and only if an expected format
      is given. */
  function Query(request: LLMRequest): (r: Result<string, Exception>)
    ensures r.Ok? <==> request.context.Str? || Formattable(request.context)
    ensures r.Err? ==> r.error.TypeError? && r == FormatDataModel(request.context)
    ensures r.Ok? ==>
      (r.value == HtmlBlock("background", Render(request.background))
                  + HtmlBlock("context", ContextText(request.context).value)
                  + PromptBlock(request.prompt)
                  + SchemaBlock(request.expectedFormat))
  {
    var background := HtmlBlock("background", Render(request.background));
    var contextText :- ContextText(request.context);
    var context := HtmlBlock("context", contextText);
    Ok(background + context + PromptBlock(request.prompt) + SchemaBlock(request.expectedFormat))
  }

  /** The blocks of a query can be read back from it: the background block
      holds the background (or "None"), the context block holds the context
      text, and the prompt sits verbatim between "<prompt> " and " </prompt>". */
  lemma QueryReadsBack(request: LLMRequest)
    requires Query(request).Ok?
    ensures var q := Query(request).value;
      var b := HtmlBlock("background", Render(request.background));
      var c := HtmlBlock("context", ContextText(request.context).value);
      var p := |b| + |c| + |PromptOpen|;
      (&& UnwrapTag("background", q[..|b|]) == Some(Render(request.background))
       && (request.background.None? ==> UnwrapTag("background", q[..|b|]) == Some("None"))
       && UnwrapTag("context", q[|b|..|b| + |c|]) == Some(ContextText(request.context).value)
       && p + |request.prompt| <= |q|
       && q[p..p + |request.prompt|] == request.prompt
       && q[p + |request.prompt|..] == PromptClose + SchemaBlock(request.expectedFormat))
  {
    var q := Query(request).value;
    var contextText := ContextText(request.context).value;
    HtmlRoundTrip("background", Render(request.background));
    HtmlRoundTrip("context", contextText);
    var b := HtmlBlock("background", Render(request.background));
    var c := HtmlBlock("context", ContextText(request.context).value);
    var t := PromptBlock(request.prompt) + SchemaBlock(request.expectedFormat);
    PromptThenTail(request.prompt, SchemaBlock(request.expectedFormat));
    Regroup(b, c, PromptBlock(request.prompt), SchemaBlock(request.expectedFormat));
    assert q == b + c + t;
    ThreeParts(b, c, t);
    var p := |b| + |c| + |PromptOpen|;
    assert q[|b| + |c|..] == t;
    assert q[p..p + |request.prompt|] == t[|PromptOpen|..|PromptOpen| + |request.prompt|];
    assert q[p + |request.prompt|..] == t[|PromptOpen| + |request.prompt|..];
  }

  /** Where the prompt and what follows it sit in the prompt block followed
      by `tail`. */
  lemma PromptThenTail(prompt: string, tail: string)
    ensures var t := PromptBlock(prompt) + tail;
      && |PromptOpen| + |prompt| <= |t|
      && t[|PromptOpen|..|PromptOpen| + |prompt|] == prompt
      && t[|PromptOpen| + |prompt|..] == PromptClose + tail
  {
    ThreeParts(PromptOpen, prompt, PromptClose + tail);
    assert PromptBlock(prompt) + tail == PromptOpen + prompt + (PromptClose + tail);
  }

  lemma Regroup(w: string, x: string, y: string, z: string)
    ensures w + x + y + z == w + x + (y + z)
  {
  }

  /** Where the three parts of a concatenation sit in it. */
  lemma ThreeParts(x: string, y: string, z: string)
    ensures (x + y + z)[..|x|] == x
    ensures (x + y + z)[|x|..|x| + |y|] == y
    ensures (x + y + z)[|x| + |y|..] == z
  {
  }

  /** What ask makes of the raw answer: without an expected format it is
      returned unchanged; with one it is parsed into an instance, and a parse
      failure is raised. */
  function Interpret(expectedFormat: Option<ResponseFormat>, raw: string): (r: Result<Answer, Exception>)
    ensures expectedFormat.None? ==> r == Ok(Raw(raw))
    ensures expectedFormat.Some? ==> r.Ok? == expectedFormat.value.parse(raw).Ok?
    ensures expectedFormat.Some? && r.Ok? ==> r.value == Typed(expectedFormat.value.parse(raw).value)
    ensures expectedFormat.Some? && r.Err? ==> r.error == expectedFormat.value.parse(raw).error
  {
    match expectedFormat
    case None => Ok(Raw(raw))
    case Some(format) =>
      match format.parse(raw)
      case Ok(model) => Ok(Typed(model))
      case Err(e) => Err(e)
  }

  /** An LLM backend. Its submit_query is foreign (a console paste, a network
      call), so the model sees it as a fixed function from query to raw
      answer, and records every query the backend has been sent. */
  class LLM {
    const respond: string -> string
    var sent: seq<string>

    constructor (respond: string -> string)
      ensures this.respond == respond && sent == []
    {
      this.respond := respond;
      sent := [];
    }

    method SubmitQuery(query: string) returns (answer: string)
      modifies this
      ensures sent == old(sent) + [query]
      ensures answer == respond(query)
    {
      sent := sent + [query];
      answer := respond(query);
    }

    /** ask: assemble the query, send it once, interpret the answer. When the
        query cannot be assembled the TypeError is raised before anything is
        sent; otherwise exactly the full query is sent, exactly once. */
    method Ask(request: LLMRequest) returns (r: Result<Answer, Exception>)
      modifies this
      ensures Query(request).Err? ==> sent == old(sent) && r == Err(Query(request).error)
      ensures Query(request).Ok? ==>
        && sent == old(sent) + [Query(request).value]
        && r == Interpret(request.expectedFormat, respond(Query(request).value))
      ensures Query(request).Ok? && request.expectedFormat.None? ==>
        r == Ok(Raw(respond(Query(request).value)))
      ensures Query(request).Ok? && request.expectedFormat.Some? ==>
        var parsed := request.expectedFormat.value.parse(respond(Query(request).value));
        (&& (parsed.Ok? ==> r == Ok(Typed(parsed.value)))
         && (parsed.Err? ==> r == Err(parsed.error)))
    {
      var query := "";
      query := query + HtmlBlock("background", Render(request.background));
      assert query == HtmlBlock("background", Render(request.background));
      ghost var contextText: string;
      if request.context.Str? {
        contextText := request.context.text;
        query := query + HtmlBlock("context", request.context.text);
      } else {
        var text :- FormatDataModel(request.context);
        contextText := text;
        query := query + HtmlBlock("context", text);
      }
      assert Query(request).Ok? && ContextText(request.context).value == contextText;
      query := query + PromptBlock(request.prompt);
      if request.expectedFormat.Some? {
        ghost var head := query;
        query := query + SchemaInstruction;
        query := query + request.expectedFormat.value.schemaJson;
        assert query == head + SchemaBlock(request.expectedFormat);
      }
      assert query == Query(request).value;
      var answer := SubmitQuery(query);
      if request.expectedFormat.Some? {
        var model :- request.expectedFormat.value.parse(answer);
        r := Ok(Typed(model));
      } else {
        r := Ok(Raw(answer));
      }
    }
  }
}
