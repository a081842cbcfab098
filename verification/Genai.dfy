/**
 The generation service's request handlers. The generative model is an
 uninterpreted function `Model` from prompt to reply; each handler returns
 its HTTP response together with the prompts it sent, in order, so that
 "no model call" and "this stage's output feeds the next" can be stated.
 */
module Genai {
  import opened Wrappers
  import opened Text
  import opened Prompts
  import opened CodeFence

  /** A model call's outcome: the reply text, or the message of the exception raised. */
  datatype Reply = Answer(text: string) | Raised(message: string)

  type Model = string -> Reply

  /** A JSON request body whose values are strings. */
  type Body = map<string, string>

  /** An HTTP response carrying the one-key JSON object `{key: value}` (`null` for `None`). */
  datatype Response = Response(status: int, key: string, value: Option<string>)

  /** A handler's response and the prompts it sent to the model. */
  datatype Exchange = Exchange(response: Response, prompts: seq<string>)

  /** The result of a helper that may call the model. */
  datatype Called = Called(text: string, prompts: seq<string>)

  const UnsupportedLanguage := "Error: Language not supported."
  const ProcessingFailed := "Error: Unable to process the code. "

  /** `str(KeyError(name))`. */
  function KeyErrorText(name: string): string { "'" + name + "'" }

  /** `data.get(key)`. */
  function Get(body: Body, key: string): Option<string> {
    if key in body then Some(body[key]) else None
  }

  // ---------------------------------------------------------------------
  // Model-calling helpers
  // ---------------------------------------------------------------------

  /** `get_generated_code`: the stripped reply, or "" when anything raises. */
  function GetGeneratedCode(model: Model, problem: string, language: string): (c: Called)
    ensures c.prompts == [GenerateIntro + language + GenerateTask + problem + GenerateFallback
      + language + GenerateRefusal + language + QuoteEnd]
    ensures model(c.prompts[0]).Raised? ==> c.text == ""
    ensures model(c.prompts[0]).Answer? ==> c.text == Strip(model(c.prompts[0]).text)
  {
    GenerateCodePromptFormat(problem, language);
    match Format(GenerateCodePrompt, map["problem_description" := problem, "language" := language])
    case Failure(_) => Called("", [])
    case Success(prompt) =>
      match model(prompt)
      case Answer(t) => Called(Strip(t), [prompt])
      case Raised(_) => Called("", [prompt])
  }

  /** `get_output`: the analysis reply, unstripped; an unsupported language calls no model. */
  function GetOutput(model: Model, code: string, language: string): (c: Called)
    ensures language !in LanguagesPrompts() ==> c == Called(UnsupportedLanguage, [])
    ensures language in LanguagesPrompts() ==>
      c.prompts == [AnalysisIntro + Subject(language) + AnalysisFenceOpen(language) + code + AnalysisFenceClose]
      && (model(c.prompts[0]).Answer? ==> c.text == model(c.prompts[0]).text)
      && (model(c.prompts[0]).Raised? ==> c.text == ProcessingFailed + model(c.prompts[0]).message)
  {
    if language in LanguagesPrompts() then
      AnalysisPromptInsertsCode(language, code);
      match Format(LanguagesPrompts()[language], map["code" := code])
      case Failure(e) => Called(ProcessingFailed + KeyErrorText(e), [])
      case Success(prompt) =>
        match model(prompt)
        case Answer(t) => Called(t, [prompt])
        case Raised(m) => Called(ProcessingFailed + m, [prompt])
    else
      Called(UnsupportedLanguage, [])
  }

  /** `refactor_code`: the stripped reply, or "" when anything raises. */
  function RefactorCode(model: Model, code: string, language: string): (c: Called)
    ensures c.prompts == [RefactorIntro + language + RefactorFenceOpen + code + RefactorFallback
      + language + RefactorRefusal]
    ensures model(c.prompts[0]).Raised? ==> c.text == ""
    ensures model(c.prompts[0]).Answer? ==> c.text == Strip(model(c.prompts[0]).text)
  {
    RefactorCodePromptFormat(code, language);
    match Format(RefactorCodePrompt, map["code" := code, "language" := language])
    case Failure(_) => Called("", [])
    case Success(prompt) =>
      match model(prompt)
      case Answer(t) => Called(Strip(t), [prompt])
      case Raised(_) => Called("", [prompt])
  }

  /** What one html/css/js stage makes of the model's reply to `prompt`. */
  function StageText(model: Model, prompt: string): string {
    match model(prompt)
    case Answer(t) => Strip(t)
    case Raised(m) => "Error: " + m
  }

  /** `generate_code_html_css_js(template, params)`. */
  function Stage(model: Model, template: Template, params: map<string, string>): (c: Called)
    ensures Format(template, params).Success? ==>
      c == Called(StageText(model, Format(template, params).value), [Format(template, params).value])
    ensures Format(template, params).Failure? ==>
      c == Called("Error: " + KeyErrorText(Format(template, params).error), [])
  {
    match Format(template, params)
    case Failure(e) => Called("Error: " + KeyErrorText(e), [])
    case Success(prompt) => Called(StageText(model, prompt), [prompt])
  }

  function HtmlStage(model: Model, prompt: string): (c: Called)
    ensures c.prompts == [HtmlIntro + prompt + "\n"]
    ensures c.text == StageText(model, c.prompts[0])
  {
    HtmlPromptFormat(prompt);
    Stage(model, HtmlPrompt, map["prompt" := prompt])
  }

  function CssStage(model: Model, html: string): (c: Called)
    ensures c.prompts == [HtmlFenceOpen + html + FenceClose]
    ensures c.text == StageText(model, c.prompts[0])
  {
    CssPromptFormat(html);
    Stage(model, CssPrompt, map["html_content" := html])
  }

  function JsStage(model: Model, html: string, css: string): (c: Called)
    ensures c.prompts == [HtmlFenceOpen + html + CssFenceOpen + css + FenceClose]
    ensures c.text == StageText(model, c.prompts[0])
  {
    JsPromptFormat(html, css);
    Stage(model, JsPrompt, map["html_content" := html, "css_content" := css])
  }

  /** The html, css and js stages run in order, each fed the previous outputs. */
  function Pipeline(model: Model, source: string, kind: string): (c: Called)
    requires kind in {"html", "css", "js"}
    ensures |c.prompts| == (if kind == "html" then 1 else if kind == "css" then 2 else 3)
    ensures c.prompts[0] == HtmlIntro + source + "\n"
    ensures kind != "html" ==>
      c.prompts[1] == HtmlFenceOpen + StageText(model, c.prompts[0]) + FenceClose
    ensures kind == "js" ==>
      c.prompts[2] == HtmlFenceOpen + StageText(model, c.prompts[0]) + CssFenceOpen
        + StageText(model, c.prompts[1]) + FenceClose
    ensures c.text == StageText(model, c.prompts[|c.prompts| - 1])
  {
    var html := HtmlStage(model, source);
    if kind == "html" then html
    else
      var css := CssStage(model, html.text);
      if kind == "css" then Called(css.text, html.prompts + css.prompts)
      else
        var js := JsStage(model, html.text, css.text);
        Called(js.text, html.prompts + css.prompts + js.prompts)
  }

  // ---------------------------------------------------------------------
  // Endpoints
  // ---------------------------------------------------------------------

  /** POST /generate_code. */
  function GenerateCodeApi(model: Model, body: Body): (x: Exchange)
    ensures "problem_description" !in body ==>
      x == Exchange(Response(400, "error", Some(KeyErrorText("problem_description"))), [])
    ensures "problem_description" in body && "language" !in body ==>
      x == Exchange(Response(400, "error", Some(KeyErrorText("language"))), [])
    ensures "problem_description" in body && "language" in body ==>
      var c := GetGeneratedCode(model, body["problem_description"], body["language"]);
      x == Exchange(Response(200, "code", ExtractCode(c.text)), c.prompts)
  {
    if "problem_description" !in body then
      Exchange(Response(400, "error", Some(KeyErrorText("problem_description"))), [])
    else if "language" !in body then
      Exchange(Response(400, "error", Some(KeyErrorText("language"))), [])
    else
      var c := GetGeneratedCode(model, body["problem_description"], body["language"]);
      Exchange(Response(200, "code", ExtractCode(c.text)), c.prompts)
  }

  /** POST /get-output. */
  function GetOutputApi(model: Model, body: Body): (x: Exchange)
    ensures "code" !in body ==> x == Exchange(Response(400, "error", Some(KeyErrorText("code"))), [])
    ensures "code" in body && "language" !in body ==>
      x == Exchange(Response(400, "error", Some(KeyErrorText("language"))), [])
    ensures "code" in body && "language" in body && body["language"] !in LanguagesPrompts() ==>
      x == Exchange(Response(200, "output", Some(UnsupportedLanguage)), [])
    ensures "code" in body && "language" in body && body["language"] in LanguagesPrompts() ==>
      var c := GetOutput(model, body["code"], body["language"]);
      x == Exchange(Response(200, "output", Some(c.text)), c.prompts)
  {
    if "code" !in body then
      Exchange(Response(400, "error", Some(KeyErrorText("code"))), [])
    else if "language" !in body then
      Exchange(Response(400, "error", Some(KeyErrorText("language"))), [])
    else
      var c := GetOutput(model, body["code"], body["language"]);
      Exchange(Response(200, "output", Some(c.text)), c.prompts)
  }

  /** POST /refactor_code. */
  function RefactorCodeApi(model: Model, body: Body): (x: Exchange)
    ensures "code" !in body ==> x == Exchange(Response(400, "error", Some(KeyErrorText("code"))), [])
    ensures "code" in body && "language" !in body ==>
      x == Exchange(Response(400, "error", Some(KeyErrorText("language"))), [])
    ensures "code" in body && "language" in body ==>
      var c := RefactorCode(model, body["code"], body["language"]);
      x == Exchange(Response(200, "code", ExtractCode(c.text)), c.prompts)
  {
    if "code" !in body then
      Exchange(Response(400, "error", Some(KeyErrorText("code"))), [])
    else if "language" !in body then
      Exchange(Response(400, "error", Some(KeyErrorText("language"))), [])
    else
      var c := RefactorCode(model, body["code"], body["language"]);
      Exchange(Response(200, "code", ExtractCode(c.text)), c.prompts)
  }

  const PromptAndTypeRequired := "Prompt and type are required."
  const InvalidType := "Invalid type. Please choose from 'html', 'css', or 'js'."
  const TypeRequired := "Type is required."
  const ContentMissing := "Please provide the appropriate content for the requested type."

  /** POST /htmlcssjsgenerate-code. */
  function HtmlCssJsGenerate(model: Model, body: Body): (x: Exchange)
    ensures x.response.status == 400 <==>
      !Truthy(Get(body, "prompt")) || !Truthy(Get(body, "type"))
      || body["type"] !in {"html", "css", "js"}
    ensures !Truthy(Get(body, "prompt")) || !Truthy(Get(body, "type")) ==>
      x == Exchange(Response(400, "error", Some(PromptAndTypeRequired)), [])
    ensures (Truthy(Get(body, "prompt")) && Truthy(Get(body, "type"))
      && body["type"] !in {"html", "css", "js"}) ==>
      x == Exchange(Response(400, "error", Some(InvalidType)), [])
    ensures Truthy(Get(body, "prompt")) && Truthy(Get(body, "type")) && body["type"] in {"html", "css", "js"} ==>
      x.response.status == 200
    ensures x.response.status == 200 ==>
      && x.response.key == body["type"]
      && x.prompts == Pipeline(model, body["prompt"], body["type"]).prompts
      && x.response.value == ExtractCode(StageText(model, x.prompts[|x.prompts| - 1]))
  {
    var prompt, kind := Get(body, "prompt"), Get(body, "type");
    if !Truthy(prompt) || !Truthy(kind) then
      Exchange(Response(400, "error", Some(PromptAndTypeRequired)), [])
    else if kind.value in {"html", "css", "js"} then
      var c := Pipeline(model, prompt.value, kind.value);
      Exchange(Response(200, kind.value, ExtractCode(c.text)), c.prompts)
    else
      Exchange(Response(400, "error", Some(InvalidType)), [])
  }

  /** The content a refactor request of this type needs before anything is generated. */
  predicate RefactorAdmits(kind: string, body: Body) {
    || (kind == "html" && Truthy(Get(body, "html")))
    || (kind == "css" && Truthy(Get(body, "html")))
    || (kind == "js" && Truthy(Get(body, "html")) && Truthy(Get(body, "css")))
  }

  /**
   POST /htmlcssjsrefactor-code. The supplied html is sent as the project
   description of `html_prompt`; the supplied css and js are never sent.
   */
  function HtmlCssJsRefactor(model: Model, body: Body): (x: Exchange)
    ensures !Truthy(Get(body, "type")) ==>
      x == Exchange(Response(400, "error", Some(TypeRequired)), [])
    ensures Truthy(Get(body, "type")) && !RefactorAdmits(body["type"], body) ==>
      x == Exchange(Response(400, "error", Some(ContentMissing)), [])
    ensures x.response.status == 200 <==> Truthy(Get(body, "type")) && RefactorAdmits(body["type"], body)
    ensures x.response.status == 200 ==>
      && x.response.key == body["type"]
      && x.prompts == Pipeline(model, body["html"], body["type"]).prompts
      && x.response.value == ExtractCode(StageText(model, x.prompts[|x.prompts| - 1]))
  {
    var html, kind := Get(body, "html"), Get(body, "type");
    if !Truthy(kind) then
      Exchange(Response(400, "error", Some(TypeRequired)), [])
    else if RefactorAdmits(kind.value, body) then
      var c := Pipeline(model, html.value, kind.value);
      Exchange(Response(200, kind.value, ExtractCode(c.text)), c.prompts)
    else
      Exchange(Response(400, "error", Some(ContentMissing)), [])
  }

  // ---------------------------------------------------------------------
  // Properties relating several calls
  // ---------------------------------------------------------------------

  /** A refactor request is decided by its `html`, `css` and `type` values alone. */
  lemma RefactorReadsThreeKeys(model: Model, a: Body, b: Body)
    requires Get(a, "html") == Get(b, "html") && Get(a, "css") == Get(b, "css")
    requires Get(a, "type") == Get(b, "type")
    ensures HtmlCssJsRefactor(model, a) == HtmlCssJsRefactor(model, b)
  {
  }

  /** The `js` value of a refactor request never influences the result. */
  lemma RefactorIgnoresJs(model: Model, body: Body, js: string)
    ensures HtmlCssJsRefactor(model, body["js" := js]) == HtmlCssJsRefactor(model, body)
    ensures HtmlCssJsRefactor(model, body - {"js"}) == HtmlCssJsRefactor(model, body)
  {
    assert Get(body["js" := js], "html") == Get(body, "html");
    assert Get(body["js" := js], "css") == Get(body, "css");
    assert Get(body["js" := js], "type") == Get(body, "type");
    RefactorReadsThreeKeys(model, body["js" := js], body);
    assert Get(body - {"js"}, "html") == Get(body, "html");
    assert Get(body - {"js"}, "css") == Get(body, "css");
    assert Get(body - {"js"}, "type") == Get(body, "type");
    RefactorReadsThreeKeys(model, body - {"js"}, body);
  }

  /** For html and css refactoring, the `css` value is never used either. */
  lemma RefactorCssIgnoresCss(model: Model, body: Body, css: string)
    requires Get(body, "type") in {Some("html"), Some("css")}
    ensures HtmlCssJsRefactor(model, body["css" := css]) == HtmlCssJsRefactor(model, body)
  {
    assert Get(body["css" := css], "html") == Get(body, "html");
    assert Get(body["css" := css], "type") == Get(body, "type");
  }

  /** Refactoring with html content sends exactly the prompts generation would for that description. */
  lemma RefactorIsGenerationOfHtml(model: Model, body: Body)
    requires Truthy(Get(body, "type")) && RefactorAdmits(body["type"], body)
    ensures HtmlCssJsRefactor(model, body) ==
      HtmlCssJsGenerate(model, map["prompt" := body["html"], "type" := body["type"]])
  {
    var g := map["prompt" := body["html"], "type" := body["type"]];
    assert Get(g, "prompt") == Some(body["html"]);
    assert Get(g, "type") == Some(body["type"]);
  }
}
