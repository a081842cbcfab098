/**
 The prompt templates of the generation service and Python's `str.format`
 on them. A template is a sequence of literal text pieces and named
 replacement fields `{name}`. The natural-language wording of the prompts
 is elided: each elided passage stands as `…`; the code fences around the
 fields and the replacement fields themselves are kept exactly.
 */
module Prompts {
  import opened Wrappers

  /** Literal text that `str.format` copies unchanged: it holds no brace. */
  predicate Plain(t: string) { '{' !in t && '}' !in t }

  /** Brace-free text, so that formatting cannot fail on a stray brace. */
  type PlainText = t: string | Plain(t) witness ""

  /** A template piece: literal text, or the replacement field `{name}`. */
  datatype Piece = Lit(text: PlainText) | Field(name: string)

  type Template = seq<Piece>

  /** The replacement-field names in order of appearance. */
  function Fields(t: Template): seq<string> {
    if |t| == 0 then []
    else (if t[0].Field? then [t[0].name] else []) + Fields(t[1..])
  }

  /** The template's literal text with the fields left out. */
  function Literal(t: Template): string {
    if |t| == 0 then ""
    else (if t[0].Lit? then t[0].text else "") + Literal(t[1..])
  }

  /** The template written out as Python source text. */
  function Source(t: Template): string {
    if |t| == 0 then ""
    else (if t[0].Lit? then t[0].text else "{" + t[0].name + "}") + Source(t[1..])
  }

  /**
   `template.format(**args)`. A field whose name is not among the keyword
   arguments raises KeyError, modelled as `Failure(name)` for the first such
   field; extra keyword arguments are ignored.
   */
  function Format(t: Template, args: map<string, string>): (r: Result<string, string>)
    ensures r.Success? <==> Bound(t, args)
    ensures r.Failure? ==> r.error in Fields(t) && r.error !in args
  {
    if |t| == 0 then Success("")
    else
      match FormatPiece(t[0], args)
      case Failure(e) => Failure(e)
      case Success(h) =>
        match Format(t[1..], args)
        case Failure(e) => Failure(e)
        case Success(rest) => Success(h + rest)
  }

  /** Every field of the template, from the first piece on, has an argument. */
  predicate Bound(t: Template, args: map<string, string>) {
    |t| == 0 || ((t[0].Field? ==> t[0].name in args) && Bound(t[1..], args))
  }

  /** `Bound` says that every field name is among the arguments. */
  lemma {:induction false} BoundIff(t: Template, args: map<string, string>)
    ensures Bound(t, args) <==> forall f :: f in Fields(t) ==> f in args
  {
    if |t| > 0 {
      BoundIff(t[1..], args);
      assert forall f :: f in Fields(t) <==> (t[0].Field? && f == t[0].name) || f in Fields(t[1..]);
    }
  }

  /** One piece formatted: literal text as is, a field replaced by its argument. */
  function FormatPiece(p: Piece, args: map<string, string>): Result<string, string> {
    match p
    case Lit(text) => Success(text)
    case Field(name) => if name in args then Success(args[name]) else Failure(name)
  }

  // ---------------------------------------------------------------------
  // Properties of formatting
  // ---------------------------------------------------------------------

  lemma {:induction false} FieldsAppend(a: Template, b: Template)
    ensures Fields(a + b) == Fields(a) + Fields(b)
    ensures Literal(a + b) == Literal(a) + Literal(b)
  {
    if |a| == 0 {
      assert a + b == b;
    } else {
      FieldsAppend(a[1..], b);
      assert (a + b)[1..] == a[1..] + b;
      var h := if a[0].Field? then [a[0].name] else [];
      AppendAssoc(h, Fields(a[1..]), Fields(b));
      var l := if a[0].Lit? then a[0].text else "";
      AppendAssoc(l, Literal(a[1..]), Literal(b));
    }
  }

  lemma {:induction false} FormatAppend(a: Template, b: Template, args: map<string, string>)
    requires Format(a, args).Success? && Format(b, args).Success?
    ensures Format(a + b, args) == Success(Format(a, args).value + Format(b, args).value)
  {
    if |a| == 0 {
      assert a + b == b;
      AppendEmpty(Format(b, args).value);
    } else {
      FormatAppend(a[1..], b, args);
      assert (a + b)[1..] == a[1..] + b;
      AppendAssoc(FormatPiece(a[0], args).value, Format(a[1..], args).value, Format(b, args).value);
    }
  }

  lemma AppendAssoc<T>(x: seq<T>, y: seq<T>, z: seq<T>)
    ensures x + (y + z) == (x + y) + z
  {
  }

  lemma AppendEmpty<T>(x: seq<T>)
    ensures [] + x == x
  {
  }

  /** `Fields` of a suffix, one piece at a time. */
  lemma FieldsAt(t: Template, k: nat)
    requires k < |t|
    ensures Fields(t[k..]) == (if t[k].Field? then [t[k].name] else []) + Fields(t[k + 1..])
  {
    assert t[k..][0] == t[k];
    assert t[k..][1..] == t[k + 1..];
  }

  /** A template without fields formats to its literal text, whatever the arguments. */
  lemma {:induction false} FormatNoFields(t: Template, args: map<string, string>)
    requires Fields(t) == []
    ensures Format(t, args) == Success(Literal(t))
  {
    if |t| > 0 {
      assert Fields(t[1..]) == [];
      FormatNoFields(t[1..], args);
    }
  }

  /**
   A template whose only field is `f`, at piece `k`, formats to the text
   before the field, the argument verbatim, then the text after it.
   */
  lemma FormatOneField(t: Template, k: nat, args: map<string, string>)
    requires k < |t| && t[k].Field? && Fields(t) == [t[k].name]
    requires t[k].name in args
    ensures Format(t, args) == Success(Literal(t[..k]) + args[t[k].name] + Literal(t[k + 1..]))
  {
    var before, here, after := t[..k], [t[k]], t[k + 1..];
    assert t == before + (here + after);
    FieldsAppend(before, here + after);
    FieldsAppend(here, after);
    assert here[1..] == [];
    assert Fields(here) == [t[k].name];
    assert Fields(before) == [] && Fields(after) == [];
    FormatNoFields(before, args);
    FormatNoFields(after, args);
    assert Format(here, args) == Success(args[t[k].name] + "");
    assert args[t[k].name] + "" == args[t[k].name];
    FormatAppend(here, after, args);
    FormatAppend(before, here + after, args);
    var x, y, z := Literal(before), args[t[k].name], Literal(after);
    assert Format(t, args) == Success(x + (y + z));
    assert x + (y + z) == x + y + z;
  }

  // ---------------------------------------------------------------------
  // The templates
  // ---------------------------------------------------------------------

  /** The keys of `languages_prompts`, in their order of definition. */
  const AnalysisLanguages: seq<string> := [
    "python", "javascript", "c", "cpp", "java", "csharp", "rust", "go", "shell", "sql",
    "mongodb", "swift", "ruby", "typescript", "dart", "kotlin", "perl", "scala", "julia"
  ]

  /** How each analysis prompt names what it analyses. */
  function Subject(language: string): (r: string)
    ensures Plain(r)
  {
    match language
    case "python" => "Python code"
    case "javascript" => "JavaScript code"
    case "c" => "C code"
    case "cpp" => "C++ code"
    case "java" => "Java code"
    case "csharp" => "C# code"
    case "rust" => "Rust code"
    case "go" => "Go code"
    case "shell" => "Shell script"
    case "sql" => "SQL query"
    case "mongodb" => "MongoDB query"
    case "swift" => "Swift code"
    case "ruby" => "Ruby code"
    case "typescript" => "TypeScript code"
    case "dart" => "Dart code"
    case "kotlin" => "Kotlin code"
    case "perl" => "Perl code"
    case "scala" => "Scala code"
    case "julia" => "Julia code"
    case _ => "code"
  }

  /** The execution-output prompt for one language: the snippet inside a four-space-indented fence. */
  function AnalysisPrompt(language: string): Template {
    [Lit(AnalysisIntro + Subject(language) + AnalysisFenceOpen(language)), Field("code"), Lit(AnalysisFenceClose)]
  }
  const AnalysisIntro: PlainText := "\n    Analyze the following "
  /** The fence opening before `{code}`; the javascript entry's blank line keeps its four-space indent. */
  function AnalysisFenceOpen(language: string): PlainText {
    if language == "javascript" then ":\n    \n    ```\n    " else ":\n\n    ```\n    "
  }
  const AnalysisFenceClose: PlainText := "\n    ```\n\n    …\n    "

  /** `languages_prompts`. */
  function LanguagesPrompts(): map<string, Template> {
    map l | l in AnalysisLanguages :: AnalysisPrompt(l)
  }

  /** `html_prompt`. */
  const HtmlPrompt: Template := [Lit(HtmlIntro), Field("prompt"), Lit("\n")]
  const HtmlIntro: PlainText := "\n…\n\nProject … "

  /** `css_prompt`. */
  const CssPrompt: Template := [Lit(HtmlFenceOpen), Field("html_content"), Lit(FenceClose)]
  const HtmlFenceOpen: PlainText := "\n…\n\nHTML:\n```html\n"
  const FenceClose: PlainText := "\n```\n"

  /** `js_prompt`. */
  const JsPrompt: Template := [
    Lit(HtmlFenceOpen), Field("html_content"), Lit(CssFenceOpen), Field("css_content"), Lit(FenceClose)
  ]
  const CssFenceOpen: PlainText := "\n```\n\nCSS:\n```css\n"

  /** `generate_code_prompt`. */
  const GenerateCodePrompt: Template := [
    Lit(GenerateIntro), Field("language"), Lit(GenerateTask), Field("problem_description"),
    Lit(GenerateFallback), Field("language"), Lit(GenerateRefusal), Field("language"), Lit(QuoteEnd)
  ]
  const GenerateIntro: PlainText := "\nGenerate code in "
  const GenerateTask: PlainText := " … problem:\n\n"
  const GenerateFallback: PlainText := "\n\nOutput:\n\n… in "
  const GenerateRefusal: PlainText := ", return \"… in "
  const QuoteEnd: PlainText := ".\"\n"

  /** `refactor_code_prompt`. */
  const RefactorCodePrompt: Template := [
    Lit(RefactorIntro), Field("language"), Lit(RefactorFenceOpen), Field("code"),
    Lit(RefactorFallback), Field("language"), Lit(RefactorRefusal)
  ]
  const RefactorIntro: PlainText := "\nRefactor … written in "
  const RefactorFenceOpen: PlainText := ". …\n\n```\n"
  const RefactorFallback: PlainText := "\n```\n\n… as valid "
  const RefactorRefusal: PlainText := ", return \"…\"\n"

  // ---------------------------------------------------------------------
  // The analysis table
  // ---------------------------------------------------------------------

  /** The analysis table has nineteen distinct keys. */
  lemma LanguagesPromptsKeys()
    ensures LanguagesPrompts().Keys == set l | l in AnalysisLanguages
    ensures |LanguagesPrompts().Keys| == 19
    ensures Distinct(AnalysisLanguages)
  {
    DistinctCard(AnalysisLanguages);
  }

  predicate Distinct<T(==)>(s: seq<T>) {
    forall i, j :: 0 <= i < j < |s| ==> s[i] != s[j]
  }

  lemma {:induction false} DistinctCard<T>(s: seq<T>)
    requires Distinct(s)
    ensures |set x | x in s| == |s|
  {
    if |s| > 0 {
      DistinctCard(s[1..]);
      assert (set x | x in s) == {s[0]} + (set x | x in s[1..]);
    }
  }

  // ---------------------------------------------------------------------
  // Templates of alternating text and fields
  // ---------------------------------------------------------------------

  /** A literal piece then a field: `Fields` and `Format` peel both off at once. */
  lemma LitFieldStep(t: Template, args: map<string, string>)
    requires |t| >= 2 && t[0].Lit? && t[1].Field?
    ensures Fields(t) == [t[1].name] + Fields(t[2..])
    ensures t[1].name in args && Format(t[2..], args).Success? ==>
      Format(t, args) == Success(t[0].text + (args[t[1].name] + Format(t[2..], args).value))
  {
    assert t[1..][0] == t[1];
    assert t[1..][1..] == t[2..];
  }

  /** Text, field, text. */
  lemma Shape3(t: Template, args: map<string, string>)
    requires |t| == 3 && t[0].Lit? && t[1].Field? && t[2].Lit?
    ensures Fields(t) == [t[1].name]
    ensures t[1].name in args ==>
      Format(t, args) == Success(t[0].text + (args[t[1].name] + t[2].text))
  {
    var r := t[2..];
    assert r == [t[2]] && r[1..] == [];
    assert Format(r, args) == Success(t[2].text + "");
    assert t[2].text + "" == t[2].text;
    LitFieldStep(t, args);
  }

  /** Text and field twice, then text. */
  lemma Shape5(t: Template, args: map<string, string>)
    requires |t| == 5 && t[0].Lit? && t[1].Field? && t[2].Lit? && t[3].Field? && t[4].Lit?
    ensures Fields(t) == [t[1].name, t[3].name]
    ensures t[1].name in args && t[3].name in args ==>
      Format(t, args) == Success(t[0].text + (args[t[1].name] + (t[2].text + (args[t[3].name] + t[4].text))))
  {
    var r := t[2..];
    assert r[0] == t[2] && r[1] == t[3] && r[2] == t[4];
    Shape3(r, args);
    LitFieldStep(t, args);
  }

  /** Text and field three times, then text. */
  lemma Shape7(t: Template, args: map<string, string>)
    requires |t| == 7 && t[0].Lit? && t[1].Field? && t[2].Lit? && t[3].Field? && t[4].Lit?
    requires t[5].Field? && t[6].Lit?
    ensures Fields(t) == [t[1].name, t[3].name, t[5].name]
    ensures t[1].name in args && t[3].name in args && t[5].name in args ==>
      Format(t, args) == Success(t[0].text + (args[t[1].name] + (t[2].text + (args[t[3].name]
        + (t[4].text + (args[t[5].name] + t[6].text))))))
  {
    var r := t[2..];
    assert r[0] == t[2] && r[1] == t[3] && r[2] == t[4] && r[3] == t[5] && r[4] == t[6];
    Shape5(r, args);
    LitFieldStep(t, args);
  }

  /** Text and field four times, then text. */
  lemma Shape9(t: Template, args: map<string, string>)
    requires |t| == 9 && t[0].Lit? && t[1].Field? && t[2].Lit? && t[3].Field? && t[4].Lit?
    requires t[5].Field? && t[6].Lit? && t[7].Field? && t[8].Lit?
    ensures Fields(t) == [t[1].name, t[3].name, t[5].name, t[7].name]
    ensures t[1].name in args && t[3].name in args && t[5].name in args && t[7].name in args ==>
      Format(t, args) == Success(t[0].text + (args[t[1].name] + (t[2].text + (args[t[3].name]
        + (t[4].text + (args[t[5].name] + (t[6].text + (args[t[7].name] + t[8].text))))))))
  {
    var r := t[2..];
    assert r[0] == t[2] && r[1] == t[3] && r[2] == t[4] && r[3] == t[5] && r[4] == t[6];
    assert r[5] == t[7] && r[6] == t[8];
    Shape7(r, args);
    LitFieldStep(t, args);
  }

  /** Right-nested concatenation of three to nine strings, regrouped to the left. */
  lemma Regroup3(a: string, b: string, c: string)
    ensures a + (b + c) == a + b + c
  {
  }

  lemma Regroup5(a: string, b: string, c: string, d: string, e: string)
    ensures a + (b + (c + (d + e))) == a + b + c + d + e
  {
    AppendAssoc(a, b, c + (d + e));
    AppendAssoc(a + b, c, d + e);
    AppendAssoc(a + b + c, d, e);
  }

  lemma Regroup7(a: string, b: string, c: string, d: string, e: string, f: string, g: string)
    ensures a + (b + (c + (d + (e + (f + g))))) == a + b + c + d + e + f + g
  {
    AppendAssoc(a, b, c + (d + (e + (f + g))));
    Regroup5(a + b, c, d, e, f + g);
    AppendAssoc(a + b + c + d + e, f, g);
  }

  lemma Regroup9(a: string, b: string, c: string, d: string, e: string, f: string, g: string,
                 h: string, i: string)
    ensures a + (b + (c + (d + (e + (f + (g + (h + i))))))) == a + b + c + d + e + f + g + h + i
  {
    AppendAssoc(a, b, c + (d + (e + (f + (g + (h + i))))));
    Regroup7(a + b, c, d, e, f, g, h + i);
    AppendAssoc(a + b + c + d + e + f + g, h, i);
  }

  // ---------------------------------------------------------------------
  // Facts about each template
  // ---------------------------------------------------------------------

  /**
   Every analysis template has exactly one field, `{code}`, on its own line
   inside a code fence; formatting inserts the snippet there verbatim, once.
   */
  lemma AnalysisPromptInsertsCode(language: string, code: string)
    requires language in LanguagesPrompts()
    ensures Fields(LanguagesPrompts()[language]) == ["code"]
    ensures Format(LanguagesPrompts()[language], map["code" := code]) ==
      Success(AnalysisIntro + Subject(language) + AnalysisFenceOpen(language) + code + AnalysisFenceClose)
  {
    var t := AnalysisPrompt(language);
    Shape3(t, map["code" := code]);
    Regroup3(t[0].text, code, AnalysisFenceClose);
  }

  /** `html_prompt` has the single field `{prompt}`. */
  lemma HtmlPromptFields()
    ensures Fields(HtmlPrompt) == ["prompt"]
  {
    Shape3(HtmlPrompt, map[]);
  }

  /** `css_prompt` has the single field `{html_content}`, inside an html fence. */
  lemma CssPromptFields()
    ensures Fields(CssPrompt) == ["html_content"]
  {
    Shape3(CssPrompt, map[]);
  }

  /** `js_prompt` has exactly `{html_content}` then `{css_content}`. */
  lemma JsPromptFields()
    ensures Fields(JsPrompt) == ["html_content", "css_content"]
  {
    Shape5(JsPrompt, map[]);
  }

  /** `{problem_description}` appears once and `{language}` three times. */
  lemma GenerateCodePromptFields()
    ensures Fields(GenerateCodePrompt) == ["language", "problem_description", "language", "language"]
  {
    Shape9(GenerateCodePrompt, map[]);
  }

  /** Counted: three `{language}` fields and one `{problem_description}`. */
  lemma GenerateCodePromptFieldCounts()
    ensures multiset(Fields(GenerateCodePrompt))["language"] == 3
    ensures multiset(Fields(GenerateCodePrompt))["problem_description"] == 1
  {
    GenerateCodePromptFields();
    var f: seq<string> := ["language", "problem_description", "language", "language"];
    assert f == ["language"] + ["problem_description"] + ["language"] + ["language"];
    assert multiset(f) == multiset{"language", "problem_description", "language", "language"};
  }

  /** `{code}` appears once, fenced, and `{language}` twice. */
  lemma RefactorCodePromptFields()
    ensures Fields(RefactorCodePrompt) == ["language", "code", "language"]
  {
    Shape7(RefactorCodePrompt, map[]);
  }

  // ---------------------------------------------------------------------
  // Formatting each template with the arguments its caller passes
  // ---------------------------------------------------------------------

  lemma HtmlPromptFormat(prompt: string)
    ensures Format(HtmlPrompt, map["prompt" := prompt]) == Success(HtmlIntro + prompt + "\n")
  {
    Shape3(HtmlPrompt, map["prompt" := prompt]);
    Regroup3(HtmlIntro, prompt, "\n");
  }

  lemma CssPromptFormat(html: string)
    ensures Format(CssPrompt, map["html_content" := html]) == Success(HtmlFenceOpen + html + FenceClose)
  {
    Shape3(CssPrompt, map["html_content" := html]);
    Regroup3(HtmlFenceOpen, html, FenceClose);
  }

  lemma JsPromptFormat(html: string, css: string)
    ensures Format(JsPrompt, map["html_content" := html, "css_content" := css]) ==
      Success(HtmlFenceOpen + html + CssFenceOpen + css + FenceClose)
  {
    Shape5(JsPrompt, map["html_content" := html, "css_content" := css]);
    Regroup5(HtmlFenceOpen, html, CssFenceOpen, css, FenceClose);
  }

  lemma GenerateCodePromptFormat(problem: string, language: string)
    ensures Format(GenerateCodePrompt, map["problem_description" := problem, "language" := language]) ==
      Success(GenerateIntro + language + GenerateTask + problem + GenerateFallback + language
        + GenerateRefusal + language + QuoteEnd)
  {
    Shape9(GenerateCodePrompt, map["problem_description" := problem, "language" := language]);
    Regroup9(GenerateIntro, language, GenerateTask, problem, GenerateFallback, language,
      GenerateRefusal, language, QuoteEnd);
  }

  lemma RefactorCodePromptFormat(code: string, language: string)
    ensures Format(RefactorCodePrompt, map["code" := code, "language" := language]) ==
      Success(RefactorIntro + language + RefactorFenceOpen + code + RefactorFallback + language
        + RefactorRefusal)
  {
    Shape7(RefactorCodePrompt, map["code" := code, "language" := language]);
    Regroup7(RefactorIntro, language, RefactorFenceOpen, code, RefactorFallback, language,
      RefactorRefusal);
  }

  // ---------------------------------------------------------------------
  // The written template and its braces
  // ---------------------------------------------------------------------

  /**
   Written out as source, a template with brace-free field names holds one
   `{` and one `}` per field and no other brace: there is no stray brace for
   `str.format` to reject.
   */
  lemma {:induction false} SourceBraces(t: Template)
    requires forall k :: 0 <= k < |t| && t[k].Field? ==> Plain(t[k].name)
    ensures multiset(Source(t))['{'] == |Fields(t)|
    ensures multiset(Source(t))['}'] == |Fields(t)|
  {
    if |t| > 0 {
      SourceBraces(t[1..]);
      var head := if t[0].Lit? then t[0].text else "{" + t[0].name + "}";
      assert Source(t) == head + Source(t[1..]);
      assert multiset(Source(t)) == multiset(head) + multiset(Source(t[1..]));
      if t[0].Lit? {
        assert multiset(head)['{'] == 0 && multiset(head)['}'] == 0;
      } else {
        var n := t[0].name;
        assert multiset(head) == multiset{'{'} + multiset(n) + multiset{'}'};
        assert multiset(n)['{'] == 0 && multiset(n)['}'] == 0;
      }
    }
  }
}
