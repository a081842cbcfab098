/**
 The page routes: the authentication test, the two guards, the table of
 language editors and how a path picks its page, together with the
 agreement between the route table, the download table and the analysis
 prompt table.
 */
module Routes {
  import opened Wrappers
  import Prompts
  import Genai
  import Editor

  /** `isAuthenticated`: a stored token that is present and non-empty. */
  function IsAuthenticated(token: Option<string>): (auth: bool)
    ensures auth <==> token.Some? && token.value != ""
  {
    match token
    case None => false
    case Some(t) => t != ""
  }

  datatype Page =
    | RegisterPage | LoginPage | AccountsPage | Home | HtmlCssJsEditor
    | ShareEditor(shareId: string) | CodeEditorPage(language: string) | NotFound

  /** What a route shows: its page, or a redirect. */
  datatype Outcome = Render(page: Page) | Navigate(to: string)

  /** `ProtectedRoute`: the page for a signed-in user, otherwise the login page. */
  function ProtectedRoute(auth: bool, page: Page): (o: Outcome)
    ensures o.Render? <==> auth
    ensures o.Render? ==> o.page == page
    ensures o.Navigate? ==> o.to == "/login"
  {
    if auth then Render(page) else Navigate("/login")
  }

  /** `RedirectedRoute`: the page for a visitor, otherwise home. */
  function RedirectedRoute(auth: bool, page: Page): (o: Outcome)
    ensures o.Render? <==> !auth
    ensures o.Render? ==> o.page == page
    ensures o.Navigate? ==> o.to == "/"
  {
    if !auth then Render(page) else Navigate("/")
  }

  /** Whatever the stored token, exactly one of the two guards shows its page. */
  lemma GuardsAreComplementary(token: Option<string>, p: Page, q: Page)
    ensures ProtectedRoute(IsAuthenticated(token), p).Render? != RedirectedRoute(IsAuthenticated(token), q).Render?
    ensures IsAuthenticated(Some("")) == IsAuthenticated(None) == false
  {
  }

  // ---------------------------------------------------------------------
  // The language table
  // ---------------------------------------------------------------------

  datatype LanguageRoute = LanguageRoute(path: string, language: string)

  /** `languages`, in the order the source lists them. */
  const LanguageRoutes: seq<LanguageRoute> := [
    LanguageRoute("/python", "python"),
    LanguageRoute("/javascript", "javascript"),
    LanguageRoute("/c", "c"),
    LanguageRoute("/cpp", "cpp"),
    LanguageRoute("/java", "java"),
    LanguageRoute("/csharp", "csharp"),
    LanguageRoute("/rust", "rust"),
    LanguageRoute("/go", "go"),
    LanguageRoute("/shell", "shell"),
    LanguageRoute("/sql", "sql"),
    LanguageRoute("/mongodb", "mongodb"),
    LanguageRoute("/swift", "swift"),
    LanguageRoute("/ruby", "ruby"),
    LanguageRoute("/typescript", "typescript"),
    LanguageRoute("/dart", "dart"),
    LanguageRoute("/kotlin", "kotlin"),
    LanguageRoute("/perl", "perl"),
    LanguageRoute("/scala", "scala"),
    LanguageRoute("/julia", "julia")
  ]

  function RouteLanguages(): seq<string> {
    seq(|LanguageRoutes|, k requires 0 <= k < |LanguageRoutes| => LanguageRoutes[k].language)
  }

  /** The editor routes list the same languages, in the same order, as the analysis prompt table. */
  lemma RouteLanguagesAreAnalysisLanguages()
    ensures RouteLanguages() == Prompts.AnalysisLanguages
  {
  }

  /** Every route path is "/" followed by its language. */
  lemma RoutePathsNameLanguages()
    ensures forall k :: 0 <= k < |LanguageRoutes| ==>
      |LanguageRoutes[k].path| > 1 && LanguageRoutes[k].path[0] == '/' && LanguageRoutes[k].path[1..] == LanguageRoutes[k].language
  {
  }

  /** The 19 languages are pairwise distinct. */
  lemma RouteLanguagesDistinct()
    ensures |RouteLanguages()| == 19
    ensures Prompts.Distinct(RouteLanguages())
  {
    RouteLanguagesAreAnalysisLanguages();
    Prompts.LanguagesPromptsKeys();
  }

  /** Distinct languages give distinct paths. */
  lemma RoutePathsDistinct(i: nat, j: nat)
    requires i < j < |LanguageRoutes|
    ensures LanguageRoutes[i].path != LanguageRoutes[j].path
  {
    RouteLanguagesDistinct();
    RoutePathsNameLanguages();
    assert RouteLanguages()[i] != RouteLanguages()[j];
  }

  /** The editor routes' languages are exactly the keys of the analysis prompt table. */
  lemma RouteLanguagesArePromptKeys(l: string)
    ensures l in RouteLanguages() <==> l in Prompts.LanguagesPrompts()
  {
    RouteLanguagesAreAnalysisLanguages();
  }

  /** The download table names exactly the editor routes' languages. */
  lemma DownloadTableCoversRoutes(l: string)
    ensures l in RouteLanguages() <==> l in Editor.DownloadTypes
  {
    RouteLanguagesAreAnalysisLanguages();
  }

  /** An editor page's run request always reaches the model: the unsupported branch is never taken. */
  lemma EditorLanguagesAreSupported(model: Genai.Model, code: string, k: nat)
    requires k < |LanguageRoutes|
    ensures |Genai.GetOutput(model, code, LanguageRoutes[k].language).prompts| == 1
  {
    assert RouteLanguages()[k] == LanguageRoutes[k].language;
    RouteLanguagesArePromptKeys(LanguageRoutes[k].language);
  }

  // ---------------------------------------------------------------------
  // Resolving a path
  // ---------------------------------------------------------------------

  /** The language of the first editor route with this path. */
  function EditorLanguage(path: string, routes: seq<LanguageRoute>): (l: Option<string>)
    ensures l.Some? ==> exists k :: 0 <= k < |routes| && routes[k].path == path && routes[k].language == l.value
    ensures l.None? <==> forall k :: 0 <= k < |routes| ==> routes[k].path != path
  {
    if routes == [] then None
    else if routes[0].path == path then Some(routes[0].language)
    else
      var l := EditorLanguage(path, routes[1..]);
      assert forall k :: 1 <= k < |routes| ==> routes[k] == routes[1..][k - 1];
      l
  }

  /**
   The page for a path. Static paths outrank the `/:shareId` pattern, which
   takes any other single non-empty segment; anything else is not found.
   */
  function Resolve(path: string, auth: bool): (o: Outcome)
    ensures path == "/register" ==> o == RedirectedRoute(auth, RegisterPage)
    ensures path == "/login" ==> o == RedirectedRoute(auth, LoginPage)
    ensures path == "/accounts" ==> o == ProtectedRoute(auth, AccountsPage)
    ensures path == "/" ==> o == Render(Home)
    ensures path == "/htmlcssjs" ==> o == Render(HtmlCssJsEditor)
    ensures o.Navigate? ==> path in {"/register", "/login", "/accounts"}
    ensures o == Render(AccountsPage) ==> auth
    ensures o in {Render(RegisterPage), Render(LoginPage)} ==> !auth
    ensures o.Render? && o.page.ShareEditor? ==> path == "/" + o.page.shareId
    ensures o.Render? && o.page.ShareEditor? ==> forall k :: 0 <= k < |LanguageRoutes| ==> LanguageRoutes[k].path != path
    ensures o == Render(NotFound) ==> !(|path| > 1 && path[0] == '/' && '/' !in path[1..])
  {
    if path == "/register" then RedirectedRoute(auth, RegisterPage)
    else if path == "/login" then RedirectedRoute(auth, LoginPage)
    else if path == "/accounts" then ProtectedRoute(auth, AccountsPage)
    else if path == "/" then Render(Home)
    else if path == "/htmlcssjs" then Render(HtmlCssJsEditor)
    else if EditorLanguage(path, LanguageRoutes).Some? then Render(CodeEditorPage(EditorLanguage(path, LanguageRoutes).value))
    else if |path| > 1 && path[0] == '/' && '/' !in path[1..] then
      assert path == "/" + path[1..];
      Render(ShareEditor(path[1..]))
    else Render(NotFound)
  }

  /** The search stops at the first route with the path. */
  lemma {:induction false} EditorLanguageFinds(path: string, routes: seq<LanguageRoute>, k: nat)
    requires k < |routes| && routes[k].path == path
    requires forall i :: 0 <= i < k ==> routes[i].path != path
    ensures EditorLanguage(path, routes) == Some(routes[k].language)
  {
    if k > 0 {
      assert routes[0].path != path;
      assert forall i :: 0 <= i < k - 1 ==> routes[1..][i] == routes[i + 1];
      EditorLanguageFinds(path, routes[1..], k - 1);
    }
  }

  /** No language path is one of the fixed paths, which take precedence. */
  lemma LanguagePathsAreNotFixed(k: nat)
    requires k < |LanguageRoutes|
    ensures LanguageRoutes[k].path !in {"/register", "/login", "/accounts", "/", "/htmlcssjs"}
  {
    RoutePathsNameLanguages();
  }

  /** A path that is not fixed and that the language table knows opens that editor. */
  lemma ResolvesToEditor(path: string, auth: bool, l: string)
    requires path !in {"/register", "/login", "/accounts", "/", "/htmlcssjs"}
    requires EditorLanguage(path, LanguageRoutes) == Some(l)
    ensures Resolve(path, auth) == Render(CodeEditorPage(l))
  {
  }

  /** Each language path opens that language's editor, signed in or not, never the share editor. */
  lemma LanguagePathsOpenEditors(k: nat, auth: bool)
    requires k < |LanguageRoutes|
    ensures Resolve(LanguageRoutes[k].path, auth) == Render(CodeEditorPage(LanguageRoutes[k].language))
  {
    var r := LanguageRoutes[k];
    forall i | 0 <= i < k ensures LanguageRoutes[i].path != r.path {
      RoutePathsDistinct(i, k);
    }
    EditorLanguageFinds(r.path, LanguageRoutes, k);
    LanguagePathsAreNotFixed(k);
    ResolvesToEditor(r.path, auth, r.language);
  }

  /** Any other single segment is a share id and opens the share editor. */
  lemma ShareIdsOpenShareEditor(id: string, auth: bool)
    requires id != "" && '/' !in id
    requires id !in {"register", "login", "accounts", "htmlcssjs"}
    requires id !in RouteLanguages()
    ensures Resolve("/" + id, auth) == Render(ShareEditor(id))
  {
    var path := "/" + id;
    assert path[1..] == id;
    RoutePathsNameLanguages();
    forall k | 0 <= k < |LanguageRoutes| ensures LanguageRoutes[k].path != path {
      assert RouteLanguages()[k] == LanguageRoutes[k].language;
    }
  }
}
