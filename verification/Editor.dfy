/**
 The pure logic of the code-editor page: the download table, the editor
 mode, the page title, viewport classification, the output display pass
 and the guards in front of the editor's actions.
 */
module Editor {
  import opened Wrappers
  import opened Text
  import CodeFence

  // ---------------------------------------------------------------------
  // Downloads
  // ---------------------------------------------------------------------

  /** The MIME type and file extension of a download. */
  datatype FileType = FileType(mime: string, extension: string)

  const DefaultFileType := FileType("application/octet-stream", "txt")

  /** The languages `downloadFile` names, with their file types. */
  const DownloadTypes: map<string, FileType> := map[
    "python" := FileType("text/x-python", "py"),
    "javascript" := FileType("application/javascript", "js"),
    "c" := FileType("text/x-c", "c"),
    "cpp" := FileType("text/x-c++src", "cpp"),
    "java" := FileType("text/x-java", "java"),
    "csharp" := FileType("application/x-csharp", "cs"),
    "go" := FileType("text/x-go", "go"),
    "rust" := FileType("text/x-rust", "rs"),
    "shell" := FileType("application/x-sh", "sh"),
    "sql" := FileType("application/sql", "sql"),
    "mongodb" := FileType("application/javascript", "js"),
    "swift" := FileType("application/x-swift", "swift"),
    "ruby" := FileType("text/x-ruby", "rb"),
    "typescript" := FileType("application/typescript", "ts"),
    "dart" := FileType("application/dart", "dart"),
    "kotlin" := FileType("application/x-java", "kt"),
    "perl" := FileType("application/x-perl", "pl"),
    "scala" := FileType("application/scala", "scala"),
    "julia" := FileType("application/x-julia", "jl")
  ]

  /** The `switch` in `downloadFile`: a named language's type, otherwise the default. */
  function Download(language: string): (t: FileType)
    ensures language in DownloadTypes ==> t == DownloadTypes[language]
    ensures language !in DownloadTypes ==> t == DefaultFileType
  {
    if language in DownloadTypes then DownloadTypes[language] else DefaultFileType
  }

  /** No named language falls back to the generic type. */
  lemma NamedLanguagesAreTyped(language: string)
    requires language in DownloadTypes
    ensures Download(language) != DefaultFileType
    ensures Download(language).extension != "txt"
  {
  }

  /** The saved file's name: always `file.` and the extension. */
  function DownloadName(language: string): (name: string)
    ensures |name| > 5 && name[..5] == "file."
    ensures name[5..] == Download(language).extension
  {
    "file." + Download(language).extension
  }

  /** The Monaco editor mode: MongoDB shell code is edited as JavaScript. */
  function EditorMode(language: string): (mode: string)
    ensures language == "mongodb" ==> mode == "javascript"
    ensures language != "mongodb" ==> mode == language
  {
    if language == "mongodb" then "javascript" else language
  }

  /** A language downloads exactly as its editor mode does: the mode never changes the file type. */
  lemma DownloadFollowsMode(language: string)
    ensures Download(EditorMode(language)) == Download(language)
  {
  }

  // ---------------------------------------------------------------------
  // Title
  // ---------------------------------------------------------------------

  /** `s.charAt(0).toUpperCase() + s.slice(1)`. */
  function Capitalize(s: string): (r: string)
    ensures |r| == |s|
    ensures |s| > 0 ==> r[0] == ToUpper(s[0]) && r[1..] == s[1..]
  {
    if s == "" then "" else [ToUpper(s[0])] + s[1..]
  }

  /** Capitalizing twice is capitalizing once. */
  lemma CapitalizeIdempotent(s: string)
    ensures Capitalize(Capitalize(s)) == Capitalize(s)
  {
  }

  const TitleSuffix := " Editor - Online IDE"

  /** The document title of an editor page. */
  function DocumentTitle(language: string): (title: string)
    ensures |title| == |language| + |TitleSuffix|
    ensures title[..|language|] == Capitalize(language)
    ensures title[|language|..] == TitleSuffix
  {
    Capitalize(language) + TitleSuffix
  }

  // ---------------------------------------------------------------------
  // Viewport
  // ---------------------------------------------------------------------

  datatype Device = Pc | Tablet | Mobile

  /** `handleResize`: the device class of a window width. */
  function DeviceOf(width: int): (d: Device)
    ensures d == Pc <==> width > 1024
    ensures d == Tablet <==> 768 < width <= 1024
    ensures d == Mobile <==> width <= 768
  {
    if width > 1024 then Pc
    else if width <= 1024 && width > 768 then Tablet
    else Mobile
  }

  /** `fontSizeMap`. */
  function FontSize(d: Device): (size: nat)
    ensures 12 <= size <= 16
    ensures d == Pc ==> size == 16
    ensures d == Tablet ==> size == 14
    ensures d == Mobile ==> size == 12
  {
    match d
    case Pc => 16
    case Tablet => 14
    case Mobile => 12
  }

  /** Code folding is offered everywhere but on phones. */
  function Folding(d: Device): (on: bool)
    ensures on <==> d != Mobile
  {
    d != Mobile
  }

  /** Read against the window width: 16 above 1024, 14 down to 769, 12 at 768 and below; folding only above 768. */
  lemma FontSizeOfWidth(w: int)
    ensures FontSize(DeviceOf(w)) == 16 <==> w > 1024
    ensures FontSize(DeviceOf(w)) == 14 <==> 768 < w <= 1024
    ensures FontSize(DeviceOf(w)) == 12 <==> w <= 768
    ensures Folding(DeviceOf(w)) <==> w > 768
  {
  }

  /** A wider window never gets a smaller font. */
  lemma FontSizeMonotone(w1: int, w2: int)
    requires w1 <= w2
    ensures FontSize(DeviceOf(w1)) <= FontSize(DeviceOf(w2))
  {
  }

  // ---------------------------------------------------------------------
  // Output display: `output.replaceAll(/```[\w\s]+/g, "")`
  // ---------------------------------------------------------------------

  /** A character of the class `[\w\s]`. */
  predicate IsRunChar(c: char) { IsWordChar(c) || IsJsSpace(c) }

  /** The pattern matches at `i`: a fence followed by at least one run character. */
  predicate StripMatchAt(s: string, i: int) {
    CodeFence.FenceAt(s, i) && i + 3 < |s| && IsRunChar(s[i + 3])
  }

  ghost predicate HasStripMatch(s: string) {
    exists i :: StripMatchAt(s, i)
  }

  /** The end of the maximal run of `[\w\s]` characters starting at `j` (greedy `+`). */
  function RunEnd(s: string, j: nat): (k: nat)
    requires j <= |s|
    ensures j <= k <= |s|
    ensures forall m :: j <= m < k ==> IsRunChar(s[m])
    ensures k == |s| || !IsRunChar(s[k])
    decreases |s| - j
  {
    if j == |s| || !IsRunChar(s[j]) then j else RunEnd(s, j + 1)
  }

  /**
   The global replacement from index `i` on: at each position where the
   pattern matches, the fence and the whole run after it are dropped and the
   scan resumes after them; elsewhere one character is kept.
   */
  function StripFrom(s: string, i: nat): string
    requires i <= |s|
    decreases |s| - i
  {
    if i == |s| then ""
    else if StripMatchAt(s, i) then StripFrom(s, RunEnd(s, i + 3))
    else [s[i]] + StripFrom(s, i + 1)
  }

  /** The text shown in the output pane. */
  function StripFences(s: string): string {
    StripFrom(s, 0)
  }

  /** The pass never adds text; every kept character is a character of the suffix scanned. */
  lemma {:induction false} StripFromShorter(s: string, i: nat)
    requires i <= |s|
    ensures |StripFrom(s, i)| <= |s| - i
    ensures multiset(StripFrom(s, i)) <= multiset(s[i..])
    decreases |s| - i
  {
    if i == |s| {
    } else if StripMatchAt(s, i) {
      var k := RunEnd(s, i + 3);
      StripFromShorter(s, k);
      assert s[i..] == s[i..k] + s[k..];
    } else {
      StripFromShorter(s, i + 1);
      assert s[i..] == [s[i]] + s[i + 1..];
    }
  }

  /** Text with no match is shown unchanged. */
  lemma {:induction false} StripFromNoMatch(s: string, i: nat)
    requires i <= |s|
    requires forall j :: i <= j ==> !StripMatchAt(s, j)
    ensures StripFrom(s, i) == s[i..]
    decreases |s| - i
  {
    if i < |s| {
      StripFromNoMatch(s, i + 1);
      assert s[i..] == [s[i]] + s[i + 1..];
    }
  }

  /** A match anywhere at or after `i` makes the shown text strictly shorter. */
  lemma {:induction false} StripFromMatchShortens(s: string, i: nat, j: nat)
    requires i <= j && StripMatchAt(s, j)
    ensures |StripFrom(s, i)| < |s| - i
    decreases |s| - i
  {
    if StripMatchAt(s, i) {
      var k := RunEnd(s, i + 3);
      StripFromShorter(s, k);
    } else {
      StripFromMatchShortens(s, i + 1, j);
    }
  }

  /** The output pane shows the text unchanged exactly when the pattern matches nowhere. */
  lemma StripFencesUnchangedIff(s: string)
    ensures StripFences(s) == s <==> !HasStripMatch(s)
  {
    if HasStripMatch(s) {
      var j :| StripMatchAt(s, j);
      StripFromMatchShortens(s, 0, j);
    } else {
      StripFromNoMatch(s, 0);
    }
  }

  /** A fence at the very end, or before a backtick or punctuation, is kept. */
  lemma LoneFenceKept()
    ensures StripFences("```") == "```"
  {
    StripFencesUnchangedIff("```");
  }

  /** The run is greedy: it swallows the tag, the newline and the first word of the code. */
  lemma RunSwallowsFirstWord()
    ensures StripFences("```py\nx()") == "()"
  {
    var s := "```py\nx()";
    assert StripMatchAt(s, 0) by { assert s[..3] == CodeFence.Fence; }
    assert RunEnd(s, 3) == 7 by {
      assert IsRunChar(s[3]) && IsRunChar(s[4]) && IsRunChar(s[5]) && IsRunChar(s[6]) && !IsRunChar(s[7]);
    }
    assert !StripMatchAt(s, 7) && !StripMatchAt(s, 8);
  }

  /** Showing already-shown text can remove more: the pass is not idempotent. */
  lemma StripFencesNotIdempotent()
    ensures StripFences("````a``b") == "```b"
    ensures StripFences("```b") == ""
  {
    var s := "````a``b";
    assert !StripMatchAt(s, 0) by { assert s[3] == '`'; }
    assert StripMatchAt(s, 1) by { assert s[1..4] == CodeFence.Fence; }
    assert RunEnd(s, 4) == 5 by { assert IsRunChar(s[4]) && !IsRunChar(s[5]); }
    assert !StripMatchAt(s, 5) && !StripMatchAt(s, 6) && !StripMatchAt(s, 7);
    var t := "```b";
    assert StripMatchAt(t, 0) by { assert t[..3] == CodeFence.Fence; }
    assert RunEnd(t, 3) == 4;
  }

  // ---------------------------------------------------------------------
  // Editor actions
  // ---------------------------------------------------------------------

  /** The state the action guards read and write. */
  datatype EditorState = EditorState(
    language: string, code: string, output: string, copyLabel: string, loggedIn: bool)

  /** A request the page sends to a service. */
  datatype Request =
    | RunRequest(language: string, code: string)
    | GenerateRequest(problemDescription: string, language: string)
    | RefactorRequest(language: string, code: string)

  /** What pressing a button does before any reply arrives. */
  datatype Effect = NoEffect | NavigateTo(path: string) | Send(request: Request)

  /** `runCode`: nothing for empty code, otherwise a run request with the language and code. */
  function RunCode(st: EditorState): (e: Effect)
    ensures e == NoEffect <==> st.code == ""
    ensures e != NoEffect ==> e == Send(RunRequest(st.language, st.code))
  {
    if |st.code| == 0 then NoEffect else Send(RunRequest(st.language, st.code))
  }

  /** A reply to a run request: its status and the JSON fields it carries; or a failed fetch. */
  datatype RunReply = RunReply(ok: bool, output: Option<string>, error: Option<string>) | FetchFailed

  /** How a JavaScript template literal renders a possibly absent field. */
  function Show(v: Option<string>): string {
    match v
    case None => "undefined"
    case Some(x) => x
  }

  /** The output pane's new text after a run. */
  function RunOutput(reply: RunReply): (out: string)
    ensures reply.FetchFailed? ==> out == "Failed!! try again."
    ensures reply.RunReply? && reply.ok && reply.output.Some? && reply.output.value != "" ==> out == reply.output.value
    ensures reply.RunReply? && reply.ok && (reply.output.None? || reply.output.value == "") ==> out == "No output returned."
    ensures reply.RunReply? && !reply.ok ==> out == "Error: " + Show(reply.error)
    ensures out != ""
  {
    match reply
    case FetchFailed => "Failed!! try again."
    case RunReply(ok, output, error) =>
      if ok then (if output.Some? && output.value != "" then output.value else "No output returned.")
      else "Error: " + Show(error)
  }

  /** `generateCodeFromPrompt`: to the login page when logged out; nothing for an empty prompt. */
  function GenerateCode(st: EditorState, prompt: Option<string>): (e: Effect)
    ensures !st.loggedIn ==> e == NavigateTo("/login")
    ensures st.loggedIn && (prompt.None? || prompt.value == "") ==> e == NoEffect
    ensures e.Send? <==> st.loggedIn && prompt.Some? && prompt.value != ""
    ensures e.Send? ==> e.request == GenerateRequest(prompt.value, st.language)
  {
    if !st.loggedIn then NavigateTo("/login")
    else if prompt.Some? && prompt.value != "" then Send(GenerateRequest(prompt.value, st.language))
    else NoEffect
  }

  /** `refactorCode`: to the login page when logged out; nothing for empty code or language. */
  function RefactorCode(st: EditorState): (e: Effect)
    ensures !st.loggedIn ==> e == NavigateTo("/login")
    ensures e.Send? <==> st.loggedIn && st.code != "" && st.language != ""
    ensures e.Send? ==> e.request == RefactorRequest(st.language, st.code)
    ensures st.loggedIn && (st.code == "" || st.language == "") ==> e == NoEffect
  {
    if !st.loggedIn then NavigateTo("/login")
    else if |st.code| == 0 || st.language == "" then NoEffect
    else Send(RefactorRequest(st.language, st.code))
  }

  /** The editor's new code after a generate or refactor reply carrying `code`. */
  function ReplacedCode(code: Option<string>, fallback: string): (r: string)
    ensures code.Some? && code.value != "" ==> r == code.value
    ensures code.None? || code.value == "" ==> r == fallback
  {
    if code.Some? && code.value != "" then code.value else fallback
  }

  const Copying := "Copying..."

  /**
   `handleCopy`: the copy button's label once the clipboard has answered,
   or `None` when the press is ignored (a copy in flight, or no code).
   */
  function HandleCopy(st: EditorState, clipboardOk: bool): (next: Option<string>)
    ensures next.None? <==> st.copyLabel == Copying || st.code == ""
    ensures next.Some? ==> next.value == (if clipboardOk then "Copied!" else "Error!")
  {
    if st.copyLabel == Copying || |st.code| == 0 then None
    else Some(if clipboardOk then "Copied!" else "Error!")
  }

  /** `clearAll`. */
  function ClearAll(st: EditorState): (r: EditorState)
    ensures r.code == "" && r.output == ""
    ensures r.language == st.language && r.copyLabel == st.copyLabel && r.loggedIn == st.loggedIn
  {
    st.(code := "", output := "")
  }

  /** After clearing, running, copying and refactoring do nothing (refactoring still asks a logged-out user to log in). */
  lemma ClearedEditorIsIdle(st: EditorState, clipboardOk: bool)
    ensures RunCode(ClearAll(st)) == NoEffect
    ensures HandleCopy(ClearAll(st), clipboardOk).None?
    ensures RefactorCode(ClearAll(st)) == (if st.loggedIn then NoEffect else NavigateTo("/login"))
    ensures ClearAll(ClearAll(st)) == ClearAll(st)
  {
  }
}
