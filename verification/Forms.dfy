/**
 The register and login forms: the username and email patterns as
 character-class predicates, the validators with their messages in order,
 field updates and the submit guard.
 */
module Forms {
  import opened Wrappers
  import opened Text

  // ---------------------------------------------------------------------
  // Character classes of the two patterns
  // ---------------------------------------------------------------------

  /** Every character of `s` satisfies `p`. */
  predicate All(s: string, p: char -> bool) {
    forall i :: 0 <= i < |s| ==> p(s[i])
  }

  /** `[a-zA-Z0-9_.-]`, the username class. */
  predicate IsUsernameChar(c: char) { IsAlnum(c) || c == '_' || c == '.' || c == '-' }

  /** `[a-zA-Z0-9_.+-]`, the class before the '@'. */
  predicate IsLocalChar(c: char) { IsAlnum(c) || c == '_' || c == '.' || c == '+' || c == '-' }

  /** `[a-zA-Z0-9-]`, the class between the '@' and the first '.'. */
  predicate IsLabelChar(c: char) { IsAlnum(c) || c == '-' }

  /** `[a-zA-Z0-9-.]`, the class after that '.'. */
  predicate IsTailChar(c: char) { IsAlnum(c) || c == '-' || c == '.' }

  // ---------------------------------------------------------------------
  // Username: /^[a-zA-Z0-9_.-]{5,30}$/
  // ---------------------------------------------------------------------

  predicate UsernameOk(s: string) {
    5 <= |s| <= 30 && All(s, IsUsernameChar)
  }

  // ---------------------------------------------------------------------
  // Email: /^[a-zA-Z0-9_.+-]+@[a-zA-Z0-9-]+\.[a-zA-Z0-9-.]+$/
  // ---------------------------------------------------------------------

  /**
   The pattern matches `s` with the '@' at `i` and the escaped '.' at `j`:
   each of the three runs is non-empty and drawn from its class.
   */
  predicate EmailSplit(s: string, i: int, j: int) {
    && 0 < i && i + 1 < j && j + 1 < |s|
    && All(s[..i], IsLocalChar) && s[i] == '@'
    && All(s[i + 1..j], IsLabelChar) && s[j] == '.'
    && All(s[j + 1..], IsTailChar)
  }

  /** The pattern matches `s` under some choice of positions. */
  ghost predicate EmailPattern(s: string) {
    exists i, j :: EmailSplit(s, i, j)
  }

  /**
   The check as a scan: split at the first '@', then split what follows at
   its first '.'.
   */
  function EmailOk(s: string): bool {
    match FirstIndex(s, '@')
    case None => false
    case Some(i) =>
      var rest := s[i + 1..];
      && i > 0 && All(s[..i], IsLocalChar)
      && match FirstIndex(rest, '.')
         case None => false
         case Some(j) => j > 0 && j + 1 < |rest| && All(rest[..j], IsLabelChar) && All(rest[j + 1..], IsTailChar)
  }

  /** Whatever the scan accepts, the pattern matches. */
  lemma EmailOkSound(s: string)
    requires EmailOk(s)
    ensures EmailPattern(s)
  {
    var i := FirstIndex(s, '@').value;
    var rest := s[i + 1..];
    var j := FirstIndex(rest, '.').value;
    assert s[i + 1..i + 1 + j] == rest[..j];
    assert s[i + 1 + j + 1..] == rest[j + 1..];
    assert EmailSplit(s, i, i + 1 + j);
  }

  /** The runs before the '@' and before the '.' hold neither separator, so the scan finds both. */
  lemma SplitSeparatorsFirst(s: string, i: int, j: int)
    requires EmailSplit(s, i, j)
    ensures FirstIndex(s, '@') == Some(i)
    ensures FirstIndex(s[i + 1..], '.') == Some(j - (i + 1))
  {
    assert '@' !in s[..i] by {
      forall k | 0 <= k < i ensures s[..i][k] != '@' { assert IsLocalChar(s[..i][k]); }
    }
    FirstIndexAt(s, '@', i);
    var rest := s[i + 1..];
    var d := j - (i + 1);
    assert rest[..d] == s[i + 1..j];
    assert '.' !in rest[..d] by {
      forall k | 0 <= k < d ensures rest[..d][k] != '.' { assert IsLabelChar(rest[..d][k]); }
    }
    FirstIndexAt(rest, '.', d);
  }

  /** Whatever the pattern matches, the scan accepts. */
  lemma EmailOkComplete(s: string, i: int, j: int)
    requires EmailSplit(s, i, j)
    ensures EmailOk(s)
  {
    SplitSeparatorsFirst(s, i, j);
    var rest := s[i + 1..];
    var d := j - (i + 1);
    assert rest[..d] == s[i + 1..j];
    assert rest[d + 1..] == s[j + 1..];
  }

  /** The scan accepts exactly the strings the pattern matches. */
  lemma EmailOkMatchesPattern(s: string)
    ensures EmailOk(s) <==> EmailPattern(s)
  {
    if EmailOk(s) { EmailOkSound(s); }
    if EmailPattern(s) {
      var i, j :| EmailSplit(s, i, j);
      EmailOkComplete(s, i, j);
    }
  }

  /** A matching email holds exactly one '@'. */
  lemma EmailHasOneAt(s: string, i: int, j: int)
    requires EmailSplit(s, i, j)
    ensures s[i] == '@' && forall k :: 0 <= k < |s| && s[k] == '@' ==> k == i
  {
  }

  // ---------------------------------------------------------------------
  // Messages
  // ---------------------------------------------------------------------

  const InvalidEmail := "Invalid email format"
  const BadUsername := "Username can only contain letters, numbers, underscores, hyphens, and periods (5-30 characters)."
  const BadUsernameLength := "Username should be between 5 and 30 characters"
  const ShortPassword := "Password must be at least 8 characters long"

  // ---------------------------------------------------------------------
  // Register
  // ---------------------------------------------------------------------

  datatype RegisterForm = RegisterForm(username: string, email: string, password: string)

  /** `validateForm` of the register page: `None` when the form is valid, else the first failing check's message. */
  function ValidateRegister(f: RegisterForm): (err: Option<string>)
    ensures !EmailOk(f.email) ==> err == Some(InvalidEmail)
    ensures EmailOk(f.email) && !UsernameOk(f.username) ==> err == Some(BadUsername)
    ensures EmailOk(f.email) && UsernameOk(f.username) && Utf16Length(f.password) < 8 ==> err == Some(ShortPassword)
    ensures err.None? <==> EmailOk(f.email) && UsernameOk(f.username) && Utf16Length(f.password) >= 8
  {
    if !EmailOk(f.email) then Some(InvalidEmail)
    else if !UsernameOk(f.username) then Some(BadUsername)
    else if |f.username| < 5 || |f.username| > 30 then Some(BadUsernameLength)
    else if Utf16Length(f.password) < 8 then Some(ShortPassword)
    else None
  }

  /** The length message is never shown: the username pattern already bounds the length. */
  lemma LengthMessageUnreachable(f: RegisterForm)
    ensures ValidateRegister(f) != Some(BadUsernameLength)
  {
  }

  /** The fields of both forms. */
  datatype Field = Username | Email | Password

  /** `handleInputChange`: the named field takes the new value, the rest stay, and the error is cleared. */
  function UpdateRegister(f: RegisterForm, error: string, name: Field, value: string): (r: (RegisterForm, string))
    ensures r.1 == ""
    ensures r.0.username == (if name == Username then value else f.username)
    ensures r.0.email == (if name == Email then value else f.email)
    ensures r.0.password == (if name == Password then value else f.password)
  {
    var g := match name
      case Username => f.(username := value)
      case Email => f.(email := value)
      case Password => f.(password := value);
    (g, if error != "" then "" else error)
  }

  /** What submitting a form does: show a message and send nothing, or send the request. */
  datatype Submit<R> = Rejected(message: string) | Sent(request: R)

  /** `handleSubmit` of the register page. */
  function SubmitRegister(f: RegisterForm): (s: Submit<RegisterForm>)
    ensures s.Sent? <==> ValidateRegister(f).None?
    ensures s.Rejected? ==> Some(s.message) == ValidateRegister(f)
    ensures s.Sent? ==> s.request == f
  {
    match ValidateRegister(f)
    case Some(m) => Rejected(m)
    case None => Sent(f)
  }

  // ---------------------------------------------------------------------
  // Login
  // ---------------------------------------------------------------------

  datatype LoginForm = LoginForm(email: string, password: string)

  /** `validateForm` of the login page. */
  function ValidateLogin(f: LoginForm): (err: Option<string>)
    ensures !EmailOk(f.email) ==> err == Some(InvalidEmail)
    ensures EmailOk(f.email) && Utf16Length(f.password) < 8 ==> err == Some(ShortPassword)
    ensures err.None? <==> EmailOk(f.email) && Utf16Length(f.password) >= 8
  {
    if !EmailOk(f.email) then Some(InvalidEmail)
    else if Utf16Length(f.password) < 8 then Some(ShortPassword)
    else None
  }

  /** The length is JavaScript's: four astral characters are eight code units, long enough. */
  lemma AstralPasswordLongEnough()
    ensures Utf16Length("\U{1F600}\U{1F600}\U{1F600}\U{1F600}") == 8
    ensures ValidateLogin(LoginForm("ab@cd.ef", "\U{1F600}\U{1F600}\U{1F600}\U{1F600}")) == None
  {
    EmailOkComplete("ab@cd.ef", 2, 5);
  }

  /** The fields of the login form. */
  datatype LoginField = LoginEmail | LoginPassword

  /** `handleInputChange` of the login page. */
  function UpdateLogin(f: LoginForm, error: string, name: LoginField, value: string): (r: (LoginForm, string))
    ensures r.1 == ""
    ensures r.0.email == (if name == LoginEmail then value else f.email)
    ensures r.0.password == (if name == LoginPassword then value else f.password)
  {
    var g := match name
      case LoginEmail => f.(email := value)
      case LoginPassword => f.(password := value);
    (g, if error != "" then "" else error)
  }

  /** `handleSubmit` of the login page. */
  function SubmitLogin(f: LoginForm): (s: Submit<LoginForm>)
    ensures s.Sent? <==> ValidateLogin(f).None?
    ensures s.Rejected? ==> Some(s.message) == ValidateLogin(f)
    ensures s.Sent? ==> s.request == f
  {
    match ValidateLogin(f)
    case Some(m) => Rejected(m)
    case None => Sent(f)
  }

  /**
   A registration the register page sends passes the login page's checks
   with the same email and password.
   */
  lemma RegisteredFormsLogIn(f: RegisterForm)
    requires SubmitRegister(f).Sent?
    ensures SubmitLogin(LoginForm(f.email, f.password)).Sent?
  {
  }

  /** Both pages reject a bad email with the same message, whatever the other fields hold. */
  lemma EmailRejectedAlike(username: string, email: string, p1: string, p2: string)
    requires !EmailPattern(email)
    ensures ValidateRegister(RegisterForm(username, email, p1)) == Some(InvalidEmail)
    ensures ValidateLogin(LoginForm(email, p2)) == Some(InvalidEmail)
  {
    EmailOkMatchesPattern(email);
  }
}
