/** The login screen: the existing-session redirect when the screen opens, and
    the decision taken when the login button is pressed. The datastore lookup
    and the BCrypt check are parameters. */
module Login {
  import opened JavaLang
  import opened Storage

  /** Where the login screen sends the user when it opens. */
  datatype Screen = LoginForm | Dashboard

  /** BCrypt's `verify(password, storedHash)` for a stored hash that is
      present. */
  type Verifier = (string, string) -> bool

  /** What a press of the login button ends in. */
  datatype LoginOutcome =
    | FieldsMissing
    | LookupFailed(reason: string)
    | UserNotFound
    | InvalidPassword
    | MissingHash
    | LoggedIn

  datatype LoginResult = LoginResult(outcome: LoginOutcome, prefs: Prefs)

  /** The prefix of the toast for a failed lookup, followed by its message. */
  const LOGIN_FAILED: string := "Login failed: "

  /** The toast shown for each outcome, if any; a failed lookup's toast
      carries the datastore's message after a fixed prefix that no other
      toast has. A missing stored hash ends the callback before any toast. */
  function LoginToast(o: LoginOutcome): (t: Option<string>)
    ensures t.None? <==> o == MissingHash
    ensures o.LookupFailed? <==>
              t.Some? && |t.value| >= |LOGIN_FAILED| && t.value[..|LOGIN_FAILED|] == LOGIN_FAILED
    ensures o.LookupFailed? ==> t.value[|LOGIN_FAILED|..] == o.reason
  {
    NotPrefix("Please fill all fields", LOGIN_FAILED, 0);
    NotPrefix("User not found", LOGIN_FAILED, 0);
    NotPrefix("Invalid password", LOGIN_FAILED, 0);
    NotPrefix("Login successful", LOGIN_FAILED, 6);
    match o
    case FieldsMissing => Some("Please fill all fields")
    case LookupFailed(reason) => Some(LOGIN_FAILED + reason)
    case UserNotFound => Some("User not found")
    case InvalidPassword => Some("Invalid password")
    case MissingHash => None
    case LoggedIn => Some("Login successful")
  }

  /** The toast tells every outcome apart, down to the datastore's message. */
  lemma LoginToastInjective(o1: LoginOutcome, o2: LoginOutcome)
    requires LoginToast(o1) == LoginToast(o2)
    ensures o1 == o2
  {
    var t := LoginToast(o1);
    if !o1.LookupFailed? && t.Some? {
      assert !o2.LookupFailed? && o2 != MissingHash;
      assert t.value[0] == 'P' <==> o1 == FieldsMissing;
      assert t.value[0] == 'U' <==> o1 == UserNotFound;
      assert t.value[0] == 'I' <==> o1 == InvalidPassword;
      assert t.value[0] == 'P' <==> o2 == FieldsMissing;
      assert t.value[0] == 'U' <==> o2 == UserNotFound;
      assert t.value[0] == 'I' <==> o2 == InvalidPassword;
    }
  }

  /** A non-empty stored email skips the form and opens the dashboard. */
  function StartScreen(prefs: Prefs): (s: Screen)
    ensures s == Dashboard <==> USER_EMAIL in prefs && prefs[USER_EMAIL] != ""
  {
    if GetString(prefs, USER_EMAIL) != "" then Dashboard else LoginForm
  }

  /** The session a successful login stores: the email as entered, and the id,
      names and role of the matching document. */
  function LoginSession(email: string, doc: UserDoc): SessionValues {
    SessionValues(Some(email), doc.firstName, doc.lastName, doc.role, Some(doc.id))
  }

  /** The query callback: only the first matching document is looked at. Its
      stored hash goes to BCrypt unchecked; when it is missing the call
      throws, the callback ends there and nothing is stored. */
  function DecideLogin(email: string, password: string, q: Query<UserDoc>,
                       verify: Verifier, prefs: Prefs): (r: LoginResult)
    ensures r.outcome != FieldsMissing
    ensures r.outcome.LookupFailed? <==> q.QueryFailed?
    ensures q.QueryFailed? ==> r.outcome == LookupFailed(q.message)
    ensures r.outcome == UserNotFound <==> q == QueryOk([])
    ensures r.outcome == MissingHash <==> q.QueryOk? && q.docs != [] && q.docs[0].password.None?
    ensures r.outcome == InvalidPassword <==>
              q.QueryOk? && q.docs != [] && q.docs[0].password.Some?
              && !verify(password, q.docs[0].password.value)
    ensures r.outcome == LoggedIn <==>
              q.QueryOk? && q.docs != [] && q.docs[0].password.Some?
              && verify(password, q.docs[0].password.value)
    ensures r.outcome != LoggedIn ==> r.prefs == prefs
    ensures OnlySessionKeysChanged(prefs, r.prefs)
    ensures r.outcome == LoggedIn ==>
              && GetString(r.prefs, USER_EMAIL) == email
              && GetString(r.prefs, USER_ID) == q.docs[0].id
              && GetString(r.prefs, USER_FIRST_NAME) == OrEmpty(q.docs[0].firstName)
              && GetString(r.prefs, USER_LAST_NAME) == OrEmpty(q.docs[0].lastName)
              && GetString(r.prefs, USER_ROLE) == OrEmpty(q.docs[0].role)
  {
    match q
    case QueryFailed(reason) => LoginResult(LookupFailed(reason), prefs)
    case QueryOk(docs) =>
      if docs == [] then LoginResult(UserNotFound, prefs)
      else
        var doc := docs[0];
        if doc.password.None? then
          LoginResult(MissingHash, prefs)
        else if verify(password, doc.password.value) then
          LoginResult(LoggedIn, SaveSession(prefs, LoginSession(email, doc)))
        else
          LoginResult(InvalidPassword, prefs)
  }

  /** Documents after the first match never influence the result. */
  lemma OnlyFirstMatchCounts(email: string, password: string, docs: seq<UserDoc>,
                             verify: Verifier, prefs: Prefs)
    requires docs != []
    ensures DecideLogin(email, password, QueryOk(docs), verify, prefs)
         == DecideLogin(email, password, QueryOk([docs[0]]), verify, prefs)
  {
  }

  /** The login button: both fields are trimmed, an empty one is refused
      before any lookup, otherwise the users whose email equals the trimmed
      email are fetched with `lookup` and `DecideLogin` decides. */
  function LoginUser(emailField: string, passwordField: string,
                     lookup: string -> Query<UserDoc>, verify: Verifier,
                     prefs: Prefs): (r: LoginResult)
    ensures r.outcome == FieldsMissing <==> Trim(emailField) == [] || Trim(passwordField) == []
    ensures r.outcome == FieldsMissing ==> r.prefs == prefs
    ensures r.outcome != FieldsMissing ==>
              r == DecideLogin(Trim(emailField), Trim(passwordField),
                               lookup(Trim(emailField)), verify, prefs)
  {
    var email := Trim(emailField);
    var password := Trim(passwordField);
    if email == [] || password == [] then
      LoginResult(FieldsMissing, prefs)
    else
      DecideLogin(email, password, lookup(email), verify, prefs)
  }

  /** Non-empty trimmed fields, a lookup that finds a document and a verifier
      that accepts the password log the user in; the stored email is then
      non-empty, so the next time the login screen opens it goes straight to
      the dashboard. */
  lemma LoggedInSkipsForm(emailField: string, passwordField: string,
                          lookup: string -> Query<UserDoc>, verify: Verifier, prefs: Prefs)
    requires Trim(emailField) != [] && Trim(passwordField) != []
    requires lookup(Trim(emailField)).QueryOk? && lookup(Trim(emailField)).docs != []
    requires lookup(Trim(emailField)).docs[0].password.Some?
    requires verify(Trim(passwordField), lookup(Trim(emailField)).docs[0].password.value)
    ensures LoginUser(emailField, passwordField, lookup, verify, prefs).outcome == LoggedIn
    ensures StartScreen(LoginUser(emailField, passwordField, lookup, verify, prefs).prefs) == Dashboard
  {
    var r := LoginUser(emailField, passwordField, lookup, verify, prefs);
    assert GetString(r.prefs, USER_EMAIL) == Trim(emailField) != [];
  }
}
