/** Properties that span several screens: what the dashboard greets a user
    with after registering or logging in, that a registered account can log
    in with the same form input, and that logging out closes every screen
    gated on the session. */
module Flows {
  import opened JavaLang
  import opened Storage
  import Login
  import Register
  import Dashboard
  import Recommendations

  /** A form that passes validation, whose email is not yet taken and whose
      record is written, registers the user, and the dashboard then greets
      them with the full name exactly as typed, trimmed: splitting at the
      first space and joining the parts again with one space gives the name
      back. */
  lemma {:induction false} RegisteredUserGreetedByFullName(
    nameField: string, emailField: string, passwordField: string,
    lookup: string -> Query<UserDoc>, hashed: string, now: Long,
    write: Register.WriteResult, prefs: Prefs)
    requires Register.Validate(nameField, emailField, passwordField).Valid?
    requires lookup(Trim(emailField)) == QueryOk([]) && write.Written?
    ensures var r := Register.RegisterUser(nameField, emailField, passwordField, lookup, hashed, now, write, prefs);
      && r.outcome.Registered?
      && Dashboard.OpenDashboard(r.prefs) == Dashboard.Welcome(Dashboard.WELCOME + Trim(nameField))
  {
    var r := Register.RegisterUser(nameField, emailField, passwordField, lookup, hashed, now, write, prefs);
    Register.RegisteredAccount(nameField, emailField, passwordField, lookup, hashed, now, write, prefs);
    var v := Register.Validate(nameField, emailField, passwordField);
    var a := v.account;
    assert r == Register.CreateNewUser(a, hashed, now, write, prefs);
    var name := Trim(nameField);
    TrimIdempotent(nameField);
    Register.SplitTrimmedName(name);
    var email := GetString(r.prefs, USER_EMAIL);
    var first := GetString(r.prefs, USER_FIRST_NAME);
    var last := GetString(r.prefs, USER_LAST_NAME);
    assert email == a.email != [];
    assert first == a.firstName != [];
    assert last == a.lastName;
    var g := Dashboard.Greeting(email, first, last);
    if last != [] {
      assert name == first + " " + last;
      assert g == Dashboard.WELCOME + first + " " + last;
      AppendAssoc(Dashboard.WELCOME, first + " ", last);
      AppendAssoc(Dashboard.WELCOME, first, " ");
    } else {
      assert first == name;
    }
    assert g == Dashboard.WELCOME + name;
  }

  /** Non-empty trimmed fields, a lookup that finds a document and a verifier
      that accepts the password against its hash log the user in, and the
      dashboard then greets them with that document's names, or with the
      email when it has no first name. */
  lemma LoggedInUserGreeted(emailField: string, passwordField: string,
                            lookup: string -> Query<UserDoc>, verify: Login.Verifier, prefs: Prefs)
    requires Trim(emailField) != [] && Trim(passwordField) != []
    requires lookup(Trim(emailField)).QueryOk? && lookup(Trim(emailField)).docs != []
    requires lookup(Trim(emailField)).docs[0].password.Some?
    requires verify(Trim(passwordField), lookup(Trim(emailField)).docs[0].password.value)
    ensures var doc := lookup(Trim(emailField)).docs[0];
            var l := Login.LoginUser(emailField, passwordField, lookup, verify, prefs);
            && l.outcome == Login.LoggedIn
            && Dashboard.OpenDashboard(l.prefs)
               == Dashboard.Welcome(Dashboard.Greeting(Trim(emailField), OrEmpty(doc.firstName), OrEmpty(doc.lastName)))
  {
  }

  /** The two preference files hold the same session values. */
  predicate SameSession(p: Prefs, q: Prefs) {
    && GetString(p, USER_EMAIL) == GetString(q, USER_EMAIL)
    && GetString(p, USER_FIRST_NAME) == GetString(q, USER_FIRST_NAME)
    && GetString(p, USER_LAST_NAME) == GetString(q, USER_LAST_NAME)
    && GetString(p, USER_ROLE) == GetString(q, USER_ROLE)
    && GetString(p, USER_ID) == GetString(q, USER_ID)
  }

  /** An account just registered logs in with the same form input, as long as
      the lookup returns its document first and BCrypt accepts the trimmed
      password against the stored hash; the login stores the same session
      values as the registration did. */
  lemma {:induction false} RegisteredUserCanLogIn(
    nameField: string, emailField: string, passwordField: string,
    lookup: string -> Query<UserDoc>, hashed: string, now: Long,
    write: Register.WriteResult, prefs: Prefs,
    laterLookup: string -> Query<UserDoc>, verify: Login.Verifier, laterPrefs: Prefs)
    requires Register.Validate(nameField, emailField, passwordField).Valid?
    requires lookup(Trim(emailField)) == QueryOk([]) && write.Written?
    requires var u := Register.NewUserRecord(Register.Validate(nameField, emailField, passwordField).account,
                                             hashed, now);
             && laterLookup(Trim(emailField)).QueryOk?
             && laterLookup(Trim(emailField)).docs != []
             && laterLookup(Trim(emailField)).docs[0] == Register.StoredDoc(write.id, u)
    requires verify(Trim(passwordField), hashed)
    ensures var r := Register.RegisterUser(nameField, emailField, passwordField, lookup, hashed, now, write, prefs);
            var l := Login.LoginUser(emailField, passwordField, laterLookup, verify, laterPrefs);
            && r.outcome.Registered?
            && l.outcome == Login.LoggedIn
            && SameSession(l.prefs, r.prefs)
  {
    var r := Register.RegisterUser(nameField, emailField, passwordField, lookup, hashed, now, write, prefs);
    Register.RegisteredAccount(nameField, emailField, passwordField, lookup, hashed, now, write, prefs);
    var a := Register.Validate(nameField, emailField, passwordField).account;
    assert r == Register.CreateNewUser(a, hashed, now, write, prefs);
    var u := Register.NewUserRecord(a, hashed, now);
    assert r.outcome == Register.Registered(write.id, u);
    var doc := Register.StoredDoc(write.id, u);
    var email := Trim(emailField);
    var password := Trim(passwordField);
    assert password == a.password != [] && email == a.email != [];
    assert laterLookup(email).docs[0] == doc;
    assert doc.password == Some(hashed);
    var l := Login.LoginUser(emailField, passwordField, laterLookup, verify, laterPrefs);
    assert l == Login.DecideLogin(email, password, laterLookup(email), verify, laterPrefs);
    assert l.outcome == Login.LoggedIn;
    assert GetString(l.prefs, USER_EMAIL) == GetString(r.prefs, USER_EMAIL);
    assert GetString(l.prefs, USER_FIRST_NAME) == GetString(r.prefs, USER_FIRST_NAME);
    assert GetString(l.prefs, USER_LAST_NAME) == GetString(r.prefs, USER_LAST_NAME);
    assert GetString(l.prefs, USER_ROLE) == GetString(r.prefs, USER_ROLE);
    assert GetString(l.prefs, USER_ID) == GetString(r.prefs, USER_ID);
  }

  /** Logging out closes every screen gated on the session: the dashboard and
      the recommendations redirect to login, and the login form is shown. */
  lemma LogoutClosesSession(prefs: Prefs)
    ensures Dashboard.OpenDashboard(Dashboard.Logout(prefs)) == Dashboard.RedirectToLogin
    ensures Login.StartScreen(Dashboard.Logout(prefs)) == Login.LoginForm
    ensures Recommendations.OpenRecommendations(Dashboard.Logout(prefs)) == Recommendations.RedirectToLogin(Recommendations.LOGIN_FIRST)
  {
  }
}
