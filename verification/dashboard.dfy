/** The dashboard: the session gate and the welcome line shown when it opens,
    and the logout button, which empties the session. */
module Dashboard {
  import opened Storage

  const WELCOME: string := "Welcome, "

  /** What the dashboard shows when it opens. */
  datatype View = RedirectToLogin | Welcome(message: string)

  /** The welcome line: both names when both are present, the first name
      alone when only it is present, otherwise the email (a last name without
      a first name is ignored). */
  function Greeting(email: string, first: string, last: string): (g: string)
    ensures |g| >= |WELCOME| && g[..|WELCOME|] == WELCOME
    ensures first == [] ==> g[|WELCOME|..] == email
    ensures first != [] && last == [] ==> g[|WELCOME|..] == first
    ensures first != [] && last != [] ==> g[|WELCOME|..] == first + " " + last
  {
    if first != [] && last != [] then WELCOME + first + " " + last
    else if first != [] then WELCOME + first
    else WELCOME + email
  }

  /** The session gate: no stored email sends the user to the login screen
      and shows no greeting. */
  function OpenDashboard(prefs: Prefs): (v: View)
    ensures v == RedirectToLogin <==> GetString(prefs, USER_EMAIL) == ""
    ensures v.Welcome? ==>
              v.message == Greeting(GetString(prefs, USER_EMAIL),
                                    GetString(prefs, USER_FIRST_NAME),
                                    GetString(prefs, USER_LAST_NAME))
  {
    var email := GetString(prefs, USER_EMAIL);
    if email == "" then RedirectToLogin
    else Welcome(Greeting(email, GetString(prefs, USER_FIRST_NAME), GetString(prefs, USER_LAST_NAME)))
  }

  /** The logout button: every entry of the preferences file is removed. */
  function Logout(prefs: Prefs): (q: Prefs)
    ensures forall k :: k !in q
  {
    ClearAll(prefs)
  }

  /** After a logout the next dashboard load redirects to the login screen. */
  lemma LogoutThenRedirect(prefs: Prefs)
    ensures OpenDashboard(Logout(prefs)) == RedirectToLogin
  {
  }
}
