/** The registration screen: field validation, the split of the full name
    into first and last name, the duplicate-email check, and the account
    record and session written for a new user. Hashing, the clock and the
    datastore write are parameters. */
module Register {
  import opened JavaLang
  import opened Storage

  /** Passwords shorter than this many UTF-16 code units are refused. */
  const MIN_PASSWORD_LENGTH: nat := 6

  /** The role every new account gets. */
  const DEFAULT_ROLE: string := "USER"

  // ---------------------------------------------------------------------------
  // Splitting the full name: `fullName.split(" ", 2)`
  // ---------------------------------------------------------------------------

  /** The position of the first occurrence of `c` in `s`, if any. */
  function IndexOf(s: string, c: char): (r: Option<nat>)
    ensures r.None? <==> c !in s
    ensures r.Some? ==> r.value < |s| && s[r.value] == c
    ensures r.Some? ==> forall j :: 0 <= j < r.value ==> s[j] != c
  {
    if s == [] then None
    else if s[0] == c then Some(0)
    else
      match IndexOf(s[1..], c)
      case None => None
      case Some(i) =>
        assert s[..i + 1] == [s[0]] + s[1..][..i];
        Some(i + 1)
  }

  datatype Name = Name(first: string, last: string)

  /** The two parts of `split(" ", 2)`: what precedes the first space, and
      everything after it (empty when there is no space). */
  function SplitName(fullName: string): (n: Name)
    ensures ' ' !in n.first
    ensures ' ' !in fullName ==> n == Name(fullName, "")
    ensures ' ' in fullName ==> fullName == n.first + " " + n.last
  {
    match IndexOf(fullName, ' ')
    case None => Name(fullName, "")
    case Some(i) =>
      assert fullName == fullName[..i] + " " + fullName[i + 1..];
      Name(fullName[..i], fullName[i + 1..])
  }

  /** For a trimmed, non-empty name the first name is never empty, and the
      last name is empty exactly when there was no space, in which case the
      first name is the whole name. */
  lemma SplitTrimmedName(name: string)
    requires name == Trim(name) && name != []
    ensures SplitName(name).first != []
    ensures SplitName(name).last == [] <==> ' ' !in name
    ensures SplitName(name).last == [] ==> SplitName(name).first == name
  {
    var n := SplitName(name);
    assert !IsTrimmable(name[0]) && !IsTrimmable(name[|name| - 1]);
    if ' ' in name {
      assert name == n.first + " " + n.last;
      assert name[|n.first|] == ' ';
    }
  }

  // ---------------------------------------------------------------------------
  // Validation
  // ---------------------------------------------------------------------------

  datatype RegisterError = FieldsMissing | PasswordTooShort

  /** The trimmed fields of a form that passed validation, with the name split. */
  datatype Account = Account(firstName: string, lastName: string, email: string, password: string)

  datatype Validation = Refused(error: RegisterError) | Valid(account: Account)

  /** The checks done before anything is sent to the datastore: all three
      trimmed fields must be non-empty, then the trimmed password must be at
      least six code units long. */
  function Validate(nameField: string, emailField: string, passwordField: string): (v: Validation)
    ensures v == Refused(FieldsMissing) <==>
              Trim(nameField) == [] || Trim(emailField) == [] || Trim(passwordField) == []
    ensures v == Refused(PasswordTooShort) <==>
              && Trim(nameField) != [] && Trim(emailField) != [] && Trim(passwordField) != []
              && Utf16Length(Trim(passwordField)) < MIN_PASSWORD_LENGTH
    ensures v.Valid? ==>
              && Utf16Length(v.account.password) >= MIN_PASSWORD_LENGTH
              && v.account.password == Trim(passwordField)
              && v.account.email == Trim(emailField) != []
              && Name(v.account.firstName, v.account.lastName) == SplitName(Trim(nameField))
  {
    var fullName := Trim(nameField);
    var email := Trim(emailField);
    var password := Trim(passwordField);
    if fullName == [] || email == [] || password == [] then Refused(FieldsMissing)
    else if Utf16Length(password) < MIN_PASSWORD_LENGTH then Refused(PasswordTooShort)
    else
      var name := SplitName(fullName);
      Valid(Account(name.first, name.last, email, password))
  }

  // ---------------------------------------------------------------------------
  // Creating the account
  // ---------------------------------------------------------------------------

  /** The document added to the "users" collection. */
  datatype UserRecord = UserRecord(
    firstName: string,
    lastName: string,
    email: string,
    password: string,
    role: string,
    createdAt: Long)

  /** How the datastore answered the `add`: the new document's id, or an error. */
  datatype WriteResult = WriteFailed(reason: string) | Written(id: string)

  datatype RegisterOutcome =
    | Invalid(error: RegisterError)
    | CheckFailed(reason: string)
    | EmailTaken
    | CreateFailed(reason: string)
    | Registered(id: string, record: UserRecord)

  datatype RegisterResult = RegisterResult(outcome: RegisterOutcome, prefs: Prefs)

  /** The prefix of the toast for a failed query or write, followed by its
      message. */
  const REGISTRATION_FAILED: string := "Registration failed: "

  /** The toast shown for each outcome. A failed query and a failed write
      share one toast, which carries the datastore's message after a prefix
      no other toast has. */
  function RegisterToast(o: RegisterOutcome): (t: string)
    ensures o.CheckFailed? || o.CreateFailed? <==>
              |t| >= |REGISTRATION_FAILED| && t[..|REGISTRATION_FAILED|] == REGISTRATION_FAILED
    ensures o.CheckFailed? || o.CreateFailed? ==> t[|REGISTRATION_FAILED|..] == o.reason
  {
    NotPrefix("Please fill all fields", REGISTRATION_FAILED, 0);
    NotPrefix("Password must be at least 6 characters", REGISTRATION_FAILED, 0);
    NotPrefix("Email already registered", REGISTRATION_FAILED, 0);
    NotPrefix("Registration successful", REGISTRATION_FAILED, 13);
    match o
    case Invalid(FieldsMissing) => "Please fill all fields"
    case Invalid(PasswordTooShort) =>
      "Password must be at least 6 characters"
    case CheckFailed(reason) => REGISTRATION_FAILED + reason
    case EmailTaken => "Email already registered"
    case CreateFailed(reason) => REGISTRATION_FAILED + reason
    case Registered(_, _) => "Registration successful"
  }

  /** Equal toasts mean the same kind of outcome: the same validation error,
      both a duplicate email, both a success, or both a failure with the same
      message (the toast does not say whether the query or the write failed). */
  lemma RegisterToastDistinguishes(o1: RegisterOutcome, o2: RegisterOutcome)
    requires RegisterToast(o1) == RegisterToast(o2)
    ensures o1.Invalid? ==> o2 == o1
    ensures o1 == EmailTaken <==> o2 == EmailTaken
    ensures o1.Registered? <==> o2.Registered?
    ensures o1.CheckFailed? || o1.CreateFailed? ==>
              (o2.CheckFailed? || o2.CreateFailed?) && o2.reason == o1.reason
  {
    var t := RegisterToast(o1);
    if o1.CheckFailed? || o1.CreateFailed? {
      assert o2.CheckFailed? || o2.CreateFailed?;
    } else {
      assert !(o2.CheckFailed? || o2.CreateFailed?);
      ToastLetters(o1);
      ToastLetters(o2);
    }
  }

  /** The first two letters of the toasts that carry no message. */
  lemma ToastLetters(o: RegisterOutcome)
    requires !(o.CheckFailed? || o.CreateFailed?)
    ensures var t := RegisterToast(o);
      && |t| >= 2
      && (o == EmailTaken ==> t[0] == 'E' && t[1] == 'm')
      && (o.Registered? ==> t[0] == 'R' && t[1] == 'e')
      && (o == Invalid(FieldsMissing) ==> t[0] == 'P' && t[1] == 'l')
      && (o == Invalid(PasswordTooShort) ==> t[0] == 'P' && t[1] == 'a')
  {
    match o
    case Invalid(FieldsMissing) => LeadingPair("Please fill all fields");
    case Invalid(PasswordTooShort) => LeadingPair("Password must be at least 6 characters");
    case EmailTaken => LeadingPair("Email already registered");
    case Registered(_, _) => LeadingPair("Registration successful");
  }

  /** The first two characters of a string of at least two. */
  lemma LeadingPair(t: string)
    requires |t| >= 2
    ensures t[..2] == [t[0], t[1]]
  {
  }

  /** The record `createNewUser` builds from a validated form: the password is
      replaced by its hash, the role is always the default one. */
  function NewUserRecord(a: Account, hashed: string, now: Long): (u: UserRecord)
    ensures u.role == DEFAULT_ROLE && u.password == hashed
    ensures u.firstName == a.firstName && u.lastName == a.lastName && u.email == a.email
    ensures u.createdAt == now
  {
    UserRecord(a.firstName, a.lastName, a.email, hashed, DEFAULT_ROLE, now)
  }

  /** How an added record reads back as a document of the "users" collection. */
  function StoredDoc(id: string, u: UserRecord): UserDoc {
    UserDoc(id, Some(u.email), Some(u.password), Some(u.firstName), Some(u.lastName), Some(u.role))
  }

  /** The session a successful registration stores. */
  function RegisterSession(u: UserRecord, id: string): SessionValues {
    SessionValues(Some(u.email), Some(u.firstName), Some(u.lastName), Some(DEFAULT_ROLE), Some(id))
  }

  /** `createNewUser`: the record is added; on success the session is saved. */
  function CreateNewUser(a: Account, hashed: string, now: Long, write: WriteResult,
                         prefs: Prefs): (r: RegisterResult)
    ensures write.WriteFailed? ==> r == RegisterResult(CreateFailed(write.reason), prefs)
    ensures write.Written? ==> r.outcome == Registered(write.id, NewUserRecord(a, hashed, now))
    ensures OnlySessionKeysChanged(prefs, r.prefs)
    ensures write.Written? ==>
              && GetString(r.prefs, USER_EMAIL) == a.email
              && GetString(r.prefs, USER_FIRST_NAME) == a.firstName
              && GetString(r.prefs, USER_LAST_NAME) == a.lastName
              && GetString(r.prefs, USER_ROLE) == DEFAULT_ROLE
              && GetString(r.prefs, USER_ID) == write.id
  {
    var u := NewUserRecord(a, hashed, now);
    match write
    case WriteFailed(reason) => RegisterResult(CreateFailed(reason), prefs)
    case Written(id) => RegisterResult(Registered(id, u), SaveSession(prefs, RegisterSession(u, id)))
  }

  /** The callback of the duplicate-email query for a validated form: a failed
      query or any matching document stops the registration, no match goes on
      to `createNewUser`. */
  function CheckEmail(a: Account, q: Query<UserDoc>, hashed: string, now: Long,
                      write: WriteResult, prefs: Prefs): (r: RegisterResult)
    ensures q.QueryFailed? ==> r == RegisterResult(CheckFailed(q.message), prefs)
    ensures r.outcome == EmailTaken <==> q.QueryOk? && q.docs != []
    ensures r.outcome == EmailTaken ==> r.prefs == prefs
    ensures r.outcome.Registered? || r.outcome.CreateFailed? <==> q == QueryOk([])
    ensures q == QueryOk([]) ==> r == CreateNewUser(a, hashed, now, write, prefs)
  {
    match q
    case QueryFailed(reason) => RegisterResult(CheckFailed(reason), prefs)
    case QueryOk(docs) =>
      if docs != [] then RegisterResult(EmailTaken, prefs)
      else CreateNewUser(a, hashed, now, write, prefs)
  }

  /** The register button. `lookup` answers the duplicate-email query,
      `hashed` is BCrypt's hash of the trimmed password, `now` the clock and
      `write` the datastore's answer to adding the record. An invalid form
      never reaches the datastore. */
  function RegisterUser(nameField: string, emailField: string, passwordField: string,
                        lookup: string -> Query<UserDoc>, hashed: string, now: Long,
                        write: WriteResult, prefs: Prefs): (r: RegisterResult)
    ensures Validate(nameField, emailField, passwordField).Refused? <==> r.outcome.Invalid?
    ensures Validate(nameField, emailField, passwordField).Refused? ==>
              r == RegisterResult(Invalid(Validate(nameField, emailField, passwordField).error), prefs)
    ensures Validate(nameField, emailField, passwordField).Valid? ==>
              r == CheckEmail(Validate(nameField, emailField, passwordField).account,
                              lookup(Trim(emailField)), hashed, now, write, prefs)
  {
    match Validate(nameField, emailField, passwordField)
    case Refused(e) => RegisterResult(Invalid(e), prefs)
    case Valid(a) => CheckEmail(a, lookup(a.email), hashed, now, write, prefs)
  }

  /** A registration that succeeds had a valid form, found no account with the
      trimmed email, and had its record written; the record and the session
      carry the role "USER", the record holds the hash and not the password.
      Every other outcome leaves the session untouched. */
  lemma RegisteredAccount(nameField: string, emailField: string, passwordField: string,
                          lookup: string -> Query<UserDoc>, hashed: string, now: Long,
                          write: WriteResult, prefs: Prefs)
    ensures var r := RegisterUser(nameField, emailField, passwordField, lookup, hashed, now, write, prefs);
      && (r.outcome.Registered? ==>
            && Validate(nameField, emailField, passwordField).Valid?
            && lookup(Trim(emailField)) == QueryOk([])
            && write.Written?
            && r.outcome.record.role == DEFAULT_ROLE
            && GetString(r.prefs, USER_ROLE) == DEFAULT_ROLE
            && r.outcome.record.password == hashed
            && r.outcome.record.email == Trim(emailField))
      && (!r.outcome.Registered? ==> r.prefs == prefs)
  {
    var v := Validate(nameField, emailField, passwordField);
    if v.Valid? {
      var q := lookup(Trim(emailField));
      if q == QueryOk([]) {
        var c := CreateNewUser(v.account, hashed, now, write, prefs);
        assert write.WriteFailed? ==> c.prefs == prefs;
      }
    }
  }
}
