/** The two stores the screens talk to, reduced to values: the app's private
    key/value preferences file ("MediCareNow"), which holds the login session,
    and the answer of a cloud-datastore query. */
module Storage {
  import opened JavaLang

  // ---------------------------------------------------------------------------
  // The session, kept in the "MediCareNow" preferences file
  // ---------------------------------------------------------------------------

  /** The contents of the preferences file. */
  type Prefs = map<string, string>

  const USER_EMAIL: string := "user_email"
  const USER_FIRST_NAME: string := "user_first_name"
  const USER_LAST_NAME: string := "user_last_name"
  const USER_ROLE: string := "user_role"
  const USER_ID: string := "user_id"

  /** The five keys a login or a registration writes. */
  const SESSION_KEYS: set<string> := {USER_EMAIL, USER_FIRST_NAME, USER_LAST_NAME, USER_ROLE, USER_ID}

  /** `q` differs from `p` at most under the five session keys. */
  ghost predicate OnlySessionKeysChanged(p: Prefs, q: Prefs) {
    && (forall k :: k !in SESSION_KEYS ==> (k in q <==> k in p))
    && (forall k :: k !in SESSION_KEYS && k in p ==> q[k] == p[k])
  }

  /** `getString(key, "")`: every read in the app defaults to the empty string. */
  function GetString(p: Prefs, key: string): (v: string)
    ensures key !in p ==> v == ""
    ensures key in p ==> v == p[key]
  {
    if key in p then p[key] else ""
  }

  /** `putString(key, value)`; a null value removes the key. */
  function PutString(p: Prefs, key: string, value: Option<string>): (q: Prefs)
    ensures value.Some? ==> key in q && q[key] == value.value
    ensures value.None? ==> key !in q
    ensures forall k :: k != key ==> (k in q <==> k in p)
    ensures forall k :: k != key && k in p ==> q[k] == p[k]
  {
    match value
    case Some(v) => p[key := v]
    case None => p - {key}
  }

  /** What a read of a string field written as `value` returns. */
  function OrEmpty(value: Option<string>): string {
    match value
    case Some(v) => v
    case None => ""
  }

  /** The values a session write stores under the five session keys. */
  datatype SessionValues = SessionValues(
    email: Option<string>,
    firstName: Option<string>,
    lastName: Option<string>,
    role: Option<string>,
    id: Option<string>)

  /** One editor transaction putting the five session values (the keys are
      distinct, so the order of the puts does not matter). */
  function SaveSession(p: Prefs, s: SessionValues): (q: Prefs)
    ensures GetString(q, USER_EMAIL) == OrEmpty(s.email)
    ensures GetString(q, USER_FIRST_NAME) == OrEmpty(s.firstName)
    ensures GetString(q, USER_LAST_NAME) == OrEmpty(s.lastName)
    ensures GetString(q, USER_ROLE) == OrEmpty(s.role)
    ensures GetString(q, USER_ID) == OrEmpty(s.id)
    ensures OnlySessionKeysChanged(p, q)
  {
    var p1 := PutString(p, USER_EMAIL, s.email);
    var p2 := PutString(p1, USER_FIRST_NAME, s.firstName);
    var p3 := PutString(p2, USER_LAST_NAME, s.lastName);
    var p4 := PutString(p3, USER_ROLE, s.role);
    PutString(p4, USER_ID, s.id)
  }

  /** `editor.clear()`: nothing is left in the file. */
  function ClearAll(p: Prefs): (q: Prefs)
    ensures forall k :: k !in q
    ensures forall k :: GetString(q, k) == ""
  {
    map[]
  }

  // ---------------------------------------------------------------------------
  // Datastore queries
  // ---------------------------------------------------------------------------

  /** The completed task of a `whereEqualTo(...).get()` query: either an
      error message or the matching documents in the order the datastore
      returns them. */
  datatype Query<T> = QueryFailed(message: string) | QueryOk(docs: seq<T>)

  /** A document of the "users" collection, as read back: any field may be
      missing, which reads as null. */
  datatype UserDoc = UserDoc(
    id: string,
    email: Option<string>,
    password: Option<string>,
    firstName: Option<string>,
    lastName: Option<string>,
    role: Option<string>)
}
