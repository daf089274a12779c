# MediCareNow screen rules in Dafny

MediCareNow is an Android app for patients. A user registers or logs in against a
"users" collection in a cloud datastore, and the session is kept in the
private preferences file "MediCareNow". The dashboard greets the user. The
health-data screen receives pulse, temperature and humidity readings from a
sensor over Bluetooth and raises alerts outside fixed bands. The
recommendations screen lists the doctor's recommendations for the patient.

This project models the deterministic rules inside those screens' callbacks
as pure functions over strings, integers and sequences:

- `JavaLang` (`java_lang.dfy`): the `java.lang` behaviour the rules depend on.
  - `String.trim`, `toLowerCase` and `String.length`, which counts UTF-16 code units.
  - Truncating `long` division and the narrowing `(int)` cast.
  - The decimal text `StringBuilder.append` produces for integers.
- `Storage` (`storage.dfy`): the preferences file as a map from keys to strings, and the result of a datastore query.
- `Login` (`login.dfy`): the existing-session redirect, the empty-field guard, and the first-match password decision with the session it stores.
- `Register` (`register.dfy`): trimming and validation, the `split(" ", 2)` name split, the duplicate-email check, and the record and session written for a new account.
- `Dashboard` (`dashboard.dfy`): the session gate, the choice of welcome line, and logout.
- `HealthData` (`health_data.dfy`): the alert bands and the alert text, the reaction to a reading, and the connect and reconnect decisions.
- `Recommendations` (`recommendations.dfy`): the session gate, the type labels, the ten-cell progress bar, the numbered listing with its active/completed counts and summary, and the default text.
- `Flows` (`flows.dfy`): properties that span screens, e.g. a registered account greeted by its full name and able to log in, and logout closing every gated screen.

Some calls are replaced by inputs:

- The datastore's answers, to queries and to adding a document.
- BCrypt's hash, and its verify predicate.
- The JSON decoder's result.
- The clock.
- Whether the Bluetooth adapter and device exist and are enabled.

A Java `float` is a `Float` value: finite (a real), plus or minus infinity, or NaN. Every comparison with NaN is false.

## Model

All source paths are under `app/src/main/java/com/example/medicarenow/`.

| member | source | states |
|---|---|---|
| JavaLang.TrimStart | app/src/main/java/com/example/medicarenow/LoginActivity.java:69-70 | the result is a suffix of the input, does not start with a character ≤ U+0020, and every dropped character is ≤ U+0020 |
| JavaLang.TrimEnd | app/src/main/java/com/example/medicarenow/LoginActivity.java:69-70 | the result is a prefix of the input, does not end with a character ≤ U+0020, and every dropped character is ≤ U+0020 |
| JavaLang.Trim | app/src/main/java/com/example/medicarenow/LoginActivity.java:69-70 | `trim` keeps an infix. All characters dropped before and after it are ≤ U+0020. A non-empty result starts and ends with a character above U+0020 |
| JavaLang.TrimmedInside | app/src/main/java/com/example/medicarenow/RegisterActivity.java:49-51 | proof helper for `Trim`: trimming the back of a front-trimmed suffix leaves an infix trimmed on both sides |
| JavaLang.TrimEmptyIff | app/src/main/java/com/example/medicarenow/RegisterActivity.java:57 | a field trims to empty exactly when every character in it is ≤ U+0020 |
| JavaLang.TrimIdempotent | app/src/main/java/com/example/medicarenow/RegisterActivity.java:49-51 | trimming an already-trimmed field changes nothing |
| JavaLang.LowerChar | app/src/main/java/com/example/medicarenow/RecommendationsActivity.java:184 | upper-case ASCII letters map to lower case; every other character is kept |
| JavaLang.ToLowerCase | app/src/main/java/com/example/medicarenow/RecommendationsActivity.java:184 | lower-casing keeps the length and lowers each character on its own |
| JavaLang.Utf16Length | app/src/main/java/com/example/medicarenow/RegisterActivity.java:63 | `length()` counts UTF-16 code units: the total lies between the character count and twice it, and is zero only for the empty string |
| JavaLang.Utf16LengthOfChar | app/src/main/java/com/example/medicarenow/RegisterActivity.java:63 | one character is two code units exactly when it lies at or above U+10000, and one otherwise |
| JavaLang.Utf16LengthIsCharCount | app/src/main/java/com/example/medicarenow/RegisterActivity.java:63 | `length()` equals the character count exactly when no character lies at or above U+10000 |
| JavaLang.Utf16LengthAppend | app/src/main/java/com/example/medicarenow/RegisterActivity.java:63 | the code-unit length of a concatenation is the sum of the parts' lengths |
| JavaLang.JavaDiv | app/src/main/java/com/example/medicarenow/RecommendationsActivity.java:122 | `long` division truncates toward zero: for a non-negative dividend the quotient is non-negative and brackets it from below, for a negative one it is non-positive and brackets it from above |
| JavaLang.DivBounds | app/src/main/java/com/example/medicarenow/RecommendationsActivity.java:122 | proof helper for `JavaDiv`: the quotient of a natural number times the divisor is at most the number and within one divisor of it |
| JavaLang.ToInt | app/src/main/java/com/example/medicarenow/RecommendationsActivity.java:122 | the `(int)` cast is the identity on the `int` range and otherwise differs from its argument by a multiple of 2^32 |
| JavaLang.DigitChar | app/src/main/java/com/example/medicarenow/RecommendationsActivity.java:98 | a decimal digit renders as the character '0' to '9' |
| JavaLang.NatToString | app/src/main/java/com/example/medicarenow/RecommendationsActivity.java:98 | a count renders as a non-empty string of decimal digits with no leading zero |
| JavaLang.IntToString | app/src/main/java/com/example/medicarenow/RecommendationsActivity.java:119 | a `long` renders as digits exactly when it is non-negative, and otherwise as a minus sign followed by digits; the digits read back as the value's magnitude |
| JavaLang.NatToStringRoundTrip | app/src/main/java/com/example/medicarenow/RecommendationsActivity.java:98 | reading a rendered number back as decimal digits gives the number |
| JavaLang.NatToStringInjective | app/src/main/java/com/example/medicarenow/RecommendationsActivity.java:98 | different numbers render as different strings, so block numbers and counts are never confused |
| Storage.GetString | app/src/main/java/com/example/medicarenow/DashboardActivity.java:30-33 | `getString(key, "")` returns the stored value, or "" when the key is missing |
| Storage.PutString | app/src/main/java/com/example/medicarenow/LoginActivity.java:129-133 | `putString` stores a value under its key, removes the key for a null value, and leaves every other key as it was |
| Storage.SaveSession | app/src/main/java/com/example/medicarenow/LoginActivity.java:127-134 | the five session keys read back the values written ("" for a null), and every other key is unchanged |
| Storage.ClearAll | app/src/main/java/com/example/medicarenow/DashboardActivity.java:73-76 | `clear()` leaves no key, so every read returns "" |
| Login.StartScreen | app/src/main/java/com/example/medicarenow/LoginActivity.java:55-65 | the login screen jumps to the dashboard exactly when a non-empty email is stored |
| Login.DecideLogin | app/src/main/java/com/example/medicarenow/LoginActivity.java:92-150 | a failed query is reported with its message, and no match gives "User not found". A first match without a stored hash never logs in: the BCrypt call throws and nothing is stored. Otherwise the outcome depends only on the verifier's answer for the first match's hash. Only success writes the session: the entered email plus the first match's id, names and role. No other preference key changes |
| Login.LoginToast | app/src/main/java/com/example/medicarenow/LoginActivity.java:75-149 | no toast appears exactly when a missing stored hash ends the callback; the toast starts with "Login failed: " exactly for a failed lookup, and then carries the datastore's message |
| Login.LoginToastInjective | app/src/main/java/com/example/medicarenow/LoginActivity.java:75-149 | different outcomes never show the same toast |
| Login.OnlyFirstMatchCounts | app/src/main/java/com/example/medicarenow/LoginActivity.java:102-145 | matches after the first never change the result |
| Login.LoginUser | app/src/main/java/com/example/medicarenow/LoginActivity.java:68-86 | the login is refused exactly when a trimmed field is empty, with the session untouched. Otherwise the decision is taken on the trimmed fields and the lookup of the trimmed email |
| Login.LoggedInSkipsForm | app/src/main/java/com/example/medicarenow/LoginActivity.java:55-62 | non-empty trimmed fields, a found document with a stored hash and an accepted password log the user in, and the next start of the login screen then goes to the dashboard |
| Register.IndexOf | app/src/main/java/com/example/medicarenow/RegisterActivity.java:70 | finds the first occurrence of a character, or reports correctly that there is none |
| Register.SplitName | app/src/main/java/com/example/medicarenow/RegisterActivity.java:70-72 | the first name has no space. Without a space the first name is the whole name and the last name is "". Otherwise first + " " + last rebuilds the name |
| Register.SplitTrimmedName | app/src/main/java/com/example/medicarenow/RegisterActivity.java:70-72 | for a trimmed non-empty name the first name is non-empty. The last name is empty exactly when there is no space, and then the first name is the whole name |
| Register.Validate | app/src/main/java/com/example/medicarenow/RegisterActivity.java:48-72 | refused exactly when a trimmed field is empty. Otherwise refused exactly when the trimmed password has fewer than 6 code units. A valid form carries the trimmed email and password and the split name |
| Register.NewUserRecord | app/src/main/java/com/example/medicarenow/RegisterActivity.java:110-116 | the stored record has role "USER", holds the hash in place of the password, keeps the names and email, and carries the clock value as its creation time |
| Register.CreateNewUser | app/src/main/java/com/example/medicarenow/RegisterActivity.java:101-148 | a failed add reports its reason and keeps the session. A successful add writes the email, names, "USER" and the new document id into the session, and no other preference key changes |
| Register.RegisterToast | app/src/main/java/com/example/medicarenow/RegisterActivity.java:57-147 | the toast starts with "Registration failed: " exactly for a failed query or write, and then carries the datastore's message |
| Register.RegisterToastDistinguishes | app/src/main/java/com/example/medicarenow/RegisterActivity.java:57-147 | equal toasts mean the same validation error, both a duplicate, both a success, or both a failure with the same message |
| Register.CheckEmail | app/src/main/java/com/example/medicarenow/RegisterActivity.java:78-98 | a failed check reports its message. Any existing match stops with "Email already registered" and leaves the session as it was. Only an empty result goes on to create the account |
| Register.RegisterUser | app/src/main/java/com/example/medicarenow/RegisterActivity.java:48-98 | the form is rejected exactly when validation refuses it, with the same error and the session untouched. A valid form goes to the duplicate check on the trimmed email |
| Register.RegisteredAccount | app/src/main/java/com/example/medicarenow/RegisterActivity.java:82-136 | a successful registration had a valid form, no existing match and a written record. Record and session both carry role "USER"; the record holds the hash and the trimmed email. Every other outcome leaves the session untouched |
| Dashboard.Greeting | app/src/main/java/com/example/medicarenow/DashboardActivity.java:46-55 | the greeting starts with "Welcome, " followed by: first + " " + last when both are present; the first name when only it is present; the email when the first name is missing, even if a last name is present |
| Dashboard.OpenDashboard | app/src/main/java/com/example/medicarenow/DashboardActivity.java:28-55 | the dashboard redirects to login exactly when the stored email is empty, and otherwise greets with the stored email and names |
| Dashboard.Logout | app/src/main/java/com/example/medicarenow/DashboardActivity.java:69-76 | logout leaves no entry in the preferences file |
| Dashboard.LogoutThenRedirect | app/src/main/java/com/example/medicarenow/DashboardActivity.java:29-44 | after a logout the dashboard gate sends the user to login |
| HealthData.PulseBand | app/src/main/java/com/example/medicarenow/HealthDataActivity.java:144-148 | a pulse is normal exactly in [60, 100], high exactly above 100, low exactly below 60 |
| HealthData.FloatBand | app/src/main/java/com/example/medicarenow/HealthDataActivity.java:150-160 | a float is normal exactly when it lies within the inclusive bounds or is NaN, high exactly when it is above the maximum, low exactly when it is below the minimum |
| HealthData.ReadFragmentAfter | app/src/main/java/com/example/medicarenow/HealthDataActivity.java:144-160 | one metric's fragment can be read back off the front of the message |
| HealthData.AfterPulse | app/src/main/java/com/example/medicarenow/HealthDataActivity.java:150-160 | the temperature and humidity fragments never look like a pulse fragment |
| HealthData.AfterTemperature | app/src/main/java/com/example/medicarenow/HealthDataActivity.java:156-160 | the humidity fragment never looks like a temperature fragment |
| HealthData.AlertTextRoundTrip | app/src/main/java/com/example/medicarenow/HealthDataActivity.java:141-160 | the alert message determines the three bands: at most one fragment per metric, in the order pulse, temperature, humidity |
| HealthData.AlertTextEmptyIff | app/src/main/java/com/example/medicarenow/HealthDataActivity.java:141-162 | the alert message is empty exactly when all three metrics are normal |
| HealthData.CheckThresholds | app/src/main/java/com/example/medicarenow/HealthDataActivity.java:141-166 | an all-normal reading shows no toast and keeps the status. Otherwise the message is toasted, the status is "ALERT: " + message, and the message decodes to the reading's bands |
| HealthData.NaNNeverAlerts | app/src/main/java/com/example/medicarenow/HealthDataActivity.java:150-160 | NaN temperature and humidity with a normal pulse leave the status alone |
| HealthData.OnDataReceived | app/src/main/java/com/example/medicarenow/HealthDataActivity.java:183-195 | a payload that does not decode sets "Data format error" and keeps the previous reading. A decoded one becomes the current reading and goes through the threshold check |
| HealthData.ConnectToDevice | app/src/main/java/com/example/medicarenow/HealthDataActivity.java:113-133 | a connect to 00:11:22:33:44:55 is issued exactly when the adapter is enabled and both the device and the service exist. A missing adapter and a disabled adapter each set their own status line; a missing device and an unbound service both show "Device not found" |
| HealthData.OnConnectionStatusChanged | app/src/main/java/com/example/medicarenow/HealthDataActivity.java:197-211 | a connected link never reconnects. A lost link reconnects exactly when the service reference is set, and otherwise only reports the loss |
| HealthData.EveryLossRetried | app/src/main/java/com/example/medicarenow/HealthDataActivity.java:199-210 | with the service bound and the device reachable, every reported loss issues exactly one connect request |
| HealthData.UnboundNeverConnects | app/src/main/java/com/example/medicarenow/HealthDataActivity.java:206-208 | without the service reference no link event ever issues a connect request |
| Recommendations.OpenRecommendations | app/src/main/java/com/example/medicarenow/RecommendationsActivity.java:35-52 | the screen redirects to login, with the toast "Please login first", exactly when no user id is stored, and otherwise loads the recommendations of the stored (non-empty) id |
| Recommendations.FormatType | app/src/main/java/com/example/medicarenow/RecommendationsActivity.java:183-198 | a code equal to one of the five known codes, ignoring case, shows that code's label. Any other code is shown unchanged, keeping its case |
| Recommendations.FormatTypeIgnoresCase | app/src/main/java/com/example/medicarenow/RecommendationsActivity.java:184-194 | two spellings of a known code that differ only in case get the same label |
| Recommendations.FilledCells | app/src/main/java/com/example/medicarenow/RecommendationsActivity.java:122-130 | the number of full cells never exceeds ten |
| Recommendations.ProgressBarShape | app/src/main/java/com/example/medicarenow/RecommendationsActivity.java:122-131 | the bar is "🔋 [" + ten cells + "]\n", with the full cells first and the empty cells after them |
| Recommendations.FilledCellsOfPercentage | app/src/main/java/com/example/medicarenow/RecommendationsActivity.java:122-130 | while the truncated quotient progress/10 fits in an `int` (progress from -21 474 836 489 to 21 474 836 479), the full cells are that quotient clamped to 0..10: none below 10 (negatives included), ten from 100 on |
| Recommendations.FilledCellsWrap | app/src/main/java/com/example/medicarenow/RecommendationsActivity.java:122 | past the `int` range the cast wraps: a progress of 42 949 673 000 fills four cells |
| Recommendations.BuildProgressBar | app/src/main/java/com/example/medicarenow/RecommendationsActivity.java:122-131 | the cell-by-cell loop builds exactly the bar described above |
| Recommendations.BlockOpensWithNumber | app/src/main/java/com/example/medicarenow/RecommendationsActivity.java:98-99 | each block opens with "📋 RECOMANDAREA #" and its number |
| Recommendations.CountsPartition | app/src/main/java/com/example/medicarenow/RecommendationsActivity.java:91-95 | every document counts exactly once, as active or completed. All are counted active exactly when each status is "active", and none exactly when no status is |
| Recommendations.CountStep | app/src/main/java/com/example/medicarenow/RecommendationsActivity.java:91-95 | one more document raises exactly one of the two counters, and raises the active one only for status "active" |
| Recommendations.ListingStep | app/src/main/java/com/example/medicarenow/RecommendationsActivity.java:98-149 | proof helper for `RenderListing`: the next block is appended in order, numbered one past the blocks before it |
| Recommendations.ListingDone | app/src/main/java/com/example/medicarenow/RecommendationsActivity.java:152-168 | proof helper for `RenderListing`: the summary and the tips close the listing |
| Recommendations.RenderStep | app/src/main/java/com/example/medicarenow/RecommendationsActivity.java:80-149 | one turn of the loop raises exactly one counter, keeps the counters equal to the counts of the documents seen, and appends that document's block numbered with their sum |
| Recommendations.RenderListing | app/src/main/java/com/example/medicarenow/RecommendationsActivity.java:74-168 | the loop's counters are the active and completed counts of the documents and sum to their number. The text is the heading, blocks 1 to n in order, the summary and the tips |
| Recommendations.SummaryTotalIsCount | app/src/main/java/com/example/medicarenow/RecommendationsActivity.java:156-158 | the summary's total line shows the number of documents listed |
| Recommendations.ShowRecommendations | app/src/main/java/com/example/medicarenow/RecommendationsActivity.java:63-181 | the default text is shown exactly when the query failed or found nothing. A toast appears exactly on failure, with the error message. Otherwise the personal listing is shown |
| Recommendations.ListingIsNotLocal | app/src/main/java/com/example/medicarenow/RecommendationsActivity.java:200-216 | the personal listing never coincides with the default text |
| Recommendations.HeaderIsNotLocal | app/src/main/java/com/example/medicarenow/RecommendationsActivity.java:75-76 | whatever follows the personal heading, the text differs from the default one |
| Flows.RegisteredUserGreetedByFullName | app/src/main/java/com/example/medicarenow/RegisterActivity.java:70-72 | a form that validates, whose email is not taken and whose record is written, registers; the dashboard then greets the user with the trimmed full name exactly as typed |
| Flows.LoggedInUserGreeted | app/src/main/java/com/example/medicarenow/LoginActivity.java:127-134 | non-empty trimmed fields, a found document with a stored hash and an accepted password log the user in; the dashboard greeting is then built from the first match's names and the entered email |
| Flows.RegisteredUserCanLogIn | app/src/main/java/com/example/medicarenow/RegisterActivity.java:110-136 | with the same form input, a form that registers successfully also logs in, provided the lookup returns its document first and BCrypt accepts. The login stores the same session values as the registration |
| Flows.LogoutClosesSession | app/src/main/java/com/example/medicarenow/DashboardActivity.java:69-86 | after a logout the dashboard and the recommendations redirect to login, and the login screen shows its form |

## Left out

- The Bluetooth link service (`BluetoothService.java`) is not part of this model. It consists of threads, RFCOMM sockets and handler posting. The screen sees only its connect requests and its link events.
- Asynchrony is left out. Datastore queries and writes are taken as completed tasks, passed in as values.
- The realtime-database save of a reading and its timestamp are left out (I/O and the clock).
- BCrypt hashing and verification are parameters: a hash string and a verify predicate over a present hash.
- Login.DecideLogin: the BCrypt library is not part of this model. When the first match has no stored `password` field, the source hands null to `verify`. The model takes that call to throw: the callback ends without a toast, a session or a redirect (outcome `MissingHash`). The app's exact crash behaviour is not modelled.
- JSON decoding by Gson is a parameter: the decoded reading, or nothing for a syntax error.
- HealthData.OnDataReceived: a payload the decoder turns into null (e.g. "null") makes the screen crash while updating the view. This is not modelled.
- Register.CheckEmail: a query that succeeds with a null result is handled like a failure by the source, and then crashes on the missing exception. This is not modelled.
- The display formatting of floats (`String.format` with `%.1f` under the default locale) and of timestamps is left out, because it depends on the locale.
- `JavaLang.ToLowerCase` lowers ASCII letters only. For the five codes, the match result is the same as a non-Turkish locale's `toLowerCase`: the only non-ASCII character that lowers into ASCII is KELVIN SIGN, which becomes 'k', and no code contains 'k'. A Turkish locale is not modelled.
- The ECG screen and view, the save-button toasts of the health screen (they belong to the left-out save), the intents, the activity lifecycle, the view lookup and the build configuration are left out.
- Recommendations.RenderListing: the counters are `int` in the source. The model uses unbounded integers, because more than 2^31 documents cannot arrive.
- HealthData.OnConnectionStatusChanged: the "Disconnected - attempting to reconnect" line is set before the reconnect attempt. When the service is bound, the connect step's own status line replaces it at once, so the model returns only the final line.
- HealthData.ConnectToDevice: `getRemoteDevice` on a well-formed address returns a device object. Whether it does is still a parameter, so the model covers the source's null check.
