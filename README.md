# Form and state logic of a React Native sign-up / login / home app, in Dafny

The app has three screens:

- **Sign-up** validates eight fields as the user types. Each field has a chain of rules, and the first rule that fails gives the field's message. The screen collects the failing fields into an error map, decides whether the form may be submitted, and builds the request body, sending the date of birth as `YYYY-MM-DD`.
- **Login** validates an e-mail address and a password under a weaker policy, and sends the trimmed address. When the server refuses a login, the screen maps the server's reply onto the two fields' inline errors by keyword.
- **Home** fetches the user list. It accepts three shapes of response body, falls back to an empty list and an alert on every failure, and raises and lowers two loading flags. It also renders a subtitle that counts the users and a key and a name for each user card.

The project models these pieces as Dafny functions, predicates, lemmas and classes:

| file | module | contents |
|---|---|---|
| `text.dfy` | `Text` | The JavaScript white-space set (what `\s` and `trim` use), trimming, ASCII lower-casing, `includes`, and decimal printing and parsing. |
| `patterns.dfy` | `Patterns` | The e-mail and phone regular expressions as predicates. An iff lemma turns the e-mail pattern into plain structural facts. The phone pattern is a small matcher over its atoms, with per-class capacity lemmas. |
| `charclasses.dfy` | `CharClasses` | The character classes of the sign-up rules. |
| `dates.dfy` | `Dates` | Calendar days as `(year, month, day)`, the age arithmetic, and `formatDateForAPI` with a parser that reads its text back. |
| `signup.dfy` | `SignUp` | The validators, the form maps, and the class `SignUpForm` with the `forEach` loops of `validateForm` and `isFormValid`. |
| `login.dfy` | `Login` | The validators, the server-error router, the request body and the class `LoginForm`. |
| `home.dfy` | `Home` | Response normalisation, the failure paths, the class `HomeScreen` with its flags, the subtitle and the card fallbacks. |

Messages are values of a `Message` datatype per screen. Each screen's `Wording` function gives the exact text of every message. A validator returns `None` where the JavaScript returns `''`.

"Today" is a parameter. So are the network outcomes: a thrown error with its message, or a response with `ok` and a parsed body.

The phone pattern has two optional separators `[-\s.]?`, so it admits at most two separators. A number written "+1 (555) 123-4567" has three (two spaces and a '-') and is refused. `SignUp.TooManySeparators` proves that any value with more than two separators is refused.

## Model

| member | source | states |
|---|---|---|
| Text.Trim | src/screens/LoginScreen.js:103 | `trim` returns a value no longer than its input that neither starts nor ends with white space |
| Text.TrimDropsSpace | src/screens/LoginScreen.js:103 | `trim` only removes white space: the input is the trimmed value with a run of white space on either side |
| Text.BlankIffAllSpace | src/screens/SignUpScreen.js:47 | `!value.trim()` holds exactly when every character is white space |
| Text.TrimKeepsUnpadded | src/screens/LoginScreen.js:103 | `trim` leaves a value that neither starts nor ends with white space unchanged |
| Text.MentionsNeedsChar | src/screens/LoginScreen.js:147-151 | a message that mentions a keyword case-insensitively holds each of the keyword's letters in some case |
| Patterns.EmailPatternIff | src/screens/SignUpScreen.js:133 | the e-mail regular expression matches exactly the addresses with no white space, exactly one '@' not at the start, and a '.' strictly inside the domain |
| Patterns.EmailOneAt | src/screens/LoginScreen.js:33 | a matched address has no white space anywhere, and its only '@' is the first one |
| Patterns.MatchesCapacity | src/screens/SignUpScreen.js:141 | a string the phone atoms match holds no more characters of a class than the atoms of that class admit |
| Patterns.PhonePatternBounds | src/screens/SignUpScreen.js:141 | a value the phone pattern matches has at most 4 + 4 + 9 = 17 digits and at most two separators |
| Patterns.KeepDigitsCount | src/screens/SignUpScreen.js:143 | `value.replace(/[^0-9]/g, '').length` is the number of digits in the value |
| SignUp.FieldOrderComplete | src/screens/SignUpScreen.js:21-30 | the key order visited by the `forEach` loops covers every field of `formData` |
| Text.KeepDigits | src/screens/SignUpScreen.js:143 | `value.replace(/[^0-9]/g, '')` keeps only decimal digits and is no longer than the value; `Patterns.KeepDigitsCount` gives its exact length |
| Text.Mentions | src/screens/LoginScreen.js:147-151 | `s.toLowerCase().includes(w)`; no contract of its own, its facts are `Text.MentionsNeedsChar`, `Login.LoginFailedNamesCredentials` and `Login.LoginFailedNamesNoField` |
| Patterns.EmailPattern | src/screens/SignUpScreen.js:133 | the regular expression `^[^\s@]+@[^\s@]+\.[^\s@]+$` as a split into three runs; no contract of its own, `Patterns.EmailPatternIff` characterises it |
| Patterns.PhonePattern | src/screens/SignUpScreen.js:141 | the phone regular expression as a match over its atoms; no contract of its own, `Patterns.PhonePatternBounds` bounds what it matches |
| SignUp.ValidateUsername | src/screens/SignUpScreen.js:46-54 | the `username` case's chain, first failure first; no contract of its own, `SignUp.UsernameAcceptsIff` and `SignUp.UsernameAccepted` state what it accepts |
| SignUp.UsernameAcceptsIff | src/screens/SignUpScreen.js:46-54 | the username chain accepts exactly the values of at least 3 characters, all from `[A-Za-z0-9_]` |
| SignUp.UsernameAccepted | src/screens/SignUpScreen.js:46-54 | an accepted username has at least 3 characters, each a letter, a digit or '_' |
| SignUp.ValidatePassword | src/screens/SignUpScreen.js:56-72 | the `password` case's chain; no contract of its own, `SignUp.PasswordFirstFailure` states which message each value gets |
| SignUp.PasswordFirstFailure | src/screens/SignUpScreen.js:56-72 | each password message appears exactly when every earlier rule holds and its own rule fails: required (no trim), length, lower case, upper case, digit, special character, alphabet |
| SignUp.PasswordRuleOrder | src/screens/SignUpScreen.js:56-68 | "abcdefgh" fails on the upper-case rule, not on the digit rule |
| SignUp.BlankPasswordNotRequired | src/screens/SignUpScreen.js:57-62 | eight or more white-space characters are not reported as missing; they fail on the lower-case rule |
| SignUp.PasswordAlphabet | src/screens/SignUpScreen.js:67-70 | a password that passes every earlier rule but holds a character outside the allowed alphabet fails the last rule |
| SignUp.ValidateFullName | src/screens/SignUpScreen.js:74-82 | the `fullName` case's chain; no contract of its own, `SignUp.FullNameAccepted` states what it accepts |
| SignUp.FullNameAccepted | src/screens/SignUpScreen.js:74-82 | an accepted full name has at least 2 characters, is not all white space, and holds only letters and white space |
| SignUp.ValidateDateOfBirth | src/screens/SignUpScreen.js:84-114 | no date gives "required"; a date after today gives "future"; otherwise the value is accepted exactly when the 18th birthday has been reached and the 121st has not, with "too young" and "too old" on either side |
| Dates.Age | src/screens/SignUpScreen.js:98-105 | the computed age is the number of birthdays reached: the `age`-th anniversary is not after today and the next one is |
| Dates.AgeUnique | src/screens/SignUpScreen.js:98-105 | no other count of years has those two properties |
| Dates.AgeAtLeast | src/screens/SignUpScreen.js:98-110 | the age is at least k exactly when the k-th birthday has been reached |
| SignUp.DobAgeNotNegative | src/screens/SignUpScreen.js:94-105 | a birth date that is not in the future gives an age of at least 0 |
| SignUp.AgeBoundary | src/screens/SignUpScreen.js:98-108 | on 2024-06-15, a birth date of 2006-06-16 is refused as too young and one of 2006-06-15 is accepted |
| SignUp.ValidateAddress | src/screens/SignUpScreen.js:116-122 | the `address` case's chain; no contract of its own, `SignUp.AddressAccepted` states what it accepts |
| SignUp.AddressAccepted | src/screens/SignUpScreen.js:116-122 | an accepted address is not blank and has at least 10 characters |
| SignUp.ValidateCountry | src/screens/SignUpScreen.js:124-128 | the `country` case: required without trimming; no contract of its own, `SignUp.ValidateFieldAccepts` states that it accepts exactly the non-empty values |
| SignUp.ValidateEmail | src/screens/SignUpScreen.js:130-136 | the `email` case's chain; no contract of its own, `SignUp.EmailAcceptsIff` states what it accepts |
| SignUp.EmailAcceptsIff | src/screens/SignUpScreen.js:130-136 | the e-mail chain accepts exactly the well-formed addresses, so its "required" test never decides alone |
| SignUp.ValidatePhone | src/screens/SignUpScreen.js:138-146 | the `phoneNumber` case's chain; no contract of its own, `SignUp.PhoneAcceptsIff` states what it accepts |
| SignUp.PhoneAcceptsIff | src/screens/SignUpScreen.js:138-146 | the phone chain accepts exactly the values that the pattern matches and that have at least 10 digits |
| SignUp.PhoneDigitRange | src/screens/SignUpScreen.js:141-144 | an accepted phone number has between 10 and 17 digits |
| SignUp.TooManySeparators | src/screens/SignUpScreen.js:141-142 | a non-blank value with more than two separators is refused as an invalid phone number |
| SignUp.ValidateField | src/screens/SignUpScreen.js:42-153 | `validateField` dispatching on the field; no contract of its own, `SignUp.ValidateFieldAccepts` states what it accepts |
| SignUp.ValidateFieldAccepts | src/screens/SignUpScreen.js:42-153 | `validateField` returns no error exactly for the values each field's acceptance predicate describes, stated without the rule chains |
| SignUp.FormPasses | src/screens/SignUpScreen.js:178-191 | what `validateForm` returns: every field passes; `SignUp.FormErrors` and `SignUp.SignUpForm.ValidateForm` tie it to the stored map and the loop |
| SignUp.FormErrors | src/screens/SignUpScreen.js:178-192 | the stored error map holds exactly the failing fields, each with its own message, and is empty exactly when every field passes |
| SignUp.ErrorsOverFailing | src/screens/SignUpScreen.js:182-188 | after visiting some keys, the loop has gathered exactly the failing fields among them, each with its message |
| SignUp.ErrorsOverAll | src/screens/SignUpScreen.js:178-192 | visiting every key gathers the whole form's error map |
| SignUp.ReadyOverAllKeys | src/screens/SignUpScreen.js:286-306 | after visiting some keys, `allValid` says that every visited field passes and has a value |
| SignUp.ReadyOverAll | src/screens/SignUpScreen.js:283-309 | visiting every key decides whether every field passes and has a value |
| SignUp.HasValue | src/screens/SignUpScreen.js:290-299 | the `hasValue` test; no contract of its own, `SignUp.KeywordUsername` shows the "null" and "undefined" cases |
| SignUp.FormReady | src/screens/SignUpScreen.js:283-309 | what `isFormValid` returns: every field passes and has a value; `SignUp.ReadyOverAll` and `SignUp.SignUpForm.IsFormValid` tie it to the loop |
| SignUp.KeywordUsername | src/screens/SignUpScreen.js:297-298 | the usernames "null" and "undefined" pass their rules but count as having no value |
| SignUp.NullUsernameSlipsThrough | src/screens/SignUpScreen.js:283-309 | a form whose username is "null" passes the username rules, yet `isFormValid` is false |
| SignUp.RequestBody | src/screens/SignUpScreen.js:213-222 | the request's `dob` reads back to the date of birth that was picked, and it is "" exactly when no date was picked |
| SignUp.RequestFromPassingFields | src/screens/SignUpScreen.js:213-222 | when the date of birth, the phone number and the e-mail address pass, the request's date reads back to the date picked, the phone has 10 to 17 digits, the address is well formed, and phone and address are sent as typed |
| SignUp.RequestFromPassingForm | src/screens/SignUpScreen.js:194-222 | a request built from a form that passes `validateForm` has a date of birth that reads back, a phone with 10 to 17 digits and a well-formed e-mail address |
| SignUp.SignUpForm.constructor | src/screens/SignUpScreen.js:21-32 | the form starts with empty text, no date and no errors |
| SignUp.SignUpForm.HandleFieldChange | src/screens/SignUpScreen.js:155-167 | only the named entry of `formData` and that field's entry of `errors` change; the error entry is that field's fresh verdict |
| SignUp.SignUpForm.HandleBlur | src/screens/SignUpScreen.js:169-176 | only the named field's error entry changes, and it becomes the verdict on the field's current value |
| SignUp.SignUpForm.ValidateForm | src/screens/SignUpScreen.js:178-192 | the loop stores exactly the failing fields with their messages, and the method returns true exactly when every field passes |
| SignUp.SignUpForm.IsFormValid | src/screens/SignUpScreen.js:283-309 | returns true exactly when every field passes its rules and has a value |
| SignUp.SignUpForm.HandleSubmit | src/screens/SignUpScreen.js:194-222 | a request is built only when `validateForm` passes, and it is the request body of the current form |
| Dates.FormatDateForApi | src/screens/SignUpScreen.js:204-210 | no date gives ""; any date gives non-empty text |
| Dates.FormatDateRoundTrip | src/screens/SignUpScreen.js:204-210 | parsing the text that is sent gives back the date |
| Dates.FormatDateShape | src/screens/SignUpScreen.js:204-210 | for a four-digit year the text is exactly `YYYY-MM-DD`: ten characters with '-' at positions 4 and 7 and digits elsewhere |
| Dates.TwoDigitsShape | src/screens/SignUpScreen.js:207-208 | padding a month or a day to two digits gives two digits that read back to the number |
| Login.ValidateField | src/screens/LoginScreen.js:26-51 | a field name other than "email" or "password" gets no error |
| Login.ValidateEmail | src/screens/LoginScreen.js:30-36 | the `email` case's chain; no contract of its own, `Login.EmailAcceptsIff` states what it accepts |
| Login.EmailAcceptsIff | src/screens/LoginScreen.js:30-36 | the e-mail chain accepts exactly the well-formed addresses |
| Login.ValidatePassword | src/screens/LoginScreen.js:38-44 | the `password` case's chain; no contract of its own, `Login.PasswordAcceptsIff` states what it accepts |
| Login.PasswordAcceptsIff | src/screens/LoginScreen.js:38-44 | the password chain accepts exactly the values that are not all white space and have at least 6 characters, with no complexity rules |
| Login.BlankPasswordRequired | src/screens/LoginScreen.js:39-40 | a password of white space only is reported missing, whatever its length |
| Login.SignUpPasswordsPass | src/screens/LoginScreen.js:38-44 | every password the sign-up rules accept also passes the login rules |
| Login.WeakerPolicy | src/screens/LoginScreen.js:41-42 | "abcdef" passes the login rules but is too short for sign-up |
| Login.AcceptedEmailUntrimmed | src/screens/LoginScreen.js:102-105 | an accepted e-mail address is sent exactly as typed, because `trim` has nothing to remove |
| Login.FormErrors | src/screens/LoginScreen.js:77-91 | the map `validateForm` stores; no contract of its own, `Login.FormErrorsExact` states its keys and entries |
| Login.FormErrorsExact | src/screens/LoginScreen.js:77-91 | the stored map holds exactly the failing fields with their messages and no other key, and it is empty exactly when both fields pass |
| Login.ServerEmailError | src/screens/LoginScreen.js:133-137 | a field error taken from the reply is never empty |
| Login.ErrorMessage | src/screens/LoginScreen.js:144 | the message is the reply's `message` if truthy, else its `error` if truthy, else "Login failed. Please check your credentials."; it is never empty |
| Login.RouteOf | src/screens/LoginScreen.js:147-160 | which branch of the keyword tests a reply takes; no contract of its own, `Login.EmailKeywordFirst`, `Login.CredentialsBranch` and `Login.FallbackToPassword` state the branches |
| Login.RoutedErrors | src/screens/LoginScreen.js:130-162 | the error map after a refusal, field by field; no contract of its own, `Login.LoginForm.RouteServerErrors` proves the branch-by-branch updates reach it |
| Login.RoutedErrorsShape | src/screens/LoginScreen.js:130-162 | the routed error map is never empty, uses only the keys email and password, and every text taken from the reply is non-empty |
| Login.ServerEmailErrorKept | src/screens/LoginScreen.js:135-136 | an e-mail error sent by the server is never overwritten by the keyword tests |
| Login.CredentialsBranch | src/screens/LoginScreen.js:151-156 | the credentials/invalid branch writes the message over any password error, and fills a missing e-mail error with "Invalid email or password" |
| Login.EmailKeywordFirst | src/screens/LoginScreen.js:147-150 | "email" is tested before "password": a message naming both goes to the e-mail field alone |
| Login.FallbackToPassword | src/screens/LoginScreen.js:157-160 | a message naming no keyword, with no field errors from the server, goes to the password field alone |
| Login.LoginFailedNamesCredentials | src/screens/LoginScreen.js:144 | the built-in message mentions "credential" |
| Login.LoginFailedNamesNoField | src/screens/LoginScreen.js:144 | the built-in message mentions neither "email" nor "password" |
| Login.DefaultMessageRouting | src/screens/LoginScreen.js:144-156 | a reply with no text and no field errors puts the built-in message on the password field and "Invalid email or password" on the e-mail field |
| Login.AlertFor | src/screens/LoginScreen.js:167-172 | the connection alert is shown exactly when the error's message is "Network request failed" |
| Login.LoginForm.constructor | src/screens/LoginScreen.js:18-21 | the screen starts with empty inputs, no errors and loading off |
| Login.LoginForm.HandleFieldChange | src/screens/LoginScreen.js:53-66 | only the named input changes, and only that key of `errors`; unknown names change no input but still get an entry with no error |
| Login.LoginForm.HandleBlur | src/screens/LoginScreen.js:68-75 | only the named key of `errors` changes; it is validated against the e-mail for "email" and against the password for any other name |
| Login.LoginForm.ValidateForm | src/screens/LoginScreen.js:77-91 | stores the error map of the current inputs and returns true exactly when both fields pass |
| Login.LoginForm.RouteServerErrors | src/screens/LoginScreen.js:130-162 | building the map branch by branch gives the field-by-field routing `RoutedErrors` |
| Login.LoginForm.HandleOutcome | src/screens/LoginScreen.js:121-172 | a success clears the errors and leads home; a refusal gives the routed errors; a thrown error leaves the errors alone and raises the alert for its message; no other outcome navigates or raises an alert |
| Login.LoginForm.HandleLogin | src/screens/LoginScreen.js:93-174 | a request with the trimmed address and the untrimmed password is sent exactly when both fields pass; otherwise the validation errors stay and loading is untouched. On success the errors are cleared and the screen moves to home. A refusal stores the routed errors. A thrown error keeps the validation errors and raises the alert for its message. Loading is off at the end |
| Home.Normalise | src/screens/HomeScreen.js:45-53 | an array body is used as it is; an object's `users` array is used, else its `data` array; whatever the shape, the users are one of the body's own arrays or empty |
| Home.UsersBeforeData | src/screens/HomeScreen.js:47-50 | an object's `users` array wins over its `data` array |
| Home.NoArrayNoUsers | src/screens/HomeScreen.js:51-52 | an object with neither array gives no users |
| Home.FailureAlert | src/screens/HomeScreen.js:55-56 | a refusal's alert is the reply's `message` if truthy, else its `error` if truthy, else "Failed to fetch users"; a text taken from the reply is never empty |
| Home.CatchAlert | src/screens/HomeScreen.js:61-66 | the connection alert is shown exactly when the error's message is "Network request failed" |
| Home.UsersAfter | src/screens/HomeScreen.js:43-67 | after an ok response whose body is not `null` the users are the normalised body; every failure path leaves none |
| Home.AlertAfter | src/screens/HomeScreen.js:43-67 | no alert exactly after an ok response with a readable body; a refusal raises the reply's alert, a thrown error the `catch` branch's alert for its message, and a `null` body the generic fetch error |
| Home.UsersOrAlert | src/screens/HomeScreen.js:43-67 | a fetch never both shows users and raises an alert |
| Home.HomeScreen.constructor | src/screens/HomeScreen.js:19-21 | the screen starts with no users, loading on and refreshing off |
| Home.HomeScreen.StartFetch | src/screens/HomeScreen.js:27-31 | a refresh raises only `isRefreshing`; any other load raises only `isLoading` |
| Home.HomeScreen.FetchUsers | src/screens/HomeScreen.js:25-72 | the users and the alert follow the outcome, and both flags are down afterwards on every path |
| Home.SubtitleShowsCount | src/screens/HomeScreen.js:130 | for one or more users, the subtitle starts with the count in decimal, which reads back to the count, followed by a space |
| Home.SubtitlePlural | src/screens/HomeScreen.js:130 | "user" takes an 's' exactly when the count is not 1, and the length of the subtitle follows |
| Home.Subtitle | src/screens/HomeScreen.js:130 | the subtitle is "You have successfully logged in!" exactly when there are no users |
| Home.SubtitleNoUsers | src/screens/HomeScreen.js:130 | with no users the subtitle is "You have successfully logged in!" and carries no count |
| Home.KeyFor | src/screens/HomeScreen.js:152 | the key is the `id` if truthy, else the `_id` if truthy, else the index; it is the index exactly when neither id is truthy |
| Home.KeyText | src/screens/HomeScreen.js:152 | the text React compares an index key by is decimal digits that read back to the index |
| Home.IndexKeysDistinct | src/screens/HomeScreen.js:150-152 | two cards at different indexes that are both keyed by their index get different key texts |
| Home.IndexKeyMeetsNumericId | src/screens/HomeScreen.js:150-152 | a card with id 1 and a card at index 1 without ids get the same key text "1" |
| Home.TaggedKeyText | src/screens/HomeScreen.js:152 | corrected key text: it opens with a letter that names the kind of key |
| Home.TaggedKeyTextInjective | src/screens/HomeScreen.js:152 | corrected key texts are equal only for equal keys |
| Home.TaggedIndexKeyUnique | src/screens/HomeScreen.js:150-152 | with corrected key texts, a card keyed by its index shares its key with no card at another index |
| Home.DisplayName | src/screens/HomeScreen.js:157 | the name is the full name if truthy, else the username if truthy, else "N/A"; it is never empty |

## Findings

| source | as written | input that shows it | evidently intended | confidence | as-written member | corrected member |
|---|---|---|---|---|---|---|
| src/screens/HomeScreen.js:152 | the card key falls back from `id` to `_id` to the bare index, and React compares keys as strings | `users = [{id: 1}, {fullName: "A"}]`: both cards get the key "1" | every card's key is unique, so a card keyed by its index never meets another card's key | not executed | Home.IndexKeyMeetsNumericId | Home.TaggedIndexKeyUnique |

## Left out

- Rendering, styles, the presentational components, theme colours, navigation, `console` output and `Alert` itself. The alert a screen would raise is returned as a value.
- `src/config/api.js` and the `fetch`/`response.json()` calls. Each network exchange is an input: a thrown error with its message, or `ok` with a parsed body. A body that fails to parse is a thrown error.
- The sign-up `handleSubmit` after building the request: its success and failure alerts and its `isLoading` flag. It follows the same pattern as the login screen's, which is modelled.
- The date picker, the `Platform` branches and locale formatting through `toLocaleDateString` (sign-up `formatDate`, home `formatDate`). These are calls into the platform.
- JavaScript `Date` internals: time zones, `setHours`, and invalid dates. A date is a calendar day `(year, month, day)`, and "today" is a parameter. `isFormValid`'s `isNaN(getTime())` test is therefore the same as the date being present.
- String lengths count Dafny characters. JavaScript counts UTF-16 code units, which differ only for characters outside the Basic Multilingual Plane.
- `toLowerCase` is modelled for ASCII letters only. Only the Kelvin sign and U+0130 lower-case to ASCII letters, and neither can complete one of the four keywords.
- Server fields that are not strings. The login and home replies' `message`, `error` and field errors, and the users' names, are taken to be strings or absent.
- A login reply body that is `null`. Reading its fields would throw and land in the `catch` branch; the model's reply type always has fields.
- React state batching and closures. State updates are synchronous assignments.
- SignUp.Wording, Login.Wording and Home.AlertWording: no contract. Each gives the exact text of a message, and the model reasons about the `Message`/`Alert` values instead of the texts.
- SignUp.SignUpForm.HandleFieldChange: takes the field as a `Field` value and requires a value of the kind that field's widget supplies. The JavaScript accepts any name, but the screen only ever passes its eight field names.
