/** The login screen's form logic: the two field validators, the form state
    (`email`, `password`, `errors`, `isLoading`), the request body and the
    routing of a failed login's server reply onto the two fields' errors. */
module Login {
  import opened Text
  import Patterns
  import SignUp
  import CharClasses

  /** The messages the validators show and the generic text the routing
      puts on the e-mail field; `Wording` gives each one's wording. */
  datatype Message = EmailRequired | EmailInvalid | PasswordRequired | PasswordTooShort | InvalidEmailOrPassword

  function Wording(m: Message): string {
    match m
    case EmailRequired => "Email is required"
    case EmailInvalid => "Please enter a valid email address"
    case PasswordRequired => "Password is required"
    case PasswordTooShort => "Password must be at least 6 characters"
    case InvalidEmailOrPassword => "Invalid email or password"
  }

  /** The value of one key of the `errors` state: '' (no error), one of the
      screen's own messages, or a text taken from the server's reply. */
  datatype Error = NoError | Local(message: Message) | Reply(text: string)

  /** The keys of `errors`: the two inputs' names, or any other name a caller
      passes to `handleFieldChange` or `handleBlur`. */
  datatype Key = EmailKey | PasswordKey | OtherKey(name: string)

  function KeyOf(name: string): (k: Key)
    ensures k == EmailKey <==> name == "email"
    ensures k == PasswordKey <==> name == "password"
    ensures k.OtherKey? ==> k.name == name
  {
    if name == "email" then EmailKey else if name == "password" then PasswordKey else OtherKey(name)
  }

  /** The `email` case: required after trimming, then the e-mail pattern. */
  function ValidateEmail(value: string): Option<Message> {
    if IsBlank(value) then Some(EmailRequired)
    else if !Patterns.EmailPattern(value) then Some(EmailInvalid)
    else None
  }

  /** The `password` case: required after trimming, then at least 6 characters. */
  function ValidatePassword(value: string): Option<Message> {
    if IsBlank(value) then Some(PasswordRequired)
    else if |value| < 6 then Some(PasswordTooShort)
    else None
  }

  /** `error || ''`: the value a validation result stores under its key. */
  function AsError(e: Option<Message>): (r: Error)
    ensures r.NoError? <==> e.None?
  {
    if e.Some? then Local(e.value) else NoError
  }

  /** `validateField(name, value)`: a name other than "email" or "password"
      falls through the `switch` with no error. */
  function ValidateField(key: Key, value: string): (error: Option<Message>)
    ensures key.OtherKey? ==> error.None?
  {
    match key
    case EmailKey => ValidateEmail(value)
    case PasswordKey => ValidatePassword(value)
    case OtherKey(_) => None
  }

  /** The e-mail validator accepts exactly the well-formed addresses: no white
      space, exactly one '@' not at the start, and a '.' inside the domain. */
  lemma EmailAcceptsIff(s: string)
    ensures ValidateEmail(s).None? <==> Patterns.WellFormedAddress(s)
  {
    Patterns.EmailPatternIff(s);
    if Patterns.EmailPattern(s) { Patterns.EmailOneAt(s, 0); SignUp.FirstNotSpace(s); }
  }

  /** The password validator accepts exactly the values of at least 6
      characters that are not all white space; it asks nothing of the kinds
      of character. */
  lemma PasswordAcceptsIff(s: string)
    ensures ValidatePassword(s).None? <==> !AllSpace(s) && |s| >= 6
  {
    BlankIffAllSpace(s);
  }

  /** Unlike the sign-up form's, this "required" test trims: a password of
      white space only is reported missing, however long it is. */
  lemma BlankPasswordRequired(s: string)
    requires AllSpace(s)
    ensures ValidatePassword(s) == Some(PasswordRequired)
  {
    BlankIffAllSpace(s);
  }

  /** The login policy is weaker than the sign-up one: every password the
      sign-up form accepts passes here, while "abcdef" passes here and is too
      short for sign-up. */
  lemma SignUpPasswordsPass(s: string)
    requires SignUp.ValidatePassword(s).None?
    ensures ValidatePassword(s).None?
  {
    assert |s| >= 8 && CharClasses.HasChar(CharClasses.LowerCase, s);
    var k :| 0 <= k < |s| && CharClasses.InCharClass(CharClasses.LowerCase, s[k]);
    assert !IsSpace(s[k]) && !AllSpace(s);
    BlankIffAllSpace(s);
  }

  lemma WeakerPolicy()
    ensures ValidatePassword("abcdef").None?
    ensures SignUp.ValidatePassword("abcdef") == Some(SignUp.PasswordTooShort)
  {
    SignUp.FirstNotSpace("abcdef");
  }

  /** An accepted e-mail address is sent unchanged: it has no white space for
      `trim` to remove. */
  lemma AcceptedEmailUntrimmed(s: string)
    requires ValidateEmail(s).None?
    ensures Trim(s) == s
  {
    EmailAcceptsIff(s);
    TrimKeepsUnpadded(s);
  }

  /** Both inputs pass their validators. */
  predicate Passes(email: string, password: string) {
    ValidateEmail(email).None? && ValidatePassword(password).None?
  }

  /** The error map built from the two fields' verdicts: an entry for each
      field that failed. */
  function ErrorMap(emailError: Option<Message>, passwordError: Option<Message>): map<Key, Error> {
    var m := if emailError.Some? then map[EmailKey := Local(emailError.value)] else map[];
    if passwordError.Some? then m[PasswordKey := Local(passwordError.value)] else m
  }

  /** The error map `validateForm` stores. */
  function FormErrors(email: string, password: string): map<Key, Error> {
    ErrorMap(ValidateEmail(email), ValidatePassword(password))
  }

  /** `validateForm` stores exactly the failing fields, each with its message,
      and no other key; it is empty exactly when both fields pass. */
  lemma FormErrorsExact(email: string, password: string)
    ensures var errs := FormErrors(email, password);
      && (EmailKey in errs <==> ValidateEmail(email).Some?)
      && (PasswordKey in errs <==> ValidatePassword(password).Some?)
      && (forall k | k in errs :: !k.OtherKey?)
      && (EmailKey in errs ==> errs[EmailKey] == Local(ValidateEmail(email).value))
      && (PasswordKey in errs ==> errs[PasswordKey] == Local(ValidatePassword(password).value))
      && (errs == map[] <==> Passes(email, password))
  {
    var errs := FormErrors(email, password);
    if ValidateEmail(email).Some? { assert EmailKey in errs; }
    if ValidatePassword(password).Some? { assert PasswordKey in errs; }
  }

  /** The body of the login request. */
  datatype LoginRequest = LoginRequest(usernameOrEmail: string, password: string)

  // ------------------------------------------------------------ server reply

  /** The fields of a failed login's JSON reply that the screen reads; a
      missing field is `None`. */
  datatype FieldErrors = FieldErrors(email: Option<string>, password: Option<string>)
  datatype LoginReply = LoginReply(errors: Option<FieldErrors>, message: Option<string>, error: Option<string>)

  /** A string field is truthy when present and not empty. */
  predicate Truthy(s: Option<string>) {
    s.Some? && s.value != []
  }

  /** `data.errors.email` and `data.errors.password`, when truthy. */
  function ServerEmailError(data: LoginReply): (r: Option<string>)
    ensures r.Some? ==> r.value != []
  {
    if data.errors.Some? && Truthy(data.errors.value.email) then data.errors.value.email else None
  }

  function ServerPasswordError(data: LoginReply): (r: Option<string>)
    ensures r.Some? ==> r.value != []
  {
    if data.errors.Some? && Truthy(data.errors.value.password) then data.errors.value.password else None
  }

  const LoginFailed := "Login failed. Please check your credentials."

  /** `data.message || data.error || 'Login failed. ...'`: the first truthy
      one, so never empty. */
  function ErrorMessage(data: LoginReply): (msg: string)
    ensures msg != []
    ensures Truthy(data.message) ==> msg == data.message.value
    ensures !Truthy(data.message) && Truthy(data.error) ==> msg == data.error.value
    ensures !Truthy(data.message) && !Truthy(data.error) ==> msg == LoginFailed
  {
    if Truthy(data.message) then data.message.value
    else if Truthy(data.error) then data.error.value
    else LoginFailed
  }

  /** Which branch of the keyword tests the message takes. */
  datatype Route = ToEmail | ToPassword | ToBoth | ToPasswordAlone | Unrouted

  function RouteOf(data: LoginReply): Route {
    var msg := ErrorMessage(data);
    if Mentions(msg, "email") && ServerEmailError(data).None? then ToEmail
    else if Mentions(msg, "password") && ServerPasswordError(data).None? then ToPassword
    else if Mentions(msg, "credential") || Mentions(msg, "invalid") then ToBoth
    else if ServerEmailError(data).None? && ServerPasswordError(data).None? then ToPasswordAlone
    else Unrouted
  }

  /** What each field ends up showing, stated field by field rather than as
      the sequence of updates: the e-mail error is the server's when it sent
      one, otherwise the message or the generic credentials text; the password
      error is the message whenever the route puts it there, otherwise the
      server's. */
  function RoutedErrors(data: LoginReply): map<Key, Error> {
    var msg, route := ErrorMessage(data), RouteOf(data);
    var email :=
      if ServerEmailError(data).Some? then Some(Reply(ServerEmailError(data).value))
      else if route == ToEmail then Some(Reply(msg))
      else if route == ToBoth then Some(Local(InvalidEmailOrPassword))
      else None;
    var password :=
      if route == ToPassword || route == ToBoth || route == ToPasswordAlone then Some(Reply(msg))
      else if ServerPasswordError(data).Some? then Some(Reply(ServerPasswordError(data).value))
      else None;
    (if email.Some? then map[EmailKey := email.value] else map[])
      + (if password.Some? then map[PasswordKey := password.value] else map[])
  }

  /** The reply always leaves an error on some field, and only on the two
      fields of the form; every text shown from the reply is non-empty. */
  lemma RoutedErrorsShape(data: LoginReply)
    ensures var errs := RoutedErrors(data);
      && (EmailKey in errs || PasswordKey in errs)
      && (forall k | k in errs :: !k.OtherKey? && !errs[k].NoError? && (errs[k].Reply? ==> errs[k].text != []))
  {
  }

  /** An e-mail error the server sent is never replaced by the keyword tests. */
  lemma ServerEmailErrorKept(data: LoginReply)
    requires ServerEmailError(data).Some?
    ensures EmailKey in RoutedErrors(data)
    ensures RoutedErrors(data)[EmailKey] == Reply(ServerEmailError(data).value)
  {
  }

  /** The credentials branch puts the message on the password even over an
      error the server sent for it, and fills an empty e-mail error with the
      generic text. */
  lemma CredentialsBranch(data: LoginReply)
    requires RouteOf(data) == ToBoth
    ensures PasswordKey in RoutedErrors(data) && EmailKey in RoutedErrors(data)
    ensures RoutedErrors(data)[PasswordKey] == Reply(ErrorMessage(data))
    ensures ServerEmailError(data).None? ==> RoutedErrors(data)[EmailKey] == Local(InvalidEmailOrPassword)
  {
  }

  /** "email" is tested before "password": a message naming both, with no
      field errors from the server, goes to the e-mail field alone. */
  lemma EmailKeywordFirst(data: LoginReply)
    requires Mentions(ErrorMessage(data), "email") && Mentions(ErrorMessage(data), "password")
    requires ServerEmailError(data).None? && ServerPasswordError(data).None?
    ensures RoutedErrors(data) == map[EmailKey := Reply(ErrorMessage(data))]
  {
  }

  /** A message naming none of the keywords, with no field errors from the
      server, ends up on the password field alone. */
  lemma FallbackToPassword(data: LoginReply)
    requires var msg := ErrorMessage(data);
      !Mentions(msg, "email") && !Mentions(msg, "password") && !Mentions(msg, "credential") && !Mentions(msg, "invalid")
    requires ServerEmailError(data).None? && ServerPasswordError(data).None?
    ensures RoutedErrors(data) == map[PasswordKey := Reply(ErrorMessage(data))]
  {
  }

  /** The built-in message names "credentials". */
  lemma LoginFailedNamesCredentials()
    ensures Mentions(LoginFailed, "credential")
  {
    assert LoginFailed[32..42] == "credential";
    assert OccursAt(LoginFailed, "credential", 32);
    MentionsLiteral(LoginFailed, "credential");
  }

  /** The built-in message names neither "email" nor "password": it has no
      'm' and no 'w' in either case. */
  lemma LoginFailedNamesNoField()
    ensures !Mentions(LoginFailed, "email") && !Mentions(LoginFailed, "password")
  {
    assert forall k | 0 <= k < |LoginFailed| :: LowerChar(LoginFailed[k]) != 'm' && LowerChar(LoginFailed[k]) != 'w';
    if Mentions(LoginFailed, "email") { MentionsNeedsChar(LoginFailed, "email", 1); }
    if Mentions(LoginFailed, "password") { MentionsNeedsChar(LoginFailed, "password", 4); }
  }

  /** A reply with no text of its own gets the built-in message, which names
      "credentials": the password field shows it and the e-mail field the
      generic text. */
  lemma DefaultMessageRouting(data: LoginReply)
    requires !Truthy(data.message) && !Truthy(data.error) && data.errors.None?
    ensures RoutedErrors(data) == map[EmailKey := Local(InvalidEmailOrPassword), PasswordKey := Reply(LoginFailed)]
  {
    LoginFailedNamesCredentials();
    LoginFailedNamesNoField();
  }

  // ------------------------------------------------------------ the screen

  /** What the `fetch` of `handleLogin` comes to: it throws with an error
      message, or the server answers with `response.ok` and a parsed body. */
  datatype LoginOutcome = Threw(message: string) | Answered(ok: bool, data: LoginReply)

  /** The two alert texts of the `catch` branch. */
  datatype Alert = NoConnection | TryLater

  function AlertWording(a: Alert): string {
    match a
    case NoConnection => "Unable to connect to server. Please check your connection."
    case TryLater => "An error occurred. Please try again later."
  }

  /** The `catch` branch tells a failed connection from any other error by
      the error's message. */
  function AlertFor(message: string): (a: Alert)
    ensures a == NoConnection <==> message == "Network request failed"
  {
    if message == "Network request failed" then NoConnection else TryLater
  }

  /** The screen's state. */
  class LoginForm {
    var email: string
    var password: string
    var errors: map<Key, Error>
    var isLoading: bool

    constructor ()
      ensures email == [] && password == [] && errors == map[] && !isLoading
    {
      email, password, errors, isLoading := [], [], map[], false;
    }

    /** `handleFieldChange`: sets the named input and that key of `errors`;
        nothing else changes. */
    method HandleFieldChange(name: string, value: string)
      modifies this
      ensures email == (if KeyOf(name) == EmailKey then value else old(email))
      ensures password == (if KeyOf(name) == PasswordKey then value else old(password))
      ensures errors == old(errors)[KeyOf(name) := AsError(ValidateField(KeyOf(name), value))]
      ensures isLoading == old(isLoading)
    {
      var key := KeyOf(name);
      if key == EmailKey {
        email := value;
      } else if key == PasswordKey {
        password := value;
      }
      var error := ValidateField(key, value);
      errors := errors[key := AsError(error)];
    }

    /** `handleBlur`: re-validates the named input's current value (the
        password's for any name but "email"). */
    method HandleBlur(name: string)
      modifies this`errors
      ensures errors == old(errors)[KeyOf(name) :=
        AsError(ValidateField(KeyOf(name), if KeyOf(name) == EmailKey then email else password))]
    {
      var key := KeyOf(name);
      var value := if key == EmailKey then email else password;
      var error := ValidateField(key, value);
      errors := errors[key := AsError(error)];
    }

    /** `validateForm`: stores exactly the failing fields and reports whether
        there were none. */
    method ValidateForm() returns (ok: bool)
      modifies this`errors
      ensures errors == FormErrors(email, password)
      ensures ok <==> Passes(email, password)
    {
      var newErrors: map<Key, Error> := map[];
      var emailError := ValidateField(EmailKey, email);
      var passwordError := ValidateField(PasswordKey, password);
      if emailError.Some? {
        newErrors := newErrors[EmailKey := Local(emailError.value)];
      }
      if passwordError.Some? {
        newErrors := newErrors[PasswordKey := Local(passwordError.value)];
      }
      assert newErrors == ErrorMap(emailError, passwordError);
      assert emailError.Some? ==> EmailKey in newErrors;
      assert passwordError.Some? ==> PasswordKey in newErrors;
      errors := newErrors;
      ok := newErrors == map[];
    }

    /** The routing block of `handleLogin`: builds the error map one test at a
        time from a failed reply. */
    method RouteServerErrors(data: LoginReply) returns (newErrors: map<Key, Error>)
      ensures newErrors == RoutedErrors(data)
    {
      newErrors := map[];
      if data.errors.Some? {
        if Truthy(data.errors.value.email) {
          newErrors := newErrors[EmailKey := Reply(data.errors.value.email.value)];
        }
        if Truthy(data.errors.value.password) {
          newErrors := newErrors[PasswordKey := Reply(data.errors.value.password.value)];
        }
      }
      var errorMessage := ErrorMessage(data);
      if Mentions(errorMessage, "email") && EmailKey !in newErrors {
        newErrors := newErrors[EmailKey := Reply(errorMessage)];
      } else if Mentions(errorMessage, "password") && PasswordKey !in newErrors {
        newErrors := newErrors[PasswordKey := Reply(errorMessage)];
      } else if Mentions(errorMessage, "credential") || Mentions(errorMessage, "invalid") {
        newErrors := newErrors[PasswordKey := Reply(errorMessage)];
        if EmailKey !in newErrors {
          newErrors := newErrors[EmailKey := Local(InvalidEmailOrPassword)];
        }
      } else if newErrors == map[] {
        newErrors := newErrors[PasswordKey := Reply(errorMessage)];
      }
    }

    /** The `try` block of `handleLogin` after the request is sent: a
        success clears the errors and leads to the home screen, a refusal
        routes the reply onto the fields, a thrown error raises an alert and
        leaves the errors alone (`newErrors` is `None`). */
    method HandleOutcome(outcome: LoginOutcome) returns (newErrors: Option<map<Key, Error>>, goHome: bool, alert: Option<Alert>)
      ensures newErrors.Some? <==> outcome.Answered?
      ensures goHome <==> outcome.Answered? && outcome.ok
      ensures goHome ==> newErrors == Some(map[])
      ensures outcome.Answered? && !outcome.ok ==> newErrors == Some(RoutedErrors(outcome.data))
      ensures alert.Some? <==> outcome.Threw?
      ensures alert.Some? ==> alert.value == AlertFor(outcome.message)
    {
      match outcome {
        case Threw(message) =>
          newErrors, goHome, alert := None, false, Some(AlertFor(message));
        case Answered(ok, data) =>
          alert := None;
          if ok {
            newErrors, goHome := Some(map[]), true;
          } else {
            var routed := RouteServerErrors(data);
            newErrors, goHome := Some(routed), false;
          }
      }
    }

    /** `handleLogin` with the network call replaced by its outcome: nothing is
        sent unless `validateForm` passes, and then the request carries the
        trimmed address and the password as typed, and both the `try` and the
        `catch` branch lower the loading flag. A thrown error leaves the
        errors as `validateForm` stored them. */
    method HandleLogin(outcome: LoginOutcome) returns (request: Option<LoginRequest>, goHome: bool, alert: Option<Alert>)
      modifies this`errors, this`isLoading
      ensures request.Some? <==> Passes(email, password)
      ensures request.Some? ==> request.value == LoginRequest(Trim(email), password) && !isLoading
      ensures request.None? ==> errors == FormErrors(email, password) && isLoading == old(isLoading)
      ensures goHome <==> request.Some? && outcome.Answered? && outcome.ok
      ensures goHome ==> errors == map[]
      ensures request.Some? && outcome.Answered? && !outcome.ok ==> errors == RoutedErrors(outcome.data)
      ensures request.Some? && outcome.Threw? ==> errors == FormErrors(email, password)
      ensures alert.Some? <==> request.Some? && outcome.Threw?
      ensures alert.Some? ==> alert.value == AlertFor(outcome.message)
    {
      var valid := ValidateForm();
      if !valid {
        return None, false, None;
      }
      isLoading := true;
      request := Some(LoginRequest(Trim(email), password));
      var newErrors;
      newErrors, goHome, alert := HandleOutcome(outcome);
      if newErrors.Some? {
        errors := newErrors.value;
      }
      isLoading := false;
    }
  }
}
