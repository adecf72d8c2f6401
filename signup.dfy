/** The sign-up screen's form logic: one validator per field, the two
    form-wide checks (`validateForm`, `isFormValid`), the per-field state
    updates and the body of the sign-up request. */
module SignUp {
  import opened Text
  import opened CharClasses
  import opened Dates
  import Patterns

  datatype Field = Username | Password | FullName | DateOfBirth | Address | Country | Email | PhoneNumber

  /** `Object.keys(formData)`: the keys in the order the initial state lists them. */
  const FieldOrder: seq<Field> :=
    [Username, Password, FullName, DateOfBirth, Address, Country, Email, PhoneNumber]

  /** `Object.keys(formData)` lists every field. */
  lemma FieldOrderComplete(f: Field)
    ensures f in FieldOrder
  {
    match f
    case Username => assert FieldOrder[0] == f;
    case Password => assert FieldOrder[1] == f;
    case FullName => assert FieldOrder[2] == f;
    case DateOfBirth => assert FieldOrder[3] == f;
    case Address => assert FieldOrder[4] == f;
    case Country => assert FieldOrder[5] == f;
    case Email => assert FieldOrder[6] == f;
    case PhoneNumber => assert FieldOrder[7] == f;
  }

  /** What the form holds for a field: the text of an input, or the date the
      picker gave (`null` until one is picked). */
  datatype FieldValue = Str(s: string) | Dob(date: Option<Date>)

  /** The kind of value each field's input widget supplies. */
  predicate Fits(f: Field, v: FieldValue) {
    if f == DateOfBirth then v.Dob? && (v.date.Some? ==> IsCalendarDate(v.date.value)) else v.Str?
  }

  // ------------------------------------------------------------ validators

  /** The messages the validators show, one per failed rule; `Wording` gives
      each one's wording. */
  datatype Message =
    | UsernameRequired | UsernameTooShort | UsernameBadChars
    | PasswordRequired | PasswordTooShort | PasswordNeedsLower | PasswordNeedsUpper
    | PasswordNeedsDigit | PasswordNeedsSpecial | PasswordBadChars
    | FullNameRequired | FullNameTooShort | FullNameBadChars
    | DobRequired | DobInFuture | DobTooYoung | DobTooOld
    | AddressRequired | AddressTooShort
    | CountryRequired
    | EmailRequired | EmailInvalid
    | PhoneRequired | PhoneInvalid | PhoneTooFewDigits

  function Wording(m: Message): string {
    match m
    case UsernameRequired => "Username is required"
    case UsernameTooShort => "Username must be at least 3 characters"
    case UsernameBadChars => "Username can only contain letters, numbers, and underscores"
    case PasswordRequired => "Password is required"
    case PasswordTooShort => "Password must be at least 8 characters"
    case PasswordNeedsLower => "Password must contain at least one lowercase letter"
    case PasswordNeedsUpper => "Password must contain at least one uppercase letter"
    case PasswordNeedsDigit => "Password must contain at least one number"
    case PasswordNeedsSpecial => "Password must contain at least one special character"
    case PasswordBadChars => "Password must be alphanumeric with special characters"
    case FullNameRequired => "Full Name is required"
    case FullNameTooShort => "Full Name must be at least 2 characters"
    case FullNameBadChars => "Full Name can only contain letters and spaces"
    case DobRequired => "Date of Birth is required"
    case DobInFuture => "Date of Birth cannot be in the future"
    case DobTooYoung => "You must be at least 18 years old"
    case DobTooOld => "Please enter a valid date of birth"
    case AddressRequired => "Address is required"
    case AddressTooShort => "Address must be at least 10 characters"
    case CountryRequired => "Country is required"
    case EmailRequired => "Email is required"
    case EmailInvalid => "Please enter a valid email address"
    case PhoneRequired => "Phone Number is required"
    case PhoneInvalid => "Please enter a valid phone number"
    case PhoneTooFewDigits => "Phone number must have at least 10 digits"
  }

  /** The `username` case: required after trimming, at least 3 characters,
      only `[a-zA-Z0-9_]`. */
  function ValidateUsername(value: string): Option<Message> {
    if IsBlank(value) then Some(UsernameRequired)
    else if |value| < 3 then Some(UsernameTooShort)
    else if !OnlyChars(UsernameChars, value) then Some(UsernameBadChars)
    else None
  }

  /** The `password` case: required (without trimming), at least 8 characters,
      one lower-case letter, one upper-case letter, one digit, one special
      character, and nothing outside letters, digits and specials. */
  function ValidatePassword(value: string): Option<Message> {
    if value == "" then Some(PasswordRequired)
    else if |value| < 8 then Some(PasswordTooShort)
    else if !HasChar(LowerCase, value) then Some(PasswordNeedsLower)
    else if !HasChar(UpperCase, value) then Some(PasswordNeedsUpper)
    else if !HasChar(Digits, value) then Some(PasswordNeedsDigit)
    else if !HasChar(SpecialChars, value) then Some(PasswordNeedsSpecial)
    else if !OnlyChars(PasswordChars, value) then Some(PasswordBadChars)
    else None
  }

  /** The `fullName` case: required after trimming, at least 2 characters,
      only letters and white space. */
  function ValidateFullName(value: string): Option<Message> {
    if IsBlank(value) then Some(FullNameRequired)
    else if |value| < 2 then Some(FullNameTooShort)
    else if !OnlyChars(NameChars, value) then Some(FullNameBadChars)
    else None
  }

  /** The `address` case: required after trimming, at least 10 characters. */
  function ValidateAddress(value: string): Option<Message> {
    if IsBlank(value) then Some(AddressRequired)
    else if |value| < 10 then Some(AddressTooShort)
    else None
  }

  /** The `country` case: required (without trimming). */
  function ValidateCountry(value: string): Option<Message> {
    if value == "" then Some(CountryRequired) else None
  }

  /** The `email` case: required after trimming, then the e-mail pattern. */
  function ValidateEmail(value: string): Option<Message> {
    if IsBlank(value) then Some(EmailRequired)
    else if !Patterns.EmailPattern(value) then Some(EmailInvalid)
    else None
  }

  /** The `phoneNumber` case: required after trimming, the phone pattern, then
      at least 10 digits. */
  function ValidatePhone(value: string): Option<Message> {
    if IsBlank(value) then Some(PhoneRequired)
    else if !Patterns.PhonePattern(value) then Some(PhoneInvalid)
    else if |KeepDigits(value)| < 10 then Some(PhoneTooFewDigits)
    else None
  }

  /** The `dateOfBirth` case: required, not after today, then the age must lie
      in 18..120. Stated through birthdays: accepted exactly when the 18th
      birthday has been reached and the 121st has not. */
  function ValidateDateOfBirth(value: Option<Date>, today: Date): (r: Option<Message>)
    ensures r == Some(DobRequired) <==> value.None?
    ensures r == Some(DobInFuture) <==> value.Some? && Before(today, value.value)
    ensures r == Some(DobTooYoung) <==>
      value.Some? && !Before(today, value.value) && Before(today, Anniversary(value.value, 18))
    ensures r == Some(DobTooOld) <==> value.Some? && !Before(today, Anniversary(value.value, 121))
    ensures r.None? <==>
      value.Some? && !Before(today, Anniversary(value.value, 18)) && Before(today, Anniversary(value.value, 121))
  {
    match value
    case None => Some(DobRequired)
    case Some(birth) =>
      if Before(today, birth) then Some(DobInFuture)
      else
        var age := Age(birth, today);
        AgeAtLeast(birth, today, 18);
        AgeAtLeast(birth, today, 121);
        AnniversaryMonotone(birth, 0, 121);
        assert Anniversary(birth, 0) == birth;
        if age < 18 then Some(DobTooYoung)
        else if age > 120 then Some(DobTooOld)
        else None
  }

  /** `validateField(name, value)` with "today" passed in. */
  function ValidateField(f: Field, v: FieldValue, today: Date): Option<Message>
    requires Fits(f, v)
  {
    match f
    case Username => ValidateUsername(v.s)
    case Password => ValidatePassword(v.s)
    case FullName => ValidateFullName(v.s)
    case DateOfBirth => ValidateDateOfBirth(v.date, today)
    case Address => ValidateAddress(v.s)
    case Country => ValidateCountry(v.s)
    case Email => ValidateEmail(v.s)
    case PhoneNumber => ValidatePhone(v.s)
  }

  /** What each field accepts, stated without the validators' chains. */
  predicate Accepted(f: Field, v: FieldValue, today: Date)
    requires Fits(f, v)
  {
    match f
    case Username => |v.s| >= 3 && OnlyChars(UsernameChars, v.s)
    case Password =>
      && |v.s| >= 8 && HasChar(LowerCase, v.s) && HasChar(UpperCase, v.s)
      && HasChar(Digits, v.s) && HasChar(SpecialChars, v.s) && OnlyChars(PasswordChars, v.s)
    case FullName => !IsBlank(v.s) && |v.s| >= 2 && OnlyChars(NameChars, v.s)
    case DateOfBirth =>
      v.date.Some? && !Before(today, Anniversary(v.date.value, 18)) && Before(today, Anniversary(v.date.value, 121))
    case Address => !IsBlank(v.s) && |v.s| >= 10
    case Country => v.s != ""
    case Email => Patterns.WellFormedAddress(v.s)
    case PhoneNumber => Patterns.PhonePattern(v.s) && |KeepDigits(v.s)| >= 10
  }

  /** `value.replace(/[^0-9]/g, '')` leaves something only when there is a digit. */
  lemma {:induction false} KeptDigitOccurs(s: string, n: nat)
    requires n <= |s| && |DigitsBefore(s, n)| > 0
    ensures exists k | 0 <= k < n :: IsDigit(s[k])
  {
    if !IsDigit(s[n - 1]) {
      KeptDigitOccurs(s, n - 1);
    }
  }

  /** A string with a digit is not blank. */
  lemma DigitNotBlank(s: string)
    requires |KeepDigits(s)| > 0
    ensures !IsBlank(s)
  {
    KeptDigitOccurs(s, |s|);
    var k :| 0 <= k < |s| && IsDigit(s[k]);
    BlankIffAllSpace(s);
    assert !IsSpace(s[k]);
  }

  /** A value whose first character is not white space is not blank. */
  lemma FirstNotSpace(s: string)
    requires s != [] && !IsSpace(s[0])
    ensures !IsBlank(s)
  {
    BlankIffAllSpace(s);
  }

  /** The username "required" test is subsumed: the validator accepts exactly
      the values of at least 3 characters drawn from `[A-Za-z0-9_]`. */
  lemma UsernameAcceptsIff(s: string)
    ensures ValidateUsername(s).None? <==> |s| >= 3 && OnlyChars(UsernameChars, s)
  {
    if OnlyChars(UsernameChars, s) { FirstNotSpace(s); }
  }

  /** The e-mail validator accepts exactly the well-formed addresses. */
  lemma EmailAcceptsIff(s: string)
    ensures ValidateEmail(s).None? <==> Patterns.WellFormedAddress(s)
  {
    Patterns.EmailPatternIff(s);
    if Patterns.EmailPattern(s) { Patterns.EmailOneAt(s, 0); FirstNotSpace(s); }
  }

  /** The phone validator accepts exactly the values the phone pattern matches
      that hold at least 10 digits. */
  lemma PhoneAcceptsIff(s: string)
    ensures ValidatePhone(s).None? <==> Patterns.PhonePattern(s) && |KeepDigits(s)| >= 10
  {
    if |KeepDigits(s)| >= 10 { DigitNotBlank(s); }
  }

  /** `validateField` returns "" exactly for the accepted values. */
  lemma ValidateFieldAccepts(f: Field, v: FieldValue, today: Date)
    requires Fits(f, v)
    ensures ValidateField(f, v, today).None? <==> Accepted(f, v, today)
  {
    match f
    case Username => UsernameAcceptsIff(v.s);
    case Email => EmailAcceptsIff(v.s);
    case PhoneNumber => PhoneAcceptsIff(v.s);
    case Password =>
    case FullName =>
    case DateOfBirth =>
    case Address =>
    case Country =>
  }

  /** The password message names the first rule that fails: each message is
      shown exactly when every earlier rule holds and its own does not. */
  lemma PasswordFirstFailure(s: string)
    ensures ValidatePassword(s) == Some(PasswordRequired) <==> s == ""
    ensures ValidatePassword(s) == Some(PasswordTooShort) <==> 0 < |s| < 8
    ensures ValidatePassword(s) == Some(PasswordNeedsLower) <==> |s| >= 8 && !HasChar(LowerCase, s)
    ensures ValidatePassword(s) == Some(PasswordNeedsUpper) <==>
      |s| >= 8 && HasChar(LowerCase, s) && !HasChar(UpperCase, s)
    ensures ValidatePassword(s) == Some(PasswordNeedsDigit) <==>
      |s| >= 8 && HasChar(LowerCase, s) && HasChar(UpperCase, s) && !HasChar(Digits, s)
    ensures ValidatePassword(s) == Some(PasswordNeedsSpecial) <==>
      && |s| >= 8 && HasChar(LowerCase, s) && HasChar(UpperCase, s) && HasChar(Digits, s)
      && !HasChar(SpecialChars, s)
    ensures ValidatePassword(s) == Some(PasswordBadChars) <==>
      && |s| >= 8 && HasChar(LowerCase, s) && HasChar(UpperCase, s) && HasChar(Digits, s)
      && HasChar(SpecialChars, s) && !OnlyChars(PasswordChars, s)
  {
  }

  // ------------------------------------------------------ field properties

  /** An accepted username has at least 3 characters, all in `[A-Za-z0-9_]`. */
  lemma UsernameAccepted(s: string)
    requires ValidateUsername(s).None?
    ensures |s| >= 3 && forall i | 0 <= i < |s| :: IsLetter(s[i]) || IsDigit(s[i]) || s[i] == '_'
  {
  }

  /** An accepted full name has at least 2 characters, all letters or white space,
      and not all white space. */
  lemma FullNameAccepted(s: string)
    requires ValidateFullName(s).None?
    ensures |s| >= 2 && !AllSpace(s) && forall i | 0 <= i < |s| :: IsLetter(s[i]) || IsSpace(s[i])
  {
    BlankIffAllSpace(s);
  }

  /** An accepted address is not blank and has at least 10 characters. */
  lemma AddressAccepted(s: string)
    requires ValidateAddress(s).None?
    ensures |s| >= 10 && !AllSpace(s)
  {
    BlankIffAllSpace(s);
  }

  /** The password rules run in order: "abcdefgh" has its lower-case letters and
      fails on the missing upper-case letter, before the digit rule is reached. */
  lemma PasswordRuleOrder()
    ensures ValidatePassword("abcdefgh") == Some(PasswordNeedsUpper)
  {
    var v := "abcdefgh";
    assert InCharClass(LowerCase, v[0]);
    assert !HasChar(UpperCase, v);
  }

  /** The password's "required" test does not trim: eight or more white-space
      characters fail on the lower-case rule instead. */
  lemma BlankPasswordNotRequired(s: string)
    requires |s| >= 8 && AllSpace(s)
    ensures ValidatePassword(s) == Some(PasswordNeedsLower)
  {
    assert !HasChar(LowerCase, s) by {
      forall i | 0 <= i < |s| ensures !IsLower(s[i]) { assert IsSpace(s[i]); }
    }
  }

  /** A password that meets every earlier rule but holds a character outside
      letters, digits and the special set (a space, say) fails the last rule. */
  lemma PasswordAlphabet(s: string, i: int)
    requires |s| >= 8 && HasChar(LowerCase, s) && HasChar(UpperCase, s)
    requires HasChar(Digits, s) && HasChar(SpecialChars, s)
    requires 0 <= i < |s| && !InCharClass(PasswordChars, s[i])
    ensures ValidatePassword(s) == Some(PasswordBadChars)
  {
  }

  /** A phone number that passes has between 10 and 17 digits. */
  lemma PhoneDigitRange(s: string)
    requires ValidatePhone(s).None?
    ensures 10 <= |KeepDigits(s)| <= 17
  {
    Patterns.PhonePatternBounds(s);
  }

  /** A value with more than two separators (white space, '-' or '.') is
      refused by the pattern, whatever its digits. */
  lemma TooManySeparators(s: string)
    requires !IsBlank(s) && Patterns.Count(Patterns.Separator, s) > 2
    ensures ValidatePhone(s) == Some(PhoneInvalid)
  {
    if Patterns.PhonePattern(s) { Patterns.PhonePatternBounds(s); }
  }

  /** For a date of birth that is not in the future the computed age is not negative. */
  lemma DobAgeNotNegative(birth: Date, today: Date)
    requires ValidateDateOfBirth(Some(birth), today) != Some(DobInFuture)
    ensures Age(birth, today) >= 0
  {
    AgeNotNegative(birth, today);
  }

  /** The 18th birthday is the boundary: with today 2024-06-15, someone born on
      2006-06-16 is 17 and refused, someone born on 2006-06-15 is 18 and accepted. */
  lemma AgeBoundary()
    ensures ValidateDateOfBirth(Some(Date(2006, 6, 16)), Date(2024, 6, 15)) == Some(DobTooYoung)
    ensures ValidateDateOfBirth(Some(Date(2006, 6, 15)), Date(2024, 6, 15)).None?
  {
  }

  // ----------------------------------------------------------- whole form

  /** Every field has a value of the kind its widget supplies. */
  predicate WellTyped(form: map<Field, FieldValue>) {
    forall f: Field :: f in form && Fits(f, form[f])
  }

  /** `hasValue` in `isFormValid`: a date is picked; text is not blank after
      trimming and is not the text "null" or "undefined". */
  predicate HasValue(v: FieldValue) {
    match v
    case Dob(d) => d.Some?
    case Str(s) => var t := Trim(s); t != "" && t != "null" && t != "undefined"
  }

  /** Every field passes its rule chain: what `validateForm` returns. */
  predicate FormPasses(form: map<Field, FieldValue>, today: Date)
    requires WellTyped(form)
  {
    forall f: Field :: ValidateField(f, form[f], today).None?
  }

  /** Every field passes and has a value: what `isFormValid` returns. */
  predicate FormReady(form: map<Field, FieldValue>, today: Date)
    requires WellTyped(form)
  {
    FormPasses(form, today) && forall f: Field :: HasValue(form[f])
  }

  /** The error map `validateForm` stores: the failing fields, each with its message. */
  function FormErrors(form: map<Field, FieldValue>, today: Date): (errs: map<Field, Option<Message>>)
    requires WellTyped(form)
    ensures forall f: Field :: f in errs <==> ValidateField(f, form[f], today).Some?
    ensures forall f | f in errs :: errs[f] == ValidateField(f, form[f], today)
    ensures errs == map[] <==> FormPasses(form, today)
  {
    var errs := map f | f in form && ValidateField(f, form[f], today).Some? :: ValidateField(f, form[f], today);
    assert errs == map[] ==> FormPasses(form, today) by {
      if errs == map[] {
        forall f: Field ensures ValidateField(f, form[f], today).None? {
          assert f !in errs;
        }
      }
    }
    errs
  }

  /** The errors the `forEach` of `validateForm` has gathered after visiting
      `keys`, in order: each failing field with its message. */
  function ErrorsOver(form: map<Field, FieldValue>, keys: seq<Field>, today: Date): map<Field, Option<Message>>
    requires WellTyped(form)
    decreases |keys|
  {
    if keys == [] then map[]
    else
      var key := keys[|keys| - 1];
      var gathered := ErrorsOver(form, keys[..|keys| - 1], today);
      var error := ValidateField(key, form[key], today);
      if error.Some? then gathered[key := error] else gathered
  }

  /** One visit of the `forEach`: the next field's error, if any, is added. */
  lemma ErrorsOverStep(form: map<Field, FieldValue>, i: nat, today: Date)
    requires WellTyped(form) && i < |FieldOrder|
    ensures var key, gathered := FieldOrder[i], ErrorsOver(form, FieldOrder[..i], today);
      var error := ValidateField(key, form[key], today);
      ErrorsOver(form, FieldOrder[..i + 1], today) == if error.Some? then gathered[key := error] else gathered
  {
    assert FieldOrder[..i + 1][..i] == FieldOrder[..i];
  }

  /** Visiting `keys` gathers exactly the failing fields among them, each with
      its own message. */
  lemma {:induction false} ErrorsOverFailing(form: map<Field, FieldValue>, keys: seq<Field>, today: Date)
    requires WellTyped(form)
    ensures forall f: Field :: f in ErrorsOver(form, keys, today) <==> f in keys && ValidateField(f, form[f], today).Some?
    ensures forall f | f in ErrorsOver(form, keys, today) :: ErrorsOver(form, keys, today)[f] == ValidateField(f, form[f], today)
    decreases |keys|
  {
    if keys != [] {
      var init := keys[..|keys| - 1];
      ErrorsOverFailing(form, init, today);
      assert keys == init + [keys[|keys| - 1]];
    }
  }

  /** Visiting every field gathers the error map of the whole form. */
  lemma ErrorsOverAll(form: map<Field, FieldValue>, today: Date)
    requires WellTyped(form)
    ensures ErrorsOver(form, FieldOrder, today) == FormErrors(form, today)
  {
    ErrorsOverFailing(form, FieldOrder, today);
    forall f: Field ensures f in FieldOrder { FieldOrderComplete(f); }
  }

  /** Every field of `keys` passes and has a value: the `allValid` of
      `isFormValid` after visiting `keys`. */
  predicate ReadyOver(form: map<Field, FieldValue>, keys: seq<Field>, today: Date)
    requires WellTyped(form)
    decreases |keys|
  {
    if keys == [] then true
    else
      var key := keys[|keys| - 1];
      && ReadyOver(form, keys[..|keys| - 1], today)
      && ValidateField(key, form[key], today).None? && HasValue(form[key])
  }

  /** One visit of the loop of `isFormValid`. */
  lemma ReadyOverStep(form: map<Field, FieldValue>, i: nat, today: Date)
    requires WellTyped(form) && i < |FieldOrder|
    ensures var key := FieldOrder[i];
      ReadyOver(form, FieldOrder[..i + 1], today) <==>
        ReadyOver(form, FieldOrder[..i], today) && ValidateField(key, form[key], today).None? && HasValue(form[key])
  {
    assert FieldOrder[..i + 1][..i] == FieldOrder[..i];
  }

  lemma {:induction false} ReadyOverAllKeys(form: map<Field, FieldValue>, keys: seq<Field>, today: Date)
    requires WellTyped(form)
    ensures ReadyOver(form, keys, today) <==>
      forall f | f in keys :: ValidateField(f, form[f], today).None? && HasValue(form[f])
    decreases |keys|
  {
    if keys != [] {
      var init := keys[..|keys| - 1];
      ReadyOverAllKeys(form, init, today);
      assert keys == init + [keys[|keys| - 1]];
    }
  }

  /** Visiting every field decides whether the form is ready. */
  lemma ReadyOverAll(form: map<Field, FieldValue>, today: Date)
    requires WellTyped(form)
    ensures ReadyOver(form, FieldOrder, today) <==> FormReady(form, today)
  {
    ReadyOverAllKeys(form, FieldOrder, today);
    forall f: Field ensures f in FieldOrder { FieldOrderComplete(f); }
  }

  /** The usernames "null" and "undefined" pass their rules yet count as no value. */
  lemma KeywordUsername(s: string)
    requires s == "null" || s == "undefined"
    ensures ValidateUsername(s).None?
    ensures !HasValue(Str(s))
  {
    assert forall i | 0 <= i < |s| :: IsLower(s[i]);
    TrimKeepsUnpadded(s);
    UsernameAcceptsIff(s);
  }

  /** So a form holding the username "null" can pass `validateForm` while
      `isFormValid` is false. */
  lemma NullUsernameSlipsThrough(form: map<Field, FieldValue>, today: Date)
    requires WellTyped(form) && form[Username] == Str("null")
    ensures ValidateField(Username, form[Username], today).None?
    ensures !FormReady(form, today)
  {
    KeywordUsername("null");
  }

  /** The body of the sign-up request. */
  datatype SignUpRequest = SignUpRequest(
    username: string, password: string, fullName: string, dob: string,
    address: string, country: string, email: string, phone: string)

  /** `requestBody`: the text fields are sent as the user typed them, the
      phone number under `phone`, the date of birth as `YYYY-MM-DD` under `dob`. */
  function RequestBody(form: map<Field, FieldValue>): (r: SignUpRequest)
    requires WellTyped(form)
    ensures form[DateOfBirth].date.Some? ==> ParseApiDate(r.dob) == form[DateOfBirth].date
    ensures r.dob == "" <==> form[DateOfBirth].date.None?
  {
    var dob := form[DateOfBirth].date;
    FormatDateRoundTrip(dob);
    SignUpRequest(
      form[Username].s, form[Password].s, form[FullName].s, FormatDateForApi(dob),
      form[Address].s, form[Country].s, form[Email].s, form[PhoneNumber].s)
  }

  /** A request built from a form whose date of birth, phone number and
      e-mail address pass carries a birth date that reads back to the one
      picked, a phone number with 10 to 17 digits and an e-mail address of the
      accepted shape, the last two as typed. */
  lemma RequestFromPassingFields(form: map<Field, FieldValue>, today: Date)
    requires WellTyped(form)
    requires ValidateField(DateOfBirth, form[DateOfBirth], today).None?
    requires ValidateField(PhoneNumber, form[PhoneNumber], today).None?
    requires ValidateField(Email, form[Email], today).None?
    ensures var r := RequestBody(form);
      && form[DateOfBirth].date.Some? && ParseApiDate(r.dob) == form[DateOfBirth].date
      && 10 <= |KeepDigits(r.phone)| <= 17
      && Patterns.WellFormedAddress(r.email)
      && r.phone == form[PhoneNumber].s && r.email == form[Email].s
  {
    PhoneDigitRange(form[PhoneNumber].s);
    EmailAcceptsIff(form[Email].s);
  }

  /** A form that passes passes field by field. */
  lemma FieldPasses(form: map<Field, FieldValue>, today: Date, f: Field)
    requires WellTyped(form) && FormPasses(form, today)
    ensures ValidateField(f, form[f], today).None?
  {
  }

  /** So a request built from a form that passes `validateForm` has all of
      these properties. */
  lemma RequestFromPassingForm(form: map<Field, FieldValue>, today: Date)
    requires WellTyped(form) && FormPasses(form, today)
    ensures var r := RequestBody(form);
      && form[DateOfBirth].date.Some? && ParseApiDate(r.dob) == form[DateOfBirth].date
      && 10 <= |KeepDigits(r.phone)| <= 17
      && Patterns.WellFormedAddress(r.email)
  {
    FieldPasses(form, today, DateOfBirth);
    FieldPasses(form, today, PhoneNumber);
    FieldPasses(form, today, Email);
    RequestFromPassingFields(form, today);
  }

  // ------------------------------------------------------------ the screen

  /** The form's state: `formData` and `errors`. An entry `None` in `errors`
      is the empty string `handleFieldChange` stores for a field that passes,
      and `Wording` gives the text shown under the field. */
  class SignUpForm {
    var formData: map<Field, FieldValue>
    var errors: map<Field, Option<Message>>

    ghost predicate Valid()
      reads this
    {
      WellTyped(formData)
    }

    /** The initial state: empty text, no date, no errors. */
    constructor ()
      ensures Valid() && errors == map[]
      ensures formData[DateOfBirth] == Dob(None)
      ensures forall f: Field | f != DateOfBirth :: formData[f] == Str("")
    {
      var initial := map[
        Username := Str(""), Password := Str(""), FullName := Str(""), DateOfBirth := Dob(None),
        Address := Str(""), Country := Str(""), Email := Str(""), PhoneNumber := Str("")];
      forall f: Field ensures f in initial && Fits(f, initial[f]) && (f != DateOfBirth ==> initial[f] == Str("")) {
        FieldOrderComplete(f);
      }
      formData := initial;
      errors := map[];
    }

    /** `handleFieldChange`: stores the value and that field's fresh verdict;
        no other entry of either map changes. */
    method HandleFieldChange(name: Field, value: FieldValue, today: Date)
      requires Valid() && Fits(name, value)
      modifies this
      ensures Valid()
      ensures formData == old(formData)[name := value]
      ensures errors == old(errors)[name := ValidateField(name, value, today)]
    {
      formData := formData[name := value];
      var error := ValidateField(name, value, today);
      errors := errors[name := error];
    }

    /** `handleBlur`: re-validates the field's current value. */
    method HandleBlur(name: Field, today: Date)
      requires Valid()
      modifies this`errors
      ensures Valid()
      ensures errors == old(errors)[name := ValidateField(name, formData[name], today)]
    {
      var value := formData[name];
      var error := ValidateField(name, value, today);
      errors := errors[name := error];
    }

    /** `validateForm`: validates every field, stores exactly the failing ones
        with their messages and reports whether there were none. */
    method ValidateForm(today: Date) returns (isValid: bool)
      requires Valid()
      modifies this`errors
      ensures Valid()
      ensures errors == FormErrors(formData, today)
      ensures isValid <==> FormPasses(formData, today)
    {
      var newErrors: map<Field, Option<Message>> := map[];
      isValid := true;
      var i := 0;
      while i < |FieldOrder|
        invariant 0 <= i <= |FieldOrder|
        invariant newErrors == ErrorsOver(formData, FieldOrder[..i], today)
        invariant isValid <==> newErrors == map[]
      {
        var key := FieldOrder[i];
        var error := ValidateField(key, formData[key], today);
        if error.Some? {
          newErrors := newErrors[key := error];
          assert key in newErrors;
          isValid := false;
        }
        ErrorsOverStep(formData, i, today);
        i := i + 1;
      }
      assert FieldOrder[..i] == FieldOrder;
      ErrorsOverAll(formData, today);
      errors := newErrors;
    }

    /** `isFormValid`: every field passes its rules and has a value. */
    method IsFormValid(today: Date) returns (allValid: bool)
      requires Valid()
      ensures allValid <==> FormReady(formData, today)
    {
      allValid := true;
      var i := 0;
      while i < |FieldOrder|
        invariant 0 <= i <= |FieldOrder|
        invariant allValid <==> ReadyOver(formData, FieldOrder[..i], today)
      {
        var key := FieldOrder[i];
        var value := formData[key];
        var error := ValidateField(key, value, today);
        var hasValue := HasValue(value);
        var isValid := error.None? && hasValue;
        if !isValid {
          allValid := false;
        }
        ReadyOverStep(formData, i, today);
        i := i + 1;
      }
      assert FieldOrder[..i] == FieldOrder;
      ReadyOverAll(formData, today);
    }

    /** `handleSubmit` up to the network call: a request is built only when
        `validateForm` passes. */
    method HandleSubmit(today: Date) returns (request: Option<SignUpRequest>)
      requires Valid()
      modifies this`errors
      ensures Valid()
      ensures errors == FormErrors(formData, today)
      ensures request.Some? <==> FormPasses(formData, today)
      ensures request.Some? ==> request.value == RequestBody(formData)
    {
      var ok := ValidateForm(today);
      if !ok {
        return None;
      }
      request := Some(RequestBody(formData));
    }
  }
}
