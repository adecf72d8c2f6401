/** The character classes the sign-up validators test values against with
    `/[...]/` and `/^[...]+$/`. */
module CharClasses {
  import opened Text

  /** `c` is in the set `!@#$%^&*()_+-=[]{};':"\|,.<>/?` that the sign-up
      password rules call special characters. */
  predicate IsSpecial(c: char) {
    c in "!@#$%^&*()_+-=[]{};':\"\\|,.<>/?"
  }

  /** The character classes the rules test. */
  datatype CharClass =
    | UsernameChars   // [a-zA-Z0-9_]
    | NameChars       // [a-zA-Z\s]
    | LowerCase       // [a-z]
    | UpperCase       // [A-Z]
    | Digits          // [0-9]
    | SpecialChars    // [!@#$%^&*()_+\-=\[\]{};':"\\|,.<>\/?]
    | PasswordChars   // [a-zA-Z0-9!@#$%^&*()_+\-=\[\]{};':"\\|,.<>\/?]

  predicate InCharClass(k: CharClass, c: char) {
    match k
    case UsernameChars => IsLetter(c) || IsDigit(c) || c == '_'
    case NameChars => IsLetter(c) || IsSpace(c)
    case LowerCase => IsLower(c)
    case UpperCase => IsUpper(c)
    case Digits => IsDigit(c)
    case SpecialChars => IsSpecial(c)
    case PasswordChars => IsLetter(c) || IsDigit(c) || IsSpecial(c)
  }

  /** `/^[k]+$/.test(v)`. */
  predicate OnlyChars(k: CharClass, v: string) {
    v != [] && forall i | 0 <= i < |v| :: InCharClass(k, v[i])
  }

  /** `/[k]/.test(v)`. */
  predicate HasChar(k: CharClass, v: string) {
    exists i | 0 <= i < |v| :: InCharClass(k, v[i])
  }
}
