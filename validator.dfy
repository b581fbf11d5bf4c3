/**
 * The input validators of package `fvalidator`: each one checks a raw Go
 * string and returns either no error or one error whose kind says which
 * rule failed. The regular expressions of the package are values of the
 * `Regexp` fragment, and the lemmas of that module turn them into the
 * byte-class predicates below.
 */
module Validator {
  import opened GoStrings
  import opened Regexp

  /** The errors the validators return, one constructor per message. */
  datatype ValidatorError =
    | LengthOutOfRange(minLength: int, maxLength: int) // "must contain from %d-%d characters"
    | BadUsername      // "must contain only letters, numbers, and underscores and be between 4-16 characters long"
    | BadPasswordChars // "must be between 8-16 characters long and contain only letters, numbers, and special characters @$!%*?&"
    | NoLowercase      // "must contain at least one lowercase letter"
    | NoUppercase      // "must contain at least one uppercase letter"
    | NoDigit          // "must contain at least one number"
    | BadEmailAddress  // "invalid email address"

  /** A Go `error` result: `nil` (Pass) or an error value (Fail). */
  datatype Outcome = Pass | Fail(error: ValidatorError)

  // Byte classes, stated directly.

  predicate IsLower(c: Byte) { 'a' <= c <= 'z' }
  predicate IsUpper(c: Byte) { 'A' <= c <= 'Z' }
  predicate IsDigit(c: Byte) { '0' <= c <= '9' }
  predicate IsLetter(c: Byte) { IsLower(c) || IsUpper(c) }
  predicate IsWordByte(c: Byte) { IsLetter(c) || IsDigit(c) || c == '_' }
  predicate IsPasswordSymbol(c: Byte) {
    c == '@' || c == '$' || c == '!' || c == '%' || c == '*' || c == '?' || c == '&'
  }
  predicate IsPasswordByte(c: Byte) { IsLetter(c) || IsDigit(c) || IsPasswordSymbol(c) }

  // The package's regular expressions.

  const LowerClass: CharClass := [Range('a', 'z')]
  const UpperClass: CharClass := [Range('A', 'Z')]
  /** `\d`, which Go's RE2 syntax defines as `[0-9]`. */
  const DigitClass: CharClass := [Range('0', '9')]
  const LetterClass: CharClass := [Range('a', 'z'), Range('A', 'Z')]
  const WordClass: CharClass := [Range('a', 'z'), Range('A', 'Z'), Range('0', '9'), Single('_')]
  const PasswordClass: CharClass :=
    [Range('A', 'Z'), Range('a', 'z'), Range('0', '9'),
     Single('@'), Single('$'), Single('!'), Single('%'), Single('*'), Single('?'), Single('&')]

  /** `^[a-zA-Z][a-zA-Z0-9_]{3,15}$` */
  const UsernamePattern: seq<Piece> := [Piece(LetterClass, 1, 1), Piece(WordClass, 3, 15)]
  /** `^[A-Za-z\d@$!%*?&]{8,16}$` */
  const PasswordPattern: seq<Piece> := [Piece(PasswordClass, 8, 16)]

  predicate IsValidUsername(s: GoString) { MatchAnchored(UsernamePattern, s) }
  predicate HasLowercase(s: GoString) { Search(s, LowerClass) }
  predicate HasUppercase(s: GoString) { Search(s, UpperClass) }
  predicate HasDigit(s: GoString) { Search(s, DigitClass) }
  predicate ValidPasswordChars(s: GoString) { MatchAnchored(PasswordPattern, s) }

  // What each regular expression accepts.

  lemma WordClassIsWordByte(c: Byte)
    ensures InClass(c, WordClass) <==> IsWordByte(c)
  {
    if IsWordByte(c) {
      if IsLower(c) { assert WordClass[0].Matches(c); }
      else if IsUpper(c) { assert WordClass[1].Matches(c); }
      else if IsDigit(c) { assert WordClass[2].Matches(c); }
      else { assert WordClass[3].Matches(c); }
    }
  }

  lemma PasswordClassIsPasswordByte(c: Byte)
    ensures InClass(c, PasswordClass) <==> IsPasswordByte(c)
  {
    if IsPasswordByte(c) {
      if IsUpper(c) { assert PasswordClass[0].Matches(c); }
      else if IsLower(c) { assert PasswordClass[1].Matches(c); }
      else if IsDigit(c) { assert PasswordClass[2].Matches(c); }
      else if c == '@' { assert PasswordClass[3].Matches(c); }
      else if c == '$' { assert PasswordClass[4].Matches(c); }
      else if c == '!' { assert PasswordClass[5].Matches(c); }
      else if c == '%' { assert PasswordClass[6].Matches(c); }
      else if c == '*' { assert PasswordClass[7].Matches(c); }
      else if c == '?' { assert PasswordClass[8].Matches(c); }
      else { assert PasswordClass[9].Matches(c); }
    }
  }

  lemma UsernameRegexAccepts(s: GoString)
    ensures IsValidUsername(s) <==>
              4 <= |s| <= 16 && IsLetter(s[0]) && forall i :: 1 <= i < |s| ==> IsWordByte(s[i])
  {
    MatchHeadThenPiece(UsernamePattern[0], UsernamePattern[1], s);
    if |s| >= 1 {
      MatchOnePiece(UsernamePattern[1], s[1..]);
      if IsLetter(s[0]) {
        if IsLower(s[0]) { assert LetterClass[0].Matches(s[0]); }
        else { assert LetterClass[1].Matches(s[0]); }
      }
      forall i | 1 <= i < |s| ensures InClass(s[1..][i - 1], WordClass) <==> IsWordByte(s[i]) {
        assert s[1..][i - 1] == s[i];
        WordClassIsWordByte(s[i]);
      }
    }
  }

  lemma PasswordCharsRegexAccepts(s: GoString)
    ensures ValidPasswordChars(s) <==>
              8 <= |s| <= 16 && forall i :: 0 <= i < |s| ==> IsPasswordByte(s[i])
  {
    MatchOnePiece(PasswordPattern[0], s);
    forall i | 0 <= i < |s| ensures InClass(s[i], PasswordClass) <==> IsPasswordByte(s[i]) {
      PasswordClassIsPasswordByte(s[i]);
    }
  }

  lemma SearchRegexesFind(s: GoString)
    ensures HasLowercase(s) <==> exists i :: 0 <= i < |s| && IsLower(s[i])
    ensures HasUppercase(s) <==> exists i :: 0 <= i < |s| && IsUpper(s[i])
    ensures HasDigit(s) <==> exists i :: 0 <= i < |s| && IsDigit(s[i])
  {
    SearchFinds(s, LowerClass);
    SearchFinds(s, UpperClass);
    SearchFinds(s, DigitClass);
    forall c: Byte ensures InClass(c, LowerClass) <==> IsLower(c) {
      if IsLower(c) { assert LowerClass[0].Matches(c); }
    }
    forall c: Byte ensures InClass(c, UpperClass) <==> IsUpper(c) {
      if IsUpper(c) { assert UpperClass[0].Matches(c); }
    }
    forall c: Byte ensures InClass(c, DigitClass) <==> IsDigit(c) {
      if IsDigit(c) { assert DigitClass[0].Matches(c); }
    }
  }

  // The validators.

  /** `ValidateString`: the byte length of `value` lies in `[minLength, maxLength]`. */
  function ValidateString(value: GoString, minLength: int, maxLength: int): (r: Outcome)
    ensures r == Pass <==> minLength <= |value| <= maxLength
    ensures r != Pass ==> r == Fail(LengthOutOfRange(minLength, maxLength))
  {
    var n := |value|;
    if n < minLength || n > maxLength then Fail(LengthOutOfRange(minLength, maxLength)) else Pass
  }

  /**
   * `ValidateUsername`: 4 to 16 bytes, an ASCII letter first, then ASCII
   * letters, digits and underscores only.
   */
  function ValidateUsername(value: GoString): (r: Outcome)
    ensures r == Pass <==>
              4 <= |value| <= 16 && IsLetter(value[0])
              && forall i :: 1 <= i < |value| ==> IsWordByte(value[i])
    ensures r != Pass ==> r == Fail(BadUsername)
  {
    UsernameRegexAccepts(value);
    if !IsValidUsername(value) then Fail(BadUsername) else Pass
  }

  /**
   * `ValidatePassword`: the allowed bytes and the length come first, then a
   * lowercase letter, an uppercase letter and a digit are required, in that
   * order; the first rule that fails names the error.
   */
  function ValidatePassword(value: GoString): (r: Outcome)
    ensures var shapeOk := 8 <= |value| <= 16 && forall i :: 0 <= i < |value| ==> IsPasswordByte(value[i]);
            var lower := exists i :: 0 <= i < |value| && IsLower(value[i]);
            var upper := exists i :: 0 <= i < |value| && IsUpper(value[i]);
            var digit := exists i :: 0 <= i < |value| && IsDigit(value[i]);
            && (r == Pass <==> shapeOk && lower && upper && digit)
            && (r == Fail(BadPasswordChars) <==> !shapeOk)
            && (r == Fail(NoLowercase) <==> shapeOk && !lower)
            && (r == Fail(NoUppercase) <==> shapeOk && lower && !upper)
            && (r == Fail(NoDigit) <==> shapeOk && lower && upper && !digit)
  {
    PasswordCharsRegexAccepts(value);
    SearchRegexesFind(value);
    if !ValidPasswordChars(value) then Fail(BadPasswordChars)
    else if !HasLowercase(value) then Fail(NoLowercase)
    else if !HasUppercase(value) then Fail(NoUppercase)
    else if !HasDigit(value) then Fail(NoDigit)
    else Pass
  }

  /**
   * `ValidateEmail`: a length gate of 3 to 320 bytes in front of
   * `net/mail.ParseAddress`, which is passed in as `parseAddress` (true
   * when it returns no error).
   */
  function ValidateEmail(value: GoString, parseAddress: GoString -> bool): (r: Outcome)
    ensures !(3 <= |value| <= 320) ==> r == Fail(LengthOutOfRange(3, 320))
    ensures 3 <= |value| <= 320 ==> (r == Pass <==> parseAddress(value))
    ensures 3 <= |value| <= 320 && !parseAddress(value) ==> r == Fail(BadEmailAddress)
  {
    var err := ValidateString(value, 3, 320);
    if err != Pass then err
    else if !parseAddress(value) then Fail(BadEmailAddress)
    else Pass
  }

  // Properties relating the validators.

  /**
   * An accepted username is also within `ValidateString`'s 4..16 byte
   * bounds: the regex counts runes, and every rune it accepts is one byte.
   */
  lemma UsernameWithinStringBounds(value: GoString)
    requires ValidateUsername(value) == Pass
    ensures ValidateString(value, 4, 16) == Pass
  {
  }

  /** The email length gate decides before the address parser is consulted. */
  lemma EmailLengthGateIgnoresParser(value: GoString, p1: GoString -> bool, p2: GoString -> bool)
    requires !(3 <= |value| <= 320)
    ensures ValidateEmail(value, p1) == ValidateEmail(value, p2) == Fail(LengthOutOfRange(3, 320))
  {
  }
}
