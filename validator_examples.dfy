/** The concrete cases of the validators' tests, as facts about the model. */
module ValidatorExamples {
  import opened GoStrings
  import opened Validator

  lemma StringLengthCases()
    ensures ValidateString("hello", 3, 10) == Pass
    ensures ValidateString("hi", 3, 10) == Fail(LengthOutOfRange(3, 10))
    ensures ValidateString("this is too long", 3, 10) == Fail(LengthOutOfRange(3, 10))
    ensures ValidateString("", 1, 5) == Fail(LengthOutOfRange(1, 5))
    ensures ValidateString("abc", 3, 3) == Pass
  {
  }

  lemma UsernameCases()
    ensures ValidateUsername("user") == Pass
    ensures ValidateUsername("User123") == Pass
    ensures ValidateUsername("test_user") == Pass
    ensures ValidateUsername("a123456789012345") == Pass
    ensures ValidateUsername("123user") == Fail(BadUsername)
    ensures ValidateUsername("_user") == Fail(BadUsername)
    ensures ValidateUsername("u") == Fail(BadUsername)
    ensures ValidateUsername("user-with-dash") == Fail(BadUsername)
    ensures ValidateUsername("user with space") == Fail(BadUsername)
    ensures ValidateUsername("verylongusernamethatexceedslimit") == Fail(BadUsername)
    ensures ValidateUsername("") == Fail(BadUsername)
  {
    var dash: GoString := "user-with-dash";
    assert !IsWordByte(dash[4]);
    var space: GoString := "user with space";
    assert !IsWordByte(space[4]);
  }

  lemma PasswordAccepted()
    ensures ValidatePassword("Password123") == Pass
  {
    var p: GoString := "Password123";
    assert forall i :: 0 <= i < |p| ==> IsPasswordByte(p[i]);
    assert IsUpper(p[0]) && IsLower(p[1]) && IsDigit(p[8]);
  }

  lemma PasswordWithSymbolAccepted()
    ensures ValidatePassword("Admin@Pass123") == Pass
  {
    var a: GoString := "Admin@Pass123";
    assert forall i :: 0 <= i < |a| ==> IsPasswordByte(a[i]);
    assert IsUpper(a[0]) && IsLower(a[1]) && IsDigit(a[10]);
  }

  lemma TestPasswordAccepted()
    ensures ValidatePassword("TestPass456") == Pass
  {
    var p: GoString := "TestPass456";
    assert forall i :: 0 <= i < |p| ==> IsPasswordByte(p[i]);
    assert IsUpper(p[0]) && IsLower(p[1]) && IsDigit(p[8]);
  }

  lemma ValidPassword789Accepted()
    ensures ValidatePassword("ValidPass789") == Pass
  {
    var p: GoString := "ValidPass789";
    assert forall i :: 0 <= i < |p| ==> IsPasswordByte(p[i]);
    assert IsUpper(p[0]) && IsLower(p[1]) && IsDigit(p[9]);
  }

  lemma MySecurePasswordAccepted()
    ensures ValidatePassword("MySecure123") == Pass
  {
    var p: GoString := "MySecure123";
    assert forall i :: 0 <= i < |p| ==> IsPasswordByte(p[i]);
    assert IsUpper(p[0]) && IsLower(p[1]) && IsDigit(p[8]);
  }

  lemma PasswordsOfWrongShape()
    ensures ValidatePassword("short") == Fail(BadPasswordChars)
    ensures ValidatePassword("Short1") == Fail(BadPasswordChars)
    ensures ValidatePassword("toolongpassword123") == Fail(BadPasswordChars)
    ensures ValidatePassword("") == Fail(BadPasswordChars)
    ensures ValidatePassword("Password123#") == Fail(BadPasswordChars)
  {
    var h: GoString := "Password123#";
    assert !IsPasswordByte(h[11]);
  }

  /** A password of allowed bytes reports the first missing kind of character. */
  lemma PasswordMissingUppercase()
    ensures ValidatePassword("alllowercase123") == Fail(NoUppercase)
  {
    var l: GoString := "alllowercase123";
    assert forall i :: 0 <= i < |l| ==> IsLower(l[i]) || IsDigit(l[i]);
    assert IsLower(l[0]);
  }

  lemma PasswordMissingLowercase()
    ensures ValidatePassword("ALLUPPERCASE123") == Fail(NoLowercase)
  {
    var u: GoString := "ALLUPPERCASE123";
    assert forall i :: 0 <= i < |u| ==> IsUpper(u[i]) || IsDigit(u[i]);
  }

  lemma PasswordMissingDigit()
    ensures ValidatePassword("NoDigitsHere") == Fail(NoDigit)
  {
    var n: GoString := "NoDigitsHere";
    assert forall i :: 0 <= i < |n| ==> IsLetter(n[i]);
    assert IsUpper(n[0]) && IsLower(n[1]);
  }

  /** The combined case: a valid username and password, then invalid ones. */
  lemma MultipleRulesAccepted()
    ensures ValidateUsername("testuser123") == Pass
    ensures ValidateUsername("123user") == Fail(BadUsername)
  {
  }

  lemma MultipleRulesPasswordAccepted()
    ensures ValidatePassword("ValidPass123") == Pass
  {
    var p: GoString := "ValidPass123";
    assert forall i :: 0 <= i < |p| ==> IsPasswordByte(p[i]);
    assert IsUpper(p[0]) && IsLower(p[1]) && IsDigit(p[9]);
  }

  lemma WeakPasswordMissingUppercase()
    ensures ValidatePassword("weakpass") == Fail(NoUppercase)
  {
    var w: GoString := "weakpass";
    assert forall i :: 0 <= i < |w| ==> IsLower(w[i]);
    assert IsLower(w[0]);
  }

  lemma EmailCases(parseAddress: GoString -> bool)
    ensures ValidateEmail("a", parseAddress) == Fail(LengthOutOfRange(3, 320))
    ensures ValidateEmail("", parseAddress) == Fail(LengthOutOfRange(3, 320))
  {
  }
}
