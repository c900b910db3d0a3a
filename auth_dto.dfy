/**
 * The request DTOs of registration and login (backend/src/dtos/auth.dto.ts)
 * as rule lists per property, what `validate` reports for a body, and the
 * validity each list amounts to.
 */
module AuthDto {
  import opened Constraints

  /** A registration request body: `RegisterUserDto`. */
  datatype RegisterBody = RegisterBody(email: Value, username: Value, password: Value)

  /** A login request body: `LoginUserDto`. */
  datatype LoginBody = LoginBody(email: Value, password: Value)

  /** The errors `validate` reports for a registration body, one per failing property, in declaration order. */
  function RegisterErrors(b: RegisterBody): seq<ValidationError> {
    PropertyErrors("email", b.email, false, [IsEmail]) +
    PropertyErrors("username", b.username, false, [IsString, MinLength(3), MaxLength(20)]) +
    PropertyErrors("password", b.password, false, [IsString, MinLength(8), MaxLength(64)])
  }

  /** A registration body is acceptable: an e-mail, a username of 3 to 20 characters, a password of 8 to 64. */
  predicate ValidRegister(b: RegisterBody) {
    b.email.Str? && EmailFormat(b.email.s) &&
    b.username.Str? && 3 <= ValidatorLength(b.username.s) <= 20 &&
    b.password.Str? && 8 <= ValidatorLength(b.password.s) <= 64
  }

  /** The errors `validate` reports for a login body. */
  function LoginErrors(b: LoginBody): seq<ValidationError> {
    PropertyErrors("email", b.email, false, [IsEmail]) +
    PropertyErrors("password", b.password, false, [IsString])
  }

  /** A login body is acceptable: an e-mail and a password that is a string of any length. */
  predicate ValidLogin(b: LoginBody) {
    b.email.Str? && EmailFormat(b.email.s) && b.password.Str?
  }

  /** `validate` reports nothing for a registration body exactly when all three field checks hold. */
  lemma RegisterAcceptedIff(b: RegisterBody)
    ensures RegisterErrors(b) == [] <==> ValidRegister(b)
  {
    var e := PropertyErrors("email", b.email, false, [IsEmail]);
    var u := PropertyErrors("username", b.username, false, [IsString, MinLength(3), MaxLength(20)]);
    var p := PropertyErrors("password", b.password, false, [IsString, MinLength(8), MaxLength(64)]);
    assert e == [] <==> Holds(IsEmail, b.email);
    assert u == [] <==> Holds(IsString, b.username) && Holds(MinLength(3), b.username) && Holds(MaxLength(20), b.username);
    assert p == [] <==> Holds(IsString, b.password) && Holds(MinLength(8), b.password) && Holds(MaxLength(64), b.password);
  }

  /** Each failing registration field yields exactly one error, naming that field. */
  lemma RegisterErrorPerField(b: RegisterBody)
    ensures |RegisterErrors(b)| ==
      (if Holds(IsEmail, b.email) then 0 else 1) +
      (if b.username.Str? && 3 <= ValidatorLength(b.username.s) <= 20 then 0 else 1) +
      (if b.password.Str? && 8 <= ValidatorLength(b.password.s) <= 64 then 0 else 1)
    ensures forall e :: e in RegisterErrors(b) ==> e.property in {"email", "username", "password"}
  {
    var u := PropertyErrors("username", b.username, false, [IsString, MinLength(3), MaxLength(20)]);
    var p := PropertyErrors("password", b.password, false, [IsString, MinLength(8), MaxLength(64)]);
    assert u == [] <==> Holds(IsString, b.username) && Holds(MinLength(3), b.username) && Holds(MaxLength(20), b.username);
    assert p == [] <==> Holds(IsString, b.password) && Holds(MinLength(8), b.password) && Holds(MaxLength(64), b.password);
  }

  /** `validate` reports nothing for a login body exactly when the e-mail is one and the password a string. */
  lemma LoginAcceptedIff(b: LoginBody)
    ensures LoginErrors(b) == [] <==> ValidLogin(b)
  {
    assert PropertyErrors("password", b.password, false, [IsString]) == [] <==> Holds(IsString, b.password);
  }

  /** Login puts no bound on the password length: with a valid e-mail, any string password passes. */
  lemma LoginPasswordUnbounded(email: string, password: string)
    requires EmailFormat(email)
    ensures LoginErrors(LoginBody(Str(email), Str(password))) == []
  {
    LoginAcceptedIff(LoginBody(Str(email), Str(password)));
  }

  lemma ExampleEmailIsEmail()
    ensures EmailFormat("test@example.com")
  {
    var s := "test@example.com";
    assert s[4] == '@' && '@' !in s[..4];
    var d := s[5..];
    assert d == "example.com" && d[7] == '.';
    assert DomainFormat(d);
  }

  /** The route tests' usernames and passwords hold no presentation selector, so every code point counts. */
  lemma ExampleLengths()
    ensures ValidatorLength("testuser") == 8
    ensures ValidatorLength("Test123!@#") == 10
    ensures ValidatorLength("123") == 3
  {
    var username, password, short := "testuser", "Test123!@#", "123";
    assert forall i :: 0 <= i < |username| ==> !IsPresentationSelector(username[i]);
    assert forall i :: 0 <= i < |password| ==> !IsPresentationSelector(password[i]);
    assert forall i :: 0 <= i < |short| ==> !IsPresentationSelector(short[i]);
    ValidatorLengthPlain(username);
    ValidatorLengthPlain(password);
    ValidatorLengthPlain(short);
  }

  /** The route tests' username passes its rules. */
  lemma ExampleUsernameAccepted()
    ensures PropertyErrors("username", Str("testuser"), false, [IsString, MinLength(3), MaxLength(20)]) == []
  {
    ExampleLengths();
    assert Holds(MinLength(3), Str("testuser")) && Holds(MaxLength(20), Str("testuser"));
  }

  /** The route tests' password passes its rules. */
  lemma ExamplePasswordAccepted()
    ensures PropertyErrors("password", Str("Test123!@#"), false, [IsString, MinLength(8), MaxLength(64)]) == []
  {
    ExampleLengths();
    assert Holds(MinLength(8), Str("Test123!@#")) && Holds(MaxLength(64), Str("Test123!@#"));
  }

  /** "invalid-email" has no '@', so it is not an e-mail. */
  lemma ExampleEmailIsNotEmail()
    ensures !EmailFormat("invalid-email")
  {
    var s := "invalid-email";
    assert forall i :: 0 <= i < |s| ==> s[i] != '@';
  }

  /** The default message of @IsEmail on the `email` property. */
  lemma EmailMessage()
    ensures Message(IsEmail, "email") == "email must be an email"
  {
  }

  /**
   * A presentation selector does not count towards the password's length:
   * seven letters followed by U+FE0F are still too short to register.
   */
  lemma SelectorDoesNotLengthenPassword()
    ensures !ValidRegister(RegisterBody(Str("test@example.com"), Str("testuser"), Str("aaaaaaa\U{FE0F}")))
  {
    var letters := "aaaaaaa";
    assert forall i :: 0 <= i < |letters| ==> !IsPresentationSelector(letters[i]);
    ValidatorLengthPlain(letters);
    ValidatorLengthAppendSelector(letters, '\U{FE0F}');
    assert letters + ['\U{FE0F}'] == "aaaaaaa\U{FE0F}";
  }

  /** The registration body of the route tests passes validation. */
  lemma RegisterExampleAccepted()
    ensures RegisterErrors(RegisterBody(Str("test@example.com"), Str("testuser"), Str("Test123!@#"))) == []
  {
    ExampleEmailIsEmail();
    ExampleLengths();
    RegisterAcceptedIff(RegisterBody(Str("test@example.com"), Str("testuser"), Str("Test123!@#")));
  }

  /** The route test's password "123" is rejected with exactly one error, on the password's minimum length. */
  lemma ShortPasswordRejected()
    ensures RegisterErrors(RegisterBody(Str("test@example.com"), Str("testuser"), Str("123"))) ==
      [ValidationError("password", [Message(MinLength(8), "password")])]
  {
    ExampleEmailIsEmail();
    ExampleUsernameAccepted();
    ShortPasswordErrors();
    assert PropertyErrors("email", Str("test@example.com"), false, [IsEmail]) == [];
  }

  /** "123" breaks only the password's minimum length. */
  lemma ShortPasswordErrors()
    ensures PropertyErrors("password", Str("123"), false, [IsString, MinLength(8), MaxLength(64)]) ==
      [ValidationError("password", [Message(MinLength(8), "password")])]
  {
    ExampleLengths();
    var password := Str("123");
    assert !Holds(MinLength(8), password) && Holds(MaxLength(64), password);
    assert [IsString, MinLength(8), MaxLength(64)][1..] == [MinLength(8), MaxLength(64)];
    assert [MinLength(8), MaxLength(64)][1..] == [MaxLength(64)];
    assert [MaxLength(64)][1..] == [];
    assert Broken([IsString, MinLength(8), MaxLength(64)], password, "password") == [Message(MinLength(8), "password")];
  }

  /** The route test's e-mail "invalid-email" is rejected with exactly one error, on the e-mail format. */
  lemma InvalidEmailRejected()
    ensures RegisterErrors(RegisterBody(Str("invalid-email"), Str("testuser"), Str("Test123!@#"))) ==
      [ValidationError("email", ["email must be an email"])]
  {
    ExampleUsernameAccepted();
    ExamplePasswordAccepted();
    InvalidEmailErrors();
  }

  /** "invalid-email" breaks the e-mail rule, with its default message. */
  lemma InvalidEmailErrors()
    ensures PropertyErrors("email", Str("invalid-email"), false, [IsEmail]) ==
      [ValidationError("email", ["email must be an email"])]
  {
    var s := "invalid-email";
    ExampleEmailIsNotEmail();
    assert [IsEmail][1..] == [];
    assert Broken([IsEmail], Str(s), "email") == [Message(IsEmail, "email")];
    EmailMessage();
  }
}
