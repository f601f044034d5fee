/** The request shapes of sign-up and password-reset confirmation, as the
    class-validator decorators on their fields declare them. `@IsEmail` is not
    modelled: an e-mail field is only length-checked here. */
module AuthDto {
  import opened Text

  /** `/^[0-9]{5}$/`. */
  predicate IsPostalCode(s: string)
  {
    |s| == 5 && AllDigits(s)
  }

  /** The part after the prefix in `/^(\+33|0)[1-9](\d{2}){4}$/`: a digit 1-9 then
      eight digits (`\d` is `[0-9]` in a regex without the `u` flag). */
  predicate IsSubscriberNumber(t: string)
  {
    |t| == 9 && '1' <= t[0] <= '9' && AllDigits(t[1..])
  }

  /** `/^(\+33|0)[1-9](\d{2}){4}$/`. */
  predicate IsFrenchPhone(s: string)
  {
    || (|s| >= 3 && s[..3] == "+33" && IsSubscriberNumber(s[3..]))
    || (|s| >= 1 && s[0] == '0' && IsSubscriberNumber(s[1..]))
  }

  predicate IsPasswordSpecial(c: char)
  {
    c == '@' || c == '$' || c == '!' || c == '%' || c == '*' || c == '?' || c == '&'
  }

  predicate IsPasswordChar(c: char)
  {
    IsAsciiLower(c) || IsAsciiUpper(c) || IsAsciiDigit(c) || IsPasswordSpecial(c)
  }

  /** `/^(?=.*[a-z])(?=.*[A-Z])(?=.*\d)(?=.*[@$!%*?&])[A-Za-z\d@$!%*?&]{8,}$/`: eight or
      more characters from the allowed class, with one of each kind among them. */
  predicate IsComplexPassword(p: string)
  {
    && |p| >= 8
    && (forall i :: 0 <= i < |p| ==> IsPasswordChar(p[i]))
    && (exists i :: 0 <= i < |p| && IsAsciiLower(p[i]))
    && (exists i :: 0 <= i < |p| && IsAsciiUpper(p[i]))
    && (exists i :: 0 <= i < |p| && IsAsciiDigit(p[i]))
    && (exists i :: 0 <= i < |p| && IsPasswordSpecial(p[i]))
  }

  /** A first or last name: `@Transform(trim)` first, then `@IsNotEmpty` and `@MaxLength(65)`. */
  predicate IsSignupName(raw: string)
  {
    var t := Trim(raw);
    t != "" && |t| <= 65
  }

  /** `@IsNotEmpty` and `@MaxLength(n)` on a string field. */
  predicate NonEmptyAtMost(s: string, n: nat)
  {
    s != "" && |s| <= n
  }

  datatype SignupDto = SignupDto(
    firstName: string, lastName: string, address: string, city: string,
    postalCode: string, country: string, phone: string, email: string, password: string)

  predicate SignupValid(d: SignupDto)
  {
    && IsSignupName(d.firstName)
    && IsSignupName(d.lastName)
    && NonEmptyAtMost(d.address, 180)
    && NonEmptyAtMost(d.city, 65)
    && NonEmptyAtMost(d.postalCode, 20) && IsPostalCode(d.postalCode)
    && NonEmptyAtMost(d.country, 65)
    && NonEmptyAtMost(d.phone, 30) && IsFrenchPhone(d.phone)
    && NonEmptyAtMost(d.email, 255)
    && d.password != "" && 8 <= |d.password| <= 255
  }

  datatype ResetPasswordConfirmationDto = ResetPasswordConfirmationDto(
    email: string, password: string, code: string)

  predicate ResetPasswordConfirmationValid(d: ResetPasswordConfirmationDto)
  {
    && NonEmptyAtMost(d.email, 255)
    && d.password != "" && 8 <= |d.password| <= 255 && IsComplexPassword(d.password)
    && d.code != ""
  }

  /** A valid phone number is `0` plus nine digits or `+33` plus nine digits. */
  lemma PhoneLength(s: string)
    requires IsFrenchPhone(s)
    ensures |s| == 10 || |s| == 12
    ensures s[0] == '0' <==> |s| == 10
  {
  }

  /** The phone rule spelled character by character: the prefix, a non-zero digit, then digits. */
  lemma PhoneByPositions(s: string)
    ensures IsFrenchPhone(s) <==>
      (|s| == 10 && s[0] == '0' && '1' <= s[1] <= '9' && forall i :: 2 <= i < 10 ==> IsAsciiDigit(s[i]))
      || (|s| == 12 && s[..3] == "+33" && '1' <= s[3] <= '9' && forall i :: 4 <= i < 12 ==> IsAsciiDigit(s[i]))
  {
    if |s| == 10 && s[0] == '0' {
      assert forall i :: 2 <= i < 10 ==> s[i] == s[1..][1..][i - 2];
    }
    if |s| == 12 && s[..3] == "+33" {
      assert forall i :: 4 <= i < 12 ==> s[i] == s[3..][1..][i - 4];
    }
  }

  /** A name made only of whitespace is rejected, since it trims to the empty string. */
  lemma BlankNameRejected(raw: string)
    requires forall i :: 0 <= i < |raw| ==> IsJsWhitespace(raw[i])
    ensures !IsSignupName(raw)
  {
    TrimEmptyIffBlank(raw);
  }

  /** Surrounding whitespace is not counted: a name is accepted iff its trimmed form is. */
  lemma SignupNameIgnoresPadding(raw: string)
    ensures IsSignupName(raw) <==> IsSignupName(Trim(raw))
  {
    TrimIdempotent(raw);
  }

  /** Any character outside `[A-Za-z0-9@$!%*?&]`, such as a space or `#`, makes a
      reset password invalid whatever else it contains. */
  lemma ForeignCharacterRejected(p: string, k: nat)
    requires k < |p| && !IsPasswordChar(p[k])
    ensures !IsComplexPassword(p)
  {
  }
}
