/** The administrative user-insert request: every field optional (`@IsOptional`),
    names trimmed with optional chaining, the password-complexity rule switched off. */
module UserDto {
  import opened Common
  import opened Text
  import opened AuthDto

  datatype InsertUserDto = InsertUserDto(
    firstName: Option<string>, lastName: Option<string>, address: Option<string>,
    city: Option<string>, postalCode: Option<string>, country: Option<string>,
    phone: Option<string>, email: Option<string>, password: Option<string>,
    isActive: Option<bool>, gdprConsent: Option<bool>, profileImagePath: Option<string>)

  /** `@Transform(({ value }) => value?.trim())`: an absent value stays absent. */
  function TrimOptional(v: Option<string>): (r: Option<string>)
    ensures r.None? <==> v.None?
    ensures v.Some? ==> r.value == Trim(v.value)
  {
    match v
    case None => None
    case Some(s) => Some(Trim(s))
  }

  /** `@IsOptional` followed by a rule: an absent value passes, a present one must satisfy it. */
  predicate AbsentOr(v: Option<string>, rule: string -> bool)
  {
    v.None? || rule(v.value)
  }

  predicate AtMost(s: string, n: nat) { |s| <= n }

  predicate InsertUserValid(d: InsertUserDto)
  {
    && AbsentOr(TrimOptional(d.firstName), s => AtMost(s, 65))
    && AbsentOr(TrimOptional(d.lastName), s => AtMost(s, 65))
    && AbsentOr(d.address, s => AtMost(s, 180))
    && AbsentOr(d.city, s => AtMost(s, 65))
    && AbsentOr(d.postalCode, s => AtMost(s, 20) && IsPostalCode(s))
    && AbsentOr(d.country, s => AtMost(s, 65))
    && AbsentOr(d.phone, s => AtMost(s, 30) && IsFrenchPhone(s))
    && AbsentOr(d.email, s => AtMost(s, 255))
    && AbsentOr(d.password, s => 8 <= |s| <= 255)
    && AbsentOr(d.profileImagePath, s => AtMost(s, 255))
  }

  const Empty := InsertUserDto(None, None, None, None, None, None, None, None, None, None, None, None)

  /** The empty request is valid. */
  lemma EmptyIsValid()
    ensures InsertUserValid(Empty)
  {
  }

  /** The names are judged after trimming, so trimming them beforehand changes nothing:
      padding never makes a request invalid, nor valid. */
  lemma PaddingIgnored(d: InsertUserDto)
    ensures InsertUserValid(d) <==>
      InsertUserValid(d.(firstName := TrimOptional(d.firstName), lastName := TrimOptional(d.lastName)))
  {
    if d.firstName.Some? {
      TrimIdempotent(d.firstName.value);
    }
    if d.lastName.Some? {
      TrimIdempotent(d.lastName.value);
    }
  }

  /** The insert request is looser than sign-up: the fields of a valid sign-up, all given,
      always make a valid insert request. */
  lemma SignupPassesInsert(s: SignupDto)
    requires SignupValid(s)
    ensures InsertUserValid(InsertUserDto(
      Some(s.firstName), Some(s.lastName), Some(s.address), Some(s.city), Some(s.postalCode),
      Some(s.country), Some(s.phone), Some(s.email), Some(s.password), None, None, None))
  {
  }

  /** Unlike sign-up, the insert request accepts an empty or blank name. */
  lemma BlankNameAccepted(d: InsertUserDto)
    requires d == Empty.(firstName := Some("   "))
    ensures InsertUserValid(d)
  {
    TrimEmptyIffBlank("   ");
  }

  /** Without the commented-out complexity rule, any 8 to 255 character password is
      accepted, including one that the reset confirmation would refuse. */
  lemma SimplePasswordAccepted(d: InsertUserDto)
    requires d == Empty.(password := Some("aaaaaaaa"))
    ensures InsertUserValid(d) && !IsComplexPassword(d.password.value)
  {
  }

  /** The fields shared with sign-up obey the same patterns when present. */
  lemma PresentFieldsFollowSignupPatterns(d: InsertUserDto)
    requires InsertUserValid(d)
    ensures d.postalCode.Some? ==> IsPostalCode(d.postalCode.value)
    ensures d.phone.Some? ==> |d.phone.value| == 10 || |d.phone.value| == 12
  {
    if d.phone.Some? {
      PhoneLength(d.phone.value);
    }
  }
}
