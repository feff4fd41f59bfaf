/**
 * The user entity and its validation rules: `validateDateOfBirth` and
 * `User.fullValidate` of user/users.js.
 */
module Users {
  import opened JsValues
  import Dates

  const UserIdNotString := "\"userId\" must be a string"
  const NameNotString := "\"name\" must be a string"
  const EmailNotString := "\"email\" must be a string"
  const DateOfBirthNotString := "\"dateOfBirth\" must be a string"
  const UserIdRequired := "\"userId\" is required"
  const DateOfBirthInvalid := "\"dateOfBirth\" must be a valid date formatted as yyyy/MM/dd"
  const DateOfBirthUnparsable := "Invalid dateOfBirth"

  /** A user as built from a request: each field is whatever JavaScript value was supplied. */
  datatype User = User(userId: JsValue, name: JsValue, email: JsValue, dateOfBirth: JsValue)

  /**
   * `validateDateOfBirth`: the empty string for a `yyyy/MM/dd` calendar date. The
   * parser throws when the value is not a string at all, which yields
   * "Invalid dateOfBirth"; a string that is not such a date is reported as not
   * formatted as yyyy/MM/dd.
   */
  function ValidateDateOfBirth(v: JsValue): (msg: string)
    ensures msg == "" <==> v.Str? && Dates.IsCalendarDate(v.s)
    ensures msg == DateOfBirthUnparsable <==> !v.Str?
    ensures msg == DateOfBirthInvalid <==> v.Str? && !Dates.IsCalendarDate(v.s)
  {
    if !v.Str? then DateOfBirthUnparsable
    else if Dates.IsCalendarDate(v.s) then ""
    else DateOfBirthInvalid
  }

  /** Every field is a string (`typeof … === "string"`). */
  predicate WellTyped(u: User) {
    u.userId.Str? && u.name.Str? && u.email.Str? && u.dateOfBirth.Str?
  }

  /**
   * `User.fullValidate`: the first failing check, in the order userId type, name
   * type, email type, dateOfBirth type, blank userId, date format; the empty
   * string when all pass.
   */
  function FullValidate(u: User): (msg: string)
    ensures msg == "" <==>
      WellTyped(u) && !AllWhitespace(u.userId.s) && Dates.IsCalendarDate(u.dateOfBirth.s)
    ensures msg == UserIdNotString <==> !u.userId.Str?
    ensures msg == NameNotString <==> u.userId.Str? && !u.name.Str?
    ensures msg == EmailNotString <==> u.userId.Str? && u.name.Str? && !u.email.Str?
    ensures msg == DateOfBirthNotString <==>
      u.userId.Str? && u.name.Str? && u.email.Str? && !u.dateOfBirth.Str?
    ensures msg == UserIdRequired <==> WellTyped(u) && AllWhitespace(u.userId.s)
    ensures msg == DateOfBirthInvalid <==>
      WellTyped(u) && !AllWhitespace(u.userId.s) && !Dates.IsCalendarDate(u.dateOfBirth.s)
    ensures msg != DateOfBirthUnparsable
  {
    if !u.userId.Str? then UserIdNotString
    else if !u.name.Str? then NameNotString
    else if !u.email.Str? then EmailNotString
    else if !u.dateOfBirth.Str? then DateOfBirthNotString
    else if (TrimEmptyIff(u.userId.s); Trim(u.userId.s) == "") then UserIdRequired
    else ValidateDateOfBirth(u.dateOfBirth)
  }

  /** The users of the unit tests: a valid one, a blank id and a dashed date. */
  lemma FullValidateExamples()
    ensures FullValidate(User(Str("test"), Str("Test User"), Str("test@test.com"), Str("1990/01/01"))) == ""
    ensures FullValidate(User(Str(""), Str("Test User"), Str("test@test.com"), Str("1990/01/01"))) == UserIdRequired
    ensures FullValidate(User(Str("test"), Str("Test User"), Str("test@test.com"), Str("1990-01-01"))) == DateOfBirthInvalid
  {
    assert !AllWhitespace("test") by { assert !IsWhitespace("test"[0]); }
    assert Dates.IsCalendarDate("1990/01/01");
    assert !Dates.HasDateShape("1990-01-01") by { assert "1990-01-01"[4] == '-'; }
  }
}
