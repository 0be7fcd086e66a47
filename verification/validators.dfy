/** The two validators of the shared page script public/script.js. */
module SharedValidators {
  import opened JsSemantics
  import opened Patterns

  /** `/^[0-9]{10}$/.test(phone)`. The dashboard writes the same expression
      inline for each of its three phone fields. */
  function ValidatePhone(phone: string): (r: bool)
    ensures r <==> |phone| == 10 && forall i | 0 <= i < |phone| :: IsAsciiDigit(phone[i])
  {
    MatchesRun(phone, Digit, 10, 10)
  }

  /** Nine or eleven characters, or a single character that is not a digit, and
      the phone is refused. */
  lemma PhoneRejects(phone: string, i: nat)
    requires |phone| != 10 || (i < |phone| && !IsAsciiDigit(phone[i]))
    ensures !ValidatePhone(phone)
  {
  }

  /** `age >= 18 && age <= 65`, for an age that is already a number. */
  function ValidateAge(age: JsNumber): (r: bool)
    ensures r <==> age.Num? && 18.0 <= age.value <= 65.0
  {
    AtLeast(age, 18.0) && AtMost(age, 65.0)
  }

  /** Both bounds are inclusive; the numbers just outside them, and NaN, fail. */
  lemma AgeBoundaries()
    ensures ValidateAge(Num(18.0)) && ValidateAge(Num(65.0))
    ensures !ValidateAge(Num(17.0)) && !ValidateAge(Num(66.0)) && !ValidateAge(NaN)
  {
  }
}
