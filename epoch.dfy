/** The epoch adjustment: the network properties give it as a duration string such as
    "1615853185s"; the page drops the last (unit) character and reads the rest as a number
    of seconds. */
module Epoch {
  import opened Types

  predicate IsDigit(c: char) {
    '0' <= c <= '9'
  }

  predicate AllDigits(s: string) {
    forall i :: 0 <= i < |s| ==> IsDigit(s[i])
  }

  function DigitValue(c: char): (d: nat)
    requires IsDigit(c)
    ensures d < 10
  {
    c as int - '0' as int
  }

  function DigitChar(d: nat): (c: char)
    requires d < 10
    ensures IsDigit(c) && DigitValue(c) == d
  {
    ('0' as int + d) as char
  }

  /** The value of a decimal digit string, most significant digit first; the empty string
      reads as 0, as `Number("")` does. */
  function DigitsValue(s: string): nat
    requires AllDigits(s)
  {
    if s == [] then 0 else 10 * DigitsValue(s[..|s| - 1]) + DigitValue(s[|s| - 1])
  }

  /** The shortest decimal spelling of `n`: no leading zero except for 0 itself. */
  function Decimal(n: nat): (s: string)
    ensures |s| > 0 && AllDigits(s)
    ensures (|s| > 1 ==> s[0] != '0')
  {
    if n < 10 then [DigitChar(n)] else Decimal(n / 10) + [DigitChar(n % 10)]
  }

  /** Reading back a decimal spelling gives the number spelled. */
  lemma {:induction false} DecimalValue(n: nat)
    ensures DigitsValue(Decimal(n)) == n
  {
    if n >= 10 {
      DecimalValue(n / 10);
      var s := Decimal(n);
      assert s[..|s| - 1] == Decimal(n / 10);
    }
  }

  /** The epoch adjustment in seconds, or why the pass aborts: a missing or empty field
      throws; otherwise the field without its last character must be a digit string. */
  function ParseEpochAdjustment(field: Option<string>): (r: Result<nat, Failure>)
    ensures (field == None || field == Some("")) ==> r == Err(MissingEpochAdjustment)
    ensures r.Ok? <==> field.Some? && field.value != "" && AllDigits(field.value[..|field.value| - 1])
    ensures r.Err? && field.Some? && field.value != "" ==> r.error == EpochNotNumeric
  {
    match field
    case None => Err(MissingEpochAdjustment)
    case Some(s) =>
      if s == "" then Err(MissingEpochAdjustment)
      else
        var digits := s[..|s| - 1];
        if AllDigits(digits) then Ok(DigitsValue(digits)) else Err(EpochNotNumeric)
  }

  /** For digits followed by one unit character, the adjustment is the number the digits
      spell, whatever the unit character is. */
  lemma EpochRoundTrip(n: nat, unit: char)
    ensures ParseEpochAdjustment(Some(Decimal(n) + [unit])) == Ok(n)
  {
    var s := Decimal(n) + [unit];
    assert s[..|s| - 1] == Decimal(n);
    DecimalValue(n);
  }
}
