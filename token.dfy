/**
 * The salt check of the `token` command: a salt is refused when it is
 * shorter than six characters or is not made of digits.
 */
module Token {
  import opened Songs

  /** `str.isdigit()` over ASCII: false for the empty string, else every character a digit. */
  function IsDigitString(s: string): (r: bool)
    ensures r <==> s != [] && AllDigits(s)
  {
    if s == [] then false
    else IsDigit(s[0]) && (|s| == 1 || IsDigitString(s[1..]))
  }

  /** The salt passes `not (len(salt) < 6 or not salt.isdigit())`. */
  function SaltAccepted(salt: string): (ok: bool)
    ensures ok <==> |salt| >= 6 && forall k :: 0 <= k < |salt| ==> '0' <= salt[k] <= '9'
  {
    !(|salt| < 6 || !IsDigitString(salt))
  }
}
