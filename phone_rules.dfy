/**
 * The two phone rules of the application. `placeOrder` (src/lib/actions.ts)
 * accepts any ten decimal digits, `/^\d{10}$/`; the login form
 * (src/lib/auth-actions.ts) and the checkout form
 * (src/components/checkout-form.tsx) both demand an Indian mobile number,
 * `/^[6-9]\d{9}$/`. JavaScript's `\d` without the `u` flag is `[0-9]`, and `$`
 * without the `m` flag matches only at the end of the input.
 */
module PhoneRules {
  predicate IsDigit(c: char) {
    '0' <= c <= '9'
  }

  predicate AllDigits(s: string) {
    forall i :: 0 <= i < |s| ==> IsDigit(s[i])
  }

  /** `/^\d{10}$/` */
  predicate IsTenDigitPhone(s: string) {
    |s| == 10 && AllDigits(s)
  }

  /** `/^[6-9]\d{9}$/` */
  predicate IsIndianMobile(s: string) {
    |s| == 10 && '6' <= s[0] <= '9' && AllDigits(s[1..])
  }

  /** The mobile rule is the ten-digit rule with the first digit restricted to 6-9. */
  lemma MobileIsTenDigitsStartingSixToNine(s: string)
    ensures IsIndianMobile(s) <==> IsTenDigitPhone(s) && '6' <= s[0] <= '9'
  {
    if IsIndianMobile(s) {
      forall i | 0 <= i < |s|
        ensures IsDigit(s[i])
      {
        if i > 0 {
          assert s[i] == s[1..][i - 1];
        }
      }
    }
    if IsTenDigitPhone(s) {
      forall i | 0 <= i < |s[1..]|
        ensures IsDigit(s[1..][i])
      {
        assert s[1..][i] == s[i + 1];
      }
    }
  }

  /** So every number the mobile rule accepts is accepted by `placeOrder`. */
  lemma MobileImpliesTenDigits(s: string)
    requires IsIndianMobile(s)
    ensures IsTenDigitPhone(s)
  {
    MobileIsTenDigitsStartingSixToNine(s);
  }

  /** But not conversely: a ten-digit number starting with 0 passes only the first rule. */
  lemma TenDigitsNotMobile()
    ensures IsTenDigitPhone("0123456789") && !IsIndianMobile("0123456789")
  {
  }

  /** The empty string, the form's default value, fails both rules. */
  lemma EmptyFailsBoth()
    ensures !IsTenDigitPhone("") && !IsIndianMobile("")
  {
  }
}
