/**
 * The "Password Reset" email page (src/app/passwordreset/page.js): the
 * email format test, when its error is shown, and the submit handler that
 * navigates to the one-time-code page.
 */
module PasswordResetPage {
  import opened JsText

  /** Leading white space removed. */
  function TrimStart(s: string): (r: string)
    ensures |r| <= |s| && r == s[|s| - |r|..]
    ensures r != [] ==> !IsSpace(r[0])
    ensures forall i :: 0 <= i < |s| - |r| ==> IsSpace(s[i])
  {
    if s != [] && IsSpace(s[0]) then TrimStart(s[1..]) else s
  }

  /** Trailing white space removed. */
  function TrimEnd(s: string): (r: string)
    ensures |r| <= |s| && r == s[..|r|]
    ensures r != [] ==> !IsSpace(r[|r| - 1])
    ensures forall i :: |r| <= i < |s| ==> IsSpace(s[i])
  {
    if s != [] && IsSpace(s[|s| - 1]) then TrimEnd(s[..|s| - 1]) else s
  }

  /** `value.trim()` */
  function Trim(s: string): (r: string)
    ensures r == [] <==> forall i :: 0 <= i < |s| ==> IsSpace(s[i])
  {
    TrimEnd(TrimStart(s))
  }

  /** `[^\s@]` */
  predicate IsWordChar(c: char) {
    !IsSpace(c) && c != '@'
  }

  predicate AllWord(t: string, a: int, b: int)
    requires 0 <= a && b <= |t|
  {
    forall p :: a <= p < b ==> IsWordChar(t[p])
  }

  /**
   * `/[^\s@]+@[^\s@]+\.[^\s@]{2,}/` matches `t[a..e]`, with its `@` at `j`
   * and its `.` at `k`.
   */
  predicate MatchAt(t: string, a: int, j: int, k: int, e: int) {
    && 0 <= a < j && j + 1 < k && k + 2 < e <= |t|
    && AllWord(t, a, j)
    && t[j] == '@'
    && AllWord(t, j + 1, k)
    && t[k] == '.'
    && AllWord(t, k + 1, e)
  }

  /** `RegExp.prototype.test`: the pattern matches somewhere, unanchored. */
  predicate EmailPatternFound(t: string) {
    exists e, k, j, a | 0 <= e <= |t| && 0 <= k < e && 0 <= j < k && 0 <= a < j :: MatchAt(t, a, j, k, e)
  }

  /**
   * `isValidEmail(value)`: the pattern occurs in the trimmed value, which
   * then holds an `@` and a `.` and is at least six characters long.
   */
  predicate IsValidEmail(value: string)
    ensures IsValidEmail(value) ==> '@' in Trim(value) && '.' in Trim(value)
    ensures IsValidEmail(value) ==> |Trim(value)| >= 6
  {
    EmailPatternFound(Trim(value))
  }

  /**
   * The shortest match: one word character before the `@`, a run of word
   * characters up to a `.`, and two word characters after it.
   */
  predicate ShortMatchAt(t: string, j: int, k: int) {
    && 1 <= j && j + 1 < k && k + 3 <= |t|
    && IsWordChar(t[j - 1]) && t[j] == '@' && AllWord(t, j + 1, k)
    && t[k] == '.' && IsWordChar(t[k + 1]) && IsWordChar(t[k + 2])
  }

  /** The pattern is found exactly when a shortest match exists. */
  lemma EmailPatternShortest(t: string)
    ensures EmailPatternFound(t) <==> exists j, k | 0 <= j < k < |t| :: ShortMatchAt(t, j, k)
  {
    if EmailPatternFound(t) {
      var e, k, j, a :| 0 <= e <= |t| && 0 <= k < e && 0 <= j < k && 0 <= a < j && MatchAt(t, a, j, k, e);
      assert ShortMatchAt(t, j, k);
    }
    if exists j, k | 0 <= j < k < |t| :: ShortMatchAt(t, j, k) {
      var j, k :| 0 <= j < k < |t| && ShortMatchAt(t, j, k);
      assert MatchAt(t, j - 1, j, k, k + 3);
    }
  }

  /** A run of word characters stays one when the text is embedded at offset `d`. */
  lemma AllWordShift(t: string, u: string, d: nat, a: int, b: int)
    requires 0 <= a && b <= |t| && d + |t| <= |u|
    requires forall p :: 0 <= p < |t| ==> u[d + p] == t[p]
    requires AllWord(t, a, b)
    ensures AllWord(u, a + d, b + d)
  {
    forall q | a + d <= q < b + d
      ensures IsWordChar(u[q])
    {
      assert u[d + (q - d)] == t[q - d];
    }
  }

  /** The test is unanchored: text around a matching address does not matter. */
  lemma EmailPatternUnanchored(before: string, t: string, after: string)
    requires EmailPatternFound(t)
    ensures EmailPatternFound(before + t + after)
  {
    var e, k, j, a :| 0 <= e <= |t| && 0 <= k < e && 0 <= j < k && 0 <= a < j && MatchAt(t, a, j, k, e);
    var u, d := before + t + after, |before|;
    assert forall p :: 0 <= p < |t| ==> u[d + p] == t[p];
    AllWordShift(t, u, d, a, j);
    AllWordShift(t, u, d, j + 1, k);
    AllWordShift(t, u, d, k + 1, e);
    assert u[j + d] == '@' && u[k + d] == '.';
    assert MatchAt(u, a + d, j + d, k + d, e + d);
  }

  const RoutePrefix: string := "/otp-validation?email="
  const RouteSuffix: string := "&&password_reset=true"

  /** The navigation target: the raw email between a fixed prefix and suffix. */
  function OtpRoute(email: string): (url: string)
    ensures |url| == |RoutePrefix| + |email| + |RouteSuffix|
    ensures url[..|RoutePrefix|] == RoutePrefix
    ensures url[|url| - |RouteSuffix|..] == RouteSuffix
  {
    RoutePrefix + email + RouteSuffix
  }

  /** Reads the email back out of a navigation target. */
  function RouteEmail(url: string): (email: string)
    requires |url| >= |RoutePrefix| + |RouteSuffix|
  {
    url[|RoutePrefix|..|url| - |RouteSuffix|]
  }

  /**
   * The target holds the raw email, neither trimmed nor escaped, between
   * the fixed prefix and suffix.
   */
  lemma RouteCarriesEmail(email: string)
    ensures RouteEmail(OtpRoute(email)) == email
  {
    var url := OtpRoute(email);
    assert url == RoutePrefix + email + RouteSuffix;
  }

  /** The page's state. */
  class EmailValidation {
    var email: string
    var touched: bool
    var isSubmitting: bool
    /** The targets passed to `router.push`, oldest first. */
    var navigations: seq<string>

    constructor ()
      ensures email == "" && !touched && !isSubmitting && navigations == []
    {
      email, touched, isSubmitting, navigations := "", false, false, [];
    }

    /** `hasValue`: something other than white space was typed. */
    predicate HasValue()
      reads this
      ensures HasValue() <==> exists i :: 0 <= i < |email| && !IsSpace(email[i])
    {
      Trim(email) != []
    }

    /** `showError`: only for a touched, non-blank, invalid value. */
    predicate ShowError()
      reads this
      ensures ShowError() ==> touched && !IsValidEmail(email)
      ensures (forall i :: 0 <= i < |email| ==> IsSpace(email[i])) ==> !ShowError()
    {
      touched && HasValue() && !IsValidEmail(email)
    }

    /** The Send button's `disabled`; Send is only enabled for a trimmed value of six or more characters. */
    predicate SendDisabled()
      reads this
      ensures !SendDisabled() ==> |Trim(email)| >= 6 && !isSubmitting
    {
      !IsValidEmail(email) || isSubmitting
    }

    /** `handleChange` */
    method Change(value: string)
      modifies this`email
      ensures email == value
    {
      email := value;
    }

    /** `handleBlur` */
    method Blur()
      modifies this`touched
      ensures touched
    {
      touched := true;
    }

    /**
     * `handleSubmit`: always marks the field touched; when Send is enabled it
     * calls `router.push`, which records a navigation unless it throws; the
     * `finally` block puts the busy flag back either way.
     */
    method Submit(pushThrows: bool) returns (raised: bool)
      modifies this`touched, this`isSubmitting, this`navigations
      ensures touched
      ensures isSubmitting == old(isSubmitting)
      ensures raised == (!old(SendDisabled()) && pushThrows)
      ensures navigations == old(navigations) + (if old(SendDisabled()) || raised then [] else [OtpRoute(email)])
    {
      touched := true;
      raised := false;
      if !IsValidEmail(email) || isSubmitting {
        return;
      }
      isSubmitting := true;
      if pushThrows {
        raised := true;
      } else {
        navigations := navigations + [OtpRoute(email)];
      }
      // the `finally` block
      isSubmitting := false;
    }
  }
}
