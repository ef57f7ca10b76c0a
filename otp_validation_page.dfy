/**
 * The one-time-code page (src/app/otp-validation/page.js): how the email
 * address from the query string is masked for display, and which title
 * the widget gets.
 */
module OtpValidationPage {
  import opened Wrappers
  import opened JsText

  /** No line break among the characters at positions [a, b). */
  predicate OnOneLine(s: string, a: int, b: int)
    requires 0 <= a && b <= |s|
  {
    forall p :: a <= p < b ==> !IsLineTerminator(s[p])
  }

  predicate NoLineTerminator(s: string) {
    OnOneLine(s, 0, |s|)
  }

  /** `(?=.*@)` at position `i`: an `@` at or after `i` with no line break before it. */
  predicate AtAhead(s: string, i: nat) {
    exists j :: i <= j < |s| && s[j] == '@' && OnOneLine(s, i, j)
  }

  /**
   * The pattern `(?<=.{3}).(?=.*@)` matches the one character at `i`: three
   * characters precede it, neither it nor they are line breaks, and an `@`
   * follows later on the same line.
   */
  predicate MaskedAt(s: string, i: nat)
    ensures MaskedAt(s, i) ==> 3 <= i < |s| - 1 && !IsLineTerminator(s[i])
  {
    && 3 <= i < |s|
    && OnOneLine(s, i - 3, i + 1)
    && AtAhead(s, i + 1)
  }

  /**
   * `maskEmail(email)`: `email.replace(/(?<=.{3}).(?=.*@)/g, "*")`. Every
   * match is one character long, so each position is tested on its own
   * against the original string.
   */
  function MaskEmail(email: string): (masked: string)
    ensures |masked| == |email|
    ensures forall i :: 0 <= i < |email| ==> masked[i] == email[i] || masked[i] == '*'
    ensures forall i :: 0 <= i < 3 && i < |email| ==> masked[i] == email[i]
  {
    seq(|email|, i requires 0 <= i < |email| => if MaskedAt(email, i) then '*' else email[i])
  }

  /** An address without `@` is shown unchanged. */
  lemma MaskWithoutAt(email: string)
    requires forall i :: 0 <= i < |email| ==> email[i] != '@'
    ensures MaskEmail(email) == email
  {
    forall i | 0 <= i < |email|
      ensures !MaskedAt(email, i)
    {
    }
  }

  /**
   * On one line, a character from the fourth on is masked exactly when an
   * `@` comes after it.
   */
  lemma MaskCharacterisation(email: string, i: nat)
    requires NoLineTerminator(email)
    requires 3 <= i < |email|
    ensures MaskEmail(email)[i] ==
            if exists j :: i < j < |email| && email[j] == '@' then '*' else email[i]
  {
    if exists j :: i < j < |email| && email[j] == '@' {
      var j :| i < j < |email| && email[j] == '@';
      assert OnOneLine(email, i + 1, j);
      assert MaskedAt(email, i);
    }
  }

  /** The last `@` and everything after it stay visible. */
  lemma MaskKeepsDomain(email: string, k: nat, i: nat)
    requires k <= i < |email| && email[k] == '@'
    requires forall j :: k < j < |email| ==> email[j] != '@'
    ensures MaskEmail(email)[i] == email[i]
  {
  }

  /** With several `@` on one line, an earlier one from the fourth character on is masked. */
  lemma MaskHidesEarlierAt(email: string, k: nat, j: nat)
    requires NoLineTerminator(email)
    requires 3 <= k < j < |email| && email[k] == '@' && email[j] == '@'
    ensures MaskEmail(email)[k] == '*'
  {
    MaskCharacterisation(email, k);
  }

  /**
   * A match in `t` is a match in `s` when every line break of `s` is also
   * one of `t`, and every `@` of `t` is also one of `s`.
   */
  lemma MaskedAtTransfers(s: string, t: string, i: nat)
    requires |s| == |t|
    requires forall p :: 0 <= p < |s| && IsLineTerminator(s[p]) ==> IsLineTerminator(t[p])
    requires forall p :: 0 <= p < |s| && t[p] == '@' ==> s[p] == '@'
    requires MaskedAt(t, i)
    ensures MaskedAt(s, i)
  {
    var j :| i + 1 <= j < |t| && t[j] == '@' && OnOneLine(t, i + 1, j);
    assert s[j] == '@' && OnOneLine(s, i + 1, j);
  }

  /** Masking a masked address changes nothing more. */
  lemma MaskIdempotent(email: string)
    ensures MaskEmail(MaskEmail(email)) == MaskEmail(email)
  {
    var m := MaskEmail(email);
    forall p | 0 <= p < |m| && IsLineTerminator(email[p])
      ensures IsLineTerminator(m[p])
    {
      assert !MaskedAt(email, p);
    }
    forall i | 0 <= i < |m|
      ensures MaskEmail(m)[i] == m[i]
    {
      if MaskedAt(m, i) {
        MaskedAtTransfers(email, m, i);
      }
    }
  }

  /** `title`: "Forgot Password" exactly when `password_reset` is the text "true". */
  function Title(passwordReset: Option<string>): (title: string)
    ensures title == "Forgot Password" <==> passwordReset == Some("true")
    ensures title == "Forgot Password" || title == "Enter OTP Code"
  {
    if passwordReset == Some("true") then "Forgot Password" else "Enter OTP Code"
  }

  /** The address shown by the widget: `maskEmail(email) || "email address"`. */
  function EmailLabel(email: string): (shown: string)
    ensures shown != ""
    ensures email != "" ==> shown == MaskEmail(email)
    ensures email == "" ==> shown == "email address"
  {
    var masked := MaskEmail(email);
    if masked != "" then masked else "email address"
  }
}
