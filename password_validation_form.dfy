/**
 * The new-password form `ResetPasswordForm`
 * (src/components/PasswordValidationForm.js): its validation predicates,
 * the touched and visibility flags, and the submit handler.
 */
module PasswordValidationForm {

  class ResetPasswordForm {
    /** The `minLength` prop (6 by default). */
    const minLength: int
    /** Whether the parent passed `onSubmit`. */
    const hasOnSubmit: bool
    /** The `submitting` prop, set by the parent. */
    var submitting: bool
    var password: string
    var confirm: string
    var showPw: bool
    var showConfirm: bool
    var touchedPw: bool
    var touchedConfirm: bool
    /** The passwords handed to `onSubmit`, oldest first. */
    var submitted: seq<string>

    constructor (minimum: int, onSubmit: bool, busy: bool)
      ensures minLength == minimum && hasOnSubmit == onSubmit && submitting == busy
      ensures password == "" && confirm == ""
      ensures !showPw && !showConfirm && !touchedPw && !touchedConfirm
      ensures submitted == []
    {
      minLength, hasOnSubmit, submitting := minimum, onSubmit, busy;
      password, confirm := "", "";
      showPw, showConfirm, touchedPw, touchedConfirm := false, false, false, false;
      submitted := [];
    }

    /** `pwLongEnough`: with a positive minimum, an empty password is never long enough. */
    predicate PwLongEnough()
      reads this
      ensures minLength > 0 && PwLongEnough() ==> password != ""
      ensures minLength <= 0 ==> PwLongEnough()
    {
      |password| >= minLength
    }

    /** `pwMatches`: a non-empty confirmation equal to the password. */
    predicate PwMatches()
      reads this
      ensures PwMatches() ==> password != ""
    {
      confirm == password && |confirm| > 0
    }

    /** `pwError`: shown only once the password field was touched. */
    predicate PwError()
      reads this
      ensures PwError() ==> touchedPw
      ensures touchedPw && password == "" && minLength > 0 ==> PwError()
    {
      touchedPw && !PwLongEnough()
    }

    /** `confirmError`: shown only once the confirmation field was touched. */
    predicate ConfirmError()
      reads this
      ensures ConfirmError() ==> touchedConfirm
      ensures touchedConfirm && confirm == "" ==> ConfirmError()
    {
      touchedConfirm && !PwMatches()
    }

    /**
     * `canSubmit`: long enough, confirmed, and not already submitting; a
     * submittable password is never empty, even when `minLength` is 0 or less.
     */
    predicate CanSubmit()
      reads this
      ensures CanSubmit() ==> password != "" && confirm == password && |password| >= minLength
      ensures CanSubmit() ==> !submitting
    {
      PwLongEnough() && PwMatches() && !submitting
    }

    /** The password field's `onChange`. */
    method SetPassword(value: string)
      modifies this`password
      ensures password == value
    {
      password := value;
    }

    /** The confirmation field's `onChange`. */
    method SetConfirm(value: string)
      modifies this`confirm
      ensures confirm == value
    {
      confirm := value;
    }

    /** The password field's `onBlur`. */
    method BlurPassword()
      modifies this`touchedPw
      ensures touchedPw
    {
      touchedPw := true;
    }

    /** The confirmation field's `onBlur`. */
    method BlurConfirm()
      modifies this`touchedConfirm
      ensures touchedConfirm
    {
      touchedConfirm := true;
    }

    /** The parent changes the `submitting` prop. */
    method SetSubmitting(busy: bool)
      modifies this`submitting
      ensures submitting == busy
    {
      submitting := busy;
    }

    /** The eye button of the password field: flips `showPw` and nothing else. */
    method TogglePw()
      modifies this`showPw
      ensures showPw == !old(showPw)
    {
      showPw := !showPw;
    }

    /** The eye button of the confirmation field: flips `showConfirm` and nothing else. */
    method ToggleConfirm()
      modifies this`showConfirm
      ensures showConfirm == !old(showConfirm)
    {
      showConfirm := !showConfirm;
    }

    /**
     * `handleSubmit`: marks both fields touched; when the form can be
     * submitted, hands the password to `onSubmit` and, unless that throws,
     * hides both fields. A throwing `onSubmit` is reported in `raised` and
     * leaves the visibility flags as they were. The password fields
     * themselves never change.
     */
    method Submit(callbackThrows: bool) returns (accepted: bool, raised: bool)
      modifies this`touchedPw, this`touchedConfirm, this`showPw, this`showConfirm, this`submitted
      ensures touchedPw && touchedConfirm
      ensures accepted == old(CanSubmit())
      ensures raised == (accepted && hasOnSubmit && callbackThrows)
      ensures submitted == old(submitted) + (if accepted && hasOnSubmit then [password] else [])
      ensures showPw == (old(showPw) && !(accepted && !raised))
      ensures showConfirm == (old(showConfirm) && !(accepted && !raised))
    {
      accepted := CanSubmit();
      raised := false;
      touchedPw := true;
      touchedConfirm := true;
      if !accepted {
        return;
      }
      if hasOnSubmit {
        submitted := submitted + [password];
        if callbackThrows {
          raised := true;
          return;
        }
      }
      showPw := false;
      showConfirm := false;
    }
  }

  /** Pressing an eye button twice shows the field as before. */
  method ToggleTwice(form: ResetPasswordForm)
    modifies form`showPw, form`showConfirm
    ensures form.showPw == old(form.showPw) && form.showConfirm == old(form.showConfirm)
  {
    form.TogglePw();
    form.TogglePw();
    form.ToggleConfirm();
    form.ToggleConfirm();
  }
}
