# One-time-code entry widget and its password-reset pages, in Dafny

This project models the authentication front end of a small Next.js
application. It covers four pieces.

- `OtpForm` (src/components/otpform.js) is a segmented entry widget for a
  one-time code. It holds N digit slots, a resend countdown, a busy flag and
  a focus position. Its handlers do single-key entry, paste, Backspace and
  arrow navigation, a guarded submit and a cooldown-gated resend. It shows
  the countdown as `mm:ss`.
- `ResetPasswordForm` (src/components/PasswordValidationForm.js) is the
  new-password form: length and confirmation checks, touched flags,
  visibility toggles and submit.
- The "Password Reset" email page (src/app/passwordreset/page.js) holds the
  email format test, the error display and the submit that navigates to the
  code page.
- The code page (src/app/otp-validation/page.js) masks the email address for
  display and chooses the widget's title.

Modules:

- `OtpDigits` (otp_digits.dfy): what one slot may hold, the slot count,
  digit extraction for paste, joining the slots, and the padding loop.
- `OtpCountdown` (otp_countdown.dfy): the one-second tick, resend
  eligibility, the `mm:ss` display and a parser that reads it back.
- `OtpForm` (otp_form.dfy): class `Widget`, with one method per handler.
  React effects become explicit methods: `Tick` stands for the interval,
  `SetDuration` and `Resize` for the prop-change effects.
- `OtpScenarios` (otp_scenarios.dfy): runs of the widget derived from the
  handlers' contracts: typing, pasting, resending, a submit while busy.
- `OtpValidationPage` (otp_validation_page.dfy): `MaskEmail`, `Title`,
  `EmailLabel`.
- `PasswordResetPage` (password_reset_page.dfy): `Trim`, the email regular
  expression as an existential over positions, the target URL, and class
  `EmailValidation`.
- `PasswordValidationForm` (password_validation_form.dfy): class
  `ResetPasswordForm`.
- `Wrappers` (wrappers.dfy): `Option`.
- `JsText` (js_text.dfy): the ECMAScript WhiteSpace and LineTerminator
  character classes, shared by both pages.

Modelling choices:

- Focus is `Option<nat>`: the slot the widget last moved focus to, or None.
- The callbacks `onSubmit`, `onResend` and `router.push` are logs on the
  object: the codes submitted, the number of resends, the URLs navigated to.
  Whether the parent passed a callback at all is a constructor flag.
- A throwing callback is a boolean parameter: `Widget.Submit`, `Widget.Resend`,
  `ResetPasswordForm.Submit` and `EmailValidation.Submit` take one. State
  set before the throw is kept, and the rest of the handler is skipped.
- JavaScript's `trim()` and `\s` use the fixed ECMAScript WhiteSpace and
  LineTerminator characters (`IsSpace`, built from `IsWhiteSpace` and
  `IsLineTerminator` in module `JsText`, js_text.dfy). The regex `.`
  excludes the four line terminators.
- `MaskEmail` is modelled for every string, line breaks included. Where a
  property needs one line, the lemma says so.

## Model

| member | source | states |
|---|---|---|
| OtpDigits.IsSlotValue | src/components/otpform.js:61 | `/^\d?$/`: a slot value is a string of at most one character, all digits |
| OtpDigits.IsComplete | src/components/otpform.js:35 | in a complete buffer of valid slots every slot holds exactly one digit |
| OtpDigits.MaxOtpDigits | src/components/otpform.js:29 | the slot count is at least 1; it is `otpLength` when that is a positive integer and 4 otherwise |
| OtpDigits.EmptySlots | src/components/otpform.js:30 | a fresh buffer is N empty slots, each a valid slot value |
| OtpDigits.OnlyDigits | src/components/otpform.js:83 | the text with every non-digit removed: only digits, never longer than the text |
| OtpDigits.OnlyDigitsAppend | src/components/otpform.js:83 | extraction distributes over concatenation, so the digits keep their order |
| OtpDigits.OnlyDigitsOfDigits | src/components/otpform.js:83 | a digit-only text is extracted unchanged |
| OtpDigits.OnlyDigitsIdempotent | src/components/otpform.js:83 | extracting digits twice equals extracting once |
| OtpDigits.OnlyDigitsEmpty | src/components/otpform.js:83-84 | nothing is extracted iff the text holds no digit, which is when paste does nothing |
| OtpDigits.TakeDigits | src/components/otpform.js:83 | the pasted digits are the first min(k, N) extracted digits, in order |
| OtpDigits.TakeDigitsOfDigits | src/components/otpform.js:83 | pasting the extracted digits gives the same slots as pasting the raw text |
| OtpDigits.SplitChars | src/components/otpform.js:86 | `split("")` gives one slot per pasted character; pasted digits give a complete buffer of valid slots |
| OtpDigits.Join | src/components/otpform.js:99 | `join("")` of valid slots is all digits, no longer than the buffer, and exactly as long as it iff no slot is empty |
| OtpDigits.JoinSplitChars | src/components/otpform.js:86-99 | joining the slots that `split("")` made gives the pasted text back |
| OtpDigits.JoinComplete | src/components/otpform.js:99 | the code of a complete buffer has N characters, all digits; character i is slot i's digit |
| OtpDigits.PadWithEmpty | src/components/otpform.js:87 | the padding loop keeps the existing slots and appends empty slots up to length N |
| OtpCountdown.CanResend | src/components/otpform.js:33 | resend is open exactly when a tick no longer changes the countdown |
| OtpCountdown.AfterOneSecond | src/components/otpform.js:38-39 | one tick lowers a non-zero countdown by exactly 1 and leaves 0 at 0 |
| OtpCountdown.AfterSecondsClosedForm | src/components/otpform.js:37-41 | after k seconds the countdown is max(s - k, 0) |
| OtpCountdown.ResendAfterDuration | src/components/otpform.js:33 | `canResend` holds after k seconds iff k >= the duration |
| OtpCountdown.Decimal | src/components/otpform.js:120-121 | `String(n)`: at least one digit, no leading zero unless n is 0 |
| OtpCountdown.ParseDecimalOfDecimal | src/components/otpform.js:120-121 | reading `String(n)` back as a decimal number gives n |
| OtpCountdown.DecimalLength | src/components/otpform.js:120-121 | `String(n)` has one digit below 10, two below 100, three or more from 100 |
| OtpCountdown.PadStart | src/components/otpform.js:120-121 | `padStart`: the result is at least as wide as asked, ends with the input, and is filled in front |
| OtpCountdown.ParseLeadingZeros | src/components/otpform.js:120-121 | zero padding does not change the value of a digit string |
| OtpCountdown.ParsePadded | src/components/otpform.js:120-121 | a zero-padded field reads back as the number it shows |
| OtpCountdown.Minutes | src/components/otpform.js:120 | `mm` is at least two digits, reads back as floor(s/60), and is exactly two wide iff s < 6000 |
| OtpCountdown.Seconds | src/components/otpform.js:121 | `ss` is always two digits and reads back as s mod 60 |
| OtpCountdown.Clock | src/components/otpform.js:180 | the display is at least five characters: digits, a `:` third from the end, two digits; it is exactly five wide iff s < 6000 |
| OtpCountdown.ClockRoundTrip | src/components/otpform.js:120-121 | `mm:ss` parses back as 60·mm + ss = s for every s |
| OtpForm.LastChar | src/components/otpform.js:162 | `slice(-1)`: at most one character, the last one, empty only for empty text |
| OtpForm.Widget.constructor | src/components/otpform.js:29-34 | mounting gives N empty slots, the full countdown, no busy flag and no focus |
| OtpForm.Widget.Change | src/components/otpform.js:60-70 | a value other than empty or one digit changes nothing; otherwise only slot idx changes; focus advances to idx+1 iff a digit was accepted and idx < N-1; the slot invariant and the focus range are kept |
| OtpForm.Widget.Input | src/components/otpform.js:162 | only the last character typed reaches `Change`; a trailing digit fills the slot |
| OtpForm.Widget.KeyDown | src/components/otpform.js:72-80 | Backspace on an empty slot and ArrowLeft move back, ArrowRight forward, only while focus stays in [0, N) |
| OtpForm.Widget.Paste | src/components/otpform.js:82-92 | no digits: nothing changes; otherwise the slots are the first min(k, N) digits then empty slots, and focus is on slot min(k, N)-1 |
| OtpForm.Widget.Submit | src/components/otpform.js:94-106 | a no-op when busy or incomplete; otherwise `onSubmit` gets the N-digit joined code exactly once and the busy flag is false afterwards, even when the callback throws |
| OtpForm.Widget.Resend | src/components/otpform.js:108-118 | a no-op while the countdown runs; at 0, `onResend` is called once and, unless it throws, the countdown restarts at the duration, all slots clear and focus goes to slot 0; a throwing `onResend` is reported and changes nothing else |
| OtpForm.Widget.Tick | src/components/otpform.js:37-41 | one interval firing: minus one while non-zero, nothing at 0 |
| OtpForm.Widget.SetDuration | src/components/otpform.js:44-46 | the effect runs only for a changed duration and then restarts the countdown at it; the same duration again keeps the running countdown |
| OtpForm.Widget.Resize | src/components/otpform.js:49-58 | the slots are cut or padded with empty slots to the new count, an unchanged count changes nothing, and a slot that no longer exists loses focus |
| OtpScenarios.TypeAndSubmit | src/components/otpform.js:60-106 | typing 1, 2, 3, 4 moves focus to slots 1, 2, 3 and submits "1234" once |
| OtpScenarios.TypedCode | src/components/otpform.js:99 | the slots 1, 2, 3, 4 are complete and join to "1234" |
| OtpScenarios.MixedTextTailDigits | src/components/otpform.js:83 | the digits of "cd34ef", the second half of the mixed text, are "34" |
| OtpScenarios.MixedTextDigits | src/components/otpform.js:83 | the digits of "ab12cd34ef" are "1234" |
| OtpScenarios.PasteMixedText | src/components/otpform.js:82-92 | pasting "ab12cd34ef" into four slots gives 1, 2, 3, 4 with focus on slot 3 |
| OtpScenarios.PasteOneDigit | src/components/otpform.js:82-92 | pasting "5" gives 5 and three empty slots, with focus on slot 0 |
| OtpScenarios.ResendAtOnce | src/components/otpform.js:108-118 | with duration 0, resend works at once and clears the slots |
| OtpScenarios.ResendThrows | src/components/otpform.js:108-118 | with a throwing `onResend`, the typed digit and the stopped countdown stay |
| OtpScenarios.SameDurationKeepsCountdown | src/components/otpform.js:44-46 | after two ticks, a re-render with the same duration 140 leaves the countdown at 138 |
| OtpScenarios.SubmitWhileVerifying | src/components/otpform.js:96 | with the busy flag set directly to stand for a submission in flight, a submit does not call `onSubmit` and leaves the buffer alone |
| OtpValidationPage.MaskedAt | src/app/otp-validation/page.js:8 | `(?<=.{3}).(?=.*@)` matches neither the first three characters, nor the last one, nor a line break |
| OtpValidationPage.MaskEmail | src/app/otp-validation/page.js:7-9 | masking keeps the length, changes characters only to `*`, and never changes the first three |
| OtpValidationPage.MaskWithoutAt | src/app/otp-validation/page.js:8 | an address without `@` is returned unchanged |
| OtpValidationPage.MaskCharacterisation | src/app/otp-validation/page.js:8 | on one line, the character at i >= 3 becomes `*` iff an `@` occurs after it |
| OtpValidationPage.MaskKeepsDomain | src/app/otp-validation/page.js:8 | the last `@` and everything after it stay visible |
| OtpValidationPage.MaskHidesEarlierAt | src/app/otp-validation/page.js:8 | with several `@` on one line, an earlier one at position 3 or later is masked |
| OtpValidationPage.MaskedAtTransfers | src/app/otp-validation/page.js:8 | a match in a string that keeps every line break of the original and has no `@` the original lacks is a match in the original |
| OtpValidationPage.MaskIdempotent | src/app/otp-validation/page.js:8 | masking a masked address changes nothing |
| OtpValidationPage.Title | src/app/otp-validation/page.js:15-18 | "Forgot Password" iff `password_reset` is exactly "true", else "Enter OTP Code" |
| OtpValidationPage.EmailLabel | src/app/otp-validation/page.js:40 | the shown address is never empty: the masked address, or "email address" for an empty one |
| PasswordResetPage.TrimStart | src/app/passwordreset/page.js:13 | removes exactly the leading white space |
| PasswordResetPage.TrimEnd | src/app/passwordreset/page.js:13 | removes exactly the trailing white space |
| PasswordResetPage.Trim | src/app/passwordreset/page.js:15 | the trimmed value is empty iff the value is all white space |
| PasswordResetPage.EmailPatternShortest | src/app/passwordreset/page.js:13 | the unanchored test holds iff some word character, `@`, word run, `.`, and two word characters occur in a row |
| PasswordResetPage.IsValidEmail | src/app/passwordreset/page.js:13 | a valid value trims to a text that contains `@` and `.` and is at least six characters long |
| PasswordResetPage.EmailPatternUnanchored | src/app/passwordreset/page.js:13 | text before or after a matching address does not stop the match |
| PasswordResetPage.OtpRoute | src/app/passwordreset/page.js:32 | the target is "/otp-validation?email=", then the raw email, then "&&password_reset=true" |
| PasswordResetPage.RouteCarriesEmail | src/app/passwordreset/page.js:32 | the target holds the raw email, neither trimmed nor escaped, between the fixed prefix and suffix |
| PasswordResetPage.EmailValidation.constructor | src/app/passwordreset/page.js:9-11 | the page starts with an empty, untouched field and is not submitting |
| PasswordResetPage.EmailValidation.HasValue | src/app/passwordreset/page.js:15 | the field has a value iff some character in it is not white space |
| PasswordResetPage.EmailValidation.ShowError | src/app/passwordreset/page.js:15-17 | an error shows only for a touched, invalid value, and never for a blank one |
| PasswordResetPage.EmailValidation.SendDisabled | src/app/passwordreset/page.js:91 | Send is enabled only for a trimmed value of at least six characters while not submitting |
| PasswordResetPage.EmailValidation.Change | src/app/passwordreset/page.js:19-21 | the field takes the typed value |
| PasswordResetPage.EmailValidation.Blur | src/app/passwordreset/page.js:23 | leaving the field marks it touched |
| PasswordResetPage.EmailValidation.Submit | src/app/passwordreset/page.js:25-36 | always marks the field touched; when Send is enabled, calls `router.push` once and records the navigation unless it throws; the submitting flag ends as it began either way |
| PasswordValidationForm.ResetPasswordForm.constructor | src/components/PasswordValidationForm.js:19-24 | both fields empty, hidden and untouched |
| PasswordValidationForm.ResetPasswordForm.PwLongEnough | src/components/PasswordValidationForm.js:27 | with a positive minimum an empty password is never long enough; with no positive minimum every password is |
| PasswordValidationForm.ResetPasswordForm.PwMatches | src/components/PasswordValidationForm.js:28 | a matching confirmation implies a non-empty password |
| PasswordValidationForm.ResetPasswordForm.PwError | src/components/PasswordValidationForm.js:29 | the length error shows only for a touched field, and always for an empty touched password when a minimum is set |
| PasswordValidationForm.ResetPasswordForm.ConfirmError | src/components/PasswordValidationForm.js:30 | the match error shows only for a touched field, and always for an empty touched confirmation |
| PasswordValidationForm.ResetPasswordForm.CanSubmit | src/components/PasswordValidationForm.js:31 | a submittable form has a non-empty password that is long enough and confirmed, and is not submitting, even when `minLength` is 0 |
| PasswordValidationForm.ResetPasswordForm.SetPassword | src/components/PasswordValidationForm.js:95 | the password field takes the typed value |
| PasswordValidationForm.ResetPasswordForm.SetConfirm | src/components/PasswordValidationForm.js:132 | the confirmation field takes the typed value |
| PasswordValidationForm.ResetPasswordForm.BlurPassword | src/components/PasswordValidationForm.js:96 | leaving the password field marks it touched |
| PasswordValidationForm.ResetPasswordForm.BlurConfirm | src/components/PasswordValidationForm.js:133 | leaving the confirmation field marks it touched |
| PasswordValidationForm.ResetPasswordForm.SetSubmitting | src/components/PasswordValidationForm.js:13 | the parent's `submitting` prop is taken as given |
| PasswordValidationForm.ResetPasswordForm.TogglePw | src/components/PasswordValidationForm.js:106 | negates `showPw` and nothing else |
| PasswordValidationForm.ResetPasswordForm.ToggleConfirm | src/components/PasswordValidationForm.js:143 | negates `showConfirm` and nothing else |
| PasswordValidationForm.ResetPasswordForm.Submit | src/components/PasswordValidationForm.js:34-43 | always marks both fields touched; calls `onSubmit` with the password iff `canSubmit`, and then hides both fields unless `onSubmit` throws; otherwise no visibility flag changes; the password fields never change |
| PasswordValidationForm.ToggleTwice | src/components/PasswordValidationForm.js:106 | pressing either eye button twice restores its visibility; its frame is the two visibility flags, so nothing else changes |

## Left out

- All JSX markup, class names, icons and ARIA attributes. The static layout in src/components/otplayout.js is not modelled.
- React scheduling. The model does not cover effect ordering, the lifetime of `setInterval`/`clearInterval`, or the batching of state updates. The effects are sequential methods, and each handler runs to completion before the next event.
- DOM focus through `inputsRef`, `?.focus()` and `e.preventDefault()`. Focus is the index the widget last asked to focus. Because the focus request only moves when a handler asks, a slot the user clicks is not recorded.
- The `disabled` attribute of the slots while busy. In the model the busy flag is only true inside `Widget.Submit`, so no input event can arrive then.
- Widget.Submit: the busy flag closes when `onSubmit` returns, as the code does. An asynchronous callback (a timer started by the parent) can still be running when a second submit is accepted.
- The `isVerifying` prop that src/app/otp-validation/page.js:38 passes is ignored, because `OtpForm` never reads it.
- Widget.constructor, Widget.SetDuration: `otpDuration` is a `nat`. With a negative or fractional duration the countdown would never meet `secondsLeft === 0`, and the display of such numbers is not modelled.
- Widget.Tick, OtpCountdown.AfterSecondsClosedForm, OtpCountdown.Decimal: numbers are modelled as exact integers, whereas a JavaScript number is an exact integer only up to 2^53 (`Number.MAX_SAFE_INTEGER`). Above that, `s - 1` can round back to `s`, so the countdown stalls and resend never opens, and `String(n)` prints rounded digits, so `ParseDecimalOfDecimal` and `ResendAfterDuration` hold in JavaScript only for values up to 2^53.
- OtpDigits.MaxOtpDigits: non-integer numbers and non-numbers collapse into `NonInteger`. Both give 4, as in the code. Any positive integer is accepted, whereas `Array(N)` throws a RangeError from N = 2^32 on; that failure is not modelled.
- OtpCountdown.Decimal: `String(n)` is modelled for every natural number. JavaScript prints rounded digits above 2^53 and switches to exponent notation from 10^21 on, so the `mm` display of such a countdown is not modelled.
- PasswordResetPage.RouteCarriesEmail is about the target string only. The code page reads the email with `searchParams.get("email")`, which decodes the query: `+` becomes a space, `%xx` is decoded, and `&` or `#` end the value. Since the email is put into the URL unescaped, an address such as "john+otp@mail.com" arrives as "john otp@mail.com". That decoding is not modelled.
- Navigation and timers are not modelled: `router.push` with `setTimeout` in src/app/forgotpassword/page.js and src/app/resetpassword/page.js, and `handleSubmit` of src/app/otp-validation/page.js:20-31. src/app/page.js and src/app/reset_password/page.js only wire props.
- OtpValidationPage.MaskEmail takes a string. A missing `email` query parameter makes the page call it on null, which would throw; that path is not modelled.
- `ValidationLayout` and `EmailForm` are not part of this model.
- Strings are sequences of Unicode scalar values, whereas JavaScript strings are UTF-16 code units. For a character outside the Basic Multilingual Plane, `slice(-1)` and regex `.` can differ from the model. Length counts differ as well: such a character counts two in `password.length >= minLength` (src/components/PasswordValidationForm.js:27), in `[^\s@]{2,}` and in the trimmed length (src/app/passwordreset/page.js:13) but one in the model, so three such characters reach a minimum of 6 in JavaScript and not in the model, and an address ending in `.` and one such character is valid in JavaScript but not in the model.
