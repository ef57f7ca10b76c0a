/**
 * The segmented one-time-code entry widget `OtpForm`
 * (src/components/otpform.js) as an object whose handlers update its
 * state one event at a time. React's effects become explicit methods:
 * `Tick` for the one-second interval, `SetDuration` for a new
 * `otpDuration`, `Resize` for a new `otpLength`.
 */
module OtpForm {
  import opened Wrappers
  import opened OtpDigits
  import opened OtpCountdown

  /** The keys `handleKeyDown` reacts to; any other key is `Other`. */
  datatype Key = Backspace | ArrowLeft | ArrowRight | Other

  /** What one press of Confirm did. */
  datatype SubmitOutcome =
    | Ignored
      /** `onSubmit` (when given) was called with `code`; `raised` when it threw. */
    | Accepted(code: string, raised: bool)

  /** `e.target.value.slice(-1)`: the last character typed into a slot, if any. */
  function LastChar(text: string): (r: string)
    ensures |r| <= 1
    ensures r == [] <==> text == []
    ensures r != [] ==> r[0] == text[|text| - 1]
  {
    if text == [] then [] else [text[|text| - 1]]
  }

  class Widget {
    /** `maxOtpDigits`, the number of slots. */
    var n: nat
    /** The `otpDuration` prop, in seconds. */
    var duration: nat
    /** The digit slots `otp`. */
    var otp: seq<string>
    var secondsLeft: nat
    var isVerifying: bool
    /** The slot the widget last moved focus to; None before any move. */
    var focus: Option<nat>
    /** Whether the parent passed `onSubmit` and `onResend`. */
    const hasOnSubmit: bool
    const hasOnResend: bool
    /** The codes handed to `onSubmit`, oldest first. */
    var submitted: seq<string>
    /** How many times `onResend` was called. */
    var resends: nat

    /** N slots, each empty or one digit, and focus inside [0, N). */
    ghost predicate Valid()
      reads this
    {
      && n >= 1
      && |otp| == n
      && AllSlotValues(otp)
      && (focus.Some? ==> focus.value < n)
    }

    /** Mounting: N empty slots, the countdown at the full duration, nothing focused. */
    constructor (otpLength: LengthProp, otpDuration: nat, onSubmit: bool, onResend: bool)
      ensures Valid()
      ensures n == MaxOtpDigits(otpLength) && otp == EmptySlots(n)
      ensures duration == otpDuration && secondsLeft == otpDuration
      ensures !isVerifying && focus == None
      ensures hasOnSubmit == onSubmit && hasOnResend == onResend
      ensures submitted == [] && resends == 0
    {
      n := MaxOtpDigits(otpLength);
      otp := EmptySlots(MaxOtpDigits(otpLength));
      duration, secondsLeft := otpDuration, otpDuration;
      isVerifying := false;
      focus := None;
      hasOnSubmit, hasOnResend := onSubmit, onResend;
      submitted, resends := [], 0;
    }

    /**
     * `handleChange(idx, value)`: a value that is not empty or one digit is
     * ignored; otherwise slot `idx` takes it, and a digit moves focus on.
     */
    method Change(idx: nat, value: string)
      requires Valid() && idx < n
      modifies this`otp, this`focus
      ensures Valid()
      ensures otp == if IsSlotValue(value) then old(otp)[idx := value] else old(otp)
      ensures focus == if IsSlotValue(value) && value != "" && idx < n - 1
                       then Some(idx + 1) else old(focus)
    {
      if !IsSlotValue(value) {
        return;
      }
      otp := otp[idx := value];
      if value != "" && idx < n - 1 {
        focus := Some(idx + 1);
      }
    }

    /** The `onChange` of slot `idx`: only the last character of the field reaches `Change`. */
    method Input(idx: nat, text: string)
      requires Valid() && idx < n
      modifies this`otp, this`focus
      ensures Valid()
      ensures otp == if IsSlotValue(LastChar(text)) then old(otp)[idx := LastChar(text)] else old(otp)
      ensures text != [] && IsDigit(text[|text| - 1]) ==> otp[idx] == [text[|text| - 1]]
      ensures focus == if text != [] && IsDigit(text[|text| - 1]) && idx < n - 1
                       then Some(idx + 1) else old(focus)
    {
      Change(idx, LastChar(text));
    }

    /**
     * `handleKeyDown(idx, e)`: Backspace on an empty slot and ArrowLeft move
     * focus back, ArrowRight forward, never past either end.
     */
    method KeyDown(idx: nat, key: Key)
      requires Valid() && idx < n
      modifies this`focus
      ensures Valid()
      ensures focus ==
        if key == Backspace && otp[idx] == "" && idx > 0 then Some(idx - 1)
        else if key == ArrowLeft && idx > 0 then Some(idx - 1)
        else if key == ArrowRight && idx < n - 1 then Some(idx + 1)
        else old(focus)
    {
      if key == Backspace && otp[idx] == "" && idx > 0 {
        focus := Some(idx - 1);
      }
      if key == ArrowLeft && idx > 0 {
        focus := Some(idx - 1);
      }
      if key == ArrowRight && idx < n - 1 {
        focus := Some(idx + 1);
      }
    }

    /**
     * `handlePaste`: text without digits changes nothing; otherwise the slots
     * become its first digits, at most N, padded with empty slots, and focus
     * goes to the last filled slot.
     */
    method Paste(text: string)
      requires Valid()
      modifies this`otp, this`focus
      ensures Valid()
      ensures var pasted := TakeDigits(text, n);
        && (pasted == [] ==> otp == old(otp) && focus == old(focus))
        && (pasted != [] ==>
              && (forall i :: 0 <= i < |pasted| ==> otp[i] == [pasted[i]])
              && (forall i :: |pasted| <= i < n ==> otp[i] == "")
              && focus == Some(|pasted| - 1))
    {
      var pasted := TakeDigits(text, n);
      if pasted == [] {
        return;
      }
      var next := PadWithEmpty(SplitChars(pasted), n);
      otp := next;
      var last := Min(|pasted|, n) - 1;
      focus := Some(if last >= 0 then last else 0);
    }

    /**
     * `handleSubmit`: ignored while verifying or while a slot is empty;
     * otherwise the joined code goes to `onSubmit` exactly once and the busy
     * flag is released afterwards, also when the callback throws.
     */
    method Submit(callbackThrows: bool) returns (outcome: SubmitOutcome)
      requires Valid()
      modifies this`isVerifying, this`submitted
      ensures Valid()
      ensures old(isVerifying) || !IsComplete(otp) ==>
                outcome == Ignored && isVerifying == old(isVerifying) && submitted == old(submitted)
      ensures !old(isVerifying) && IsComplete(otp) ==>
                && outcome.Accepted?
                && outcome.code == Join(otp)
                && |outcome.code| == n && AllDigits(outcome.code)
                && outcome.raised == (hasOnSubmit && callbackThrows)
                && !isVerifying
                && submitted == old(submitted) + (if hasOnSubmit then [outcome.code] else [])
    {
      if isVerifying || !IsComplete(otp) {
        return Ignored;
      }
      isVerifying := true;
      var code := Join(otp);
      JoinComplete(otp);
      var raised := false;
      if hasOnSubmit {
        submitted := submitted + [code];
        raised := callbackThrows;
      }
      // the `finally` block
      isVerifying := false;
      outcome := Accepted(code, raised);
    }

    /**
     * `handleResend`: ignored while the countdown runs; otherwise `onResend`
     * is called, and unless it throws the countdown restarts, every slot is
     * cleared and focus goes to the first slot. A throwing `onResend`
     * leaves the widget as it was and is reported in `raised`.
     */
    method Resend(callbackThrows: bool) returns (raised: bool)
      requires Valid()
      modifies this`secondsLeft, this`otp, this`focus, this`resends
      ensures Valid()
      ensures raised == (CanResend(old(secondsLeft)) && hasOnResend && callbackThrows)
      ensures resends == old(resends) + (if CanResend(old(secondsLeft)) && hasOnResend then 1 else 0)
      ensures !CanResend(old(secondsLeft)) || raised ==>
                secondsLeft == old(secondsLeft) && otp == old(otp) && focus == old(focus)
      ensures CanResend(old(secondsLeft)) && !raised ==>
                secondsLeft == duration && otp == EmptySlots(n) && focus == Some(0)
    {
      raised := false;
      if !CanResend(secondsLeft) {
        return;
      }
      if hasOnResend {
        resends := resends + 1;
        if callbackThrows {
          raised := true;
          return;
        }
      }
      secondsLeft := duration;
      otp := EmptySlots(n);
      focus := Some(0);
    }

    /** One second of the countdown interval. */
    method Tick()
      modifies this`secondsLeft
      ensures secondsLeft == AfterOneSecond(old(secondsLeft))
      ensures old(secondsLeft) > 0 ==> secondsLeft == old(secondsLeft) - 1
      ensures old(secondsLeft) == 0 ==> secondsLeft == 0
    {
      if secondsLeft == 0 {
        return;
      }
      secondsLeft := secondsLeft - 1;
    }

    /**
     * The effect on `otpDuration`: it runs only when the prop changes, and
     * then restarts the countdown; the same duration again changes nothing.
     */
    method SetDuration(otpDuration: nat)
      modifies this`duration, this`secondsLeft
      ensures duration == otpDuration
      ensures secondsLeft == if otpDuration == old(duration) then old(secondsLeft) else otpDuration
    {
      if otpDuration != duration {
        duration, secondsLeft := otpDuration, otpDuration;
      }
    }

    /**
     * The effect on `otpLength`: the slots are cut or padded with empty
     * slots to the new count; a focused slot that no longer exists loses
     * focus.
     */
    method Resize(otpLength: LengthProp)
      requires Valid()
      modifies this`n, this`otp, this`focus
      ensures Valid()
      ensures n == MaxOtpDigits(otpLength)
      ensures forall i :: 0 <= i < n ==> otp[i] == if i < old(n) then old(otp)[i] else ""
      ensures n == old(n) ==> otp == old(otp)
      ensures focus == if old(focus).Some? && old(focus).value < n then old(focus) else None
    {
      var count := MaxOtpDigits(otpLength);
      var kept := otp[..Min(|otp|, count)];
      var next := PadWithEmpty(kept, count);
      assert |next| == count;
      assert forall i :: 0 <= i < |kept| ==> next[i] == kept[i] == otp[i];
      assert count == n ==> next == otp;
      n, otp := count, next;
      if focus.Some? && focus.value >= count {
        focus := None;
      }
    }
  }
}
