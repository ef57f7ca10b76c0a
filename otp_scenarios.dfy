/**
 * Worked runs of the one-time-code widget: what a parent page sees after a
 * few events, derived from the handlers' contracts alone.
 */
module OtpScenarios {
  import opened Wrappers
  import opened OtpDigits
  import opened OtpForm

  /** Typing 1, 2, 3, 4 into a four-slot widget moves focus along and submits "1234". */
  method TypeAndSubmit() returns (w: Widget, outcome: SubmitOutcome)
    ensures w.otp == ["1", "2", "3", "4"] && w.focus == Some(3)
    ensures outcome == Accepted("1234", false) && w.submitted == ["1234"]
    ensures !w.isVerifying
  {
    w := new Widget(Integer(4), 140, true, true);
    w.Input(0, "1");
    assert w.otp == ["1", "", "", ""] && w.focus == Some(1);
    w.Input(1, "2");
    assert w.otp == ["1", "2", "", ""] && w.focus == Some(2);
    w.Input(2, "3");
    assert w.otp == ["1", "2", "3", ""] && w.focus == Some(3);
    w.Input(3, "4");
    assert w.otp == ["1", "2", "3", "4"] && w.focus == Some(3);
    TypedCode(w.otp);
    outcome := w.Submit(false);
  }

  /** The code the four typed slots join to. */
  lemma TypedCode(slots: seq<string>)
    requires slots == ["1", "2", "3", "4"]
    ensures IsComplete(slots) && Join(slots) == "1234"
  {
    JoinComplete(slots);
  }

  /** One step of `OnlyDigits` from the back of a known string. */
  lemma OnlyDigitsStep(t: string, i: nat, d: string)
    requires i < |t| && OnlyDigits(t[i + 1..]) == d
    ensures OnlyDigits(t[i..]) == (if IsDigit(t[i]) then [t[i]] else []) + d
  {
    assert t[i..][0] == t[i] && t[i..][1..] == t[i + 1..];
  }

  /** The digits of the second half of the mixed paste text. */
  lemma MixedTextTailDigits(t: string)
    requires t == "ab12cd34ef"
    ensures OnlyDigits(t[5..]) == "34"
  {
    assert OnlyDigits(t[10..]) == "";
    OnlyDigitsStep(t, 9, "");
    OnlyDigitsStep(t, 8, "");
    OnlyDigitsStep(t, 7, "");
    OnlyDigitsStep(t, 6, "4");
    OnlyDigitsStep(t, 5, "34");
  }

  /** The digits of the mixed paste text of the scenario below. */
  lemma MixedTextDigits(t: string)
    requires t == "ab12cd34ef"
    ensures OnlyDigits(t) == "1234"
  {
    MixedTextTailDigits(t);
    OnlyDigitsStep(t, 4, "34");
    OnlyDigitsStep(t, 3, "34");
    OnlyDigitsStep(t, 2, "234");
    OnlyDigitsStep(t, 1, "1234");
    OnlyDigitsStep(t, 0, "1234");
    assert t[0..] == t;
  }

  /** Pasting "ab12cd34ef" fills all four slots and focuses the last one. */
  method PasteMixedText() returns (w: Widget)
    ensures w.otp == ["1", "2", "3", "4"] && w.focus == Some(3)
  {
    w := new Widget(Integer(4), 140, true, true);
    MixedTextDigits("ab12cd34ef");
    w.Paste("ab12cd34ef");
    assert w.otp == ["1", "2", "3", "4"];
  }

  /** Pasting "5" fills the first slot only and focuses it. */
  method PasteOneDigit() returns (w: Widget)
    ensures w.otp == ["5", "", "", ""] && w.focus == Some(0)
  {
    w := new Widget(Integer(4), 140, true, true);
    assert OnlyDigits("5") == "5";
    w.Paste("5");
    assert w.otp == ["5", "", "", ""];
  }

  /** With a zero duration, resend is available at once and clears the slots. */
  method ResendAtOnce() returns (w: Widget)
    ensures w.resends == 1 && w.secondsLeft == 0
    ensures w.otp == ["", "", "", ""] && w.focus == Some(0)
  {
    w := new Widget(NonInteger, 0, true, true);
    w.Input(0, "7");
    var raised := w.Resend(false);
  }

  /** A throwing `onResend` leaves the typed digit and the stopped countdown in place. */
  method ResendThrows() returns (w: Widget, raised: bool)
    ensures raised && w.resends == 1 && w.secondsLeft == 0
    ensures w.otp == ["7", "", "", ""] && w.focus == Some(1)
  {
    w := new Widget(NonInteger, 0, true, true);
    w.Input(0, "7");
    raised := w.Resend(true);
  }

  /** A re-render with the same duration does not restart a running countdown. */
  method SameDurationKeepsCountdown() returns (w: Widget)
    ensures w.duration == 140 && w.secondsLeft == 138
  {
    w := new Widget(Integer(4), 140, true, true);
    w.Tick();
    w.Tick();
    w.SetDuration(140);
  }

  /**
   * A submit while the busy flag is up is ignored. No handler leaves the
   * flag up, so it is set directly here to stand for a submission in flight.
   */
  method SubmitWhileVerifying() returns (w: Widget, outcome: SubmitOutcome)
    ensures outcome == Ignored && w.submitted == [] && w.isVerifying
    ensures w.otp == ["9", "9", "9", "9"]
  {
    w := new Widget(Integer(4), 140, true, true);
    OnlyDigitsOfDigits("9999");
    w.Paste("9999");
    assert w.otp == ["9", "9", "9", "9"];
    w.isVerifying := true;
    outcome := w.Submit(false);
  }
}
