/**
 * The digit buffer of the one-time-code widget (src/components/otpform.js):
 * what one slot may hold, how the slot count is normalised, how pasted
 * text is reduced to digits, and how the slots are joined into a code.
 */
module OtpDigits {

  /** `\d` in a JavaScript regular expression: one ASCII decimal digit. */
  predicate IsDigit(c: char) {
    '0' <= c <= '9'
  }

  predicate AllDigits(s: string) {
    forall i :: 0 <= i < |s| ==> IsDigit(s[i])
  }

  /** The test `/^\d?$/` a slot value must pass: empty, or exactly one digit. */
  predicate IsSlotValue(v: string)
    ensures IsSlotValue(v) <==> |v| <= 1 && AllDigits(v)
  {
    v == "" || (|v| == 1 && IsDigit(v[0]))
  }

  predicate AllSlotValues(slots: seq<string>) {
    forall i :: 0 <= i < |slots| ==> IsSlotValue(slots[i])
  }

  /** `otp.every((d) => d !== "")` */
  predicate IsComplete(slots: seq<string>)
    ensures IsComplete(slots) && AllSlotValues(slots) ==>
              forall i :: 0 <= i < |slots| ==> |slots[i]| == 1 && IsDigit(slots[i][0])
  {
    forall i :: 0 <= i < |slots| ==> slots[i] != ""
  }

  /** The `otpLength` prop as JavaScript sees it: an integer, or any other value. */
  datatype LengthProp = Integer(value: int) | NonInteger

  /** `maxOtpDigits`: the slot count is `otpLength` when that is a positive integer, 4 otherwise. */
  function MaxOtpDigits(otpLength: LengthProp): (n: nat)
    ensures n >= 1
    ensures otpLength == Integer(n) || n == 4
    ensures otpLength.Integer? && otpLength.value > 0 ==> n == otpLength.value
  {
    if otpLength.Integer? && otpLength.value > 0 then otpLength.value else 4
  }

  /** `Array(n).fill("")` */
  function EmptySlots(n: nat): (slots: seq<string>)
    ensures |slots| == n && AllSlotValues(slots)
    ensures forall i :: 0 <= i < n ==> slots[i] == ""
  {
    seq(n, _ => "")
  }

  /** `text.replace(/\D/g, "")`: the digits of `text`, in order. */
  function OnlyDigits(text: string): (d: string)
    ensures AllDigits(d) && |d| <= |text|
  {
    if text == [] then []
    else (if IsDigit(text[0]) then [text[0]] else []) + OnlyDigits(text[1..])
  }

  /** Extracting digits distributes over concatenation, so the digits keep their order. */
  lemma {:induction false} OnlyDigitsAppend(a: string, b: string)
    ensures OnlyDigits(a + b) == OnlyDigits(a) + OnlyDigits(b)
  {
    if a != [] {
      assert (a + b)[0] == a[0] && (a + b)[1..] == a[1..] + b;
      OnlyDigitsAppend(a[1..], b);
      var head := if IsDigit(a[0]) then [a[0]] else [];
      assert OnlyDigits(a + b) == head + (OnlyDigits(a[1..]) + OnlyDigits(b));
      assert OnlyDigits(a) == head + OnlyDigits(a[1..]);
      assert head + (OnlyDigits(a[1..]) + OnlyDigits(b)) == (head + OnlyDigits(a[1..])) + OnlyDigits(b);
    } else {
      assert a + b == b;
    }
  }

  /** A string made of digits only is left as it is. */
  lemma {:induction false} OnlyDigitsOfDigits(text: string)
    requires AllDigits(text)
    ensures OnlyDigits(text) == text
  {
    if text != [] {
      OnlyDigitsOfDigits(text[1..]);
    }
  }

  /** Extraction is idempotent: extracting from extracted digits changes nothing. */
  lemma OnlyDigitsIdempotent(text: string)
    ensures OnlyDigits(OnlyDigits(text)) == OnlyDigits(text)
  {
    OnlyDigitsOfDigits(OnlyDigits(text));
  }

  /** No digits are extracted exactly when the text holds no digit. */
  lemma {:induction false} OnlyDigitsEmpty(text: string)
    ensures OnlyDigits(text) == [] <==> forall i :: 0 <= i < |text| ==> !IsDigit(text[i])
  {
    if text != [] {
      OnlyDigitsEmpty(text[1..]);
      assert forall i :: 1 <= i < |text| ==> text[i] == text[1..][i - 1];
    }
  }

  function Min(a: int, b: int): (m: int) {
    if a < b then a else b
  }

  /** `text.replace(/\D/g, "").slice(0, n)`: at most `n` digits of the pasted text. */
  function TakeDigits(text: string, n: nat): (pasted: string)
    ensures |pasted| == Min(|OnlyDigits(text)|, n)
    ensures pasted == OnlyDigits(text)[..|pasted|]
    ensures AllDigits(pasted)
  {
    var d := OnlyDigits(text);
    d[..Min(|d|, n)]
  }

  /** Pasting the extracted digits instead of the raw text gives the same slots. */
  lemma TakeDigitsOfDigits(text: string, n: nat)
    ensures TakeDigits(OnlyDigits(text), n) == TakeDigits(text, n)
  {
    OnlyDigitsIdempotent(text);
  }

  /** `pasted.split("")`: one single-character slot per character; digits give a full buffer. */
  function SplitChars(pasted: string): (slots: seq<string>)
    ensures |slots| == |pasted|
    ensures AllDigits(pasted) ==> AllSlotValues(slots) && IsComplete(slots)
  {
    seq(|pasted|, i requires 0 <= i < |pasted| => [pasted[i]])
  }

  /**
   * `otp.join("")`: for valid slots, a code of digits that is as long as the
   * buffer exactly when no slot is empty.
   */
  function Join(slots: seq<string>): (code: string)
    ensures AllSlotValues(slots) ==> AllDigits(code) && |code| <= |slots|
    ensures AllSlotValues(slots) ==> (|code| == |slots| <==> IsComplete(slots))
  {
    if slots == [] then ""
    else
      assert AllSlotValues(slots) ==> AllSlotValues(slots[1..]);
      assert IsComplete(slots) <==> slots[0] != "" && IsComplete(slots[1..]);
      slots[0] + Join(slots[1..])
  }

  /** Splitting a pasted text into slots and joining them gives the text back. */
  lemma {:induction false} JoinSplitChars(pasted: string)
    ensures Join(SplitChars(pasted)) == pasted
  {
    if pasted != [] {
      JoinSplitChars(pasted[1..]);
      assert SplitChars(pasted)[1..] == SplitChars(pasted[1..]);
    }
  }

  /** The code of a complete buffer has one character per slot, the slot's digit, in slot order. */
  lemma {:induction false} JoinComplete(slots: seq<string>)
    requires AllSlotValues(slots) && IsComplete(slots)
    ensures |Join(slots)| == |slots|
    ensures AllDigits(Join(slots))
    ensures forall i :: 0 <= i < |slots| ==> Join(slots)[i] == slots[i][0]
  {
    if slots != [] {
      JoinComplete(slots[1..]);
      assert IsSlotValue(slots[0]) && slots[0] != "";
      forall i | 1 <= i < |slots|
        ensures Join(slots)[i] == slots[i][0]
      {
        assert slots[1..][i - 1] == slots[i];
      }
    }
  }

  /**
   * `while (next.length < n) next.push("")`: pads with empty slots up to
   * length `n`, keeping what is already there.
   */
  method PadWithEmpty(slots: seq<string>, n: nat) returns (next: seq<string>)
    ensures |next| == if |slots| < n then n else |slots|
    ensures next[..|slots|] == slots
    ensures forall i :: |slots| <= i < |next| ==> next[i] == ""
  {
    next := slots;
    while |next| < n
      invariant |slots| <= |next|
      invariant |next| == |slots| || |next| <= n
      invariant next[..|slots|] == slots
      invariant forall i :: |slots| <= i < |next| ==> next[i] == ""
    {
      next := next + [""];
    }
  }
}
