/**
 * components/onboarding/OtpInput.tsx: the four one-digit boxes of the OTP
 * screen. Each edit writes one box, moves the focus forward or back and
 * recomputes completeness; an interval counts the resend delay down while
 * it is active and an effect stops it at 0.
 */
module OtpInput {

  /** otpCodeLength, the number of boxes (boxArray is 0, 1, 2, 3). */
  const OtpCodeLength: nat := 4

  /** The codes, the focused box, the completeness flag and the countdown. */
  datatype OtpState = OtpState(
    codes: seq<string>,
    focusedIndex: int,
    isOtpComplete: bool,
    resendCountdown: int,
    isCountdownActive: bool)

  /** `codes.every(code => code.length === 1)`. */
  predicate AllEntered(codes: seq<string>)
  {
    forall j :: 0 <= j < |codes| ==> |codes[j]| == 1
  }

  /** The focus after typing `text` into box `index`: forward on one character, back on deletion. */
  function NextFocus(text: string, index: int, focused: int): int
  {
    var f1 := if |text| == 1 && index < OtpCodeLength then index + 1 else focused;
    if |text| == 0 && index > 0 then index - 1 else f1
  }

  /** handleCodeChange as a transition of the state. */
  function CodeChange(s: OtpState, text: string, index: int): OtpState
    requires 0 <= index < |s.codes|
  {
    var newCodes := s.codes[index := text];
    s.(codes := newCodes, focusedIndex := NextFocus(text, index, s.focusedIndex),
       isOtpComplete := AllEntered(newCodes))
  }

  /** One second of the interval, followed by the effect that watches for 0. */
  function Tick(s: OtpState): OtpState
  {
    if !s.isCountdownActive then s
    else
      var n := s.resendCountdown - 1;
      s.(resendCountdown := n, isCountdownActive := if n == 0 then false else s.isCountdownActive)
  }

  function Ticks(s: OtpState, k: nat): OtpState
    decreases k
  {
    if k == 0 then s else Ticks(Tick(s), k - 1)
  }

  class OtpInputState {
    var codes: seq<string>
    var focusedIndex: int
    var isOtpComplete: bool
    var resendCountdown: int
    var isCountdownActive: bool

    function State(): OtpState
      reads this
    {
      OtpState(codes, focusedIndex, isOtpComplete, resendCountdown, isCountdownActive)
    }

    /** The screen's initial props: four empty codes, the countdown at `countdown`, inactive. */
    constructor (countdown: int)
      ensures State() == OtpState(["", "", "", ""], 0, false, countdown, false)
    {
      codes := ["", "", "", ""];
      focusedIndex := 0;
      isOtpComplete := false;
      resendCountdown := countdown;
      isCountdownActive := false;
    }

    /** handleCodeChange(text, index): copy the codes, write one, move the focus, recompute completeness. */
    method HandleCodeChange(text: string, index: int)
      requires 0 <= index < |codes|
      modifies this
      ensures State() == CodeChange(old(State()), text, index)
    {
      var newCodes := codes;
      newCodes := newCodes[index := text];
      codes := newCodes;
      if |text| == 1 && index < OtpCodeLength {
        focusedIndex := index + 1;
      }
      if |text| == 0 && index > 0 {
        focusedIndex := index - 1;
      }
      isOtpComplete := AllEntered(newCodes);
    }

    /** A tick of the interval and the effect that deactivates the countdown at 0. */
    method CountdownTick()
      modifies this
      ensures State() == Tick(old(State()))
    {
      if isCountdownActive {
        resendCountdown := resendCountdown - 1;
        if resendCountdown == 0 {
          isCountdownActive := false;
        }
      }
    }
  }

  // ---------------------------------------------------------------------
  // Properties
  // ---------------------------------------------------------------------

  /** An edit writes box `index` only: the length and every other box stay. */
  lemma CodeChangeWritesOneBox(s: OtpState, text: string, index: int)
    requires 0 <= index < |s.codes|
    ensures var r := CodeChange(s, text, index);
            |r.codes| == |s.codes| && r.codes[index] == text
            && (forall j :: 0 <= j < |s.codes| && j != index ==> r.codes[j] == s.codes[j])
            && r.resendCountdown == s.resendCountdown && r.isCountdownActive == s.isCountdownActive
  {
  }

  /** The flag is set exactly when every box holds exactly one character. */
  lemma CompleteIffAllSingle(s: OtpState, text: string, index: int)
    requires 0 <= index < |s.codes|
    ensures var r := CodeChange(s, text, index);
            r.isOtpComplete <==> |text| == 1 && forall j :: 0 <= j < |s.codes| && j != index ==> |s.codes[j]| == 1
  {
    var r := CodeChange(s, text, index);
    if r.isOtpComplete {
      assert |r.codes[index]| == 1;
      forall j | 0 <= j < |s.codes| && j != index ensures |s.codes[j]| == 1 {
        assert r.codes[j] == s.codes[j];
      }
    }
  }

  /**
   * Focus movement: one character moves to the next box, and from the last
   * box to 4, past the boxes; an empty text moves back unless at box 0; any
   * other text leaves the focus. Only one move happens per edit.
   */
  lemma FocusMoves(text: string, index: int, focused: int)
    requires 0 <= index < OtpCodeLength
    ensures |text| == 1 ==> NextFocus(text, index, focused) == index + 1
    ensures |text| == 0 && index > 0 ==> NextFocus(text, index, focused) == index - 1
    ensures |text| == 0 && index == 0 ==> NextFocus(text, index, focused) == focused
    ensures |text| > 1 ==> NextFocus(text, index, focused) == focused
    ensures NextFocus("1", OtpCodeLength - 1, focused) == OtpCodeLength
  {
  }

  /** Typing a digit into every box in order completes the code and leaves the focus past the last box. */
  lemma TypingFourDigitsCompletes(s: OtpState, a: char, b: char, c: char, d: char)
    requires |s.codes| == OtpCodeLength
    ensures var r := CodeChange(CodeChange(CodeChange(CodeChange(s, [a], 0), [b], 1), [c], 2), [d], 3);
            r.codes == [[a], [b], [c], [d]] && r.isOtpComplete && r.focusedIndex == OtpCodeLength
  {
    var r := CodeChange(CodeChange(CodeChange(CodeChange(s, [a], 0), [b], 1), [c], 2), [d], 3);
    assert r.codes == [[a], [b], [c], [d]];
  }

  /** While active, each tick takes exactly one second off and stops only at 0. */
  lemma TickCountsDown(s: OtpState)
    requires s.isCountdownActive
    ensures Tick(s).resendCountdown == s.resendCountdown - 1
    ensures Tick(s).isCountdownActive <==> s.resendCountdown != 1
  {
  }

  /** Started at n > 0, the countdown is active with n - k left after k < n ticks and stopped at 0 after n. */
  lemma {:induction false} CountdownRunsOut(s: OtpState, n: nat, k: nat)
    requires s.isCountdownActive && s.resendCountdown == n && 0 < n && k <= n
    ensures Ticks(s, k).resendCountdown == n - k
    ensures Ticks(s, k).isCountdownActive <==> k < n
    ensures Ticks(s, k).codes == s.codes && Ticks(s, k).focusedIndex == s.focusedIndex
    decreases k
  {
    if k > 0 {
      if n == 1 {
        assert Ticks(Tick(s), 0) == Tick(s);
      } else {
        CountdownRunsOut(Tick(s), n - 1, k - 1);
      }
    }
  }

  /** After it stops, further ticks change nothing. */
  lemma {:induction false} StoppedCountdownStays(s: OtpState, k: nat)
    requires !s.isCountdownActive
    ensures Ticks(s, k) == s
    decreases k
  {
    if k > 0 {
      StoppedCountdownStays(Tick(s), k - 1);
    }
  }
}
