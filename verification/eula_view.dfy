/** `EulaView`: the agree checkbox and the button it enables. */
module Eula {

  /** The view's own `@State`. */
  datatype EulaForm = EulaForm(hasAgreed: bool)

  /** The checkbox starts unchecked. */
  const INITIAL_FORM: EulaForm := EulaForm(false)

  /** Tapping the checkbox flips it. */
  function Toggle(f: EulaForm): (r: EulaForm)
    ensures r.hasAgreed != f.hasAgreed
  {
    EulaForm(!f.hasAgreed)
  }

  /** The agree button is disabled while the box is unchecked. */
  predicate AgreeDisabled(f: EulaForm)
  {
    !f.hasAgreed
  }

  /** The effect of pressing agree: the `hasAcceptedEula` binding afterwards and how many
      times `onAccept` ran. */
  datatype AgreeEffect = AgreeEffect(binding: bool, acceptCalls: nat)

  /** Pressing agree: a disabled button does nothing; an enabled one sets the binding and
      then calls `onAccept` once. */
  function PressAgree(f: EulaForm, binding: bool): (r: AgreeEffect)
    ensures AgreeDisabled(f) ==> r == AgreeEffect(binding, 0)
    ensures !AgreeDisabled(f) ==> r.binding && r.acceptCalls == 1
  {
    if AgreeDisabled(f) then AgreeEffect(binding, 0) else AgreeEffect(true, 1)
  }

  /** The form after `n` taps on the checkbox. */
  function ToggleTimes(f: EulaForm, n: nat): EulaForm
  {
    if n == 0 then f else Toggle(ToggleTimes(f, n - 1))
  }

  /** From a fresh view, agreeing is possible exactly after an odd number of taps. */
  lemma {:induction false} AgreeEnabledAfterOddTaps(n: nat)
    ensures !AgreeDisabled(ToggleTimes(INITIAL_FORM, n)) <==> n % 2 == 1
  {
    if n > 0 {
      AgreeEnabledAfterOddTaps(n - 1);
    }
  }

  /** Whatever the taps, `onAccept` runs at most once per press, and only with the box
      checked. */
  lemma AcceptNeedsAgreement(f: EulaForm, binding: bool)
    ensures PressAgree(f, binding).acceptCalls <= 1
    ensures PressAgree(f, binding).acceptCalls == 1 <==> f.hasAgreed
  {
  }
}
