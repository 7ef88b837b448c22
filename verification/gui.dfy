/** The clamp helper that every configuration panel applies after a widget edit. */
module Gui {

  /** Clamps an integer setting (resolutions, division counts, patch counts). */
  function Clamp(value: int, lo: int, hi: int): (r: int)
    ensures r == value || r == lo || r == hi
    ensures lo <= hi ==> lo <= r <= hi
    ensures lo <= value <= hi ==> r == value
    ensures value < lo ==> r == lo
    ensures lo <= value && hi < value ==> r == hi
  {
    if value < lo then lo else if value > hi then hi else value
  }

  /** Clamps a real-valued setting (radii, scales, angles). */
  function ClampReal(value: real, lo: real, hi: real): (r: real)
    ensures r == value || r == lo || r == hi
    ensures lo <= hi ==> lo <= r <= hi
    ensures lo <= value <= hi ==> r == value
    ensures value < lo ==> r == lo
    ensures lo <= value && hi < value ==> r == hi
  {
    if value < lo then lo else if value > hi then hi else value
  }

  /** Clamping a clamped value again with the same bounds changes nothing. */
  lemma ClampIdempotent(value: int, lo: int, hi: int)
    requires lo <= hi
    ensures Clamp(Clamp(value, lo, hi), lo, hi) == Clamp(value, lo, hi)
  {
  }

  lemma ClampRealIdempotent(value: real, lo: real, hi: real)
    requires lo <= hi
    ensures ClampReal(ClampReal(value, lo, hi), lo, hi) == ClampReal(value, lo, hi)
  {
  }
}
