/**
 The pulsing of the drawn shoulder points: `pointScale` and `increasing`
 (camera.js:19-20) and their update `updatePointAnimation` (camera.js:211-219).
 The scale climbs by 0.03 per frame until it reaches 1.2, then falls by 0.03 per
 frame until it reaches 0.8, and so on.
 */
module Pulse {

  datatype Anim = Anim(scale: real, increasing: bool)

  const Delta: real := 0.03
  const Upper: real := 1.2
  const Lower: real := 0.8

  /** `pointScale = 1`, `increasing = true`. */
  const Init: Anim := Anim(1.0, true)

  /** The oscillator invariant: a rising scale is below the turning point 1.2 (and above
      0.77, one step under 0.8); a falling scale is above 0.8 (and below 1.23). */
  predicate Inv(a: Anim) {
    if a.increasing then Lower - Delta < a.scale < Upper
    else Lower < a.scale < Upper + Delta
  }

  /** One call of `updatePointAnimation`. */
  function Advance(a: Anim): (b: Anim)
    ensures a.increasing ==> b.scale == a.scale + Delta
    ensures !a.increasing ==> b.scale == a.scale - Delta
    // the direction turns exactly when the new scale reaches the bound it was heading for
    ensures a.increasing ==> (b.increasing <==> b.scale < Upper)
    ensures !a.increasing ==> (b.increasing <==> b.scale <= Lower)
    ensures Inv(a) ==> Inv(b)
  {
    if a.increasing then
      var s := a.scale + Delta;
      Anim(s, !(s >= Upper))
    else
      var s := a.scale - Delta;
      Anim(s, s <= Lower)
  }

  /** `n` consecutive animation steps. */
  function Iterate(a: Anim, n: nat): Anim
    decreases n
  {
    if n == 0 then a else Iterate(Advance(a), n - 1)
  }

  /** The invariant survives any number of animation steps, and with it the scale
      stays strictly between 0.77 and 1.23. */
  lemma {:induction false} IterateBounded(a: Anim, n: nat)
    requires Inv(a)
    ensures Inv(Iterate(a, n))
    ensures Lower - Delta < Iterate(a, n).scale < Upper + Delta
    decreases n
  {
    if n > 0 {
      IterateBounded(Advance(a), n - 1);
    }
  }

  /** From the initial `pointScale = 1`, `increasing = true`, the scale stays strictly
      between 0.77 and 1.23 however many frames are drawn. */
  lemma FromInitBounded(n: nat)
    ensures Inv(Iterate(Init, n))
    ensures 0.77 < Iterate(Init, n).scale < 1.23
  {
    IterateBounded(Init, n);
  }
}
