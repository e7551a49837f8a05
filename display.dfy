/**
 * The text progress bar the Reports and Users pages draw next to each share
 * of the month's spending: `round(percentage / 100 * width)` full blocks
 * followed by light-shade blocks up to `width`.
 */
module Display {
  import opened Wrappers
  import opened Text

  const FullBlock: char := '█'
  const LightShade: char := '░'

  /** The bar width both pages use unless they pass another. */
  const DefaultWidth: nat := 20

  /** JavaScript's `Math.round`: the nearest integer, halves rounded up. */
  function JsRound(x: real): (n: int)
    ensures n as real - 0.5 <= x < n as real + 0.5
  {
    (x + 0.5).Floor
  }

  /** The number of full blocks: `Math.round((percentage / 100) * width)`. */
  function Filled(percentage: real, width: nat): int {
    JsRound(percentage / 100.0 * width as real)
  }

  /**
   * `getProgressBar(percentage, width)`: `None` where `String.prototype.repeat`
   * throws a RangeError because the full or the empty count is negative.
   */
  function ProgressBar(percentage: real, width: nat): (r: Option<string>)
    ensures r.Some? <==> 0 <= Filled(percentage, width) <= width
    ensures r.Some? ==> |r.value| == width
    ensures r.Some? ==> forall i :: 0 <= i < width ==>
                          r.value[i] == if i < Filled(percentage, width) then FullBlock else LightShade
  {
    var filled := Filled(percentage, width);
    if filled < 0 || width - filled < 0 then None
    else Some(Repeat(FullBlock, filled) + Repeat(LightShade, width - filled))
  }

  /** Every share from 0 to 100 percent draws a bar of exactly `width` characters. */
  lemma BarOfShare(percentage: real, width: nat)
    requires 0.0 <= percentage <= 100.0
    ensures ProgressBar(percentage, width).Some?
    ensures |ProgressBar(percentage, width).value| == width
  {
    var x := percentage / 100.0 * width as real;
    assert 0.0 <= x <= width as real by {
      assert percentage / 100.0 <= 1.0;
    }
  }

  /** A larger share never draws fewer full blocks. */
  lemma FilledMonotone(p: real, q: real, width: nat)
    requires p <= q
    ensures Filled(p, width) <= Filled(q, width)
  {
    assert p / 100.0 * width as real <= q / 100.0 * width as real;
  }

  /** A zero share draws an all-shaded bar, the whole share an all-filled one. */
  lemma BarEnds(width: nat)
    ensures ProgressBar(0.0, width) == Some(Repeat(LightShade, width))
    ensures ProgressBar(100.0, width) == Some(Repeat(FullBlock, width))
  {
    assert Filled(0.0, width) == 0;
    assert Filled(100.0, width) == width;
    assert Repeat(FullBlock, 0) + Repeat(LightShade, width) == Repeat(LightShade, width);
    assert Repeat(FullBlock, width) + Repeat(LightShade, 0) == Repeat(FullBlock, width);
  }
}
