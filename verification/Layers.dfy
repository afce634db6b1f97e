/**
 What a blurred image is made of, pass by pass, written down from the passes of
 libwlblur/src/blur_kawase.c and without reference to how the blur is computed.
 */
module Layers {
  import opened BlurParams
  import opened Wrappers
  import opened Gpu

  function Pow2(n: nat): (p: int)
    ensures p >= 1
  {
    if n == 0 then 1 else 2 * Pow2(n - 1)
  }

  /** The image under so many passes, the latest ones taken off first. */
  function Under(image: Image, passes: nat): Image
    decreases passes
  {
    if passes == 0 then image
    else match image case Shaded(_, source) => Under(source, passes - 1) case _ => Unwritten
  }

  lemma {:induction false} UnderUnder(image: Image, first: nat, more: nat)
    ensures Under(Under(image, first), more) == Under(image, first + more)
    decreases first
  {
    if first > 0 {
      if image.Shaded? {
        UnderUnder(image.source, first - 1, more);
      } else {
        UnderNothing(more);
      }
    }
  }

  lemma UnderNothing(passes: nat)
    ensures Under(Unwritten, passes) == Unwritten
  {
  }

  /** The pass that was drawn last. */
  function LastPass(image: Image): Option<Shader> {
    match image case Shaded(shader, _) => Some(shader) case _ => None
  }

  /** A side of the image divided by 2^k, and at least one pixel. */
  function Scaled(size: int, k: nat): int {
    var scaled := size / Pow2(k);
    if scaled < 1 then 1 else scaled
  }

  /**
   The i-th pass from the end of a blur in n passes. The last is the finish. Before it come n upsamples,
   the latest to the full size, and before these n downsamples, the latest to the smallest. Down and up
   again, the radius of a pass is larger by its level.
   */
  function Pass(width: int, height: int, p: Params, i: nat): Shader
    requires i <= 2 * p.numPasses
  {
    var n := p.numPasses;
    if i == 0 then Finish(width, height, p.brightness, p.contrast, p.saturation, p.noise)
    else if i <= n then Upsample(Scaled(width, i - 1), Scaled(height, i - 1), p.radius + (i - 1) as real)
    else Downsample(Scaled(width, 2 * n + 1 - i), Scaled(height, 2 * n + 1 - i), p.radius + (2 * n - i) as real)
  }

  /** An image blurred with these parameters: 2n + 1 passes, and under them what it was made from. */
  ghost predicate Blurred(width: int, height: int, p: Params, source: Image, result: Image) {
    && p.numPasses >= 1
    && Under(result, 2 * p.numPasses + 1) == source
    && forall i: nat | i <= 2 * p.numPasses :: LastPass(Under(result, i)) == Some(Pass(width, height, p, i))
  }
}
