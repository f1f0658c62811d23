/**
  When each banner is on screen. The clip lasts d seconds; the title banner
  is shown for its first half and the call-to-action banner for its second
  half. Times are exact rationals: halving a duration is exact here, as it
  is in binary floating point away from the subnormal range.
 */
module Timeline {

  /** A banner layer placed on the timeline: it starts at `start`, lasts
      `duration` seconds, and is on screen at the times t with
      start <= t < start + duration. */
  datatype Layer = Layer(start: real, duration: real)

  predicate ShownAt(layer: Layer, t: real) {
    layer.start <= t < layer.start + layer.duration
  }

  /** An image layer given a duration: it starts at time 0, the default
      start, and lasts `duration` seconds. */
  function WithDuration(duration: real): (layer: Layer)
    ensures forall t :: ShownAt(layer, t) <==> 0.0 <= t < duration
  {
    Layer(0.0, duration)
  }

  /** Moves a layer to start at `start`; it keeps its duration, so its end
      moves with it. */
  function SetStart(layer: Layer, start: real): (moved: Layer)
    ensures forall t :: ShownAt(moved, t) <==> start <= t < start + layer.duration
  {
    Layer(start, layer.duration)
  }

  /** The title banner: from the beginning, for half the clip. */
  function TitleLayer(d: real): (title: Layer)
    ensures title.start == 0.0 && title.duration == d / 2.0
    ensures forall t :: ShownAt(title, t) <==> 0.0 <= t < d / 2.0
  {
    WithDuration(d / 2.0)
  }

  /** The call-to-action banner: half the clip long, moved to start at its
      middle, so it ends where the clip ends. */
  function CtaLayer(d: real): (cta: Layer)
    ensures cta.start == d / 2.0 && cta.duration == d / 2.0
    ensures forall t :: ShownAt(cta, t) <==> d / 2.0 <= t < d
  {
    SetStart(WithDuration(d / 2.0), d / 2.0)
  }

  /** The two windows split the clip at its midpoint: they are equally long,
      the second starts where the first ends, no time shows both, and the
      times that show one of them are exactly those of the clip [0, d). */
  lemma BannersSplitAtMidpoint(d: real, t: real)
    ensures TitleLayer(d).duration == CtaLayer(d).duration == d / 2.0
    ensures TitleLayer(d).start + TitleLayer(d).duration == CtaLayer(d).start
    ensures !(ShownAt(TitleLayer(d), t) && ShownAt(CtaLayer(d), t))
    ensures ShownAt(TitleLayer(d), t) <==> 0.0 <= t < d / 2.0
    ensures ShownAt(CtaLayer(d), t) <==> d / 2.0 <= t < d
    ensures ShownAt(TitleLayer(d), t) || ShownAt(CtaLayer(d), t) <==> 0.0 <= t < d
  {
  }
}
