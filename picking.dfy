/**
 The click handler (index.js, onClick).

 The pointer position is mapped to normalised device coordinates, and only when
 the chicken model has loaded and the ray through that point hits it does the
 handler start the reveal. Ray casting is not modelled: a loaded chicken is
 represented by a hit test giving the number of intersections of the ray
 through a point, and a chicken still loading (or one that failed to load) by
 None.
 */
module Picking {
  import Reveal

  datatype Option<T> = None | Some(value: T)

  /** Normalised device coordinates, [-1, 1] on both axes inside the viewport, y pointing up. */
  datatype Ndc = Ndc(x: real, y: real)

  /** Number of objects in raycaster.intersectObject(chickenModel, true) for the ray through a point. */
  type HitTest = Ndc -> nat

  /** The normalisation of the mouse position in onClick. */
  function ToNdc(clientX: real, clientY: real, width: real, height: real): (m: Ndc)
    requires width > 0.0 && height > 0.0
    ensures 0.0 <= clientX <= width ==> -1.0 <= m.x <= 1.0
    ensures 0.0 <= clientY <= height ==> -1.0 <= m.y <= 1.0
    ensures ToPixels(m, width, height) == (clientX, clientY)
  {
    Unscale(clientX, width);
    Unscale(clientY, height);
    var m := Ndc((clientX / width) * 2.0 - 1.0, -(clientY / height) * 2.0 + 1.0);
    assert ToPixels(m, width, height).0 == clientX;
    assert ToPixels(m, width, height).1 == clientY;
    m
  }

  /** The inverse map, from device coordinates back to the pixel the pointer was on. */
  function ToPixels(m: Ndc, width: real, height: real): (p: (real, real))
    requires width > 0.0 && height > 0.0
    ensures -1.0 <= m.x <= 1.0 ==> 0.0 <= p.0 <= width
    ensures -1.0 <= m.y <= 1.0 ==> 0.0 <= p.1 <= height
  {
    var a, b := m.x + 1.0, 1.0 - m.y;
    Scale(a, width);
    Scale(b, height);
    (a * width / 2.0, b * height / 2.0)
  }

  lemma Unscale(c: real, extent: real)
    requires extent > 0.0
    ensures (c / extent) * extent == c
    ensures 0.0 <= c <= extent ==> 0.0 <= c / extent <= 1.0
    ensures ((c / extent) * 2.0 - 1.0 + 1.0) * extent / 2.0 == c
    ensures (1.0 - (-(c / extent) * 2.0 + 1.0)) * extent / 2.0 == c
  {
    var q := c / extent;
    assert q * extent == c;
    assert (q * 2.0 - 1.0 + 1.0) * extent == 2.0 * (q * extent);
    assert (1.0 - (-q * 2.0 + 1.0)) * extent == 2.0 * (q * extent);
  }

  lemma Scale(a: real, extent: real)
    requires extent > 0.0
    ensures 0.0 <= a <= 2.0 ==> 0.0 <= a * extent / 2.0 <= extent
  {
    if 0.0 <= a <= 2.0 {
      assert (2.0 - a) * extent >= 0.0;
      assert a * extent >= 0.0;
    }
  }

  /** The other direction of the round trip: every device coordinate is hit by exactly one pixel. */
  lemma NdcRoundTrip(m: Ndc, width: real, height: real)
    requires width > 0.0 && height > 0.0
    ensures ToNdc(ToPixels(m, width, height).0, ToPixels(m, width, height).1, width, height) == m
  {
  }

  /** A click at the centre of the viewport casts the ray through the origin; the top left corner maps to (-1, 1). */
  lemma CentreAndCorner(width: real, height: real)
    requires width > 0.0 && height > 0.0
    ensures ToNdc(width / 2.0, height / 2.0, width, height) == Ndc(0.0, 0.0)
    ensures ToNdc(0.0, 0.0, width, height) == Ndc(-1.0, 1.0)
  {
  }

  /** The effect of a click on the sequencer, given the mouse position already normalised. */
  function Click(s: Reveal.State, chickenModel: Option<HitTest>, mouse: Ndc): (r: Reveal.State)
    ensures r != s ==> chickenModel.Some? && chickenModel.value(mouse) > 0
    ensures chickenModel.Some? && chickenModel.value(mouse) > 0 ==> r == Reveal.AfterStart(s)
  {
    match chickenModel
    case None => s
    case Some(hitTest) => if hitTest(mouse) > 0 then Reveal.AfterStart(s) else s
  }

  /**
   A click changes the sequencer exactly when the chicken is loaded, the ray
   hits it and some egg is still hidden; it then adds one live interval.
   */
  lemma ClickChangesStateIff(s: Reveal.State, chickenModel: Option<HitTest>, mouse: Ndc)
    requires Reveal.Inv(s)
    ensures Click(s, chickenModel, mouse) != s <==>
              chickenModel.Some? && chickenModel.value(mouse) > 0 && s.revealed < |s.visible|
    ensures Click(s, chickenModel, mouse) != s ==>
              |Click(s, chickenModel, mouse).intervals| == |s.intervals| + 1
  {
  }

  /** onClick: returns the normalised mouse position it stored, and starts the reveal on a hit. */
  method OnClick(sequencer: Reveal.Sequencer, clientX: real, clientY: real,
                 innerWidth: real, innerHeight: real, chickenModel: Option<HitTest>)
    returns (mouse: Ndc)
    requires innerWidth > 0.0 && innerHeight > 0.0
    modifies sequencer
    ensures mouse == ToNdc(clientX, clientY, innerWidth, innerHeight)
    ensures sequencer.Snapshot() == Click(old(sequencer.Snapshot()), chickenModel, mouse)
    ensures old(sequencer.Valid()) ==> sequencer.Valid()
  {
    mouse := ToNdc(clientX, clientY, innerWidth, innerHeight);
    if chickenModel.Some? {
      var intersects := chickenModel.value(mouse);
      if intersects > 0 {
        sequencer.RevealEggsOneByOne();
      }
    }
  }
}
