/** The click-to-explode toggle of the car and the visibility of the resume label. */
module Explode {
  /**
   * `loaded`: the car model has arrived (`carModel` is not null);
   * `exploded`: the toggle that drives the exploded view;
   * `labelVisible`: whether the resume label is shown.
   */
  datatype CarState = CarState(loaded: bool, exploded: bool, labelVisible: bool)

  /** Before the model loads: no car, not exploded, label hidden. */
  const NO_CAR: CarState := CarState(false, false, false)

  /**
   * `handleClick`: the ray is cast against the car when it is loaded and
   * against nothing otherwise; `rayHitsCar` is the geometric answer for the
   * loaded car. A hit flips the toggle and shows the label.
   */
  function HandleClick(c: CarState, rayHitsCar: bool): (r: CarState)
    ensures !c.loaded || !rayHitsCar ==> r == c
    ensures c.loaded && rayHitsCar ==> r.exploded == !c.exploded && r.labelVisible
    ensures r.loaded == c.loaded
  {
    var hit := c.loaded && rayHitsCar;
    if hit then c.(exploded := !c.exploded, labelVisible := true) else c
  }

  /** Two hits restore the toggle, but once shown the label stays visible. */
  lemma TwoHitsRestoreToggle(c: CarState)
    requires c.loaded
    ensures HandleClick(HandleClick(c, true), true) == c.(labelVisible := true)
  {
  }

  /** Once shown the label is never hidden again by a click. */
  lemma LabelStaysVisible(c: CarState, rayHitsCar: bool)
    requires c.labelVisible
    ensures HandleClick(c, rayHitsCar).labelVisible
  {
  }
}
