/** The keyboard speed controller: a counter saturating at 0 and 0.7. */
module SpeedControl {
  import opened Dimensions

  const INITIAL_SPEED: real := 0.2
  const MAX_SPEED: real := 0.7
  const SPEED_STEP: real := 0.1

  /** Every value the controller can produce from the initial speed. */
  const LEVELS: set<real> := {0.0, 0.1, 0.2, 0.3, 0.4, 0.5, 0.6, 0.7}

  /**
   * The `keydown` handler: ArrowUp raises the speed by one step, capped at
   * MAX_SPEED; ArrowDown lowers it by one step, floored at 0; the two tests
   * are independent `if`s, as in the JavaScript handler.
   */
  function OnKey(speed: real, key: string): (r: real)
    ensures key != "ArrowUp" && key != "ArrowDown" ==> r == speed
    ensures 0.0 <= speed <= MAX_SPEED ==> 0.0 <= r <= MAX_SPEED
    ensures speed in LEVELS ==> r in LEVELS
    ensures key == "ArrowUp" && speed <= MAX_SPEED ==> speed <= r
    ensures key == "ArrowDown" && 0.0 <= speed ==> r <= speed
    // one step of 0.1, saturating at MAX_SPEED upwards and at 0 downwards
    ensures key == "ArrowUp" && speed <= MAX_SPEED - SPEED_STEP ==> r == speed + SPEED_STEP
    ensures key == "ArrowUp" && MAX_SPEED - SPEED_STEP < speed ==> r == MAX_SPEED
    ensures key == "ArrowDown" && SPEED_STEP <= speed ==> r == speed - SPEED_STEP
    ensures key == "ArrowDown" && speed < SPEED_STEP ==> r == 0.0
    ensures key == "ArrowUp" && speed == MAX_SPEED ==> r == speed
    ensures key == "ArrowDown" && speed == 0.0 ==> r == speed
  {
    var afterUp := if key == "ArrowUp" then Min(MAX_SPEED, speed + SPEED_STEP) else speed;
    if key == "ArrowDown" then Max(0.0, afterUp - SPEED_STEP) else afterUp
  }

  /** Every level lies in the controller's range, and that range is within one segment length. */
  lemma LevelsInRange(speed: real)
    requires speed in LEVELS
    ensures 0.0 <= speed <= MAX_SPEED
    ensures speed <= SEG_LEN as real
  {
  }

  /** One step from the initial speed either way. */
  lemma FirstStepFromInitial()
    ensures OnKey(INITIAL_SPEED, "ArrowUp") == 0.3
    ensures OnKey(INITIAL_SPEED, "ArrowDown") == 0.1
    ensures INITIAL_SPEED in LEVELS
  {
  }
}
