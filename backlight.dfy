/**
 * The backlight plugin's step scale (`LXQtBacklight`): a device range
 * 0..max wider than 20 is shown as 40 steps, of which the first 20 are the
 * raw low values 0..20 and the other 20 spread 20..max evenly. A device
 * range of at most 20 is used as it is.
 *
 * The `float` arithmetic of the source is taken as exact: `(int)(x + 0.5)`
 * of a non-negative rational x is round-half-up.
 */
module Backlight {

  /** `N_BACKLIGHT_STEPS` */
  const STEPS: int := 20
  /** `N_BACKLIGHT_LOW_STEPS`, which is also the backlight value at the first step. */
  const LOW_STEPS: int := 20
  /** `minBacklight`: every device range starts at 0. */
  const MIN_BACKLIGHT: int := 0

  // ---------------------------------------------------------------------
  // Integer division helpers
  // ---------------------------------------------------------------------

  /** The quotient is the unique `q` with `m*q <= a < m*q + m`. */
  lemma DivUnique(a: int, m: int, q: int)
    requires m > 0 && m * q <= a < m * q + m
    ensures a / m == q
  {
    var k := a / m;
    if k < q {
      MulMono(m, k + 1, q);
    } else if k > q {
      MulMono(m, q + 1, k);
    }
  }

  lemma MulMono(m: int, x: int, y: int)
    requires m >= 0 && x <= y
    ensures m * x <= m * y
  {
    assert m * y - m * x == m * (y - x);
  }

  /** Division by a positive divisor is monotone. */
  lemma DivMono(a: int, b: int, m: int)
    requires m > 0 && a <= b
    ensures a / m <= b / m
  {
    if a / m > b / m {
      MulMono(m, b / m + 1, a / m);
    }
  }

  /**
   * `(int)((float)n / (float)d + 0.5)` for `n >= 0`: the nearest integer to
   * n/d, halves rounded up.
   */
  function RoundHalfUp(n: int, d: int): (r: int)
    requires n >= 0 && d > 0
    ensures r >= 0
    ensures 2 * d * r <= 2 * n + d < 2 * d * r + 2 * d
  {
    (2 * n + d) / (2 * d)
  }

  /** A value in the half-open rounding window of `y` rounds to `y`. */
  lemma RoundUnique(n: int, d: int, y: int)
    requires n >= 0 && d > 0
    requires 2 * d * y <= 2 * n + d < 2 * d * y + 2 * d
    ensures RoundHalfUp(n, d) == y
  {
    DivUnique(2 * n + d, 2 * d, y);
  }

  /** Rounding is monotone in the numerator. */
  lemma RoundMono(n1: int, n2: int, d: int)
    requires 0 <= n1 <= n2 && d > 0
    ensures RoundHalfUp(n1, d) <= RoundHalfUp(n2, d)
  {
    DivMono(2 * n1 + d, 2 * n2 + d, 2 * d);
  }

  // ---------------------------------------------------------------------
  // The step scale
  // ---------------------------------------------------------------------

  /** The conversion applies: the device range exceeds 20 and the value lies above the first step. */
  predicate Scaled(max: int, v: int) {
    max - MIN_BACKLIGHT > STEPS && v > LOW_STEPS
  }

  /** The backlight value `setBacklightStep` requests for a step. */
  function BacklightFromStep(max: int, v: int): (r: int)
    ensures Scaled(max, v) ==> r >= LOW_STEPS
  {
    if Scaled(max, v)
    then RoundHalfUp((v - LOW_STEPS) * (max - LOW_STEPS), STEPS) + LOW_STEPS
    else v
  }

  /** The step `getBacklightStep` reports for a backlight value. */
  function StepFromBacklight(max: int, b: int): (r: int)
    ensures Scaled(max, b) ==> r >= LOW_STEPS
  {
    if Scaled(max, b)
    then RoundHalfUp((b - LOW_STEPS) * STEPS, max - LOW_STEPS) + LOW_STEPS
    else b
  }

  /** Low values and small devices pass through both ways unchanged, with no clamping. */
  lemma PassThrough(max: int, v: int)
    requires !Scaled(max, v)
    ensures BacklightFromStep(max, v) == v && StepFromBacklight(max, v) == v
  {
  }

  /** Step 40 is the device maximum, and the device maximum is step 40. */
  lemma TopStep(max: int)
    requires max > STEPS
    ensures BacklightFromStep(max, STEPS + LOW_STEPS) == max
    ensures StepFromBacklight(max, max) == STEPS + LOW_STEPS
  {
    var d := max - LOW_STEPS;
    RoundUnique(STEPS * d, STEPS, d);
    RoundUnique(d * STEPS, d, STEPS);
  }

  /**
   * When the device range is at least 40, a step above the first one comes
   * back unchanged from the backlight value it requests.
   */
  lemma StepRoundTrip(max: int, s: int)
    requires max >= STEPS + LOW_STEPS && s > LOW_STEPS
    ensures StepFromBacklight(max, BacklightFromStep(max, s)) == s
  {
    var d := max - LOW_STEPS;
    var t := s - LOW_STEPS;
    var n := t * d;
    MulMono(d, 1, t);
    var x := RoundHalfUp(n, STEPS);
    assert 40 * x <= 2 * n + 20 < 40 * x + 40;
    assert x > 0;
    assert BacklightFromStep(max, s) == x + LOW_STEPS;
    if d == STEPS {
      assert 40 * t - 20 < 40 * x <= 40 * t + 20;
      assert x == t;
    }
    assert 2 * d * t == 2 * n;
    RoundUnique(x * STEPS, d, t);
  }

  /** A larger step never requests a smaller backlight. */
  lemma BacklightFromStepMonotone(max: int, v1: int, v2: int)
    requires v1 <= v2
    ensures BacklightFromStep(max, v1) <= BacklightFromStep(max, v2)
  {
    if Scaled(max, v1) {
      var d := max - LOW_STEPS;
      MulMono(d, v1 - LOW_STEPS, v2 - LOW_STEPS);
      RoundMono((v1 - LOW_STEPS) * d, (v2 - LOW_STEPS) * d, STEPS);
    }
  }

  /** A larger backlight never reports a smaller step. */
  lemma StepFromBacklightMonotone(max: int, b1: int, b2: int)
    requires b1 <= b2
    ensures StepFromBacklight(max, b1) <= StepFromBacklight(max, b2)
  {
    if Scaled(max, b1) {
      MulMono(STEPS, b1 - LOW_STEPS, b2 - LOW_STEPS);
      RoundMono((b1 - LOW_STEPS) * STEPS, (b2 - LOW_STEPS) * STEPS, max - LOW_STEPS);
    }
  }

  // ---------------------------------------------------------------------
  // The device and the plugin
  // ---------------------------------------------------------------------

  /**
   * `LXQt::Backlight`: its maximum, the level it reports, and the values
   * requested through `setBacklight`, in order. Whether and when a request
   * changes the reported level is up to the device.
   */
  class Device {
    const max: int
    var level: int
    var requests: seq<int>

    constructor (max: int, level: int)
      ensures this.max == max && this.level == level && requests == []
    {
      this.max := max;
      this.level := level;
      requests := [];
    }

    /** `setBacklight` */
    method SetBacklight(value: int)
      modifies this`requests
      ensures requests == old(requests) + [value]
    {
      requests := requests + [value];
    }
  }

  /** `LXQtBacklight`, reduced to its step arithmetic and its two shortcuts. */
  class BacklightPlugin {
    const device: Device

    constructor (device: Device)
      ensures this.device == device
    {
      this.device := device;
    }

    /** `getBacklightStep` */
    method GetBacklightStep() returns (step: int)
      ensures step == StepFromBacklight(device.max, device.level)
    {
      var maxBacklight := device.max;
      var value := device.level;
      if maxBacklight - MIN_BACKLIGHT > STEPS && value > LOW_STEPS {
        value := RoundHalfUp((value - LOW_STEPS) * STEPS, maxBacklight - LOW_STEPS) + LOW_STEPS;
      }
      step := value;
    }

    /** `setBacklightStep` */
    method SetBacklightStep(value: int)
      modifies device`requests
      ensures device.requests == old(device.requests) + [BacklightFromStep(device.max, value)]
    {
      var maxBacklight := device.max;
      var v := value;
      if maxBacklight - MIN_BACKLIGHT > STEPS && v > LOW_STEPS {
        v := RoundHalfUp((v - LOW_STEPS) * (maxBacklight - LOW_STEPS), STEPS) + LOW_STEPS;
      }
      device.SetBacklight(v);
    }

    /**
     * `handleShortcutBacklightUp`: requests the backlight of the next step.
     * On a device with a range of at least 40 that request is exactly one
     * step up, once the current step has reached 20.
     */
    method HandleShortcutUp()
      modifies device`requests
      ensures device.requests == old(device.requests) + [BacklightFromStep(device.max, StepFromBacklight(device.max, device.level) + 1)]
      ensures device.max >= STEPS + LOW_STEPS && StepFromBacklight(device.max, device.level) >= LOW_STEPS ==>
                StepFromBacklight(device.max, device.requests[|device.requests| - 1]) ==
                StepFromBacklight(device.max, device.level) + 1
    {
      var step := GetBacklightStep();
      SetBacklightStep(step + 1);
      if device.max >= STEPS + LOW_STEPS && step >= LOW_STEPS {
        StepRoundTrip(device.max, step + 1);
      }
    }

    /**
     * `handleShortcutBacklightDown`: requests the backlight of the previous
     * step; at or below the first step that is the raw value minus one, so
     * a level of 0 requests -1.
     */
    method HandleShortcutDown()
      modifies device`requests
      ensures device.requests == old(device.requests) + [BacklightFromStep(device.max, StepFromBacklight(device.max, device.level) - 1)]
      ensures device.level <= LOW_STEPS ==> device.requests[|device.requests| - 1] == device.level - 1
      ensures device.max >= STEPS + LOW_STEPS && StepFromBacklight(device.max, device.level) > LOW_STEPS + 1 ==>
                StepFromBacklight(device.max, device.requests[|device.requests| - 1]) ==
                StepFromBacklight(device.max, device.level) - 1
    {
      var step := GetBacklightStep();
      SetBacklightStep(step - 1);
      if device.max >= STEPS + LOW_STEPS && step > LOW_STEPS + 1 {
        StepRoundTrip(device.max, step - 1);
      }
    }
  }
}
