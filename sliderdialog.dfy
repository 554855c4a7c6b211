/**
 * The backlight pop-up (`SliderDialog`): a vertical slider between two
 * buttons. A device range wider than 20 is shown on a 0..40 slider whose
 * lower half is raw and whose upper half is scaled linearly from 0, with C
 * integer division; a narrower range is shown as it is.
 *
 * The slider follows `QAbstractSlider`: its value is kept inside its range,
 * and `valueChanged` fires only when the value actually changes.
 */
module Slider {
  import opened Backlight

  /** The slider maximum the constructor sets for a device with maximum `max`. */
  function SliderMaximum(max: int): int {
    if max - MIN_BACKLIGHT <= STEPS then max else STEPS + LOW_STEPS
  }

  /** `setBacklight`: the backlight value requested for a slider value. */
  function SliderToBacklight(max: int, v: int): int {
    if Scaled(max, v) then (v * max) / (STEPS + LOW_STEPS) else v
  }

  /** `updateBacklight`: the slider value shown for a backlight value. */
  function BacklightToSlider(max: int, b: int): int {
    if Scaled(max, b) then (b * (STEPS + LOW_STEPS)) / max else b
  }

  /** Below the scaled half, or on a device of range at most 20, slider and backlight values are the same. */
  lemma SliderPassThrough(max: int, v: int)
    requires !Scaled(max, v)
    ensures SliderToBacklight(max, v) == v
    ensures BacklightToSlider(max, v) == v
  {
  }

  /** The slider's ends map to the device's ends, and no slider value requests more than the maximum. */
  lemma SliderEnds(max: int, v: int)
    requires max > STEPS && 0 <= v <= STEPS + LOW_STEPS
    ensures SliderToBacklight(max, 0) == 0
    ensures SliderToBacklight(max, STEPS + LOW_STEPS) == max
    ensures 0 <= SliderToBacklight(max, v) <= max
  {
    DivUnique(40 * max, 40, max);
    if v > LOW_STEPS {
      MulMono(max, v, 40);
      DivMono(v * max, 40 * max, 40);
      DivMono(0, v * max, 40);
    }
  }

  /** Every backlight value of the device is shown inside 0..40, and the maximum at the top. */
  lemma SliderShowsRange(max: int, b: int)
    requires max > STEPS && 0 <= b <= max
    ensures 0 <= BacklightToSlider(max, b) <= STEPS + LOW_STEPS
    ensures BacklightToSlider(max, max) == STEPS + LOW_STEPS
  {
    DivUnique(max * 40, max, 40);
    if b > LOW_STEPS {
      MulMono(40, b, max);
      DivMono(b * 40, max * 40, max);
      DivMono(0, b * 40, max);
    }
  }

  /**
   * The requested backlight rises with the slider exactly when the device
   * maximum is at least 39: below that, the first scaled position 21 asks
   * for less than the raw position 20.
   */
  lemma SliderMonotoneIff(max: int)
    requires max > STEPS
    ensures (forall v1, v2 :: 0 <= v1 <= v2 <= STEPS + LOW_STEPS ==> SliderToBacklight(max, v1) <= SliderToBacklight(max, v2))
            <==> max >= 39
  {
    if max >= 39 {
      forall v1, v2 | 0 <= v1 <= v2 <= STEPS + LOW_STEPS
        ensures SliderToBacklight(max, v1) <= SliderToBacklight(max, v2)
      {
        SliderStepMonotone(max, v1, v2);
      }
    } else {
      MulMono(21, max, 38);
      DivMono(21 * max, 21 * 38, 40);
      assert SliderToBacklight(max, 21) < SliderToBacklight(max, 20);
    }
  }

  lemma SliderStepMonotone(max: int, v1: int, v2: int)
    requires 39 <= max && v1 <= v2
    ensures SliderToBacklight(max, v1) <= SliderToBacklight(max, v2)
  {
    if v2 > LOW_STEPS {
      if v1 > LOW_STEPS {
        MulMono(max, v1, v2);
        DivMono(v1 * max, v2 * max, 40);
      } else {
        MulMono(max, 21, v2);
        MulMono(21, 39, max);
        DivMono(800, v2 * max, 40);
      }
    }
  }

  /** With a device maximum of 30, moving the slider from 20 up to 21 lowers the request from 20 to 15. */
  lemma SliderDropsAtThirty()
    ensures SliderToBacklight(30, 20) == 20
    ensures SliderToBacklight(30, 21) == 15
  {
  }

  /** `setBacklight` with the step scale of `setBacklightStep`, which joins the two halves at 20. */
  function SliderToBacklightFixed(max: int, v: int): int {
    BacklightFromStep(max, v)
  }

  /** The corrected map rises with the slider on every device and still sends 0..40 onto 0..max. */
  lemma SliderFixedMonotone(max: int, v1: int, v2: int)
    requires max > STEPS && 0 <= v1 <= v2 <= STEPS + LOW_STEPS
    ensures SliderToBacklightFixed(max, v1) <= SliderToBacklightFixed(max, v2)
    ensures SliderToBacklightFixed(max, 0) == 0 && SliderToBacklightFixed(max, STEPS + LOW_STEPS) == max
  {
    BacklightFromStepMonotone(max, v1, v2);
    TopStep(max);
  }

  /** `QAbstractSlider`'s bound: a value is pulled into `[minimum, maximum]`. */
  function Bound(minimum: int, maximum: int, v: int): (r: int)
    requires minimum <= maximum
    ensures minimum <= r <= maximum
    ensures minimum <= v <= maximum ==> r == v
    ensures v < minimum ==> r == minimum
    ensures v > maximum ==> r == maximum
  {
    if v < minimum then minimum else if v > maximum then maximum else v
  }

  class SliderDialog {
    const device: Device
    /** The slider's range and value. */
    var minimum: int
    var maximum: int
    var value: int
    /** The slider and both buttons accept input. */
    var enabled: bool
    /** `valueChanged` is connected to `sliderValueChanged`. */
    var connected: bool

    ghost predicate Valid()
      reads this
    {
      minimum <= value <= maximum
    }

    /**
     * The constructor: for an available device the range is set and the
     * current level shown, otherwise the controls are disabled at 0. The
     * slots are connected last, so building the dialog requests nothing.
     */
    constructor (device: Device, available: bool)
      modifies device`requests
      ensures Valid() && connected && this.device == device
      ensures device.requests == old(device.requests)
      ensures available ==> enabled && minimum == 0 && maximum == if device.max < 0 then 0 else SliderMaximum(device.max)
      ensures available ==> value == Bound(minimum, maximum, BacklightToSlider(device.max, device.level))
      ensures !available ==> !enabled && minimum == 0 && maximum == 99 && value == 0
    {
      this.device := device;
      minimum := 0;
      maximum := 99;
      value := 0;
      enabled := true;
      connected := false;
      new;
      if available {
        var maxBacklight := device.max;
        if maxBacklight - MIN_BACKLIGHT <= STEPS {
          SetMaximum(maxBacklight);
          SetMinimum(0);
        } else {
          SetMaximum(STEPS + LOW_STEPS);
          SetMinimum(0);
        }
        UpdateBacklight();
      } else {
        SetValue(0);
        enabled := false;
      }
      connected := true;
    }

    /**
     * `QAbstractSlider::setValue`: the value is bounded; a change is passed
     * to `sliderValueChanged` while connected.
     */
    method SetValue(v: int)
      requires Valid()
      modifies this`value, device`requests
      ensures Valid() && value == Bound(minimum, maximum, v)
      ensures device.requests == old(device.requests) +
                (if connected && value != old(value) then [SliderToBacklight(device.max, value)] else [])
    {
      var bounded := Bound(minimum, maximum, v);
      if bounded != value {
        value := bounded;
        if connected {
          SliderValueChanged(value);
        }
      }
    }

    /** `QAbstractSlider::setRange`, which then bounds the current value. */
    method SetRange(lo: int, hi: int)
      modifies this`minimum, this`maximum, this`value, device`requests
      ensures Valid() && minimum == lo && maximum == (if hi < lo then lo else hi)
      ensures value == Bound(minimum, maximum, old(value))
      ensures device.requests == old(device.requests) +
                (if connected && value != old(value) then [SliderToBacklight(device.max, value)] else [])
    {
      minimum := lo;
      maximum := if hi < lo then lo else hi;
      var bounded := Bound(minimum, maximum, value);
      if bounded != value {
        value := bounded;
        if connected {
          SliderValueChanged(value);
        }
      }
    }

    /** `QAbstractSlider::setMaximum` */
    method SetMaximum(hi: int)
      modifies this`minimum, this`maximum, this`value, device`requests
      ensures Valid() && minimum == (if hi < old(minimum) then hi else old(minimum)) && maximum == hi
      ensures value == Bound(minimum, maximum, old(value))
      ensures device.requests == old(device.requests) +
                (if connected && value != old(value) then [SliderToBacklight(device.max, value)] else [])
    {
      SetRange(if hi < minimum then hi else minimum, hi);
    }

    /** `QAbstractSlider::setMinimum` */
    method SetMinimum(lo: int)
      modifies this`minimum, this`maximum, this`value, device`requests
      ensures Valid() && minimum == lo && maximum == (if old(maximum) < lo then lo else old(maximum))
      ensures value == Bound(minimum, maximum, old(value))
      ensures device.requests == old(device.requests) +
                (if connected && value != old(value) then [SliderToBacklight(device.max, value)] else [])
    {
      SetRange(lo, if maximum < lo then lo else maximum);
    }

    /** `updateBacklight`: shows the device's level on the slider. */
    method UpdateBacklight()
      requires Valid()
      modifies this`value, device`requests
      ensures Valid() && value == Bound(minimum, maximum, BacklightToSlider(device.max, device.level))
      ensures device.requests == old(device.requests) +
                (if connected && value != old(value) then [SliderToBacklight(device.max, value)] else [])
    {
      var maxBacklight := device.max;
      var v := device.level;
      if maxBacklight - MIN_BACKLIGHT > STEPS && v > LOW_STEPS {
        v := (v * (STEPS + LOW_STEPS)) / maxBacklight;
      }
      SetValue(v);
    }

    /** `sliderValueChanged` with `setBacklight`: requests the backlight for a slider value. */
    method SliderValueChanged(v: int)
      modifies device`requests
      ensures device.requests == old(device.requests) + [SliderToBacklight(device.max, v)]
    {
      var maxBacklight := device.max;
      var target := v;
      if maxBacklight - MIN_BACKLIGHT > STEPS && target > LOW_STEPS {
        target := (target * maxBacklight) / (STEPS + LOW_STEPS);
      }
      device.SetBacklight(target);
    }

    /** `upButtonClicked`: one position up; at the top nothing is requested. */
    method UpButtonClicked()
      requires Valid()
      modifies this`value, device`requests
      ensures Valid() && value == Bound(minimum, maximum, old(value) + 1)
      ensures device.requests == old(device.requests) +
                (if connected && old(value) < maximum then [SliderToBacklight(device.max, old(value) + 1)] else [])
    {
      SetValue(value + 1);
    }

    /** `downButtonClicked`: one position down; at the bottom nothing is requested. */
    method DownButtonClicked()
      requires Valid()
      modifies this`value, device`requests
      ensures Valid() && value == Bound(minimum, maximum, old(value) - 1)
      ensures device.requests == old(device.requests) +
                (if connected && old(value) > minimum then [SliderToBacklight(device.max, old(value) - 1)] else [])
    {
      SetValue(value - 1);
    }
  }
}
