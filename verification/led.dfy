/**
 Brightness control of the LED (`led_brightness` in src/led.py): the requested
 duty is clamped into [0, 100], the clamped value is written to the PWM timer
 channel and the same value is reported on the console.

 The channel and the console are modelled by the sequences of values sent to
 them; the PWM hardware behind the channel is not modelled, only what is
 written to it. Within one call the write comes before the report.
 */
module Led {
  import opened PyNum

  /** The duty cycle actually used for a requested `duty`: below 0 becomes 0,
      above 100 becomes 100, anything else is kept. NaN compares false against
      both bounds and is therefore kept as it is. */
  function Clamp(duty: Number): (r: Number)
    ensures duty != NaN <==> IsDuty(r)
    ensures duty == NaN ==> r == NaN
    ensures Less(duty, 0.0) ==> r == Finite(0.0)
    ensures Greater(duty, 100.0) ==> r == Finite(100.0)
    ensures IsDuty(duty) ==> r == duty
  {
    if Less(duty, 0.0) then Finite(0.0)
    else if Greater(duty, 100.0) then Finite(100.0)
    else duty
  }

  /** Distance between two reals. */
  function Dist(a: real, b: real): real
  {
    if a <= b then b - a else a - b
  }

  /** `r` is the point of [0, 100] closest to `d`. */
  ghost predicate Nearest(r: real, d: real)
  {
    && 0.0 <= r <= 100.0
    && forall y :: 0.0 <= y <= 100.0 ==> Dist(r, d) <= Dist(y, d)
  }

  /** Clamping a finite duty picks the closest valid duty cycle. */
  lemma ClampIsNearest(d: real)
    ensures Clamp(Finite(d)).Finite?
    ensures Nearest(Clamp(Finite(d)).value, d)
  {
  }

  /** There is only one closest valid duty cycle. */
  lemma {:induction false} NearestIsUnique(d: real, a: real, b: real)
    requires Nearest(a, d) && Nearest(b, d)
    ensures a == b
  {
    assert Dist(a, d) <= Dist(b, d) && Dist(b, d) <= Dist(a, d);
    if (a <= d <= b) || (b <= d <= a) {
      // d lies between two valid duty cycles, so it is one itself and both
      // are at distance 0 from it.
      assert 0.0 <= d <= 100.0;
      assert Dist(a, d) <= Dist(d, d) && Dist(b, d) <= Dist(d, d);
    }
  }

  /** For finite input, clamping is exactly the nearest-point projection onto
      [0, 100], in both directions. */
  lemma ClampIffNearest(d: real, r: real)
    ensures Clamp(Finite(d)) == Finite(r) <==> Nearest(r, d)
  {
    ClampIsNearest(d);
    if Nearest(r, d) {
      NearestIsUnique(d, r, Clamp(Finite(d)).value);
    }
  }

  /** 0 and 100 are fixed points, and clamping twice is clamping once. */
  lemma ClampIdempotent(duty: Number)
    ensures Clamp(Finite(0.0)) == Finite(0.0)
    ensures Clamp(Finite(100.0)) == Finite(100.0)
    ensures Clamp(Clamp(duty)) == Clamp(duty)
  {
  }

  /** A larger request never gives a dimmer setting. */
  lemma ClampMonotone(a: real, b: real)
    requires a <= b
    ensures Clamp(Finite(a)).value <= Clamp(Finite(b)).value
  {
  }

  /** Everything `led_brightness` has produced so far: the percentages written
      to the channel with `pulse_width_percent`, and the percentages reported
      in status lines `changing duty to "<duty>%"`, each in order. */
  datatype Outputs = Outputs(channel: seq<Number>, console: seq<Number>)

  /** Nothing written, nothing reported. */
  const Fresh := Outputs([], [])

  /** `led_brightness(channel, duty)`: write the clamped duty to the channel,
      then report it. Total: there is no failure path for any input. */
  function LedBrightness(out: Outputs, duty: Number): (out': Outputs)
    ensures |out'.channel| == |out.channel| + 1 && out'.channel[..|out.channel|] == out.channel
    ensures |out'.console| == |out.console| + 1 && out'.console[..|out.console|] == out.console
    ensures out'.console[|out.console|] == out'.channel[|out.channel|]
    ensures duty != NaN ==> IsDuty(out'.channel[|out.channel|])
    ensures Less(duty, 0.0) ==> out'.channel[|out.channel|] == Finite(0.0)
    ensures Greater(duty, 100.0) ==> out'.channel[|out.channel|] == Finite(100.0)
    ensures IsDuty(duty) ==> out'.channel[|out.channel|] == duty
    ensures out'.channel[|out.channel|] == Clamp(duty)
  {
    var d := Clamp(duty);
    Outputs(out.channel + [d], out.console + [d])
  }

  /** Single calls on a fresh channel: -10 is applied and reported as 0,
      37 as 37, 250 as 100, a fraction is kept unrounded, the float
      infinities go to the nearer bound, and NaN passes both checks. */
  lemma BrightnessExamples()
    ensures LedBrightness(Fresh, Finite(-10.0)) == Outputs([Finite(0.0)], [Finite(0.0)])
    ensures LedBrightness(Fresh, Finite(37.0)) == Outputs([Finite(37.0)], [Finite(37.0)])
    ensures LedBrightness(Fresh, Finite(250.0)) == Outputs([Finite(100.0)], [Finite(100.0)])
    ensures LedBrightness(Fresh, Finite(42.5)) == Outputs([Finite(42.5)], [Finite(42.5)])
    ensures LedBrightness(Fresh, NegInf) == Outputs([Finite(0.0)], [Finite(0.0)])
    ensures LedBrightness(Fresh, PosInf) == Outputs([Finite(100.0)], [Finite(100.0)])
    ensures LedBrightness(Fresh, NaN) == Outputs([NaN], [NaN])
  {
  }

  /** The outputs left by calling `led_brightness` with each of `duties` in
      turn on a fresh channel. */
  function BrightnessLog(duties: seq<Number>): Outputs
  {
    if duties == [] then Fresh
    else LedBrightness(BrightnessLog(duties[..|duties| - 1]), duties[|duties| - 1])
  }

  /** What is reported is what was applied: after any sequence of calls the
      console shows exactly the channel's values, and the `i`-th value written
      is the clamp of the `i`-th request. */
  lemma {:induction false} ReportedMatchesApplied(duties: seq<Number>)
    ensures BrightnessLog(duties).console == BrightnessLog(duties).channel
    ensures |BrightnessLog(duties).channel| == |duties|
    ensures forall i :: 0 <= i < |duties| ==> BrightnessLog(duties).channel[i] == Clamp(duties[i])
  {
    if duties != [] {
      var front := duties[..|duties| - 1];
      ReportedMatchesApplied(front);
      forall i | 0 <= i < |duties|
        ensures BrightnessLog(duties).channel[i] == Clamp(duties[i])
      {
        if i < |front| {
          assert BrightnessLog(duties).channel[i] == BrightnessLog(front).channel[i];
        }
      }
    }
  }
}
