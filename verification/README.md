# LED brightness ramp — Dafny model

This project models the control logic of a MicroPython program that drives one LED with PWM (pulse-width modulation). The program has two pieces of logic, both in `src/led.py`:

- `led_brightness(channel, duty)` clamps the requested duty cycle into [0, 100]. It writes the clamped value to the PWM timer channel (`pulse_width_percent`) and prints a status line that reports the same clamped value.
- `main` keeps a counter that starts at 0. Each iteration of its endless loop passes the counter to `led_brightness`, sleeps 50 ms, and then sets `duty += 1; duty %= 101`.

Files:

- `pynum.dfy` (module `PyNum`): the numbers `led_brightness` can receive. A Python int or finite float is an exact `real`. A float can also be `PosInf`, `NegInf` or `NaN`. `Less` and `Greater` model Python's `<` and `>` against the literals 0 and 100. Every comparison with NaN is false.
- `led.dfy` (module `Led`): `Clamp`, and `LedBrightness` acting on `Outputs`. `Outputs` holds two sequences. `channel` is every percentage passed to `channel.pulse_width_percent`, in order. `console` is every percentage printed in a status line, in order. The clamp has an independent reference definition, `Nearest`: the point of [0, 100] closest to the input.
- `ramp.dfy` (module `Ramp`): the counter step `Next`, the functional loop `Step`/`Run`, and `MainLoop`. `MainLoop` is the imperative loop cut off after `n` iterations, with invariants tying it to `Run`.

One behaviour of the source is easy to miss. A float NaN fails both `duty < 0` and `duty > 100`, so `led_brightness` passes it to the channel unchanged. The model keeps that behaviour. The [0, 100] bound is therefore proved for every input except NaN (`Clamp`, `LedBrightness`). The ramp only ever passes ints, so every value it applies is in range (`Ramp.RunInRange`).

## Model

| member | source | states |
|---|---|---|
| Led.Clamp | src/led.py:35-39 | Inputs below 0, including -inf, become exactly 0. Inputs above 100, including +inf, become exactly 100. Inputs in [0, 100] are kept, so 0 and 100 are fixed. The result is a valid duty exactly when the input is not NaN; NaN passes through. |
| Led.ClampIsNearest | src/led.py:35-39 | For a finite duty, the clamped value is the point of [0, 100] closest to the request. |
| Led.NearestIsUnique | src/led.py:35-39 | The closest point of [0, 100] to a real is unique, so the nearest-point reference pins down a single value. |
| Led.ClampIffNearest | src/led.py:35-39 | For finite input, `Clamp` returns `r` if and only if `r` is the closest valid duty to the input. |
| Led.ClampIdempotent | src/led.py:35-39 | 0 and 100 are fixed points. Clamping an already clamped value changes nothing. |
| Led.ClampMonotone | src/led.py:35-39 | A larger requested duty never yields a smaller applied duty. |
| Led.LedBrightness | src/led.py:27-42 | One call writes exactly one value to the channel and reports exactly one value, and leaves earlier history alone. The reported value equals the written value, which is the clamped duty rather than the raw input. Below 0 writes 0, above 100 writes 100, in range writes the input. Any non-NaN input writes a value in [0, 100]. No input is refused. |
| Led.BrightnessExamples | src/led.py:35-42 | On a fresh channel, -10 is written and reported as 0, 37 as 37, 250 as 100, and 42.5 unrounded. -inf becomes 0, +inf becomes 100, and NaN is written unchanged. |
| Led.ReportedMatchesApplied | src/led.py:41-42 | After any sequence of calls, the console has reported exactly the values written to the channel, and the i-th written value is the clamp of the i-th request. |
| Ramp.Next | src/led.py:64-65 | The counter step always lands in [0, 100]. It is `s + 1` for `s` in [0, 100) and wraps 100 to 0. |
| Ramp.CounterAdvances | src/led.py:64-65 | Stepping the counter `m % 101` gives `(m + 1) % 101`, so the counter follows the iteration index modulo 101. |
| Ramp.IterateAdvances | src/led.py:64-65 | From a counter in [0, 100], `k` steps give `(s + k) % 101`. |
| Ramp.ShiftReturns | src/led.py:64-65 | Adding `k` to a counter in [0, 100] and reducing modulo 101 gives the counter back exactly when `k` is a multiple of 101. |
| Ramp.CounterPeriod | src/led.py:64-65 | `k` steps return an in-range counter to itself if and only if `k` is a multiple of 101: the period is exactly 101. |
| Ramp.Step | src/led.py:58-65 | One loop iteration writes the clamped counter to the channel and reports it. It advances the counter by `Next`, so the counter stays in [0, 100]. |
| Ramp.RunCounter | src/led.py:54-65 | Starting from 0, after `n` iterations the counter is `n % 101`. |
| Ramp.ExtendTrace | src/led.py:60-65 | If the first `m` written values are `i % 101` and the counter is `m % 101`, the next iteration extends that pattern by one value. |
| Ramp.RunTrace | src/led.py:54-65 | Starting from 0, after `n` iterations exactly `n` values have been written, the one at iteration `i` being `i % 101`, and the console has reported the same sequence. |
| Ramp.RunInRange | src/led.py:54-65 | The counter stays in [0, 100] and every value the ramp writes is a valid duty. |
| Ramp.FirstCycle | src/led.py:54-65 | The first 102 values written are 0, 1, …, 100 and then 0. |
| Ramp.AppliedPeriodic | src/led.py:54-65 | The sequence of written duties repeats with period 101. |
| Ramp.MainLoop | src/led.py:53-65 | The `n`-iteration loop ends with counter `n % 101`. It has written `i % 101` at each iteration `i` and reported the same values, and it agrees with the functional `Run(n)`. |

## Left out

- `led_setup` (src/led.py:13-25): configuring pin PA0 and timer 2 channel 1 is a call into the `pyb` hardware API and holds no logic. The channel is only the sequence of values written to it. The 1000 Hz frequency and the inverted polarity are not modelled.
- `utime.sleep_ms(50)` (src/led.py:62): real-time delay. Each iteration is one abstract step, so timing and the roughly 5 s ramp period are not modelled.
- The endless `while True` (src/led.py:58): modelled as runs of `n` iterations, for every `n`.
- The text of the status line (src/led.py:42): only the reported number is recorded. The f-string formatting (`37` versus `37.0`) is not modelled.
- The interleaving of channel writes and status lines: the two are kept as separate sequences. Each call adds exactly one value to each, so only the write-before-print order inside one call (src/led.py:41-42) is not recorded.
- The `__name__ == '__main__'` dispatch (src/led.py:69-70): process entry, no logic.
- Number types: only Python ints and floats are modelled. Arbitrary objects that define `<` and `>`, and `Decimal` (whose NaN raises on comparison), are not. What the hardware does with a NaN duty is not modelled either.
- Led.Clamp: the in-range bound is stated for every input except NaN, because the source's two comparisons let NaN through unchanged.
