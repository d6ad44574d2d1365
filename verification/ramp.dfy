/**
 The brightness ramp run by `main` in src/led.py: a counter starting at 0 is
 applied as the duty cycle, then incremented modulo 101, forever. The 50 ms
 sleep between iterations is not modelled; each iteration is one step, and a
 run is cut off after a given number of steps.
 */
module Ramp {
  import opened PyNum
  import opened Led

  /** `duty += 1; duty %= 101`. Python's `%` rounds towards negative
      infinity; for the positive divisor 101 it agrees with Dafny's `%`. */
  function Next(s: int): (r: int)
    ensures 0 <= r <= 100
    ensures 0 <= s < 100 ==> r == s + 1
    ensures s == 100 ==> r == 0
  {
    (s + 1) % 101
  }

  /** The counter after `k` further steps from `s`. */
  function Iterate(k: nat, s: int): int
  {
    if k == 0 then s else Next(Iterate(k - 1, s))
  }

  /** The counter's step, seen on an unbounded iteration index. */
  lemma CounterAdvances(m: nat)
    ensures Next(m % 101) == (m + 1) % 101
  {
    var q, r := m / 101, m % 101;
    assert m == 101 * q + r;
    if r < 100 {
      assert m + 1 == 101 * q + (r + 1);
    } else {
      assert m + 1 == 101 * (q + 1);
    }
  }

  /** From a counter in range, `k` steps advance it by `k` modulo 101. */
  lemma {:induction false} IterateAdvances(k: nat, s: int)
    requires 0 <= s <= 100
    ensures Iterate(k, s) == (s + k) % 101
  {
    if k > 0 {
      IterateAdvances(k - 1, s);
      CounterAdvances(s + k - 1);
    }
  }

  /** Shifting a counter in range by `k` gives it back exactly when `k` is a
      multiple of 101. */
  lemma ShiftReturns(s: int, k: nat)
    requires 0 <= s <= 100
    ensures (s + k) % 101 == s <==> k % 101 == 0
  {
    var q, r := k / 101, k % 101;
    assert s + k == 101 * q + (s + r);
    if s + r >= 101 {
      assert s + k == 101 * (q + 1) + (s + r - 101);
    }
  }

  /** The counter cycles with period exactly 101: `k` steps bring it back to
      where it was if and only if `k` is a multiple of 101. */
  lemma CounterPeriod(s: int, k: nat)
    requires 0 <= s <= 100
    ensures Iterate(k, s) == s <==> k % 101 == 0
  {
    IterateAdvances(k, s);
    ShiftReturns(s, k);
  }

  /** The state of `main` between iterations: the counter and everything
      written to the channel and console so far. */
  datatype RampState = RampState(duty: int, out: Outputs)

  /** The state before the first iteration. */
  const Start := RampState(0, Fresh)

  /** One iteration of the `while True` loop, without the sleep. */
  function Step(st: RampState): (st': RampState)
    ensures st'.out.channel == st.out.channel + [Clamp(FromInt(st.duty))]
    ensures st'.out.console == st.out.console + [Clamp(FromInt(st.duty))]
    ensures st'.duty == Next(st.duty)
    ensures 0 <= st'.duty <= 100
  {
    RampState(Next(st.duty), LedBrightness(st.out, FromInt(st.duty)))
  }

  /** The state after `n` iterations from the start. */
  function Run(n: nat): RampState
  {
    if n == 0 then Start else Step(Run(n - 1))
  }

  /** The duty applied at iteration `i` (counting from 0): `i % 101`. */
  function RampDuty(i: nat): Number
  {
    FromInt(i % 101)
  }

  /** After `n` iterations from the start the counter is `n % 101`. */
  lemma {:induction false} RunCounter(n: nat)
    ensures Run(n).duty == n % 101
  {
    if n > 0 {
      RunCounter(n - 1);
      CounterAdvances(n - 1);
    }
  }

  /** Appending the duty of iteration `m` to the trace of the first `m`
      iterations gives the trace of the first `m + 1`. */
  lemma ExtendTrace(trace: seq<Number>, m: nat, duty: int)
    requires |trace| == m
    requires forall i :: 0 <= i < m ==> trace[i] == RampDuty(i)
    requires duty == m % 101
    ensures forall i :: 0 <= i < m + 1 ==> (trace + [Clamp(FromInt(duty))])[i] == RampDuty(i)
  {
    assert Clamp(FromInt(duty)) == RampDuty(m);
  }

  /** After `n` iterations the channel has been set to `i % 101` at iteration
      `i`, and the console has reported the same values. */
  lemma {:induction false} RunTrace(n: nat)
    ensures |Run(n).out.channel| == n
    ensures forall i :: 0 <= i < n ==> Run(n).out.channel[i] == RampDuty(i)
    ensures Run(n).out.console == Run(n).out.channel
  {
    if n > 0 {
      var prev := Run(n - 1);
      RunTrace(n - 1);
      RunCounter(n - 1);
      ExtendTrace(prev.out.channel, n - 1, prev.duty);
    }
  }

  /** Every value written to the channel during the ramp is a valid duty
      cycle, and the counter stays in [0, 100]. */
  lemma RunInRange(n: nat)
    ensures 0 <= Run(n).duty <= 100
    ensures forall i :: 0 <= i < |Run(n).out.channel| ==> IsDuty(Run(n).out.channel[i])
  {
    RunCounter(n);
    RunTrace(n);
  }

  /** Within the first cycle the iteration index is the duty itself. */
  lemma RampDutyFirstCycle(j: nat)
    requires j <= 100
    ensures RampDuty(j) == FromInt(j)
  {
  }

  /** The first 102 values written are 0, 1, ..., 100 and then 0 again. */
  lemma FirstCycle(n: nat)
    requires n >= 102
    ensures |Run(n).out.channel| >= 102
    ensures forall j :: 0 <= j <= 100 ==> Run(n).out.channel[j] == FromInt(j)
    ensures Run(n).out.channel[101] == FromInt(0)
  {
    RunTrace(n);
    forall j | 0 <= j <= 100
      ensures Run(n).out.channel[j] == FromInt(j)
    {
      RampDutyFirstCycle(j);
    }
    assert RampDuty(101) == FromInt(0);
  }

  /** The applied duties repeat every 101 iterations. */
  lemma AppliedPeriodic(n: nat, i: nat)
    requires i + 101 < n
    ensures |Run(n).out.channel| == n
    ensures Run(n).out.channel[i + 101] == Run(n).out.channel[i]
  {
    RunTrace(n);
    assert (i + 101) % 101 == i % 101;
  }

  /** `main` run for `n` iterations: the counter loop, writing each value
      through `led_brightness`. */
  method MainLoop(n: nat) returns (duty: int, out: Outputs)
    ensures duty == n % 101
    ensures |out.channel| == n
    ensures forall i :: 0 <= i < n ==> out.channel[i] == RampDuty(i)
    ensures out.console == out.channel
    ensures RampState(duty, out) == Run(n)
  {
    duty := 0;
    out := Fresh;
    var i := 0;
    while i < n
      invariant 0 <= i <= n
      invariant RampState(duty, out) == Run(i)
    {
      out := LedBrightness(out, FromInt(duty));
      duty := duty + 1;
      duty := duty % 101;
      i := i + 1;
    }
    RunCounter(n);
    RunTrace(n);
  }
}
