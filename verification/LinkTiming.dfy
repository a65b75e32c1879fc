/** The retransmission timeout against the line rate. */
module LinkTiming {
  import opened Bytes
  import opened LinkFrames
  import FrameCodec

  function Max(a: nat, b: nat): nat {
    if a > b then a else b
  }

  /** In milliseconds. */
  function EffectiveRto(baudRate: nat, rtoMs: nat, windowSize: nat): nat {
    var bytesPerSec := Max(baudRate, 1200) / 10;
    var windowMs := windowSize * (MAX_PAYLOAD_SIZE + 32) * 1000 / bytesPerSec;
    Max(rtoMs, windowMs + 200)
  }

  /** The bits a window of largest frames takes, at ten to the byte. */
  function WindowBits(windowSize: nat): nat {
    windowSize * FrameCodec.MAX_WIRE_SIZE * 10
  }

  /** A timeout past `n / d` covers `n` units at a rate of at least `10 * d`. */
  lemma RoundedUpCovers(n: nat, d: nat, rate: nat, rto: nat)
    requires d > 0 && 10 * d <= rate && rto >= n / d + 1
    ensures rto * rate >= 10 * n
  {
    var q := n / d;
    MulMonotone(q + 1, rto, rate);
    MulMonotone(10 * d, rate, q + 1);
    assert (10 * d) * (q + 1) == 10 * (d * q + d);
    assert n < d * q + d;
  }

  lemma MulMonotone(a: nat, b: nat, c: nat)
    requires a <= b
    ensures a * c <= b * c
  {
  }

  /** From 1200 baud up, a full window of largest frames is off the wire before the timeout. */
  lemma RtoCoversWindow(baudRate: nat, rtoMs: nat, windowSize: nat)
    requires baudRate >= 1200
    ensures EffectiveRto(baudRate, rtoMs, windowSize) * baudRate >= WindowBits(windowSize) * 1000
  {
    var n := windowSize * (MAX_PAYLOAD_SIZE + 32) * 1000;
    RoundedUpCovers(n, baudRate / 10, baudRate, EffectiveRto(baudRate, rtoMs, windowSize));
    assert 10 * n >= WindowBits(windowSize) * 1000;
  }

  /** Exactly from 1200 baud up the timeout covers every window. Below, the rate is taken for 1200,
      and a window of `rtoMs + 10` frames is already too much. */
  lemma RtoCoversWindowsIff(baudRate: nat, rtoMs: nat)
    ensures (forall w: nat :: EffectiveRto(baudRate, rtoMs, w) * baudRate >= WindowBits(w) * 1000)
       <==> baudRate >= 1200
  {
    if baudRate >= 1200 {
      forall w: nat ensures EffectiveRto(baudRate, rtoMs, w) * baudRate >= WindowBits(w) * 1000 {
        RtoCoversWindow(baudRate, rtoMs, w);
      }
    } else {
      ClampedRto(baudRate, rtoMs, rtoMs + 10);
    }
  }

  /** Below the clamp the timeout follows from the window alone, and is too short. */
  lemma ClampedRto(baudRate: nat, rtoMs: nat, w: nat)
    requires baudRate < 1200 && w >= rtoMs + 10
    ensures EffectiveRto(baudRate, rtoMs, w) * baudRate < WindowBits(w) * 1000
  {
    var ms := w * 34400;
    assert w * (MAX_PAYLOAD_SIZE + 32) * 1000 == ms * 120;
    assert ms * 120 / 120 == ms;
    assert EffectiveRto(baudRate, rtoMs, w) == ms + 200;
    MulMonotone(baudRate, 1199, ms + 200);
  }

  /** Nor is it longer than asked for or needed: never below the configured time, and past that at most
      200 ms over what the window takes at the clamped rate. */
  lemma RtoTight(baudRate: nat, rtoMs: nat, windowSize: nat)
    ensures var rto := EffectiveRto(baudRate, rtoMs, windowSize);
      var rate := (if baudRate > 1200 then baudRate else 1200) / 10;
      && rto >= rtoMs && rto >= 200
      && (rto > rtoMs ==> (rto - 200) * rate <= windowSize * 4128 * 1000 < (rto - 199) * rate)
  {
    var n, rate := windowSize * 4128 * 1000, Max(baudRate, 1200) / 10;
    Quotient(n, rate);
  }

  lemma Quotient(n: nat, d: nat)
    requires d > 0
    ensures n / d * d <= n < (n / d + 1) * d
  {
    assert n == n / d * d + n % d;
    assert (n / d + 1) * d == n / d * d + d;
  }
}
