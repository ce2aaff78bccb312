/**
 Rounding a volume to the steps of the device, once in the command line tool
 and once in the driver. Values are in 1/256 dB, as in section 5.2.2.4.3.2 of
 USB Audio Class 1.0, held in 16 signed bits.
 */
module Volume {
  import opened Common

  const S16_MAX := 32767
  const S16_MIN := -32768
  const EIO := 5
  const ENOMEM := 12
  const EINVAL := 22

  /** C's division, which truncates towards zero. */
  function Quotient(a: int, b: int): (q: int)
    requires b > 0
    ensures if a >= 0 then q * b <= a < q * b + b else q * b - b < a <= q * b
  {
    if a >= 0 then a / b else -(-a / b)
  }

  /** Conversion to `s16` and to a 32-bit `int`. */
  function ToS16(x: int): (r: int)
    ensures S16_MIN <= r <= S16_MAX && (x - r) % 0x1_0000 == 0
  {
    (x - S16_MIN) % 0x1_0000 + S16_MIN
  }

  function ToInt(x: int): (r: int)
    ensures -0x8000_0000 <= r < 0x8000_0000 && (x - r) % 0x1_0000_0000 == 0
  {
    (x + 0x8000_0000) % 0x1_0000_0000 - 0x8000_0000
  }

  function Clamp(v: int, lo: int, hi: int): int {
    if v < lo then lo else if v > hi then hi else v
  }

  /** An offset from the minimum, rounded to a number of steps. */
  function Rounded(off: int, step: int): int
    requires step > 0
  {
    Quotient(off + step / 2, step) * step
  }

  /** `snap_to_res`. */
  function Snap(v: int, min: int, max: int, res: int): int {
    var step := if res <= 0 then 1 else res;
    Clamp(min + Rounded(v - min, step), min, max)
  }

  /** The limits a device can report and a driver can work with. */
  predicate Limits(min: int, max: int, res: int) {
    S16_MIN <= min <= max <= S16_MAX && 0 < res <= S16_MAX
  }

  // ---- Rounding ----

  lemma NearestMultiple(off: int, step: int)
    requires step > 0 && off >= 0
    ensures var r := Rounded(off, step);
      && r == (off + step / 2) / step * step && 0 <= r
      && r - off <= step / 2 && 2 * (off - r) < step + 1
  {
    var k := (off + step / 2) / step;
    assert off + step / 2 == k * step + (off + step / 2) % step;
  }

  lemma NonPositive(q: int, step: int)
    requires q <= 0 && step > 0
    ensures q * step <= 0
  {
  }

  lemma QuotientSign(a: int, b: int)
    requires b > 0 && a < b
    ensures Quotient(a, b) <= 0
  {
    if a >= 0 {
      Divided(a, b, 0, a);
    } else {
      var k := -a / b;
      assert -a == k * b + -a % b && (k + 1) * b == k * b + b;
      if k < 0 {
        NonPositive(k + 1, b);
      }
    }
  }

  /** Quotient and rest are unique. */
  lemma Divided(a: int, b: int, q: int, rest: int)
    requires b > 0 && a == q * b + rest && 0 <= rest < b
    ensures a / b == q
  {
    var k := a / b;
    assert a == k * b + a % b;
    if k < q {
      MulLess(k, q, b);
    } else if q < k {
      MulLess(q, k, b);
    }
  }

  /** Below the minimum the rounded offset is not positive. */
  lemma BelowMinimum(off: int, step: int)
    requires step > 0 && off < 0
    ensures Rounded(off, step) <= 0
  {
    QuotientSign(off + step / 2, step);
    NonPositive(Quotient(off + step / 2, step), step);
  }

  lemma MulLess(a: int, b: int, step: int)
    requires step > 0 && a < b
    ensures a * step + step <= b * step
  {
    assert (b - a - 1) * step >= 0;
    assert b * step == a * step + step + (b - a - 1) * step;
  }

  lemma QuotientMonotone(a: int, b: int, step: int)
    requires step > 0 && 0 <= a <= b
    ensures a / step * step <= b / step * step
  {
    var q, q' := a / step, b / step;
    assert a == q * step + a % step && b == q' * step + b % step;
    if q' < q {
      MulLess(q', q, step);
    }
  }

  lemma RoundedMonotone(a: int, b: int, step: int)
    requires step > 0 && 0 <= a <= b
    ensures Rounded(a, step) <= Rounded(b, step)
  {
    QuotientMonotone(a + step / 2, b + step / 2, step);
  }

  /** A whole number of steps is left alone. */
  lemma RoundedMultiple(k: int, step: int)
    requires step > 0 && k >= 0
    ensures Rounded(k * step, step) == k * step
  {
    NonPositive(-k, step);
    assert -k * step == -(k * step);
    Divided(k * step + step / 2, step, k, step / 2);
  }

  // ---- What the tool computes ----

  /**
   Snapping stays in range, sends what lies below to the minimum and moves what lies inside by at
   most half a step.
   */
  lemma SnapIsClose(v: int, min: int, max: int, res: int)
    requires Limits(min, max, res)
    ensures var s := Snap(v, min, max, res);
      min <= s <= max && (v <= min ==> s == min) && (min <= v <= max ==> Distance(s, v) <= res / 2)
  {
    if v < min {
      BelowMinimum(v - min, res);
    } else {
      NearestMultiple(v - min, res);
      RoundedMultiple(0, res);
    }
  }

  /** A device that reports no step gets the value itself, as far as it is in range. */
  lemma SnapWithoutStep(v: int, min: int, max: int, res: int)
    requires min <= max && res <= 0
    ensures Snap(v, min, max, res) == if v < min then min else if v > max then max else v
  {
  }

  /** No step in range is nearer to the value than the one snapped to. */
  lemma SnapIsNearest(v: int, min: int, max: int, res: int, k: nat)
    requires Limits(min, max, res) && min <= v <= max && min + k * res <= max
    ensures Distance(Snap(v, min, max, res), v) <= Distance(min + k * res, v)
  {
    var n := (v - min + res / 2) / res;
    NearestMultiple(v - min, res);
    if k < n {
      MulLess(k, n, res);
    } else if n < k {
      MulLess(n, k, res);
    }
  }

  function Distance(a: int, b: int): int {
    if a < b then b - a else a - b
  }

  /** A louder request never gives a softer volume. */
  lemma SnapIsMonotone(v: int, w: int, min: int, max: int, res: int)
    requires Limits(min, max, res) && v <= w
    ensures Snap(v, min, max, res) <= Snap(w, min, max, res)
  {
    if v < min {
      BelowMinimum(v - min, res);
    } else {
      RoundedMonotone(v - min, w - min, res);
    }
  }

  /** A snapped value below the maximum is a whole number of steps. */
  lemma SnappedStays(v: int, min: int, max: int, res: int)
    requires Limits(min, max, res)
    ensures var s := Snap(v, min, max, res);
      s < max ==> min + Rounded(s - min, res) == s
  {
    if v < min {
      BelowMinimum(v - min, res);
      RoundedMultiple(0, res);
    } else if Snap(v, min, max, res) < max {
      var n := (v - min + res / 2) / res;
      NearestMultiple(v - min, res);
      assert Snap(v, min, max, res) == min + n * res;
      RoundedMultiple(n, res);
    }
  }

  /** If a value in range snaps to the maximum, the maximum does not round down. */
  lemma TopReached(v: int, min: int, max: int, res: int)
    requires Limits(min, max, res) && min <= v <= max && Snap(v, min, max, res) == max
    ensures min + Rounded(max - min, res) >= max
  {
    RoundedMonotone(v - min, max - min, res);
    assert min + Rounded(v - min, res) >= max || min == max;
    if min == max {
      RoundedMultiple(0, res);
    }
  }

  /**
   Snapping a second time changes nothing exactly when the first result is below the maximum or the
   maximum does not round down; for values in range that is always so.
   */
  lemma SnapTwice(v: int, min: int, max: int, res: int)
    requires Limits(min, max, res)
    ensures var s := Snap(v, min, max, res);
      && (Snap(s, min, max, res) == s <==> s < max || min + Rounded(max - min, res) >= max)
      && (min <= v <= max ==> Snap(s, min, max, res) == s)
  {
    var s, top := Snap(v, min, max, res), min + Rounded(max - min, res);
    if s < max {
      SnappedStays(v, min, max, res);
    } else {
      assert Snap(s, min, max, res) == Clamp(top, min, max);
      if min == max {
        RoundedMultiple(0, res);
      } else if min <= v <= max {
        TopReached(v, min, max, res);
      }
    }
  }

  // ---- What the driver sends ----

  /** The rounding of `_uac_set_volume`, with the sum stored into an `s16`. */
  function DriverRounds(v: int, min: int, max: int, res: int): int
    requires res > 0
  {
    Clamp(ToS16(min + Rounded(v - min, res)), min, max)
  }

  /** The outcome of `kmalloc` and what `usb_control_msg` returns for a message of two bytes. */
  datatype Message = Message(kmallocOk: bool, reply: int) {
    predicate Done() {
      kmallocOk && reply == 2
    }
  }

  class UacDev {
    var minVol: int
    var maxVol: int
    var resVol: int

    constructor (min: int, max: int, res: int)
      requires Limits(min, max, res)
      ensures Valid() && (minVol, maxVol, resVol) == (min, max, res)
    {
      minVol, maxVol, resVol := min, max, res;
    }

    predicate Valid()
      reads this
    {
      Limits(minVol, maxVol, resVol)
    }

    /** `_uac_set_volume` for one channel; `sent` is the value in the message. */
    method SetChannel(v: int, m: Message) returns (ret: int, sent: Option<int>)
      requires Valid() && S16_MIN <= v <= S16_MAX
      ensures ret == 0 <==> m.Done()
      ensures !m.Done() ==> ret == if !m.kmallocOk then -ENOMEM else if m.reply < 0 then m.reply else -EIO
      ensures sent == if m.kmallocOk then Some(DriverRounds(v, minVol, maxVol, resVol)) else None
    {
      if !m.kmallocOk {
        return -ENOMEM, None;
      }
      var vol := v;
      var offset := vol - minVol;
      offset := Quotient(offset + resVol / 2, resVol) * resVol;
      vol := ToS16(minVol + offset);
      if vol < minVol {
        vol := minVol;
      }
      if vol > maxVol {
        vol := maxVol;
      }
      sent := Some(vol);
      if m.reply != 2 {
        ret := if m.reply < 0 then m.reply else -EIO;
      } else {
        ret := 0;
      }
    }

    /** The set-volume ioctl: the left channel, then the right one, up to the first failure. */
    method SetVolume(v: int, l: Message, r: Message) returns (ret: int, left: Option<int>, right: Option<int>)
      requires Valid() && S16_MIN <= v <= S16_MAX
      ensures ret == 0 <==> minVol <= v <= maxVol && l.Done() && r.Done()
      ensures left.Some? <==> minVol <= v <= maxVol && l.kmallocOk
      ensures right.Some? <==> minVol <= v <= maxVol && l.Done() && r.kmallocOk
      ensures left.Some? ==> left.value == DriverRounds(v, minVol, maxVol, resVol)
      ensures right.Some? ==> right == left
    {
      left, right := None, None;
      if v < minVol || v > maxVol {
        return -EINVAL, left, right;
      }
      ret, left := SetChannel(v, l);
      if ret < 0 {
        return;
      }
      ret, right := SetChannel(v, r);
    }
  }

  lemma S16Wraps(x: int)
    requires S16_MIN <= x < S16_MIN + 0x2_0000
    ensures ToS16(x) == if x <= S16_MAX then x else x - 0x1_0000
  {
  }

  /** In range, driver and tool round alike exactly when the rounded value fits into 16 bits. */
  lemma DriverAgreesWithTool(v: int, min: int, max: int, res: int)
    requires Limits(min, max, res) && min <= v <= max
    ensures DriverRounds(v, min, max, res) == Snap(v, min, max, res) <==> min + Rounded(v - min, res) <= S16_MAX
  {
    NearestMultiple(v - min, res);
    RoundedMultiple(0, res);
    S16Wraps(min + Rounded(v - min, res));
  }

  /** In range, a rounded value that does not fit comes out negative, or as the minimum if that is higher. */
  lemma DriverWraps(v: int, min: int, max: int, res: int)
    requires Limits(min, max, res) && min <= v <= max && min + Rounded(v - min, res) > S16_MAX
    ensures var low := min + Rounded(v - min, res) - 0x1_0000;
      low < 0 && DriverRounds(v, min, max, res) == if low < min then min else low
  {
    NearestMultiple(v - min, res);
    S16Wraps(min + Rounded(v - min, res));
  }

  /** What the tool computes from a raw argument: conversion to `int`, snapping, clamping. */
  function RawVolume(v: int, min: int, max: int, res: int): int {
    Clamp(Snap(ToInt(v), min, max, res), min, max)
  }

  /**
   Whatever raw value is asked for, the driver sends the tool's result unchanged exactly when that is
   below the maximum, or the maximum rounds neither down nor past 16 bits.
   */
  lemma DriverKeepsToolResult(v: int, min: int, max: int, res: int)
    requires Limits(min, max, res)
    ensures var u := RawVolume(v, min, max, res);
      && min <= u <= max
      && (DriverRounds(u, min, max, res) == u <==> u < max || max <= min + Rounded(max - min, res) <= S16_MAX)
      && (min <= ToInt(v) <= max && max + res / 2 <= S16_MAX ==> DriverRounds(u, min, max, res) == u)
  {
    var u := RawVolume(v, min, max, res);
    SnapTwice(ToInt(v), min, max, res);
    DriverAgreesWithTool(u, min, max, res);
    NearestMultiple(max - min, res);
    if u < max {
      SnappedStays(ToInt(v), min, max, res);
    } else {
      TopWraps(min, max, res);
    }
  }

  /** If the maximum rounds past 16 bits, the driver does not send it. */
  lemma TopWraps(min: int, max: int, res: int)
    requires Limits(min, max, res)
    ensures min + Rounded(max - min, res) > S16_MAX ==> DriverRounds(max, min, max, res) < max
  {
    NearestMultiple(max - min, res);
    RoundedMultiple(0, res);
    S16Wraps(min + Rounded(max - min, res));
  }

  /** A device from 0 to 32767 in steps of one decibel: asking for the loudest volume sends the softest. */
  lemma LoudestBecomesSoftest()
    ensures Snap(32767, 0, 32767, 256) == 32767 && DriverRounds(32767, 0, 32767, 256) == 0
  {
  }

  /**
   With a step more than twice the range, a raw value far enough above the maximum makes the tool ask
   for the maximum and the driver send the minimum.
   */
  lemma AboveMaximumIsRoundedTwice(v: int, min: int, max: int, res: int)
    requires Limits(min, max, res) && min < max && 2 * (max - min) < res <= 2 * (v - min) && v == ToInt(v)
    ensures RawVolume(v, min, max, res) == max && DriverRounds(max, min, max, res) == min
  {
    Divided(max - min + res / 2, res, 0, max - min + res / 2);
    assert Rounded(max - min, res) == 0;
    Divided(res, res, 1, 0);
    QuotientMonotone(res, v - min + res / 2, res);
    assert Rounded(v - min, res) >= res;
  }
}
