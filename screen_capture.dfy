/**
 * The screen change gate of src/capture/screen_capture.py: the difference
 * ratio between frames, the save decision, the resize arithmetic, the file
 * naming, and the capture loop.
 *
 * Grabbing the screen (mss), the bilinear resampling (PIL) and the encoding
 * of the saved image are not modelled; the loop is driven by a given
 * sequence of grabbed frames. The ratio is computed exactly, as a rational,
 * where the source uses floats.
 */
module ScreenCapture {
  import opened Wrappers
  import opened Strings

  type Byte = x: int | 0 <= x < 256

  /** A captured frame: `height x width x channels` bytes, row-major. */
  datatype Image = Image(height: nat, width: nat, channels: nat, pixels: seq<Byte>)
  type Frame = f: Image | |f.pixels| == f.height * f.width * f.channels witness Image(0, 0, 0, [])

  datatype ScreenCaptureConfig = ScreenCaptureConfig(fps: int, quality: int, changeThreshold: real, resolutionCap: int, format: string)

  const DefaultConfig: ScreenCaptureConfig := ScreenCaptureConfig(3, 75, 0.1, 1080, "webp")

  predicate SameShape(a: Frame, b: Frame)
  {
    a.height == b.height && a.width == b.width && a.channels == b.channels
  }

  function Abs(x: int): nat
  {
    if x < 0 then -x else x
  }

  /** `sum(abs(a - b))` over int16 copies of the two arrays. */
  function SumAbsDiff(a: seq<Byte>, b: seq<Byte>): nat
    requires |a| == |b|
  {
    if a == [] then 0 else Abs(a[0] as int - b[0] as int) + SumAbsDiff(a[1..], b[1..])
  }

  /**
   * `_frame_difference_ratio`: 1.0 for frames of different shape, otherwise the
   * mean absolute byte difference over 255. None stands for the NaN the mean of
   * an empty array gives.
   */
  function DifferenceRatio(a: Frame, b: Frame): Option<real>
  {
    if !SameShape(a, b) then Some(1.0)
    else if |a.pixels| == 0 then None
    else Some((SumAbsDiff(a.pixels, b.pixels) as real) / ((|a.pixels| * 255) as real))
  }

  lemma {:induction false} SumAbsDiffBounds(a: seq<Byte>, b: seq<Byte>)
    requires |a| == |b|
    ensures SumAbsDiff(a, b) <= 255 * |a|
    ensures SumAbsDiff(a, b) == 0 <==> a == b
    ensures SumAbsDiff(a, b) == SumAbsDiff(b, a)
  {
    if a != [] {
      SumAbsDiffBounds(a[1..], b[1..]);
      assert a == [a[0]] + a[1..] && b == [b[0]] + b[1..];
    }
  }

  lemma QuotientAtMostOne(d: real, n: real)
    requires 0.0 <= d <= n && n > 0.0
    ensures 0.0 <= d / n <= 1.0
  {
    assert d / n * n == d;
  }

  /** The ratio lies in [0, 1], and does not depend on the order of the frames. */
  lemma RatioInUnitInterval(a: Frame, b: Frame)
    ensures DifferenceRatio(a, b).Some? ==> 0.0 <= DifferenceRatio(a, b).value <= 1.0
    ensures DifferenceRatio(a, b) == DifferenceRatio(b, a)
  {
    if SameShape(a, b) && |a.pixels| > 0 {
      SumAbsDiffBounds(a.pixels, b.pixels);
      QuotientAtMostOne(SumAbsDiff(a.pixels, b.pixels) as real, (|a.pixels| * 255) as real);
    }
  }

  /** Two non-empty frames of the same shape have ratio 0 iff they are identical. */
  lemma RatioZeroIffIdentical(a: Frame, b: Frame)
    requires SameShape(a, b) && |a.pixels| > 0
    ensures DifferenceRatio(a, b) == Some(0.0) <==> a == b
  {
    SumAbsDiffBounds(a.pixels, b.pixels);
    var d := SumAbsDiff(a.pixels, b.pixels) as real;
    var n := (|a.pixels| * 255) as real;
    if d / n == 0.0 {
      assert d == d / n * n;
    }
  }

  lemma {:induction false} SumAbsDiffExtremes(a: seq<Byte>, b: seq<Byte>)
    requires |a| == |b|
    requires forall k :: 0 <= k < |a| ==> a[k] == 0 && b[k] == 255
    ensures SumAbsDiff(a, b) == 255 * |a|
  {
    if a != [] {
      SumAbsDiffExtremes(a[1..], b[1..]);
      assert SumAbsDiff(a, b) == 255 + SumAbsDiff(a[1..], b[1..]);
      assert 255 * |a| == 255 + 255 * |a[1..]|;
    }
  }

  /** An all-black frame against an all-white frame of the same shape has ratio 1. */
  lemma RatioBlackWhite(a: Frame, b: Frame)
    requires SameShape(a, b) && |a.pixels| > 0
    requires forall k :: 0 <= k < |a.pixels| ==> a.pixels[k] == 0 && b.pixels[k] == 255
    ensures DifferenceRatio(a, b) == Some(1.0)
  {
    SumAbsDiffExtremes(a.pixels, b.pixels);
    var n := (|a.pixels| * 255) as real;
    assert SumAbsDiff(a.pixels, b.pixels) as real == n;
    assert n / n == 1.0;
  }

  /** Frames of different shapes always count as fully changed. */
  lemma RatioShapeChange(a: Frame, b: Frame)
    requires !SameShape(a, b)
    ensures DifferenceRatio(a, b) == Some(1.0)
  {
  }

  /**
   * `_should_save`: the first frame is always saved; a later one when its
   * ratio to the previously saved frame reaches the threshold (a NaN ratio
   * never does).
   */
  function ShouldSave(previous: Option<Frame>, frame: Frame, threshold: real): bool
  {
    match previous
    case None => true
    case Some(p) =>
      match DifferenceRatio(frame, p)
      case None => false
      case Some(r) => r >= threshold
  }

  /** With a positive threshold, a non-empty frame identical to the previous one is not saved. */
  lemma ShouldSaveRepeated(p: Frame, threshold: real)
    requires |p.pixels| > 0 && threshold > 0.0
    ensures !ShouldSave(Some(p), p, threshold)
  {
    RatioZeroIffIdentical(p, p);
  }

  // ---------------------------------------------------------------- resize

  /**
   * The shape `_resize_if_needed` produces, as (height, width): unchanged when
   * the longer side is within the cap, otherwise the longer side becomes the
   * cap and the other scales by `cap / longer`, truncated. None when that
   * division is by zero (a negative cap on an empty frame).
   */
  function ResizedShape(h: nat, w: nat, cap: int): Option<(int, int)>
  {
    if (if h >= w then h else w) <= cap then Some((h, w))
    else if h >= w then (if h == 0 then None else Some((cap, TruncDiv(w * cap, h))))
    else Some((TruncDiv(h * cap, w), cap))
  }

  /** `int(x)` of a non-negative quotient is its floor; for a negative one it truncates toward zero. */
  function TruncDiv(x: int, y: int): int
    requires y > 0
  {
    if x >= 0 then x / y else -((-x) / y)
  }

  /** Scaling the shorter side `b` of a frame whose longer side `a` exceeds the cap. */
  lemma ScaleShorterSide(a: nat, b: nat, cap: int)
    requires b <= a && cap < a && cap >= 1
    ensures var q := (b * cap) / a; 0 <= q <= cap && q * a <= b * cap < (q + 1) * a
  {
    var n := b * cap;
    var q := n / a;
    DivBracket(n, a);
    assert n <= a * cap by { MulLeft(b, a, cap); }
    if q > cap {
      MulLeft(cap + 1, q, a);
      assert false;
    }
  }

  /** The quotient brackets the dividend. */
  lemma DivBracket(n: nat, a: nat)
    requires a >= 1
    ensures (n / a) * a <= n < (n / a + 1) * a
  {
    var q, r := n / a, n % a;
    assert n == q * a + r && 0 <= r < a;
  }

  lemma MulLeft(x: int, y: int, c: nat)
    requires x <= y
    ensures x * c <= y * c
  {
  }

  /**
   * With a positive cap the resized frame fits: its longer side is exactly
   * the cap, the other side is the proportional size rounded down, and a
   * frame already within the cap is left as it is.
   */
  lemma ResizeFits(h: nat, w: nat, cap: int)
    requires cap >= 1
    ensures ResizedShape(h, w, cap).Some?
    ensures var (nh, nw) := ResizedShape(h, w, cap).value;
      && ((if h >= w then h else w) <= cap ==> nh == h && nw == w)
      && ((if h >= w then h else w) > cap ==>
            && (if nh >= nw then nh else nw) == cap
            && 0 <= nh && 0 <= nw
            && (h >= w ==> nw * h <= w * cap < (nw + 1) * h)
            && (h < w ==> nh * w <= h * cap < (nh + 1) * w))
  {
    if (if h >= w then h else w) > cap {
      if h >= w {
        ScaleShorterSide(h, w, cap);
      } else {
        ScaleShorterSide(w, h, cap);
      }
    }
  }

  // ---------------------------------------------------------------- naming

  /** What `time.localtime(timestamp)` gives: the clock and time zone are outside the model. */
  datatype LocalTime = LocalTime(year: nat, month: nat, day: nat, hour: nat, minute: nat, second: nat)

  function Trunc(x: real): int
  {
    if x >= 0.0 then x.Floor else -((-x).Floor)
  }

  /** `int((timestamp - int(timestamp)) * 1000)` */
  function Millis(timestamp: real): int
  {
    Trunc((timestamp - Trunc(timestamp) as real) * 1000.0)
  }

  /** For a time after the epoch the milliseconds lie in 0..999. */
  lemma MillisRange(timestamp: real)
    requires timestamp >= 0.0
    ensures 0 <= Millis(timestamp) <= 999
  {
    var f := timestamp - Trunc(timestamp) as real;
    assert 0.0 <= f < 1.0;
    assert (f * 1000.0).Floor <= 999 by {
      assert f * 1000.0 < 1000.0;
    }
  }

  /** `%03d`: at least three characters, zero-padded after any sign. */
  function Pad3(n: int): string
  {
    if n >= 0 then ZeroPad(n, 3) else "-" + ZeroPad(-n, 2)
  }

  /** Cuts `s` into consecutive fields of the given widths and what remains; None when `s` is too short. */
  function Split(s: string, widths: seq<nat>): (r: Option<seq<string>>)
    ensures r.Some? ==> |r.value| == |widths| + 1
  {
    if widths == [] then Some([s])
    else if |s| < widths[0] then None
    else
      match Split(s[widths[0]..], widths[1..])
      case None => None
      case Some(rest) => Some([s[..widths[0]]] + rest)
  }

  /** Splitting a concatenation at the widths of its pieces recovers the pieces. */
  lemma {:induction false} SplitConcat(pieces: seq<string>, rest: string, widths: seq<nat>)
    requires |pieces| == |widths|
    requires forall i :: 0 <= i < |pieces| ==> |pieces[i]| == widths[i]
    ensures Split(Concat(pieces) + rest, widths) == Some(pieces + [rest])
  {
    if pieces != [] {
      var tail := Concat(pieces[1..]) + rest;
      var s := Concat(pieces) + rest;
      assert s == pieces[0] + tail;
      assert s[..widths[0]] == pieces[0] && s[widths[0]..] == tail;
      SplitConcat(pieces[1..], rest, widths[1..]);
      assert pieces + [rest] == [pieces[0]] + (pieces[1..] + [rest]);
    } else {
      assert Concat(pieces) + rest == rest;
      assert pieces + [rest] == [rest];
    }
  }

  /** `screen_` + `strftime("%Y%m%d_%H%M%S")` + `_` + `%03d` of the milliseconds, as fields. */
  function NameFields(t: LocalTime, ms: int): seq<string>
  {
    ["screen_", NatToString(t.year), ZeroPad(t.month, 2), ZeroPad(t.day, 2), "_",
     ZeroPad(t.hour, 2), ZeroPad(t.minute, 2), ZeroPad(t.second, 2), "_", Pad3(ms), "."]
  }

  /** `_save_frame`'s file name: `screen_<YYYYMMDD>_<HHMMSS>_<ms>.<format>`. */
  function ScreenFileName(t: LocalTime, ms: int, format: string): string
  {
    Concat(NameFields(t, ms)) + format
  }

  const NameWidths: seq<nat> := [7, 4, 2, 2, 1, 2, 2, 2, 1, 3, 1]

  /** Reads a file name of that shape back, for four-digit years. */
  function ParseScreenFileName(name: string): Option<(LocalTime, nat, string)>
  {
    match Split(name, NameWidths)
    case None => None
    case Some(f) =>
      if f[0] == "screen_" && f[4] == "_" && f[8] == "_" && f[10] == "."
         && AllDigits(f[1]) && AllDigits(f[2]) && AllDigits(f[3]) && AllDigits(f[5])
         && AllDigits(f[6]) && AllDigits(f[7]) && AllDigits(f[9])
      then
        var t := LocalTime(DigitsValue(f[1]), DigitsValue(f[2]), DigitsValue(f[3]),
                           DigitsValue(f[5]), DigitsValue(f[6]), DigitsValue(f[7]));
        Some((t, DigitsValue(f[9]), f[11]))
      else None
  }

  predicate ValidStamp(t: LocalTime)
  {
    1000 <= t.year <= 9999 && t.month < 100 && t.day < 100 && t.hour < 100 && t.minute < 100 && t.second < 100
  }

  lemma {:induction false} NatToStringLengthAtLeast(n: nat, width: nat)
    requires 1 <= width && n >= Pow10(width - 1)
    ensures |NatToString(n)| >= width
  {
    if width > 1 {
      assert n >= 10 by {
        assert Pow10(width - 1) == 10 * Pow10(width - 2);
      }
      assert n / 10 >= Pow10(width - 2);
      NatToStringLengthAtLeast(n / 10, width - 1);
      assert NatToString(n) == NatToString(n / 10) + [DigitChar(n % 10)];
    }
  }

  /** A four-digit year renders in exactly four digits. */
  lemma YearField(year: nat)
    requires 1000 <= year <= 9999
    ensures |NatToString(year)| == 4 && AllDigits(NatToString(year)) && DigitsValue(NatToString(year)) == year
  {
    assert Pow10(3) == 1000 && Pow10(4) == 10000;
    NatToStringLength(year, 4);
    NatToStringLengthAtLeast(year, 4);
    NatToStringValue(year);
  }

  /** Each field of a valid name has its fixed width. */
  lemma NameFieldsWidths(t: LocalTime, ms: nat)
    requires ValidStamp(t) && ms <= 999
    ensures var f := NameFields(t, ms); forall i :: 0 <= i < |f| ==> |f[i]| == NameWidths[i]
  {
    assert Pow10(2) == 100 && Pow10(3) == 1000;
    YearField(t.year);
    ZeroPadLength(t.month, 2);
    ZeroPadLength(t.day, 2);
    ZeroPadLength(t.hour, 2);
    ZeroPadLength(t.minute, 2);
    ZeroPadLength(t.second, 2);
    ZeroPadLength(ms, 3);
  }

  /** The numeric fields of a valid name read back as their numbers. */
  lemma NameFieldsValues(t: LocalTime, ms: nat)
    requires ValidStamp(t) && ms <= 999
    ensures var f := NameFields(t, ms);
      && AllDigits(f[1]) && DigitsValue(f[1]) == t.year
      && AllDigits(f[2]) && DigitsValue(f[2]) == t.month
      && AllDigits(f[3]) && DigitsValue(f[3]) == t.day
      && AllDigits(f[5]) && DigitsValue(f[5]) == t.hour
      && AllDigits(f[6]) && DigitsValue(f[6]) == t.minute
      && AllDigits(f[7]) && DigitsValue(f[7]) == t.second
      && AllDigits(f[9]) && DigitsValue(f[9]) == ms
  {
    DateFieldsValues(t, ms);
    ClockFieldsValues(t, ms);
  }

  /** The date fields read back as the year, the month and the day. */
  lemma DateFieldsValues(t: LocalTime, ms: nat)
    requires ValidStamp(t)
    ensures var f := NameFields(t, ms);
      && AllDigits(f[1]) && DigitsValue(f[1]) == t.year
      && AllDigits(f[2]) && DigitsValue(f[2]) == t.month
      && AllDigits(f[3]) && DigitsValue(f[3]) == t.day
  {
    NameFieldsAt(t, ms);
    YearField(t.year);
    ZeroPadValue(t.month, 2);
    ZeroPadValue(t.day, 2);
  }

  /** The clock fields read back as the hour, the minute, the second and the milliseconds. */
  lemma ClockFieldsValues(t: LocalTime, ms: nat)
    requires ValidStamp(t) && ms <= 999
    ensures var f := NameFields(t, ms);
      && AllDigits(f[5]) && DigitsValue(f[5]) == t.hour
      && AllDigits(f[6]) && DigitsValue(f[6]) == t.minute
      && AllDigits(f[7]) && DigitsValue(f[7]) == t.second
      && AllDigits(f[9]) && DigitsValue(f[9]) == ms
  {
    NameFieldsAt(t, ms);
    ZeroPadValue(t.hour, 2);
    ZeroPadValue(t.minute, 2);
    ZeroPadValue(t.second, 2);
    ZeroPadValue(ms, 3);
  }

  /** The fields of a name, one by one. */
  lemma NameFieldsAt(t: LocalTime, ms: nat)
    ensures var f := NameFields(t, ms);
      && |f| == 11
      && f[1] == NatToString(t.year) && f[2] == ZeroPad(t.month, 2) && f[3] == ZeroPad(t.day, 2)
      && f[5] == ZeroPad(t.hour, 2) && f[6] == ZeroPad(t.minute, 2) && f[7] == ZeroPad(t.second, 2)
      && f[9] == ZeroPad(ms, 3)
  {
  }

  /**
   * The name is unambiguous: for a four-digit year, two-digit fields and
   * milliseconds in 0..999, parsing the name gives back the time, the
   * milliseconds and the format.
   */
  lemma FileNameRoundTrip(t: LocalTime, ms: nat, format: string)
    requires ValidStamp(t) && ms <= 999
    ensures ParseScreenFileName(ScreenFileName(t, ms, format)) == Some((t, ms, format))
  {
    NameSplits(t, ms, format);
    NameFieldsParse(t, ms, format);
  }

  /** Cutting a name at the fixed widths gives back its fields and the format. */
  lemma NameSplits(t: LocalTime, ms: nat, format: string)
    requires ValidStamp(t) && ms <= 999
    ensures Split(ScreenFileName(t, ms, format), NameWidths) == Some(NameFields(t, ms) + [format])
  {
    NameFieldsWidths(t, ms);
    SplitConcat(NameFields(t, ms), format, NameWidths);
  }

  /** The fields of a name pass the parser's checks and read back as the time and the milliseconds. */
  lemma NameFieldsParse(t: LocalTime, ms: nat, format: string)
    requires ValidStamp(t) && ms <= 999
    ensures var f := NameFields(t, ms) + [format];
      && |f| == 12 && f[0] == "screen_" && f[4] == "_" && f[8] == "_" && f[10] == "." && f[11] == format
      && AllDigits(f[1]) && AllDigits(f[2]) && AllDigits(f[3]) && AllDigits(f[5])
      && AllDigits(f[6]) && AllDigits(f[7]) && AllDigits(f[9])
      && LocalTime(DigitsValue(f[1]), DigitsValue(f[2]), DigitsValue(f[3]),
                   DigitsValue(f[5]), DigitsValue(f[6]), DigitsValue(f[7])) == t
      && DigitsValue(f[9]) == ms
  {
    NameFieldsValues(t, ms);
  }

  /** `1.0 / max(1, fps)`: the frame interval in seconds. */
  function FrameInterval(fps: int): real
  {
    1.0 / (if fps >= 1 then fps else 1) as real
  }

  /** An fps below 1 counts as 1: the interval is positive and at most one second. */
  lemma FrameIntervalBounds(fps: int)
    ensures 0.0 < FrameInterval(fps) <= 1.0
    ensures fps < 1 ==> FrameInterval(fps) == 1.0
  {
  }

  // ---------------------------------------------------------------- the loop

  /** One pass of the loop: the grabbed (already resized) frame, `time.time()`, its local time, and whether saving succeeds. */
  datatype Tick = Tick(frame: Frame, clock: real, local: LocalTime, saveOk: bool)

  datatype Saved = Saved(name: string, frame: Frame)

  datatype CaptureState = CaptureState(previous: Option<Frame>, saved: seq<Saved>)

  /**
   * The capture loop from tick `k` on, `stop()` having run before tick
   * `stopAt`'s check of the flag: a frame is saved when `_should_save` says so,
   * and only then becomes the previous frame. A failing save ends the loop.
   */
  function CaptureRun(ticks: seq<Tick>, k: nat, stopAt: nat, config: ScreenCaptureConfig, s: CaptureState): CaptureState
    requires k <= |ticks|
    decreases |ticks| - k
  {
    if k >= stopAt || k == |ticks| then s
    else
      var tick := ticks[k];
      if !ShouldSave(s.previous, tick.frame, config.changeThreshold) then CaptureRun(ticks, k + 1, stopAt, config, s)
      else if !tick.saveOk then s
      else
        var name := ScreenFileName(tick.local, Millis(tick.clock), config.format);
        CaptureRun(ticks, k + 1, stopAt, config, CaptureState(Some(tick.frame), s.saved + [Saved(name, tick.frame)]))
  }

  /** The loop only appends to what was saved before. */
  lemma {:induction false} CaptureRunExtends(ticks: seq<Tick>, k: nat, stopAt: nat, config: ScreenCaptureConfig, s: CaptureState)
    requires k <= |ticks|
    ensures s.saved <= CaptureRun(ticks, k, stopAt, config, s).saved
    decreases |ticks| - k
  {
    if !(k >= stopAt || k == |ticks|) {
      var tick := ticks[k];
      if !ShouldSave(s.previous, tick.frame, config.changeThreshold) {
        CaptureRunExtends(ticks, k + 1, stopAt, config, s);
      } else if tick.saveOk {
        var name := ScreenFileName(tick.local, Millis(tick.clock), config.format);
        CaptureRunExtends(ticks, k + 1, stopAt, config, CaptureState(Some(tick.frame), s.saved + [Saved(name, tick.frame)]));
      }
    }
  }

  /**
   * Each saved frame after the first differs from the one saved before it by
   * at least the change threshold, the first frame of a fresh capture is
   * always saved, and the last frame saved is the one kept for comparison.
   */
  lemma {:induction false} SavedFramesChange(ticks: seq<Tick>, k: nat, stopAt: nat, config: ScreenCaptureConfig, s: CaptureState)
    requires k <= |ticks|
    requires s.saved != [] ==> s.previous == Some(s.saved[|s.saved| - 1].frame)
    requires s.saved == [] ==> s.previous.None?
    requires forall i :: 0 < i < |s.saved| ==> ShouldSave(Some(s.saved[i - 1].frame), s.saved[i].frame, config.changeThreshold)
    ensures var r := CaptureRun(ticks, k, stopAt, config, s);
      && (r.saved != [] ==> r.previous == Some(r.saved[|r.saved| - 1].frame))
      && (r.saved == [] ==> r.previous.None?)
      && (forall i :: 0 < i < |r.saved| ==> ShouldSave(Some(r.saved[i - 1].frame), r.saved[i].frame, config.changeThreshold))
    decreases |ticks| - k
  {
    if !(k >= stopAt || k == |ticks|) {
      var tick := ticks[k];
      if !ShouldSave(s.previous, tick.frame, config.changeThreshold) {
        SavedFramesChange(ticks, k + 1, stopAt, config, s);
      } else if tick.saveOk {
        var name := ScreenFileName(tick.local, Millis(tick.clock), config.format);
        var next := CaptureState(Some(tick.frame), s.saved + [Saved(name, tick.frame)]);
        SavedFramesChange(ticks, k + 1, stopAt, config, next);
      }
    }
  }

  /** A fresh capture saves its first frame (when the save succeeds and the capture was not stopped before it). */
  lemma FirstFrameSaved(ticks: seq<Tick>, stopAt: nat, config: ScreenCaptureConfig)
    requires 0 < |ticks| && 0 < stopAt && ticks[0].saveOk
    ensures var r := CaptureRun(ticks, 0, stopAt, config, CaptureState(None, []));
      r.saved != [] && r.saved[0].frame == ticks[0].frame
  {
    var name := ScreenFileName(ticks[0].local, Millis(ticks[0].clock), config.format);
    var next := CaptureState(Some(ticks[0].frame), [Saved(name, ticks[0].frame)]);
    assert [] + [Saved(name, ticks[0].frame)] == next.saved;
    assert CaptureRun(ticks, 0, stopAt, config, CaptureState(None, [])) == CaptureRun(ticks, 1, stopAt, config, next);
    CaptureRunExtends(ticks, 1, stopAt, config, next);
  }

  class ScreenCapture {
    const config: ScreenCaptureConfig
    var previous: Option<Frame>     // `_previous_frame`
    var running: bool
    var saved: seq<Saved>           // files written to the output directory, in order

    constructor (config: ScreenCaptureConfig)
      ensures this.config == config && previous == None && !running && saved == []
    {
      this.config := config;
      previous := None;
      running := false;
      saved := [];
    }

    /** `stop` */
    method Stop()
      modifies this
      ensures !running && previous == old(previous) && saved == old(saved)
    {
      running := false;
    }

    /**
     * `start`: grab, decide, save and remember, frame after frame, until the
     * flag is cleared (just before tick `stopAt`) or a save fails; the flag is
     * clear afterwards in every case.
     */
    method Start(ticks: seq<Tick>, stopAt: nat)
      modifies this
      ensures var r := CaptureRun(ticks, 0, stopAt, config, CaptureState(old(previous), []));
        saved == old(saved) + r.saved && previous == r.previous
      ensures !running
    {
      running := true;
      ghost var final := CaptureRun(ticks, 0, stopAt, config, CaptureState(previous, []));
      ghost var added: seq<Saved> := [];
      var k := 0;
      while running
        invariant k <= |ticks| && k <= stopAt
        invariant saved == old(saved) + added
        invariant running ==> CaptureRun(ticks, k, stopAt, config, CaptureState(previous, added)) == final
        invariant !running ==> CaptureState(previous, added) == final
        decreases |ticks| - k, if running then 1 else 0
      {
        if k == stopAt || k == |ticks| {
          Stop();         // `stop()` from the controlling thread, or no more frames
          break;
        }
        var tick := ticks[k];
        if ShouldSave(previous, tick.frame, config.changeThreshold) {
          if !tick.saveOk {
            break;        // the save raised: the loop ends
          }
          var name := ScreenFileName(tick.local, Millis(tick.clock), config.format);
          saved := saved + [Saved(name, tick.frame)];
          added := added + [Saved(name, tick.frame)];
          previous := Some(tick.frame);
        }
        k := k + 1;
      }
      running := false;
    }
  }
}
