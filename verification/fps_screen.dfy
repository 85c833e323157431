/** The integer and text logic of the FPS overlay: the player position drawn
    glyph by glyph from a strip of pre-rendered characters, the once-a-second
    FPS report, and the "been playing for" clock message. Fonts, bitmaps,
    widgets and the floating-point FPS figures are left out. */
module FpsScreen {
  import opened Common
  import opened Decimal

  // ---------------------------------------------------------------------
  // Reverse

  /** The reversed digit sequence. */
  function Rev(ds: seq<nat>): (r: seq<nat>)
    ensures |r| == |ds|
    ensures forall i :: 0 <= i < |ds| ==> r[i] == ds[|ds| - 1 - i]
  {
    if |ds| == 0 then [] else Rev(ds[1..]) + [ds[0]]
  }

  lemma ValueOfAppend(s: seq<nat>, d: nat)
    ensures ValueOf(s + [d]) == ValueOf(s) * 10 + d
  {
    assert (s + [d])[..|s|] == s;
  }

  /** The decimal value of the first k digits. */
  lemma PrefixValueStep(ds: seq<nat>, k: nat)
    requires 0 < k <= |ds|
    requires forall j :: 0 <= j < |ds| ==> ds[j] < 10
    ensures ValueOf(ds[..k]) % 10 == ds[k - 1]
    ensures ValueOf(ds[..k]) / 10 == ValueOf(ds[..k - 1])
  {
    assert ds[..k][..k - 1] == ds[..k - 1];
  }

  /** Reversing the suffix from k - 1 appends digit k - 1 at the low end. */
  lemma RevSuffixStep(ds: seq<nat>, k: nat)
    requires 0 < k <= |ds|
    ensures ValueOf(Rev(ds[k - 1..])) == ValueOf(Rev(ds[k..])) * 10 + ds[k - 1]
  {
    assert ds[k - 1..][1..] == ds[k..];
    ValueOfAppend(Rev(ds[k..]), ds[k - 1]);
  }

  /** One step of the digit-counting loop. */
  lemma CountStep(v: nat, count: nat, total: nat)
    requires count + |Digits(v)| == total
    ensures v / 10 > 0 ==> count + 1 + |Digits(v / 10)| == total
    ensures v / 10 == 0 ==> count + 1 == total
  {
  }

  /** The digit count Reverse computes. */
  method CountDigits(value: nat) returns (count: nat)
    ensures count == |Digits(value)|
  {
    count := 1;
    var v: nat := value / 10;
    CountStep(value, 0, |Digits(value)|);
    while v > 0
      invariant v > 0 ==> count + |Digits(v)| == |Digits(value)|
      invariant v == 0 ==> count == |Digits(value)|
      decreases v
    {
      CountStep(v, count, |Digits(value)|);
      count := count + 1;
      v := v / 10;
    }
  }

  /** FpsScreen.Reverse: the number of decimal digits of `value` and the
      number whose digits are those of `value` in reverse order. Values of
      ten digits, whose reversal can exceed the int range, are excluded. */
  method Reverse(value: int) returns (reversed: int, count: nat)
    requires 0 <= value < 1_000_000_000
    ensures count == |Digits(value)|
    ensures reversed == ValueOf(Rev(Digits(value)))
  {
    var ds := Digits(value);
    count := CountDigits(value);
    assert ValueOf(ds[..count]) == value by {
      ValueOfDigits(value);
      assert ds[..count] == ds;
    }
    assert ds[count..] == [];
    var orig := value;
    reversed := 0;
    var i := 0;
    while i < count
      invariant 0 <= i <= count
      invariant orig == ValueOf(ds[..count - i])
      invariant reversed == ValueOf(Rev(ds[count - i..]))
    {
      ReverseStep(ds, count - i, orig, reversed);
      reversed := reversed * 10 + orig % 10;
      orig := orig / 10;
      i := i + 1;
    }
  }

  /** One pass of Reverse's second loop: the low digit of what is left of
      the number moves to the low end of the reversed number. */
  lemma ReverseStep(ds: seq<nat>, k: nat, orig: int, reversed: int)
    requires 0 < k <= |ds|
    requires forall j :: 0 <= j < |ds| ==> ds[j] < 10
    requires orig == ValueOf(ds[..k]) && reversed == ValueOf(Rev(ds[k..]))
    ensures orig / 10 == ValueOf(ds[..k - 1])
    ensures reversed * 10 + orig % 10 == ValueOf(Rev(ds[k - 1..]))
  {
    PrefixValueStep(ds, k);
    RevSuffixStep(ds, k);
  }

  // ---------------------------------------------------------------------
  // Glyphs of the position text

  /** The pre-rendered characters, indexed by glyph number. */
  const PossibleChars := "0123456789-, ()"

  const MinusGlyph := 10
  const CommaGlyph := 11
  const OpenGlyph := 13
  const CloseGlyph := 14

  /** Every glyph is one textured quad of four vertices. */
  const VerticesPerQuad := 4

  /** The glyphs AddInt is meant to draw: '-' for negatives, the decimal
      digits of the magnitude most significant first, ',' when more
      follows. */
  function IntGlyphs(value: int, more: bool): seq<nat>
  {
    (if value < 0 then [MinusGlyph] else []) + Digits(if value < 0 then -value else value)
      + (if more then [CommaGlyph] else [])
  }

  /** The text a glyph sequence shows. */
  function Text(glyphs: seq<nat>): (s: string)
    requires forall i :: 0 <= i < |glyphs| ==> glyphs[i] < |PossibleChars|
    ensures |s| == |glyphs|
  {
    seq(|glyphs|, i requires 0 <= i < |glyphs| => PossibleChars[glyphs[i]])
  }

  predicate ValidGlyphs(glyphs: seq<nat>)
  {
    forall i :: 0 <= i < |glyphs| ==> glyphs[i] < |PossibleChars|
  }

  lemma TextAppend(a: seq<nat>, b: seq<nat>)
    requires ValidGlyphs(a) && ValidGlyphs(b)
    ensures ValidGlyphs(a + b)
    ensures Text(a + b) == Text(a) + Text(b)
  {
  }

  /** The digit glyphs of n show its decimal text. */
  lemma DigitGlyphsText(n: nat)
    ensures ValidGlyphs(Digits(n))
    ensures Text(Digits(n)) == ShowNat(n)
  {
    var ds := Digits(n);
    forall i | 0 <= i < |ds|
      ensures PossibleChars[ds[i]] == DigitChar(ds[i])
    {
    }
  }

  /** AddInt's glyphs show the integer as Int32.ToString would, followed by
      a comma when more follows. */
  lemma IntGlyphsText(value: int, more: bool)
    ensures ValidGlyphs(IntGlyphs(value, more))
    ensures Text(IntGlyphs(value, more)) == Show(value) + (if more then "," else "")
  {
    var sign: seq<nat> := if value < 0 then [MinusGlyph] else [];
    var magnitude := if value < 0 then -value else value;
    var tail: seq<nat> := if more then [CommaGlyph] else [];
    DigitGlyphsText(magnitude);
    TextAppend(sign, Digits(magnitude));
    TextAppend(sign + Digits(magnitude), tail);
    assert Text(sign) == if value < 0 then "-" else "";
    assert Text(tail) == if more then "," else "";
  }

  /** The quads drawn so far: the x position of the next glyph, the vertex
      index, and the glyphs drawn. */
  datatype Cursor = Cursor(curX: int, index: nat, glyphs: seq<nat>)

  /** Sum of the pixel widths of the glyphs. */
  function SumWidths(glyphs: seq<nat>, widths: seq<int>): int
    requires forall i :: 0 <= i < |glyphs| ==> glyphs[i] < |widths|
  {
    if |glyphs| == 0 then 0 else widths[glyphs[0]] + SumWidths(glyphs[1..], widths)
  }

  /** AddChar: one quad of the glyph's width at curX. */
  function AddChar(c: Cursor, charIndex: nat, widths: seq<int>): (c': Cursor)
    requires charIndex < |widths|
    ensures c'.curX == c.curX + widths[charIndex]
    ensures c'.index == c.index + VerticesPerQuad
    ensures c'.glyphs == c.glyphs + [charIndex]
  {
    Cursor(c.curX + widths[charIndex], c.index + VerticesPerQuad, c.glyphs + [charIndex])
  }

  /** AddChar for each glyph in turn. */
  function AddChars(c: Cursor, glyphs: seq<nat>, widths: seq<int>): Cursor
    requires forall i :: 0 <= i < |glyphs| ==> glyphs[i] < |widths|
    decreases |glyphs|
  {
    if |glyphs| == 0 then c else AddChars(AddChar(c, glyphs[0], widths), glyphs[1..], widths)
  }

  /** The glyphs are laid side by side: the cursor moves right by their total
      width and each takes one quad. */
  lemma {:induction false} AddCharsAdvance(c: Cursor, glyphs: seq<nat>, widths: seq<int>)
    requires forall i :: 0 <= i < |glyphs| ==> glyphs[i] < |widths|
    ensures AddChars(c, glyphs, widths).curX == c.curX + SumWidths(glyphs, widths)
    ensures AddChars(c, glyphs, widths).index == c.index + VerticesPerQuad * |glyphs|
    ensures AddChars(c, glyphs, widths).glyphs == c.glyphs + glyphs
    decreases |glyphs|
  {
    if |glyphs| > 0 {
      AddCharsAdvance(AddChar(c, glyphs[0], widths), glyphs[1..], widths);
      assert c.glyphs + [glyphs[0]] + glyphs[1..] == c.glyphs + glyphs;
    }
  }

  /** The value of the digits from i on read in reverse order, built from
      the low end: what is left of Reverse's result after i passes of the
      digit loop. */
  function TailReversed(ds: seq<nat>, i: nat): nat
    decreases |ds| - i
  {
    if i >= |ds| then 0 else TailReversed(ds, i + 1) * 10 + ds[i]
  }

  lemma {:induction false} TailReversedValue(ds: seq<nat>, i: nat)
    requires i <= |ds|
    ensures TailReversed(ds, i) == ValueOf(Rev(ds[i..]))
    decreases |ds| - i
  {
    if i < |ds| {
      TailReversedValue(ds, i + 1);
      RevSuffixStep(ds, i + 1);
    }
  }

  /** The units digit, the glyph the digit loop of AddInt emits next. */
  function LowDigit(v: nat): (d: nat)
    ensures d < 10 && (v - d) % 10 == 0
  {
    v % 10
  }

  /** One pass of the digit loop of AddInt. */
  lemma DigitStep(emitted: seq<nat>, v: nat, ds: seq<nat>, i: nat)
    requires i < |ds| && ds[i] < 10
    requires emitted == ds[..i]
    requires v == TailReversed(ds, i)
    ensures emitted + [LowDigit(v)] == ds[..i + 1]
    ensures v / 10 == TailReversed(ds, i + 1)
  {
    var rest := TailReversed(ds, i + 1);
    assert v == rest * 10 + ds[i];
    assert ds[..i + 1] == ds[..i] + [ds[i]];
  }

  /** The digit loop of AddInt: the reversed number is consumed low digit
      first, which yields the digits of `magnitude` most significant first. */
  method AddDigits(magnitude: nat) returns (glyphs: seq<nat>)
    requires magnitude < 1_000_000_000
    ensures glyphs == Digits(magnitude)
  {
    ghost var ds := Digits(magnitude);
    var reversed, count := Reverse(magnitude);
    TailReversedValue(ds, 0);
    assert ds[0..] == ds;
    glyphs := EmitDigits(ds, reversed, count);
  }

  /** The loop itself: `count` passes, each emitting the units digit of
      what is left of the reversed number. Emits ds when the reversed
      number holds the digits ds in reverse order. */
  method EmitDigits(ghost ds: seq<nat>, reversed: nat, count: nat) returns (glyphs: seq<nat>)
    requires count == |ds| && forall k :: 0 <= k < |ds| ==> ds[k] < 10
    requires reversed == TailReversed(ds, 0)
    ensures glyphs == ds
  {
    var v := reversed;
    glyphs := [];
    var i := 0;
    while i < count
      invariant 0 <= i <= count
      invariant glyphs == ds[..i]
      invariant v == TailReversed(ds, i)
    {
      DigitStep(glyphs, v, ds, i);
      var digit := LowDigit(v);
      glyphs := glyphs + [digit];
      v := v / 10;
      i := i + 1;
    }
    assert ds[..count] == ds;
  }

  /** FpsScreen.AddInt: the glyphs of the sign, the digits through Reverse,
      then the separator. */
  method AddInt(value: int, more: bool) returns (glyphs: seq<nat>)
    requires -1_000_000_000 < value < 1_000_000_000
    ensures glyphs == IntGlyphs(value, more)
  {
    glyphs := if value < 0 then [MinusGlyph] else [];
    var magnitude := if value < 0 then -value else value;
    var digits := AddDigits(magnitude);
    glyphs := glyphs + digits;
    if more {
      glyphs := glyphs + [CommaGlyph];
    }
  }

  /** The glyphs DrawPosition draws for a position. */
  function PositionGlyphs(x: int, y: int, z: int): seq<nat>
  {
    [OpenGlyph] + IntGlyphs(x, true) + IntGlyphs(y, true) + IntGlyphs(z, false) + [CloseGlyph]
  }

  /** FpsScreen.DrawPosition: after the "Feet pos: " quad, the glyphs from
      x = baseWidth + 2 on, each one AddChar. Returns the cursor and the
      number of indices uploaded (six per four vertices). */
  method DrawPosition(x: int, y: int, z: int, baseWidth: int, widths: seq<int>)
    returns (c: Cursor, indices: nat)
    requires |widths| == |PossibleChars|
    requires -1_000_000_000 < x < 1_000_000_000
    requires -1_000_000_000 < y < 1_000_000_000
    requires -1_000_000_000 < z < 1_000_000_000
    ensures c.glyphs == PositionGlyphs(x, y, z)
    ensures c.curX == baseWidth + 2 + SumWidths(c.glyphs, widths)
    ensures c.index == VerticesPerQuad * (|c.glyphs| + 1)
    ensures indices == 6 * (|c.glyphs| + 1)
  {
    var gx := AddInt(x, true);
    var gy := AddInt(y, true);
    var gz := AddInt(z, false);
    var glyphs := [OpenGlyph] + gx + gy + gz + [CloseGlyph];
    var start := Cursor(baseWidth + 2, VerticesPerQuad, []);
    AddCharsAdvance(start, glyphs, widths);
    c := AddChars(start, glyphs, widths);
    indices := c.index * 6 / 4;
  }

  lemma TextAppend5(a: seq<nat>, b: seq<nat>, c: seq<nat>, d: seq<nat>, e: seq<nat>)
    requires ValidGlyphs(a) && ValidGlyphs(b) && ValidGlyphs(c) && ValidGlyphs(d) && ValidGlyphs(e)
    ensures ValidGlyphs(a + b + c + d + e)
    ensures Text(a + b + c + d + e) == Text(a) + Text(b) + Text(c) + Text(d) + Text(e)
  {
    TextAppend(a, b);
    TextAppend(a + b, c);
    TextAppend(a + b + c, d);
    TextAppend(a + b + c + d, e);
  }

  /** The position reads "(x,y,z)" in the pre-rendered alphabet. */
  lemma PositionText(x: int, y: int, z: int)
    ensures ValidGlyphs(PositionGlyphs(x, y, z))
    ensures Text(PositionGlyphs(x, y, z)) == "(" + Show(x) + "," + Show(y) + "," + Show(z) + ")"
  {
    IntGlyphsText(x, true);
    IntGlyphsText(y, true);
    IntGlyphsText(z, false);
    Parenthesised(IntGlyphs(x, true), IntGlyphs(y, true), IntGlyphs(z, false), Show(x), Show(y), Show(z));
  }

  /** Three glyph runs between the bracket glyphs read as the bracketed,
      comma-separated texts. */
  lemma Parenthesised(gx: seq<nat>, gy: seq<nat>, gz: seq<nat>, sx: string, sy: string, sz: string)
    requires ValidGlyphs(gx) && ValidGlyphs(gy) && ValidGlyphs(gz)
    requires Text(gx) == sx + "," && Text(gy) == sy + "," && Text(gz) == sz
    ensures ValidGlyphs([OpenGlyph] + gx + gy + gz + [CloseGlyph])
    ensures Text([OpenGlyph] + gx + gy + gz + [CloseGlyph]) == "(" + sx + "," + sy + "," + sz + ")"
  {
    var open: seq<nat> := [OpenGlyph];
    var close: seq<nat> := [CloseGlyph];
    assert Text(open) == "(" && Text(close) == ")";
    TextAppend5(open, gx, gy, gz, close);
  }

  // ---------------------------------------------------------------------
  // Clock message

  /** The plural suffix. */
  function Q(value: int): (s: string)
    ensures s == "" <==> value == 1
    ensures s != "" ==> s == "s"
  {
    if value == 1 then "" else "s"
  }

  /** The three message formats, with the TimeSpan components they show. */
  datatype ClockMessage =
    | DaysHoursMins(days: int, hours: int, mins: int)
    | HoursMins(hours: int, mins: int)
    | Mins(mins: int)

  /** String.Format of the chosen format with Minutes, Hours, Days. */
  function Render(m: ClockMessage): string
  {
    match m
    case DaysHoursMins(d, h, mi) =>
      "&eBeen playing for " + Show(d) + " day" + Q(d) + ", " + Show(h) + " hour" + Q(h)
        + ", " + Show(mi) + " min" + Q(mi)
    case HoursMins(h, mi) =>
      "&eBeen playing for " + Show(h) + " hour" + Q(h) + ", " + Show(mi) + " min" + Q(mi)
    case Mins(mi) =>
      "&eBeen playing for " + Show(mi) + " min" + Q(mi)
  }

  /** The number of minutes a message says. */
  function Total(m: ClockMessage): int
  {
    match m
    case DaysHoursMins(d, h, mi) => d * 1440 + h * 60 + mi
    case HoursMins(h, mi) => h * 60 + mi
    case Mins(mi) => mi
  }

  /** TimeSpan.FromMinutes(minutes): Days, Hours and Minutes components. */
  function SpanDays(minutes: nat): nat { minutes / 1440 }
  function SpanHours(minutes: nat): nat { (minutes / 60) % 24 }
  function SpanMinutes(minutes: nat): nat { minutes % 60 }

  /** The format choice as written: TotalDays > 1 and TotalHours > 1, which
      for a whole number of minutes are minutes > 1440 and minutes > 60. */
  function ClockMessageAsWritten(minutes: nat): ClockMessage
  {
    if minutes > 1440 then DaysHoursMins(SpanDays(minutes), SpanHours(minutes), SpanMinutes(minutes))
    else if minutes > 60 then HoursMins(SpanHours(minutes), SpanMinutes(minutes))
    else Mins(SpanMinutes(minutes))
  }

  /** At exactly one hour and exactly one day the strict comparisons pick a
      format one unit too small, and the message says zero. */
  lemma AsWrittenDropsWholeUnit()
    ensures ClockMessageAsWritten(60) == Mins(0)
    ensures Render(ClockMessageAsWritten(60)) == "&eBeen playing for 0 mins"
    ensures Total(ClockMessageAsWritten(60)) != 60
    ensures ClockMessageAsWritten(1440) == HoursMins(0, 0)
    ensures Total(ClockMessageAsWritten(1440)) != 1440
  {
    assert Show(0) == "0";
  }

  /** The format choice with >= 1 day and >= 1 hour. */
  function ClockMessageFor(minutes: nat): (m: ClockMessage)
    ensures Total(m) == minutes
    ensures m.DaysHoursMins? ==> m.days >= 1 && 0 <= m.hours < 24 && 0 <= m.mins < 60
    ensures m.HoursMins? ==> 1 <= m.hours < 24 && 0 <= m.mins < 60
    ensures m.Mins? ==> 0 <= m.mins < 60
  {
    if minutes >= 1440 then DaysHoursMins(SpanDays(minutes), SpanHours(minutes), SpanMinutes(minutes))
    else if minutes >= 60 then HoursMins(SpanHours(minutes), SpanMinutes(minutes))
    else Mins(SpanMinutes(minutes))
  }

  /** The two choices differ exactly at one hour and at one day. */
  lemma AsWrittenDiffersOnlyAtWholeUnits(minutes: nat)
    ensures ClockMessageAsWritten(minutes) != ClockMessageFor(minutes) <==> minutes == 60 || minutes == 1440
  {
  }

  /** The clock state: the minute count last announced (-1 at start). */
  datatype ClockResult = ClockResult(oldMinutes: int, message: Option<string>)

  /** CheckClock: announce the play time once per new minute value, when the
      clock is shown. */
  function CheckClock(oldMinutes: int, totalSeconds: nat, showClock: bool): (r: ClockResult)
    ensures r.message.Some? <==> showClock && totalSeconds / 60 != oldMinutes
    ensures r.message.None? ==> r.oldMinutes == oldMinutes
    ensures r.message.Some? ==> r.oldMinutes == totalSeconds / 60
    ensures r.message.Some? ==> r.message.value == Render(ClockMessageFor(totalSeconds / 60))
  {
    var minutes := totalSeconds / 60;
    if !showClock || minutes == oldMinutes then ClockResult(oldMinutes, None)
    else ClockResult(minutes, Some(Render(ClockMessageFor(minutes))))
  }

  /** A minute value is announced at most once: right after an announcement
      the same second count announces nothing. */
  lemma ClockAnnouncesOnce(oldMinutes: int, totalSeconds: nat, showClock: bool)
    ensures CheckClock(CheckClock(oldMinutes, totalSeconds, showClock).oldMinutes, totalSeconds, showClock).message == None
  {
  }

  // ---------------------------------------------------------------------
  // UpdateFPS

  /** The FPS counters. */
  datatype FpsState = FpsState(accumulator: real, maxDelta: real, fpsCount: nat,
                               totalSeconds: nat, oldMinutes: int, chunkUpdates: int)

  /** One report: the frames counted over `seconds`, the chunk updates of
      that period, and the clock message if one was due. */
  datatype Report = Report(frames: nat, seconds: real, chunkUpdates: int, clock: Option<string>)

  datatype FpsStep = FpsStep(state: FpsState, report: Option<Report>)

  /** UpdateFPS for a frame that took `delta` seconds. */
  function UpdateFPS(s: FpsState, delta: real, showClock: bool): (r: FpsStep)
    ensures r.report.None? <==> s.accumulator + delta < 1.0
    ensures r.report.None? ==> r.state.totalSeconds == s.totalSeconds && r.state.fpsCount == s.fpsCount + 1
    ensures r.report.Some? ==> r.state.totalSeconds == s.totalSeconds + 1
    ensures r.report.Some? ==> r.state.fpsCount == 0 && r.state.accumulator == 0.0
                               && r.state.maxDelta == 0.0 && r.state.chunkUpdates == 0
    ensures r.report.Some? ==> r.report.value.frames == s.fpsCount + 1
  {
    var fpsCount := s.fpsCount + 1;
    var maxDelta := if s.maxDelta > delta then s.maxDelta else delta;
    var accumulator := s.accumulator + delta;
    if accumulator < 1.0 then
      FpsStep(s.(fpsCount := fpsCount, maxDelta := maxDelta, accumulator := accumulator), None)
    else
      var totalSeconds := s.totalSeconds + 1;
      var clock := CheckClock(s.oldMinutes, totalSeconds, showClock);
      var report := Report(fpsCount, accumulator, s.chunkUpdates, clock.message);
      FpsStep(FpsState(0.0, 0.0, 0, totalSeconds, clock.oldMinutes, 0), Some(report))
  }

  /** Runs UpdateFPS over the frame times `deltas` and collects the reports. */
  function RunFrames(s: FpsState, deltas: seq<real>, showClock: bool): (FpsState, seq<Report>)
    decreases |deltas|
  {
    if |deltas| == 0 then (s, [])
    else
      var step := UpdateFPS(s, deltas[0], showClock);
      var rest := RunFrames(step.state, deltas[1..], showClock);
      (rest.0, (if step.report.Some? then [step.report.value] else []) + rest.1)
  }

  function FramesReported(reports: seq<Report>): nat
  {
    if |reports| == 0 then 0 else reports[0].frames + FramesReported(reports[1..])
  }

  /** totalSeconds counts the reports, and every frame is counted exactly
      once: in a report or in the pending fpsCount. */
  lemma {:induction false} FramesAccounted(s: FpsState, deltas: seq<real>, showClock: bool)
    ensures var (final, reports) := RunFrames(s, deltas, showClock);
            && final.totalSeconds == s.totalSeconds + |reports|
            && FramesReported(reports) + final.fpsCount == s.fpsCount + |deltas|
    decreases |deltas|
  {
    if |deltas| > 0 {
      var step := UpdateFPS(s, deltas[0], showClock);
      FramesAccounted(step.state, deltas[1..], showClock);
      var rest := RunFrames(step.state, deltas[1..], showClock);
      if step.report.Some? {
        var reports := [step.report.value] + rest.1;
        assert reports[1..] == rest.1;
      } else {
        assert ([] + rest.1) == rest.1;
      }
    }
  }
}
