/**
 * `useTimer` (src/useTimer.ts): a countdown in whole seconds. Its display
 * is the clock time of the counter as `HH:MM:SS`, with a leading `00:`
 * field dropped up to twice; every tick of the interval takes one second
 * off, and the tick that brings the counter to zero or below stops the
 * interval and runs the registered completion callback.
 */
module Timer {
  import opened Wrappers
  import opened Numerals

  // ---------------------------------------------------------- the display

  /** Hours, minutes and seconds of a clock time within one day. */
  datatype Clock = Clock(h: nat, m: nat, s: nat)

  /**
   * The `Date` breakdown (src/useTimer.ts:11-12): setting the seconds of a
   * midnight date to `seconds` rolls over into minutes, hours and days, and
   * a negative count rolls back into the previous day, so the clock shows
   * `seconds` modulo one day.
   */
  function ClockOf(seconds: int): (c: Clock)
    ensures c.h < 24 && c.m < 60 && c.s < 60
    ensures c.h * 3600 + c.m * 60 + c.s == seconds % 86400
  {
    var t := seconds % 86400;
    Clock(t / 3600, t / 60 % 60, t % 60)
  }

  /** One field (src/useTimer.ts:14-22): a positive value padded to two digits, otherwise "00". */
  function Field(n: nat): string {
    if n > 0 then PadStart(Decimal(n), 2, '0') else "00"
  }

  /** `trimStr` (src/useTimer.ts:24-26): drops one `00:` at the very start. */
  function TrimStr(str: string): string {
    if |str| >= 3 && str[..3] == "00:" then str[3..] else str
  }

  /** The three fields joined by `:`, trimmed twice (src/useTimer.ts:13-27). */
  function Display(c: Clock): string {
    TrimStr(TrimStr(Field(c.h) + ":" + Field(c.m) + ":" + Field(c.s)))
  }

  /** `timer` (src/useTimer.ts:10-28): the display of the counter's clock time. */
  function Format(seconds: int): string {
    Display(ClockOf(seconds))
  }

  /** A field below one hundred is two digits that read back as its value, and "00" only for zero. */
  lemma FieldDigits(n: nat)
    requires n < 100
    ensures |Field(n)| == 2 && AllDigits(Field(n))
    ensures Pair(Field(n)[0], Field(n)[1]) == n
    ensures Field(n)[0] == '0' && Field(n)[1] == '0' <==> n == 0
  {
    var hi, lo := n / 10, n % 10;
    if n == 0 {
      assert Field(n) == [Digit(hi), Digit(lo)];
    } else if n < 10 {
      SingleDigitField(n);
    } else {
      DoubleDigitField(n);
    }
    assert Field(n) == [Digit(hi), Digit(lo)];
    TwoDigits(Digit(hi), Digit(lo));
  }

  lemma SingleDigitField(n: nat)
    requires 0 < n < 10
    ensures Field(n) == ['0', Digit(n)]
  {
    var d := Decimal(n);
    assert d == [Digit(n)];
    PadOne(d);
  }

  lemma PadOne(d: string)
    requires |d| == 1
    ensures PadStart(d, 2, '0') == ['0', d[0]]
  {
    assert Repeat('0', 1) == ['0'];
  }

  lemma DoubleDigitField(n: nat)
    requires 10 <= n < 100
    ensures Field(n) == [Digit(n / 10), Digit(n % 10)]
  {
    var d := Decimal(n);
    assert d == Decimal(n / 10) + [Digit(n % 10)];
    assert Decimal(n / 10) == [Digit(n / 10)];
    assert PadStart(d, 2, '0') == d;
  }

  /**
   * The shape of the display: `HH:MM:SS` once there are hours, `MM:SS`
   * once there are minutes, and the two seconds digits alone otherwise
   * ("00" at zero), each field two digits wide.
   */
  lemma DisplayShape(c: Clock)
    requires c.h < 100 && c.m < 100 && c.s < 100
    ensures var r := Display(c);
      && (c.h > 0 ==> r == Field(c.h) + ":" + Field(c.m) + ":" + Field(c.s))
      && (c.h == 0 && c.m > 0 ==> r == Field(c.m) + ":" + Field(c.s))
      && (c.h == 0 && c.m == 0 ==> r == Field(c.s))
      && |r| in {2, 5, 8}
  {
    FieldDigits(c.h);
    FieldDigits(c.m);
    FieldDigits(c.s);
    TrimJoined(Field(c.h), Field(c.m), Field(c.s));
  }

  /** Trimming twice drops the leading "00" fields of a three-field join, but never the last field. */
  lemma TrimJoined(a: string, b: string, c: string)
    requires |a| == 2 && |b| == 2 && |c| == 2
    ensures var r := TrimStr(TrimStr(a + ":" + b + ":" + c));
      r == if !(a[0] == '0' && a[1] == '0') then a + ":" + b + ":" + c
           else if !(b[0] == '0' && b[1] == '0') then b + ":" + c
           else c
  {
    var full := a + ":" + b + ":" + c;
    assert full[0] == a[0] && full[1] == a[1] && full[2] == ':';
    assert full[3..] == b + ":" + c;
    var tail := b + ":" + c;
    assert tail[0] == b[0] && tail[1] == b[1] && tail[2] == ':';
    assert tail[3..] == c;
    if a[0] == '0' && a[1] == '0' {
      assert full[..3] == "00:";
      if b[0] == '0' && b[1] == '0' {
        assert tail[..3] == "00:";
      } else {
        assert tail[..3] != "00:";
      }
    } else {
      assert full[..3] != "00:";
    }
  }

  /** The shape of the counter's display, for every counter. */
  lemma FormatShape(seconds: int)
    ensures var c, r := ClockOf(seconds), Format(seconds);
      && (c.h > 0 ==> r == Field(c.h) + ":" + Field(c.m) + ":" + Field(c.s))
      && (c.h == 0 && c.m > 0 ==> r == Field(c.m) + ":" + Field(c.s))
      && (c.h == 0 && c.m == 0 ==> r == Field(c.s))
      && |r| in {2, 5, 8}
  {
    DisplayShape(ClockOf(seconds));
  }

  /** The value of a two-digit field, or -1 when it is not two digits. */
  function Pair(a: char, b: char): int {
    if IsDigit(a) && IsDigit(b) then DigitsValue([a, b]) else -1
  }

  /** Two digits read as tens and units. */
  lemma TwoDigits(a: char, b: char)
    requires IsDigit(a) && IsDigit(b)
    ensures Pair(a, b) == DigitValue(a) * 10 + DigitValue(b)
  {
    assert [a, b][..1] == [a] && [a][..0] == [];
    assert DigitsValue([a]) == DigitValue(a);
    assert DigitsValue([a, b]) == DigitsValue([a]) * 10 + DigitValue(b);
  }

  /** Reads a display back into the seconds of the day it shows. */
  function ClockValue(r: string): int {
    if |r| == 8 then Pair(r[0], r[1]) * 3600 + Pair(r[3], r[4]) * 60 + Pair(r[6], r[7])
    else if |r| == 5 then Pair(r[0], r[1]) * 60 + Pair(r[3], r[4])
    else if |r| == 2 then Pair(r[0], r[1])
    else -1
  }

  /** A display reads back as the seconds of the clock time it shows. */
  lemma DisplayRoundTrip(c: Clock)
    requires c.h < 100 && c.m < 100 && c.s < 100
    ensures ClockValue(Display(c)) == c.h * 3600 + c.m * 60 + c.s
  {
    FieldDigits(c.h);
    FieldDigits(c.m);
    FieldDigits(c.s);
    ReadTrimmed(Field(c.h), Field(c.m), Field(c.s));
  }

  /** Reading back a trimmed join of three two-digit fields gives their clock value. */
  lemma ReadTrimmed(a: string, b: string, c: string)
    requires |a| == 2 && |b| == 2 && |c| == 2
    requires a[0] == '0' && a[1] == '0' <==> Pair(a[0], a[1]) == 0
    requires b[0] == '0' && b[1] == '0' <==> Pair(b[0], b[1]) == 0
    ensures ClockValue(TrimStr(TrimStr(a + ":" + b + ":" + c))) ==
      Pair(a[0], a[1]) * 3600 + Pair(b[0], b[1]) * 60 + Pair(c[0], c[1])
  {
    TrimJoined(a, b, c);
    var full := a + ":" + b + ":" + c;
    assert full[3] == b[0] && full[4] == b[1] && full[6] == c[0] && full[7] == c[1];
    var tail := b + ":" + c;
    assert tail[3] == c[0] && tail[4] == c[1];
  }

  /** The display loses nothing within a day: reading it back gives the counter modulo 86400. */
  lemma FormatRoundTrip(seconds: int)
    ensures ClockValue(Format(seconds)) == seconds % 86400
  {
    DisplayRoundTrip(ClockOf(seconds));
  }

  /** Two counters show the same display only if they agree modulo one day. */
  lemma FormatInjective(a: int, b: int)
    requires Format(a) == Format(b)
    ensures a % 86400 == b % 86400
  {
    FormatRoundTrip(a);
    FormatRoundTrip(b);
  }

  // ---------------------------------------------------------- the countdown

  /** A completion callback, named by a number; its code lies outside the model. */
  type Callback = nat

  /**
   * The countdown's state: the counter, whether the interval is still
   * scheduled, the registered callback, and the callbacks run so far.
   */
  datatype State = State(seconds: int, running: bool, callback: Option<Callback>, fired: seq<Callback>)

  /**
   * The interval body (src/useTimer.ts:29-35). A cleared interval never
   * runs again, so a tick of a stopped countdown changes nothing.
   */
  function TickStep(st: State): (r: State)
    ensures r.callback == st.callback
    ensures st.running ==> r.seconds == st.seconds - 1
    ensures st.running ==> (r.running <==> r.seconds > 0)
    ensures st.running && r.seconds <= 0 && st.callback.Some? ==> r.fired == st.fired + [st.callback.value]
    ensures !(st.running && r.seconds <= 0 && st.callback.Some?) ==> r.fired == st.fired
    ensures !st.running ==> r == st
  {
    if !st.running then st
    else
      var s := st.seconds - 1;
      if s <= 0 then
        State(s, false, st.callback, if st.callback.Some? then st.fired + [st.callback.value] else st.fired)
      else st.(seconds := s)
  }

  /** `n` ticks of the interval. */
  function Run(st: State, n: nat): State
    decreases n
  {
    if n == 0 then st else Run(TickStep(st), n - 1)
  }

  /** The callback has run at most once, and not at all while the interval is live. */
  predicate Valid(st: State) {
    |st.fired| <= 1 && (st.running ==> st.fired == [])
  }

  /** Every number of ticks keeps the callback at most once. */
  lemma {:induction false} RunValid(st: State, n: nat)
    requires Valid(st)
    ensures Valid(Run(st, n))
    decreases n
  {
    if n > 0 {
      RunValid(TickStep(st), n - 1);
    }
  }

  /** Once stopped, the countdown never changes again. */
  lemma {:induction false} StoppedStays(st: State, n: nat)
    requires !st.running
    ensures Run(st, n) == st
    decreases n
  {
    if n > 0 {
      StoppedStays(TickStep(st), n - 1);
    }
  }

  /** The number of ticks a live countdown runs: the counter if positive, else one. */
  function TicksLeft(seconds: int): (n: nat)
    ensures n >= 1
  {
    if seconds > 0 then seconds else 1
  }

  /**
   * A live countdown stops after exactly TicksLeft ticks, having counted
   * down by one per tick, and has then run its callback once if one was
   * registered; before that it is still live.
   */
  lemma {:induction false} RunToCompletion(st: State, k: nat)
    requires st.running && st.fired == []
    requires k <= TicksLeft(st.seconds)
    ensures var r := Run(st, k);
      && r.seconds == st.seconds - k
      && r.callback == st.callback
      && (r.running <==> k < TicksLeft(st.seconds))
      && r.fired == if k == TicksLeft(st.seconds) && st.callback.Some? then [st.callback.value] else []
    decreases k
  {
    if k > 0 {
      var next := TickStep(st);
      if st.seconds - 1 <= 0 {
        assert k == 1;
        assert Run(next, 0) == next;
      } else {
        assert TicksLeft(next.seconds) == TicksLeft(st.seconds) - 1;
        RunToCompletion(next, k - 1);
      }
    }
  }

  /** `useTimer` as an object: the counter cell, the interval and the stored callback. */
  class Countdown {
    var seconds: int
    var running: bool
    var callback: Option<Callback>
    /** The callbacks run so far, in order. */
    var fired: seq<Callback>

    function Current(): State
      reads this
    {
      State(seconds, running, callback, fired)
    }

    /**
     * `useTimer(ms)` (src/useTimer.ts:7-9, 29): the counter starts at the
     * given whole seconds and the interval is scheduled; no callback yet.
     */
    constructor (start: int)
      ensures Current() == State(start, true, None, [])
      ensures Valid(Current())
    {
      seconds, running, callback, fired := start, true, None, [];
    }

    /** `timer` (src/useTimer.ts:10-28) on the current counter. */
    function Timer(): (r: string)
      reads this
      ensures ClockValue(r) == seconds % 86400
    {
      FormatRoundTrip(seconds);
      Format(seconds)
    }

    /** One run of the interval body (src/useTimer.ts:29-35). */
    method Tick()
      modifies this
      ensures Current() == TickStep(old(Current()))
    {
      if !running {
        return;
      }
      seconds := seconds - 1;
      if seconds <= 0 {
        running := false;
        if callback.Some? {
          fired := fired + [callback.value];
        }
      }
    }

    /** `onComplete` (src/useTimer.ts:37-39): replaces any callback registered before. */
    method OnComplete(c: Callback)
      modifies this`callback
      ensures callback == Some(c)
    {
      callback := Some(c);
    }
  }

  /** A callback registered after the countdown has stopped never runs. */
  lemma LateCallbackNeverRuns(st: State, c: Callback, n: nat)
    requires !st.running
    ensures Run(st.(callback := Some(c)), n).fired == st.fired
  {
    StoppedStays(st.(callback := Some(c)), n);
  }
}
