/** The uptime display of the live page: a counter of seconds, advanced
    once per tick, shown as days, hours, minutes and seconds.

    JavaScript's `%` truncates toward zero and `Math.floor` rounds down;
    both are written out, so that a negative count is rendered as the page
    would render it. */
module MapLive {
  import opened Common

  const SecondsPerDay: int := 60 * 60 * 24
  const SecondsPerHour: int := 60 * 60

  /** `a % b` in JavaScript, for a positive `b`: the sign follows `a`. */
  function JsRem(a: int, b: int): (r: int)
    requires b > 0
    ensures a >= 0 ==> r == a % b
    ensures -b < r < b
    ensures a < 0 ==> -b < r <= 0 && (a - r) % b == 0
  {
    if a >= 0 then a % b
    else
      var x := -a;
      assert a + x % b == (-(x / b)) * b;
      MultipleHasNoRemainder(-(x / b), b);
      -(x % b)
  }

  lemma ProductAtLeast(d: int, b: int)
    requires b > 0 && d >= 1
    ensures d * b >= b
  {
  }

  lemma ProductAtMost(d: int, b: int)
    requires b > 0 && d <= -1
    ensures d * b <= -b
  {
  }

  /** A multiple of `b` leaves no Euclidean remainder. */
  lemma MultipleHasNoRemainder(k: int, b: int)
    requires b > 0
    ensures (k * b) % b == 0
  {
    var q := (k * b) / b;
    var d := k - q;
    assert d * b == k * b - q * b;
    if d >= 1 {
      ProductAtLeast(d, b);
    } else if d <= -1 {
      ProductAtMost(d, b);
    }
  }

  /** `Math.floor(a / b)` for a positive `b`. */
  function FloorDiv(a: int, b: int): (q: int)
    requires b > 0
    ensures q * b <= a < q * b + b
  {
    a / b
  }

  datatype Breakdown = Breakdown(days: int, hours: int, minutes: int, seconds: int)

  function BreakdownOf(distance: int): Breakdown
  {
    Breakdown(
      FloorDiv(distance, SecondsPerDay),
      FloorDiv(JsRem(distance, SecondsPerDay), SecondsPerHour),
      FloorDiv(JsRem(distance, SecondsPerHour), 60),
      JsRem(distance, 60))
  }

  /** The `innerHTML` of the uptime element. */
  function UptimeText(distance: int): string
  {
    var b := BreakdownOf(distance);
    var d := if b.days == 0 then "" else IntToDecimal(b.days) + "d ";
    var h := if b.hours == 0 then "" else IntToDecimal(b.hours) + "h ";
    d + h + IntToDecimal(b.minutes) + "m " + IntToDecimal(b.seconds) + "s "
  }

  /** For a non-negative count the parts recombine into it and stay within
      their ranges. */
  lemma BreakdownExact(distance: int)
    requires distance >= 0
    ensures var b := BreakdownOf(distance);
      && b.days * 86400 + b.hours * 3600 + b.minutes * 60 + b.seconds == distance
      && b.days >= 0 && 0 <= b.hours < 24 && 0 <= b.minutes < 60 && 0 <= b.seconds < 60
  {
    var b := BreakdownOf(distance);
    var dayRest := distance % 86400;
    var hourRest := distance % 3600;
    assert distance == b.days * 86400 + dayRest;
    assert dayRest == b.hours * 3600 + hourRest by {
      assert distance == (distance / 3600) * 3600 + hourRest;
      assert distance / 3600 == b.days * 24 + b.hours;
    }
    assert hourRest == b.minutes * 60 + b.seconds by {
      assert distance == (distance / 60) * 60 + b.seconds;
      assert distance / 60 == (distance / 3600) * 60 + b.minutes;
    }
  }

  /** The days part is shown exactly when at least a full day has passed. */
  lemma DaysShown(distance: int)
    requires distance >= 0
    ensures BreakdownOf(distance).days == 0 <==> distance < 86400
  {
  }

  /** Helper: `UptimeText` with its concatenations regrouped (by
      `ConcatAssoc`) into its optional days and hours parts and its closing
      minutes and seconds; a proof step for `UptimeTextUnits`. */
  lemma UptimeTextParts(distance: int)
    ensures var b := BreakdownOf(distance);
      UptimeText(distance)
      == (if b.days == 0 then "" else IntToDecimal(b.days) + "d ")
       + (if b.hours == 0 then "" else IntToDecimal(b.hours) + "h ")
       + (IntToDecimal(b.minutes) + "m " + IntToDecimal(b.seconds) + "s ")
  {
    var b := BreakdownOf(distance);
    var d := if b.days == 0 then "" else IntToDecimal(b.days) + "d ";
    var h := if b.hours == 0 then "" else IntToDecimal(b.hours) + "h ";
    var m := IntToDecimal(b.minutes) + "m ";
    var s := IntToDecimal(b.seconds) + "s ";
    ConcatAssoc(d + h + IntToDecimal(b.minutes), "m ", IntToDecimal(b.seconds));
    ConcatAssoc(d + h, IntToDecimal(b.minutes), "m ");
    ConcatAssoc(d + h, m, IntToDecimal(b.seconds));
    ConcatAssoc(d + h + m, IntToDecimal(b.seconds), "s ");
    ConcatAssoc(d + h, m, s);
    ConcatAssoc(m, IntToDecimal(b.seconds), "s ");
  }

  /** The text ends with the minutes and seconds parts. */
  lemma UptimeTextTail(distance: int)
    ensures var b := BreakdownOf(distance);
      var tail := IntToDecimal(b.minutes) + "m " + IntToDecimal(b.seconds) + "s ";
      |UptimeText(distance)| >= |tail| && UptimeText(distance)[|UptimeText(distance)| - |tail|..] == tail
  {
    UptimeTextParts(distance);
    var b := BreakdownOf(distance);
    var prefix := (if b.days == 0 then "" else IntToDecimal(b.days) + "d ")
       + (if b.hours == 0 then "" else IntToDecimal(b.hours) + "h ");
    var tail := IntToDecimal(b.minutes) + "m " + IntToDecimal(b.seconds) + "s ";
    assert (prefix + tail)[|prefix|..] == tail;
  }

  /** A decimal count holds no unit letter. */
  lemma NoUnitLetter(n: nat)
    ensures 'd' !in NatToDecimal(n) && 'h' !in NatToDecimal(n)
  {
    var s := NatToDecimal(n);
    assert forall i :: 0 <= i < |s| ==> '0' <= s[i] <= '9';
  }

  /** For a non-negative count the `d` unit is shown exactly when at least
      a full day has passed, and the `h` unit exactly when the time past
      the last full day holds at least a full hour. */
  lemma UptimeTextUnits(distance: int)
    requires distance >= 0
    ensures 'd' in UptimeText(distance) <==> distance >= 86400
    ensures 'h' in UptimeText(distance) <==> distance % 86400 >= 3600
  {
    BreakdownExact(distance);
    DaysShown(distance);
    UptimeTextParts(distance);
    var b := BreakdownOf(distance);
    PartsUnits(b.days, b.hours, b.minutes, b.seconds);
    assert b.hours == (distance % 86400) / 3600;
  }

  /** The unit letters of the text come from the parts that carry them. */
  lemma PartsUnits(days: nat, hours: nat, minutes: nat, seconds: nat)
    ensures var t := (if days == 0 then "" else IntToDecimal(days) + "d ")
       + (if hours == 0 then "" else IntToDecimal(hours) + "h ")
       + (IntToDecimal(minutes) + "m " + IntToDecimal(seconds) + "s ");
      ('d' in t <==> days != 0) && ('h' in t <==> hours != 0)
  {
    NoUnitLetter(days);
    NoUnitLetter(hours);
    NoUnitLetter(minutes);
    NoUnitLetter(seconds);
    var tail := IntToDecimal(minutes) + "m " + IntToDecimal(seconds) + "s ";
    assert 'd' !in tail && 'h' !in tail;
  }

  /** Distinct non-negative counts break down differently. */
  lemma BreakdownInjective(a: int, b: int)
    requires a >= 0 && b >= 0 && BreakdownOf(a) == BreakdownOf(b)
    ensures a == b
  {
    BreakdownExact(a);
    BreakdownExact(b);
  }

  /** `UptimeSec`, read once from the page and advanced by the timer. */
  class UptimeCounter {
    var uptimeSec: int

    constructor (initial: int)
      ensures uptimeSec == initial
    {
      uptimeSec := initial;
    }

    /** One timer tick: `distance = UptimeSec++` shows the value before
        the increment. */
    method Tick() returns (display: string)
      modifies this
      ensures uptimeSec == old(uptimeSec) + 1
      ensures display == UptimeText(old(uptimeSec))
    {
      var distance := uptimeSec;
      uptimeSec := uptimeSec + 1;
      var days := FloorDiv(distance, SecondsPerDay);
      var hours := FloorDiv(JsRem(distance, SecondsPerDay), SecondsPerHour);
      var minutes := FloorDiv(JsRem(distance, SecondsPerHour), 60);
      var seconds := JsRem(distance, 60);
      var d := if days == 0 then "" else IntToDecimal(days) + "d ";
      var h := if hours == 0 then "" else IntToDecimal(hours) + "h ";
      display := d + h + IntToDecimal(minutes) + "m " + IntToDecimal(seconds) + "s ";
    }
  }
}
