/** The flash-sale countdown of the product banner: the once-a-second tick and the
    two-digit display of each unit. */
module ProductTimer {
  import Text

  datatype TimeLeft = TimeLeft(days: int, hours: int, minutes: int, seconds: int)

  /** The state the banner starts from. */
  const Initial := TimeLeft(23, 5, 59, 35)

  /** The updater passed to `setTimeLeft` on every interval: borrow from the next unit
      up when the current one is 0, and stay put once everything is 0. */
  function Tick(t: TimeLeft): TimeLeft {
    if t.seconds > 0 then t.(seconds := t.seconds - 1)
    else if t.minutes > 0 then t.(minutes := t.minutes - 1, seconds := 59)
    else if t.hours > 0 then t.(hours := t.hours - 1, minutes := 59, seconds := 59)
    else if t.days > 0 then t.(days := t.days - 1, hours := 23, minutes := 59, seconds := 59)
    else t
  }

  predicate NonNegative(t: TimeLeft) {
    t.days >= 0 && t.hours >= 0 && t.minutes >= 0 && t.seconds >= 0
  }

  predicate InRange(t: TimeLeft) {
    NonNegative(t) && t.hours <= 23 && t.minutes <= 59 && t.seconds <= 59
  }

  predicate IsZero(t: TimeLeft) {
    t.days == 0 && t.hours == 0 && t.minutes == 0 && t.seconds == 0
  }

  function TotalSeconds(t: TimeLeft): int {
    t.days * 86400 + t.hours * 3600 + t.minutes * 60 + t.seconds
  }

  /** The four cases of a tick, each touching only the units it names. */
  lemma TickCases(t: TimeLeft)
    ensures t.seconds > 0 ==> Tick(t) == TimeLeft(t.days, t.hours, t.minutes, t.seconds - 1)
    ensures t.seconds <= 0 && t.minutes > 0 ==> Tick(t) == TimeLeft(t.days, t.hours, t.minutes - 1, 59)
    ensures t.seconds <= 0 && t.minutes <= 0 && t.hours > 0 ==> Tick(t) == TimeLeft(t.days, t.hours - 1, 59, 59)
    ensures t.seconds <= 0 && t.minutes <= 0 && t.hours <= 0 && t.days > 0 ==>
      Tick(t) == TimeLeft(t.days - 1, 23, 59, 59)
  {
  }

  /** Among non-negative states, the all-zero one is the only fixed point. */
  lemma ZeroIsTheFixedPoint(t: TimeLeft)
    requires NonNegative(t)
    ensures Tick(t) == t <==> IsZero(t)
  {
  }

  /** A tick keeps every unit in range and takes exactly one second off a state that
      has not run out. */
  lemma TickStep(t: TimeLeft)
    requires NonNegative(t)
    ensures NonNegative(Tick(t))
    ensures InRange(t) ==> InRange(Tick(t))
    ensures !IsZero(t) ==> TotalSeconds(Tick(t)) == TotalSeconds(t) - 1
    ensures IsZero(t) ==> Tick(t) == t
  {
  }

  /** `k` ticks in a row. */
  function Ticks(t: TimeLeft, k: nat): TimeLeft
    decreases k
  {
    if k == 0 then t else Ticks(Tick(t), k - 1)
  }

  /** After `k` ticks the countdown shows `max(0, total - k)` seconds, and it stays in
      range throughout. */
  lemma {:induction false} TicksCountDown(t: TimeLeft, k: nat)
    requires InRange(t)
    ensures InRange(Ticks(t, k))
    ensures TotalSeconds(Ticks(t, k)) == if TotalSeconds(t) >= k then TotalSeconds(t) - k else 0
    decreases k
  {
    if k > 0 {
      var u := Tick(t);
      TickStep(t);
      TicksCountDown(u, k - 1);
      assert Ticks(t, k) == Ticks(u, k - 1);
      var total := TotalSeconds(t);
      assert total >= 0;
      assert IsZero(t) ==> total == 0 && TotalSeconds(u) == 0;
      assert !IsZero(t) ==> total >= 1 && TotalSeconds(u) == total - 1;
    }
  }

  /** The banner starts in range, 2,008,775 seconds from the end. */
  lemma InitialState()
    ensures InRange(Initial) && TotalSeconds(Initial) == 2008775
  {
  }

  /** `String(n).padStart(2, "0")`. */
  function TwoDigits(n: nat): string {
    Text.PadStart(Text.NatToString(n), 2, '0')
  }

  /** Below 100 the display is exactly two digits and reads back as the number. */
  lemma TwoDigitsReadsBack(n: nat)
    requires n < 100
    ensures |TwoDigits(n)| == 2 && Text.AllDigits(TwoDigits(n))
    ensures Text.ParseDigits(TwoDigits(n)) == n
  {
    var s := Text.NatToString(n);
    Text.ParseNatToString(n);
    if n < 10 {
      assert TwoDigits(n) == "0" + s;
      Text.ParseDigitsLeadingZero(s);
    } else {
      assert |Text.NatToString(n / 10)| == 1;
      assert TwoDigits(n) == s;
    }
  }

  /** The four cells of the timer: days, hours, minutes and seconds. */
  function Display(t: TimeLeft): seq<string>
    requires NonNegative(t)
  {
    [TwoDigits(t.days), TwoDigits(t.hours), TwoDigits(t.minutes), TwoDigits(t.seconds)]
  }

  /** For a state in range with fewer than 100 days, each cell is two digits that read
      back as its unit, so the display determines the state. */
  lemma DisplayReadsBack(t: TimeLeft)
    requires InRange(t) && t.days < 100
    ensures |Display(t)| == 4
    ensures forall i :: 0 <= i < 4 ==> |Display(t)[i]| == 2 && Text.AllDigits(Display(t)[i])
    ensures Text.ParseDigits(Display(t)[0]) == t.days && Text.ParseDigits(Display(t)[1]) == t.hours
    ensures Text.ParseDigits(Display(t)[2]) == t.minutes && Text.ParseDigits(Display(t)[3]) == t.seconds
  {
    TwoDigitsReadsBack(t.days);
    TwoDigitsReadsBack(t.hours);
    TwoDigitsReadsBack(t.minutes);
    TwoDigitsReadsBack(t.seconds);
  }
}
