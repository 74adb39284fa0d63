/** The default start of the report: the Monday that began the last
    completed week. Dates are day numbers, day 0 being 1970-01-01 (a Thursday),
    and instants are nanoseconds since that day's midnight. */
module Weekdays {
  import opened Events
  import opened Window

  datatype Weekday = Sunday | Monday | Tuesday | Wednesday | Thursday | Friday | Saturday

  const NanosPerDay: int := 24 * 60 * 60 * 1_000_000_000

  /** The default window length: seven days. */
  const Week: int := 7 * NanosPerDay

  /** Midnight, UTC, at the start of a day. */
  function Midnight(day: int): Instant
  {
    day * NanosPerDay
  }

  function WeekdayOf(day: int): Weekday
  {
    match day % 7
    case 0 => Thursday
    case 1 => Friday
    case 2 => Saturday
    case 3 => Sunday
    case 4 => Monday
    case 5 => Tuesday
    case _ => Wednesday
  }

  /** How many days a weekday lies after the Monday of its week. */
  function DaysSinceMonday(w: Weekday): (n: nat)
    ensures n < 7
    ensures n == 0 <==> w == Monday
  {
    match w
    case Monday => 0
    case Tuesday => 1
    case Wednesday => 2
    case Thursday => 3
    case Friday => 4
    case Saturday => 5
    case Sunday => 6
  }

  /** The number of days lastCompletedWeekMonday steps back, per weekday. */
  function MondayOffset(w: Weekday): (n: int)
    ensures n == 7 + DaysSinceMonday(w)
  {
    match w
    case Monday => 7
    case Tuesday => 8
    case Wednesday => 9
    case Thursday => 10
    case Friday => 11
    case Saturday => 12
    case Sunday => 13
  }

  /** Consecutive days have consecutive weekdays. */
  lemma WeekdayStep(day: int, k: nat)
    requires k <= DaysSinceMonday(WeekdayOf(day))
    ensures DaysSinceMonday(WeekdayOf(day - k)) == DaysSinceMonday(WeekdayOf(day)) - k
  {
  }

  /** Going back a whole number of weeks keeps the weekday. */
  lemma WeekdayWeeksBack(day: int)
    ensures WeekdayOf(day - 7) == WeekdayOf(day)
  {
    assert (day - 7) % 7 == day % 7;
  }

  /** lastCompletedWeekMonday: today's date minus the weekday's offset. The result
      is a Monday, between 7 and 13 days before today. */
  function LastCompletedWeekMonday(today: int): (monday: int)
    ensures WeekdayOf(monday) == Monday
    ensures today - 13 <= monday <= today - 7
    ensures monday + 7 + DaysSinceMonday(WeekdayOf(today)) == today
  {
    var w := WeekdayOf(today);
    var d := DaysSinceMonday(w);
    WeekdayStep(today, d);
    WeekdayWeeksBack(today - d);
    today - MondayOffset(w)
  }

  /** It is the only Monday in the range of 7 to 13 days back. */
  lemma {:induction false} LastCompletedWeekMondayUnique(today: int, day: int)
    requires today - 13 <= day <= today - 7
    requires WeekdayOf(day) == Monday
    ensures day == LastCompletedWeekMonday(today)
  {
    var m := LastCompletedWeekMonday(today);
    assert day % 7 == 4 && m % 7 == 4;
    assert (day - m) % 7 == 0;
  }

  /** The default window, seven days from that Monday's midnight, admits
      exactly the events of the completed week: it ends where the Monday of
      today's week begins, so nothing of the current week is kept. */
  lemma DefaultWindowIsPast(es: seq<Event>, today: int)
    ensures LastCompletedWeekMonday(today) + 7 == today - DaysSinceMonday(WeekdayOf(today))
    ensures Midnight(LastCompletedWeekMonday(today) + 7) <= Midnight(today)
    ensures forall e :: e in Filtered(es, Midnight(LastCompletedWeekMonday(today)), Week) <==>
              e in es && Midnight(LastCompletedWeekMonday(today)) < e.createdAt < Midnight(LastCompletedWeekMonday(today) + 7)
  {
    var m := LastCompletedWeekMonday(today);
    FilteredMembers(es, Midnight(m), Week);
    assert Midnight(m) + Week == Midnight(m + 7);
  }
}
