/** The fixed catalog of the chat widget (`bookingSystem` in script.js): the
    four services, each stylist's weekly hourly template, and
    `getAvailableTimesForDate`, which filters a template against the stored
    bookings. */
module Catalog {
  import opened Base
  import opened Records

  datatype Service = Service(key: string, name: string, duration: nat, price: nat)

  /** `bookingSystem.services`, in declaration order, which is the order
      `Object.keys` lists them in. */
  const Services: seq<Service> := [
    Service("haircut", "Haircut", 60, 65),
    Service("color", "Color Treatment", 120, 120),
    Service("highlights", "Highlights", 150, 150),
    Service("style", "Styling", 45, 45)
  ]

  /** The long weekday name `toLocaleDateString('en-US', {weekday: 'long'})`
      gives. */
  datatype Weekday = Sunday | Monday | Tuesday | Wednesday | Thursday | Friday | Saturday

  /** What the model needs of a JavaScript `Date`: its weekday name and the
      date part of its ISO text. */
  datatype Day = Day(weekday: Weekday, iso: string)

  const ShortDay: seq<string> := ["10:00", "11:00", "13:00", "14:00", "15:00", "16:00"]
  const LongDay: seq<string> := ShortDay + ["17:00", "18:00"]
  const SaturdayHours: seq<string> := ["09:00", "10:00", "11:00", "12:00", "13:00", "14:00", "15:00"]

  /** One stylist's week; a day without an entry reads as `undefined`. */
  function Week(day: Weekday): Option<seq<string>> {
    match day
    case Tuesday | Wednesday => Some(ShortDay)
    case Thursday | Friday => Some(LongDay)
    case Saturday => Some(SaturdayHours)
    case Sunday | Monday => None
  }

  /** A time that appears in some day of the week. */
  predicate IsSlot(t: string) {
    t in LongDay || t in SaturdayHours
  }

  /** The stylists `availableTimeSlots` has an entry for. Both keep the same
      week. */
  predicate KnownStylist(stylist: string) {
    stylist == "natasha" || stylist == "justina"
  }

  /** `availableTimeSlots[stylist][dayName] || []`: reading a day of a stylist
      without an entry (or of no stylist at all) throws a `TypeError`; a day
      without hours gives the empty list. */
  function Template(stylist: Option<string>, day: Weekday): (r: Try<seq<string>>)
    ensures r.Ok? <==> stylist.Some? && KnownStylist(stylist.value)
    ensures r.Ok? ==> (r.value == [] <==> day == Sunday || day == Monday)
  {
    if stylist.Some? && KnownStylist(stylist.value) then Ok(Week(day).GetOr([])) else Threw
  }

  /** The conflict test of `getAvailableTimesForDate`: same date text, same
      time text, same stylist, not cancelled. */
  predicate Blocks(b: Booking, date: string, time: string, stylist: string) {
    b.date == date && b.time == time && b.stylist == stylist && b.status != "cancelled"
  }

  predicate Taken(stored: seq<Booking>, date: string, time: string, stylist: string) {
    exists i | 0 <= i < |stored| :: Blocks(stored[i], date, time, stylist)
  }

  /** `a` is `b` with some elements left out, order kept. */
  predicate IsSubsequence<T(==)>(a: seq<T>, b: seq<T>)
    decreases |b|
  {
    if |a| == 0 then true
    else if |b| == 0 then false
    else if a[0] == b[0] then IsSubsequence(a[1..], b[1..])
    else IsSubsequence(a, b[1..])
  }

  /** A subsequence of the tail is a subsequence of the whole. */
  lemma {:induction false} SubsequenceSkip<T>(a: seq<T>, b: seq<T>)
    requires |b| > 0 && IsSubsequence(a, b[1..])
    ensures IsSubsequence(a, b)
    decreases |b|, 0
  {
    if |a| > 0 && a[0] == b[0] {
      SubsequenceDropHead(a, b[1..]);
    }
  }

  lemma {:induction false} SubsequenceDropHead<T>(a: seq<T>, b: seq<T>)
    requires |a| > 0 && IsSubsequence(a, b)
    ensures IsSubsequence(a[1..], b)
    decreases |b|, 1
  {
    if a[0] != b[0] {
      SubsequenceDropHead(a, b[1..]);
    }
    SubsequenceSkip(a[1..], b);
  }

  /** The template slots no stored booking blocks, in template order. */
  function FreeSlots(template: seq<string>, stored: seq<Booking>, date: string, stylist: string)
    : (r: seq<string>)
    ensures IsSubsequence(r, template)
    ensures forall t :: t in r <==> t in template && !Taken(stored, date, t, stylist)
  {
    if |template| == 0 then []
    else
      var rest := FreeSlots(template[1..], stored, date, stylist);
      if Taken(stored, date, template[0], stylist) then
        SubsequenceSkip(rest, template);
        rest
      else
        assert ([template[0]] + rest)[1..] == rest;
        [template[0]] + rest
  }

  /** `getAvailableTimesForDate(date, stylist)` with the bookings read back
      from the local store. */
  function AvailableTimes(day: Day, stylist: Option<string>, stored: seq<Booking>): (r: Try<seq<string>>)
    ensures r.Ok? <==> stylist.Some? && KnownStylist(stylist.value)
    ensures r.Ok? ==> IsSubsequence(r.value, Week(day.weekday).GetOr([]))
    ensures r.Ok? ==> forall t :: t in r.value <==>
      t in Week(day.weekday).GetOr([]) && !Taken(stored, day.iso, t, stylist.value)
  {
    match Template(stylist, day.weekday)
    case Threw => Threw
    case Ok(template) => Ok(FreeSlots(template, stored, day.iso, stylist.value))
  }

  /** A booking added to the store blocks exactly its own slot, and only when
      it is not cancelled. */
  lemma TakenAppend(stored: seq<Booking>, b: Booking, date: string, time: string, stylist: string)
    ensures Taken(stored + [b], date, time, stylist)
      <==> Taken(stored, date, time, stylist) || Blocks(b, date, time, stylist)
  {
    var all := stored + [b];
    assert all[|stored|] == b;
    if Taken(all, date, time, stylist) && !Blocks(b, date, time, stylist) {
      var i :| 0 <= i < |all| && Blocks(all[i], date, time, stylist);
      assert all[i] == stored[i];
    }
    if Taken(stored, date, time, stylist) {
      var i :| 0 <= i < |stored| && Blocks(stored[i], date, time, stylist);
      assert all[i] == stored[i];
    }
  }

  /** Storing a cancelled booking never removes a slot. */
  lemma {:induction false} CancelledNeverBlocks(template: seq<string>, stored: seq<Booking>, b: Booking,
                                                date: string, stylist: string)
    requires b.status == "cancelled"
    ensures FreeSlots(template, stored + [b], date, stylist) == FreeSlots(template, stored, date, stylist)
  {
    if |template| > 0 {
      TakenAppend(stored, b, date, template[0], stylist);
      CancelledNeverBlocks(template[1..], stored, b, date, stylist);
    }
  }

  /** Storing one more booking can only remove slots: what is left is a
      subsequence of what was free before. */
  lemma {:induction false} BookingOnlyRemoves(template: seq<string>, stored: seq<Booking>, b: Booking,
                                              date: string, stylist: string)
    ensures IsSubsequence(FreeSlots(template, stored + [b], date, stylist), FreeSlots(template, stored, date, stylist))
  {
    if |template| > 0 {
      var h := template[0];
      var after := FreeSlots(template[1..], stored + [b], date, stylist);
      var before := FreeSlots(template[1..], stored, date, stylist);
      TakenAppend(stored, b, date, h, stylist);
      BookingOnlyRemoves(template[1..], stored, b, date, stylist);
      if !Taken(stored, date, h, stylist) {
        if Taken(stored + [b], date, h, stylist) {
          assert ([h] + before)[1..] == before;
          SubsequenceSkip(after, [h] + before);
        } else {
          assert ([h] + after)[1..] == after;
          assert ([h] + before)[1..] == before;
        }
      }
    }
  }

  /** Conflicts are an exact match on the start time, not an overlap of
      intervals: a two-hour colour treatment at 17:00 on a Friday leaves the
      18:00 slot of that stylist free. */
  lemma ExactMatchOnly(b: Booking, iso: string)
    requires b.stylist == "natasha" && b.date == iso && b.time == "17:00" && b.service == "color"
    requires b.status == "pending"
    ensures "18:00" in AvailableTimes(Day(Friday, iso), Some("natasha"), [b]).value
    ensures "17:00" !in AvailableTimes(Day(Friday, iso), Some("natasha"), [b]).value
  {
    assert LongDay[7] == "18:00";
    assert LongDay[6] == "17:00";
    assert [b][0] == b;
    assert !Taken([b], iso, "18:00", "natasha");
  }

  /** Sundays and Mondays have no hours: nothing is offered, whatever is
      stored. */
  lemma ClosedDays(day: Day, stylist: string, stored: seq<Booking>)
    requires KnownStylist(stylist) && (day.weekday == Sunday || day.weekday == Monday)
    ensures AvailableTimes(day, Some(stylist), stored) == Ok([])
  {
  }

  /** Whatever is offered is a slot of the weekly template. */
  lemma OffersAreSlots(day: Day, stylist: Option<string>, stored: seq<Booking>, t: string)
    requires AvailableTimes(day, stylist, stored).Ok? && t in AvailableTimes(day, stylist, stored).value
    ensures IsSlot(t)
  {
    assert t in Week(day.weekday).GetOr([]);
    assert forall x | x in ShortDay :: x in LongDay;
  }
}
