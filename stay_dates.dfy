/** The three date rules that booking creation and room search both apply, in the order both
    apply them, and the night count used for pricing. */
module StayDates {
  import opened Wrappers
  import opened Entities

  datatype DateViolation = CheckInBeforeToday | CheckOutBeforeCheckIn | CheckInEqualsCheckOut

  /** The first rule a stay breaks: check-in before today, check-out before check-in, or
      check-in on the check-out day; `None` when it passes all three. */
  function CheckStayDates(checkIn: Date, checkOut: Date, today: Date): (r: Option<DateViolation>)
    ensures r.None? <==> today <= checkIn < checkOut
    ensures r == Some(CheckInBeforeToday) <==> checkIn < today
    ensures r == Some(CheckOutBeforeCheckIn) <==> today <= checkIn && checkOut < checkIn
    ensures r == Some(CheckInEqualsCheckOut) <==> today <= checkIn && checkIn == checkOut
  {
    if checkIn < today then Some(CheckInBeforeToday)
    else if checkOut < checkIn then Some(CheckOutBeforeCheckIn)
    else if checkIn == checkOut then Some(CheckInEqualsCheckOut)
    else None
  }

  /** `ChronoUnit.DAYS.between(checkIn, checkOut)`. */
  function Nights(checkIn: Date, checkOut: Date): int {
    checkOut - checkIn
  }

  /** Every stay that passes the rules lasts at least one night and starts no earlier than today. */
  lemma AcceptedStayHasNights(checkIn: Date, checkOut: Date, today: Date)
    requires CheckStayDates(checkIn, checkOut, today).None?
    ensures Nights(checkIn, checkOut) >= 1
    ensures checkIn >= today
  {
  }
}
