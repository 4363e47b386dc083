/**
 * The reservation record of src/types/reservation.types.ts: the status
 * enumeration with its wire codes, the note and reservation record shapes,
 * and the reservation form schema, whose refinement compares the arrival
 * and departure dates as strings.
 */
module ReservationTypes {
  import opened Wrappers
  import opened JsBuiltins
  import FrenchDate

  // ---------------------------------------------------------------------
  // Status
  // ---------------------------------------------------------------------

  datatype ReservationStatus = Confirmed | Hold | Cancelled | Expired | Completed | NoShow

  const AllReservationStatuses: seq<ReservationStatus> := [Confirmed, Hold, Cancelled, Expired, Completed, NoShow]

  function ReservationStatusCode(s: ReservationStatus): string {
    match s
    case Confirmed => "CONFIRMED"
    case Hold => "HOLD"
    case Cancelled => "CANCELLED"
    case Expired => "EXPIRED"
    case Completed => "COMPLETED"
    case NoShow => "NO_SHOW"
  }

  /** ReservationStatusEnum.parse: the status whose code is `code`, if any. */
  function ParseReservationStatus(code: string): (r: Option<ReservationStatus>)
    ensures r.Some? ==> ReservationStatusCode(r.value) == code
    ensures (exists s :: ReservationStatusCode(s) == code) ==> r.Some?
  {
    if code == "CONFIRMED" then Some(Confirmed)
    else if code == "HOLD" then Some(Hold)
    else if code == "CANCELLED" then Some(Cancelled)
    else if code == "EXPIRED" then Some(Expired)
    else if code == "COMPLETED" then Some(Completed)
    else if code == "NO_SHOW" then Some(NoShow)
    else None
  }

  /** A status is exactly one of six values, each with its own code. */
  lemma ReservationStatusesComplete(s: ReservationStatus)
    ensures s in AllReservationStatuses && |AllReservationStatuses| == 6
    ensures forall i, j :: 0 <= i < j < 6 ==> AllReservationStatuses[i] != AllReservationStatuses[j]
    ensures ParseReservationStatus(ReservationStatusCode(s)) == Some(s)
  {
  }

  // ---------------------------------------------------------------------
  // Records
  // ---------------------------------------------------------------------

  datatype ReservationNote = ReservationNote(id: string, text: string, createdAt: string, author: string)

  /** A reservation; its notes are kept in order. */
  datatype Reservation = Reservation(
    id: string,
    spotId: string,
    customerId: string,
    checkIn: string,
    checkOut: string,
    status: ReservationStatus,
    totalPrice: real,
    adultsCount: real,
    childrenCount: real,
    notes: seq<ReservationNote>,
    createdAt: string,
    updatedAt: string)

  /** ReservationSchema: both counts are integers; nothing else is checked
      beyond the field types. */
  predicate ValidReservation(r: Reservation) {
    IsInteger(r.adultsCount) && IsInteger(r.childrenCount)
  }

  datatype ReservationForm = ReservationForm(
    spotId: string,
    customerId: string,
    checkIn: string,
    checkOut: string,
    adultsCount: real,
    childrenCount: real)

  /** ReservationFormSchema: the four identifiers and dates are non-empty,
      at least one adult, no negative number of children, both counts
      integers, and the departure after the arrival by string order. */
  predicate ValidReservationForm(f: ReservationForm) {
    && |f.spotId| >= 1 && |f.customerId| >= 1
    && |f.checkIn| >= 1 && |f.checkOut| >= 1
    && IsInteger(f.adultsCount) && f.adultsCount >= 1.0
    && IsInteger(f.childrenCount) && f.childrenCount >= 0.0
    && LexLess(f.checkIn, f.checkOut)
  }

  /** A stay must last: arriving and leaving on the same date is refused. */
  lemma SameDayStayRejected(f: ReservationForm)
    requires f.checkIn == f.checkOut
    ensures !ValidReservationForm(f)
  {
    LexLessIrreflexive(f.checkIn);
  }

  /** Swapping the two dates of a valid form makes it invalid. */
  lemma SwappedDatesRejected(f: ReservationForm)
    requires ValidReservationForm(f)
    ensures !ValidReservationForm(f.(checkIn := f.checkOut, checkOut := f.checkIn))
  {
    LexLessAsymmetric(f.checkIn, f.checkOut);
  }

  /** Order is transitive: a stay nested in a valid one is checked in the
      same direction, so a form from its arrival to a later departure is
      valid too. */
  lemma LaterDepartureStaysValid(f: ReservationForm, later: string)
    requires ValidReservationForm(f) && LexLess(f.checkOut, later)
    ensures ValidReservationForm(f.(checkOut := later))
  {
    LexLessTransitive(f.checkIn, f.checkOut, later);
  }

  /** The form is at least as strict as the record: a reservation that
      carries the counts of a valid form satisfies the record schema. */
  lemma ValidFormGivesValidReservation(f: ReservationForm, r: Reservation)
    requires ValidReservationForm(f)
    requires r.adultsCount == f.adultsCount && r.childrenCount == f.childrenCount
    ensures ValidReservation(r)
  {
  }

  /** The record schema is strictly weaker: it admits no adults at all and
      a negative number of children, and a departure before the arrival. */
  lemma ReservationSchemaWeakerThanForm()
    ensures var r := Reservation("r1", "s1", "c1", "b", "a", Hold, 0.0, 0.0, -1.0, [], "", "");
            ValidReservation(r)
            && !ValidReservationForm(ReservationForm(r.spotId, r.customerId, r.checkIn, r.checkOut,
                                                     r.adultsCount, r.childrenCount))
  {
    assert (0.0).Floor == 0 && (-1.0).Floor == -1;
  }

  // ---------------------------------------------------------------------
  // String order on ISO dates
  // ---------------------------------------------------------------------

  /** A calendar date the form can carry: a four-digit year, a month index
      0..11 and a day 1..31. */
  predicate IsoDate(p: FrenchDate.DateParts) {
    p.year < 10000 && p.month < 12 && 1 <= p.day <= 31
  }

  /** `a` comes before `b` on the calendar. */
  predicate DateBefore(a: FrenchDate.DateParts, b: FrenchDate.DateParts) {
    || a.year < b.year
    || (a.year == b.year && a.month < b.month)
    || (a.year == b.year && a.month == b.month && a.day < b.day)
  }

  /** The parts of the YYYY-MM-DD text, grouped from the right. */
  lemma IsoPieces(p: FrenchDate.DateParts)
    requires IsoDate(p)
    ensures FrenchDate.FormatIso(p)
         == DigitsOf(p.year, 4) + ("-" + (DigitsOf(p.month + 1, 2) + ("-" + DigitsOf(p.day, 2))))
  {
    FrenchDate.FormatIsoLayout(p);
  }

  lemma DashThen(x: string, y: string)
    ensures LexLess("-" + x, "-" + y) <==> LexLess(x, y)
  {
    LexLessSplit("-", x, "-", y);
    LexLessIrreflexive("-");
  }

  lemma DayPieceOrder(a: FrenchDate.DateParts, b: FrenchDate.DateParts)
    requires IsoDate(a) && IsoDate(b)
    ensures LexLess("-" + DigitsOf(a.day, 2), "-" + DigitsOf(b.day, 2)) <==> a.day < b.day
  {
    assert Pow10(2) == 100;
    DashThen(DigitsOf(a.day, 2), DigitsOf(b.day, 2));
    DigitsOfOrder(a.day, b.day, 2);
  }

  lemma MonthPieceOrder(a: FrenchDate.DateParts, b: FrenchDate.DateParts)
    requires IsoDate(a) && IsoDate(b)
    ensures LexLess("-" + (DigitsOf(a.month + 1, 2) + ("-" + DigitsOf(a.day, 2))),
                    "-" + (DigitsOf(b.month + 1, 2) + ("-" + DigitsOf(b.day, 2))))
        <==> a.month < b.month || (a.month == b.month && a.day < b.day)
  {
    assert Pow10(2) == 100;
    var ma, mb := DigitsOf(a.month + 1, 2), DigitsOf(b.month + 1, 2);
    DashThen(ma + ("-" + DigitsOf(a.day, 2)), mb + ("-" + DigitsOf(b.day, 2)));
    LexLessSplit(ma, "-" + DigitsOf(a.day, 2), mb, "-" + DigitsOf(b.day, 2));
    DigitsOfOrder(a.month + 1, b.month + 1, 2);
    DayPieceOrder(a, b);
  }

  /** For dates written YYYY-MM-DD, as the date parser emits them, the
      string comparison of the form's refinement is calendar order. */
  lemma IsoStringOrderIsCalendarOrder(a: FrenchDate.DateParts, b: FrenchDate.DateParts)
    requires IsoDate(a) && IsoDate(b)
    ensures LexLess(FrenchDate.FormatIso(a), FrenchDate.FormatIso(b)) <==> DateBefore(a, b)
  {
    assert Pow10(4) == 10000;
    IsoPieces(a);
    IsoPieces(b);
    var ya, yb := DigitsOf(a.year, 4), DigitsOf(b.year, 4);
    var ra := "-" + (DigitsOf(a.month + 1, 2) + ("-" + DigitsOf(a.day, 2)));
    var rb := "-" + (DigitsOf(b.month + 1, 2) + ("-" + DigitsOf(b.day, 2)));
    LexLessSplit(ya, ra, yb, rb);
    DigitsOfOrder(a.year, b.year, 4);
    MonthPieceOrder(a, b);
  }

  /** A form whose dates are ISO texts is valid exactly when its other
      fields are and the departure is a later calendar date. */
  lemma IsoFormValidity(f: ReservationForm, arrival: FrenchDate.DateParts, departure: FrenchDate.DateParts)
    requires IsoDate(arrival) && IsoDate(departure)
    requires f.checkIn == FrenchDate.FormatIso(arrival) && f.checkOut == FrenchDate.FormatIso(departure)
    ensures ValidReservationForm(f)
        <==> (&& |f.spotId| >= 1 && |f.customerId| >= 1
              && IsInteger(f.adultsCount) && f.adultsCount >= 1.0
              && IsInteger(f.childrenCount) && f.childrenCount >= 0.0
              && DateBefore(arrival, departure))
  {
    FrenchDate.FormatIsoLayout(arrival);
    FrenchDate.FormatIsoLayout(departure);
    IsoStringOrderIsCalendarOrder(arrival, departure);
  }
}
