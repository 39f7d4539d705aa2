/** The hotel pricing and availability engine: `PricingCalculator` (price
    breakdown of a stay and the availability check) and `OccupancyCalculator`
    (occupancy summary of a hotel over a reporting window).

    The engine is a pure computation over read-only records. Dates are day
    numbers, so `(check_out - check_in).days` is a subtraction; money and
    percentages are exact reals. */
module Pricing {
  import opened Common

  type Date = int

  /** A room type of a hotel: its nightly base price, how many rooms of it exist,
      and the per-date `RoomAvailability` records (rooms still free on a date). */
  datatype RoomType = RoomType(
    id: int,
    name: string,
    basePrice: real,
    totalRooms: nat,
    availability: map<Date, nat>)

  /** A percentage discount, with its cap when `max_discount` is set; a fixed
      discount is an amount. */
  datatype DiscountKind =
    | Percentage(percent: real, maxDiscount: Option<real>)
    | Fixed(amount: real)

  /** A `HotelDiscount` code currently offered by the hotel. */
  datatype HotelDiscount = HotelDiscount(code: string, kind: DiscountKind, minBookingAmount: real)

  /** What the calculator reads of the hotel: its tax rate and its discount codes. */
  datatype HotelTerms = HotelTerms(id: int, gstPercentage: real, discounts: seq<HotelDiscount>)

  /** The `discount_details` part of a breakdown. Only an unknown code puts an
      `error` entry in it. */
  datatype DiscountDetails =
    | NoCodeGiven
    | UnknownCode(code: string)
    | BelowMinimum(code: string, minBookingAmount: real)
    | Applied(code: string, kind: DiscountKind)
  {
    predicate HasError() {
      UnknownCode?
    }
  }

  datatype PriceBreakdown = PriceBreakdown(
    numNights: int,
    numRooms: int,
    basePrice: real,
    subtotal: real,
    discountAmount: real,
    discountDetails: DiscountDetails,
    subtotalAfterDiscount: real,
    gstAmount: real,
    totalAmount: real,
    currency: string)

  datatype PricingError = InvalidDateRange | InvalidRoomCount

  const Currency := "INR"

  function Nights(checkIn: Date, checkOut: Date): int {
    checkOut - checkIn
  }

  function Subtotal(basePrice: real, nights: int, rooms: int): real {
    basePrice * nights as real * rooms as real
  }

  function GstAmount(amount: real, gstPercentage: real): real {
    amount * (gstPercentage / 100.0)
  }

  /** Exact, case-sensitive look-up of a code among the hotel's discounts. */
  function FindDiscount(discounts: seq<HotelDiscount>, code: string): (r: Option<HotelDiscount>)
    ensures r.Some? ==> r.value in discounts && r.value.code == code
    ensures r.None? <==> forall d :: d in discounts ==> d.code != code
  {
    if |discounts| == 0 then None
    else if discounts[0].code == code then Some(discounts[0])
    else FindDiscount(discounts[1..], code)
  }

  /** The reduction an eligible discount grants on a subtotal. */
  function DiscountValue(kind: DiscountKind, subtotal: real): (amount: real)
    ensures kind.Percentage? && kind.maxDiscount.Some? ==>
      amount <= kind.maxDiscount.value && amount <= subtotal * kind.percent / 100.0 &&
      (amount == kind.maxDiscount.value || amount == subtotal * kind.percent / 100.0)
    ensures kind.Percentage? && kind.maxDiscount.None? ==> amount == subtotal * kind.percent / 100.0
    ensures kind.Fixed? ==> amount == kind.amount
  {
    match kind
    case Percentage(percent, Some(cap)) => Min(subtotal * (percent / 100.0), cap)
    case Percentage(percent, None) => subtotal * (percent / 100.0)
    case Fixed(value) => value
  }

  /** Discount resolution: no code, an unknown code (a soft failure with an
      error note), a known code the subtotal does not reach, or an applied code. */
  function ResolveDiscount(discounts: seq<HotelDiscount>, code: Option<string>, subtotal: real): (r: (real, DiscountDetails))
    ensures r.1.HasError() <==> code.Some? && FindDiscount(discounts, code.value).None?
    ensures !r.1.Applied? ==> r.0 == 0.0
    ensures r.1.Applied? <==>
      code.Some? && FindDiscount(discounts, code.value).Some? &&
      subtotal >= FindDiscount(discounts, code.value).value.minBookingAmount
    ensures r.1.Applied? ==>
      && r.1.code == code.value
      && r.1.kind == FindDiscount(discounts, code.value).value.kind
      && r.0 == DiscountValue(r.1.kind, subtotal)
  {
    match code
    case None => (0.0, NoCodeGiven)
    case Some(c) =>
      match FindDiscount(discounts, c)
      case None => (0.0, UnknownCode(c))
      case Some(d) =>
        if subtotal < d.minBookingAmount then (0.0, BelowMinimum(c, d.minBookingAmount))
        else (DiscountValue(d.kind, subtotal), Applied(c, d.kind))
  }

  /** The relations between the amounts of a breakdown: the discount comes off
      the subtotal, tax is charged on what remains, and the total adds the two. */
  predicate Consistent(b: PriceBreakdown, gstPercentage: real) {
    && b.subtotalAfterDiscount == b.subtotal - b.discountAmount
    && b.gstAmount == b.subtotalAfterDiscount * gstPercentage / 100.0
    && b.totalAmount == b.subtotalAfterDiscount + b.gstAmount
  }

  /** `PricingCalculator.calculate_total_price`. */
  function CalculateTotalPrice(
    hotel: HotelTerms, room: RoomType, checkIn: Date, checkOut: Date,
    numRooms: int, discountCode: Option<string>): (r: Result<PriceBreakdown, PricingError>)
    ensures r.Err? <==> checkOut <= checkIn || numRooms < 1
    ensures checkOut <= checkIn ==> r == Err(InvalidDateRange)
    ensures checkIn < checkOut && numRooms < 1 ==> r == Err(InvalidRoomCount)
    ensures r.Ok? ==>
      (r.value.discountAmount, r.value.discountDetails) == ResolveDiscount(hotel.discounts, discountCode, r.value.subtotal)
    ensures r.Ok? ==>
      && r.value.numNights == checkOut - checkIn
      && r.value.numRooms == numRooms
      && r.value.basePrice == room.basePrice
      && r.value.subtotal == room.basePrice * (checkOut - checkIn) as real * numRooms as real
      && r.value.currency == "INR"
      && Consistent(r.value, hotel.gstPercentage)
  {
    var nights := Nights(checkIn, checkOut);
    if nights < 1 then Err(InvalidDateRange)
    else if numRooms < 1 then Err(InvalidRoomCount)
    else
      var subtotal := Subtotal(room.basePrice, nights, numRooms);
      var (discount, details) := ResolveDiscount(hotel.discounts, discountCode, subtotal);
      var afterDiscount := subtotal - discount;
      var gst := GstAmount(afterDiscount, hotel.gstPercentage);
      Ok(PriceBreakdown(nights, numRooms, room.basePrice, subtotal, discount, details,
                        afterDiscount, gst, afterDiscount + gst, Currency))
  }

  // ---------------------------------------------------------------------------
  // Properties of the price breakdown
  // ---------------------------------------------------------------------------

  /** Tax is charged on the discounted amount: whenever a positive discount
      applies at a positive rate, the tax is strictly less than the tax on the
      gross subtotal would be. */
  lemma TaxOnDiscountedAmount(
    hotel: HotelTerms, room: RoomType, checkIn: Date, checkOut: Date,
    numRooms: int, code: Option<string>)
    requires CalculateTotalPrice(hotel, room, checkIn, checkOut, numRooms, code).Ok?
    ensures var b := CalculateTotalPrice(hotel, room, checkIn, checkOut, numRooms, code).value;
      && b.gstAmount == (b.subtotal - b.discountAmount) * hotel.gstPercentage / 100.0
      && (b.discountAmount > 0.0 && hotel.gstPercentage > 0.0 ==>
            b.gstAmount < b.subtotal * hotel.gstPercentage / 100.0)
  {
    var b := CalculateTotalPrice(hotel, room, checkIn, checkOut, numRooms, code).value;
    if b.discountAmount > 0.0 && hotel.gstPercentage > 0.0 {
      var rate := hotel.gstPercentage / 100.0;
      assert b.gstAmount == b.subtotal * rate - b.discountAmount * rate;
      assert b.discountAmount * rate > 0.0;
    }
  }

  /** The total is the discounted subtotal grossed up by the tax rate. */
  lemma TotalIsTaxedNetAmount(
    hotel: HotelTerms, room: RoomType, checkIn: Date, checkOut: Date,
    numRooms: int, code: Option<string>)
    requires CalculateTotalPrice(hotel, room, checkIn, checkOut, numRooms, code).Ok?
    ensures var b := CalculateTotalPrice(hotel, room, checkIn, checkOut, numRooms, code).value;
      b.totalAmount == (b.subtotal - b.discountAmount) * (1.0 + hotel.gstPercentage / 100.0)
  {
  }

  /** An eligible percentage discount is `min(subtotal * percent / 100, max_discount)`. */
  lemma PercentageDiscountIsCapped(
    hotel: HotelTerms, room: RoomType, checkIn: Date, checkOut: Date,
    numRooms: int, code: string, percent: real, cap: real)
    requires CalculateTotalPrice(hotel, room, checkIn, checkOut, numRooms, Some(code)).Ok?
    requires var b := CalculateTotalPrice(hotel, room, checkIn, checkOut, numRooms, Some(code)).value;
      b.discountDetails == Applied(code, Percentage(percent, Some(cap)))
    ensures var b := CalculateTotalPrice(hotel, room, checkIn, checkOut, numRooms, Some(code)).value;
      b.discountAmount == Min(b.subtotal * percent / 100.0, cap)
  {
    var b := CalculateTotalPrice(hotel, room, checkIn, checkOut, numRooms, Some(code)).value;
    var d := FindDiscount(hotel.discounts, code).value;
    assert d.kind == Percentage(percent, Some(cap));
    assert b.subtotal * (percent / 100.0) == b.subtotal * percent / 100.0;
  }

  /** An eligible fixed discount is exactly its amount. */
  lemma FixedDiscountIsExact(
    hotel: HotelTerms, room: RoomType, checkIn: Date, checkOut: Date,
    numRooms: int, code: string, amount: real)
    requires CalculateTotalPrice(hotel, room, checkIn, checkOut, numRooms, Some(code)).Ok?
    requires var b := CalculateTotalPrice(hotel, room, checkIn, checkOut, numRooms, Some(code)).value;
      b.discountDetails == Applied(code, Fixed(amount))
    ensures var b := CalculateTotalPrice(hotel, room, checkIn, checkOut, numRooms, Some(code)).value;
      b.discountAmount == amount && b.subtotalAfterDiscount == b.subtotal - amount
  {
    var d := FindDiscount(hotel.discounts, code).value;
    assert d.kind == Fixed(amount);
  }

  /** Read off the hotel's own discount record: a code the hotel offers once,
      on a stay whose subtotal reaches its minimum, is applied with its kind, and
      takes off min(subtotal * percent / 100, cap) for a capped percentage,
      subtotal * percent / 100 for an uncapped one, and exactly its amount for
      a fixed discount. */
  lemma EligibleCodeDiscount(
    hotel: HotelTerms, room: RoomType, checkIn: Date, checkOut: Date,
    numRooms: int, d: HotelDiscount)
    requires d in hotel.discounts
    requires forall e :: e in hotel.discounts && e.code == d.code ==> e == d
    requires checkIn < checkOut && numRooms >= 1
    requires room.basePrice * (checkOut - checkIn) as real * numRooms as real >= d.minBookingAmount
    ensures CalculateTotalPrice(hotel, room, checkIn, checkOut, numRooms, Some(d.code)).Ok?
    ensures var b := CalculateTotalPrice(hotel, room, checkIn, checkOut, numRooms, Some(d.code)).value;
      && b.discountDetails == Applied(d.code, d.kind)
      && (d.kind.Percentage? && d.kind.maxDiscount.Some? ==>
            b.discountAmount == Min(b.subtotal * d.kind.percent / 100.0, d.kind.maxDiscount.value))
      && (d.kind.Percentage? && d.kind.maxDiscount.None? ==> b.discountAmount == b.subtotal * d.kind.percent / 100.0)
      && (d.kind.Fixed? ==> b.discountAmount == d.kind.amount)
  {
    var found := FindDiscount(hotel.discounts, d.code);
    assert found == Some(d);
    var b := CalculateTotalPrice(hotel, room, checkIn, checkOut, numRooms, Some(d.code)).value;
    if d.kind.Percentage? {
      assert b.subtotal * (d.kind.percent / 100.0) == b.subtotal * d.kind.percent / 100.0;
    }
  }

  /** A code that does not apply, because it is unknown or because the subtotal
      is below its minimum booking amount, prices the stay exactly as if no code
      had been given; only an unknown code reports an error. */
  lemma InapplicableCodeChangesNothing(
    hotel: HotelTerms, room: RoomType, checkIn: Date, checkOut: Date,
    numRooms: int, code: string)
    requires CalculateTotalPrice(hotel, room, checkIn, checkOut, numRooms, Some(code)).Ok?
    requires !CalculateTotalPrice(hotel, room, checkIn, checkOut, numRooms, Some(code)).value.discountDetails.Applied?
    ensures var b := CalculateTotalPrice(hotel, room, checkIn, checkOut, numRooms, Some(code)).value;
      var plain := CalculateTotalPrice(hotel, room, checkIn, checkOut, numRooms, None).value;
      && b.discountAmount == 0.0
      && b.(discountDetails := NoCodeGiven) == plain
      && (b.discountDetails.HasError() <==> FindDiscount(hotel.discounts, code).None?)
  {
  }

  /** A subtotal under the code's minimum booking amount gets no discount, even
      though the code exists. */
  lemma BelowMinimumGetsNoDiscount(
    hotel: HotelTerms, room: RoomType, checkIn: Date, checkOut: Date,
    numRooms: int, d: HotelDiscount)
    requires d in hotel.discounts
    requires forall e :: e in hotel.discounts && e.code == d.code ==> e == d
    requires CalculateTotalPrice(hotel, room, checkIn, checkOut, numRooms, Some(d.code)).Ok?
    requires CalculateTotalPrice(hotel, room, checkIn, checkOut, numRooms, Some(d.code)).value.subtotal < d.minBookingAmount
    ensures var b := CalculateTotalPrice(hotel, room, checkIn, checkOut, numRooms, Some(d.code)).value;
      b.discountAmount == 0.0 && !b.discountDetails.HasError() &&
      b.discountDetails == BelowMinimum(d.code, d.minBookingAmount)
  {
    assert FindDiscount(hotel.discounts, d.code).Some?;
  }

  /** With non-negative discount values and a non-negative tax rate, using a
      discount code never makes the stay dearer than no code. */
  lemma DiscountNeverRaisesTotal(
    hotel: HotelTerms, room: RoomType, checkIn: Date, checkOut: Date,
    numRooms: int, code: string)
    requires hotel.gstPercentage >= 0.0
    requires forall d :: d in hotel.discounts ==>
      match d.kind
      case Percentage(p, cap) => p >= 0.0 && (cap.Some? ==> cap.value >= 0.0)
      case Fixed(a) => a >= 0.0
    requires room.basePrice >= 0.0
    requires CalculateTotalPrice(hotel, room, checkIn, checkOut, numRooms, None).Ok?
    ensures CalculateTotalPrice(hotel, room, checkIn, checkOut, numRooms, Some(code)).Ok?
    ensures CalculateTotalPrice(hotel, room, checkIn, checkOut, numRooms, Some(code)).value.totalAmount
      <= CalculateTotalPrice(hotel, room, checkIn, checkOut, numRooms, None).value.totalAmount
  {
    var b := CalculateTotalPrice(hotel, room, checkIn, checkOut, numRooms, Some(code)).value;
    var plain := CalculateTotalPrice(hotel, room, checkIn, checkOut, numRooms, None).value;
    assert b.subtotal == plain.subtotal;
    var factor := 1.0 + hotel.gstPercentage / 100.0;
    TotalIsTaxedNetAmount(hotel, room, checkIn, checkOut, numRooms, Some(code));
    TotalIsTaxedNetAmount(hotel, room, checkIn, checkOut, numRooms, None);
    assert b.discountAmount >= 0.0 by {
      if b.discountDetails.Applied? {
        var d := FindDiscount(hotel.discounts, code).value;
        assert d in hotel.discounts;
        assert b.subtotal >= 0.0;
      }
    }
    assert (b.subtotal - b.discountAmount) * factor <= b.subtotal * factor;
  }

  /** Splitting a stay at an intermediate night splits its subtotal: pricing
      is per room-night at the base price. */
  lemma SubtotalSplitsAtNight(
    hotel: HotelTerms, room: RoomType, checkIn: Date, middle: Date, checkOut: Date, numRooms: int)
    requires checkIn < middle < checkOut && numRooms >= 1
    ensures CalculateTotalPrice(hotel, room, checkIn, checkOut, numRooms, None).value.subtotal
      == CalculateTotalPrice(hotel, room, checkIn, middle, numRooms, None).value.subtotal
       + CalculateTotalPrice(hotel, room, middle, checkOut, numRooms, None).value.subtotal
  {
    var p, n := room.basePrice, numRooms as real;
    assert (checkOut - checkIn) as real == (middle - checkIn) as real + (checkOut - middle) as real;
    assert p * (checkOut - checkIn) as real * n
      == p * (middle - checkIn) as real * n + p * (checkOut - middle) as real * n;
  }

  // ---------------------------------------------------------------------------
  // Availability
  // ---------------------------------------------------------------------------

  /** Rooms of the type free on a date: the date's record, or every room of the
      type when there is no record for that date. */
  function AvailableOn(room: RoomType, d: Date): nat {
    if d in room.availability then room.availability[d] else room.totalRooms
  }

  /** The fewest free rooms over the nights `[lo, hi)`: the binding night. */
  function MinAvailable(room: RoomType, lo: Date, hi: Date): (m: nat)
    requires lo < hi
    ensures forall d :: lo <= d < hi ==> m <= AvailableOn(room, d)
    ensures exists d :: lo <= d < hi && m == AvailableOn(room, d)
    decreases hi - lo
  {
    if lo + 1 == hi then
      AvailableOn(room, lo)
    else
      var rest := MinAvailable(room, lo + 1, hi);
      if AvailableOn(room, lo) <= rest then AvailableOn(room, lo) else rest
  }

  datatype Availability = Availability(isAvailable: bool, minAvailableRooms: nat, numRooms: int)

  /** `PricingCalculator.check_availability`: the stay is bookable exactly when
      every night of the half-open range `[check_in, check_out)` has enough
      free rooms. */
  function CheckAvailability(room: RoomType, checkIn: Date, checkOut: Date, numRooms: int): (r: Result<Availability, PricingError>)
    ensures r.Err? <==> checkOut <= checkIn
    ensures r.Err? ==> r.error == InvalidDateRange
    ensures r.Ok? ==> r.value.minAvailableRooms == MinAvailable(room, checkIn, checkOut) && r.value.numRooms == numRooms
    ensures r.Ok? ==> (r.value.isAvailable <==> r.value.minAvailableRooms >= numRooms)
    ensures r.Ok? ==>
      (r.value.isAvailable <==> forall d :: checkIn <= d < checkOut ==> numRooms <= AvailableOn(room, d))
  {
    if checkOut <= checkIn then Err(InvalidDateRange)
    else
      var least := MinAvailable(room, checkIn, checkOut);
      Ok(Availability(least >= numRooms, least, numRooms))
  }

  /** One short night anywhere in the stay makes it unavailable, whatever the
      other nights have spare. */
  lemma ShortNightBlocksStay(room: RoomType, checkIn: Date, checkOut: Date, numRooms: int, night: Date)
    requires checkIn <= night < checkOut
    requires AvailableOn(room, night) < numRooms
    ensures CheckAvailability(room, checkIn, checkOut, numRooms).Ok?
    ensures !CheckAvailability(room, checkIn, checkOut, numRooms).value.isAvailable
    ensures CheckAvailability(room, checkIn, checkOut, numRooms).value.minAvailableRooms <= AvailableOn(room, night)
  {
  }

  // ---------------------------------------------------------------------------
  // Occupancy
  // ---------------------------------------------------------------------------

  /** Rooms of the type taken on a date: those of its rooms that are not free;
      taken and free rooms together make up the type's room count, with a free
      count above it read as nothing taken. */
  function BookedOn(room: RoomType, d: Date): (n: nat)
    ensures n <= room.totalRooms
    ensures AvailableOn(room, d) <= room.totalRooms ==> n + AvailableOn(room, d) == room.totalRooms
    ensures AvailableOn(room, d) >= room.totalRooms ==> n == 0
  {
    if AvailableOn(room, d) >= room.totalRooms then 0 else room.totalRooms - AvailableOn(room, d)
  }

  function UnitsOf(rooms: seq<RoomType>): nat {
    if |rooms| == 0 then 0 else UnitsOf(rooms[..|rooms| - 1]) + rooms[|rooms| - 1].totalRooms
  }

  function BookedUnitsOn(rooms: seq<RoomType>, d: Date): nat {
    if |rooms| == 0 then 0 else BookedUnitsOn(rooms[..|rooms| - 1], d) + BookedOn(rooms[|rooms| - 1], d)
  }

  /** Room-nights offered by all room types over the dates `[lo, hi)`. */
  function TotalRoomNights(rooms: seq<RoomType>, lo: Date, hi: Date): nat
    decreases hi - lo
  {
    if hi <= lo then 0 else TotalRoomNights(rooms, lo, hi - 1) + UnitsOf(rooms)
  }

  /** Room-nights taken over the dates `[lo, hi)`. */
  function BookedRoomNights(rooms: seq<RoomType>, lo: Date, hi: Date): nat
    decreases hi - lo
  {
    if hi <= lo then 0 else BookedRoomNights(rooms, lo, hi - 1) + BookedUnitsOn(rooms, hi - 1)
  }

  lemma {:induction false} BookedUnitsWithinUnits(rooms: seq<RoomType>, d: Date)
    ensures BookedUnitsOn(rooms, d) <= UnitsOf(rooms)
  {
    if |rooms| > 0 {
      BookedUnitsWithinUnits(rooms[..|rooms| - 1], d);
    }
  }

  /** No window has more room-nights taken than offered. */
  lemma {:induction false} BookedWithinTotal(rooms: seq<RoomType>, lo: Date, hi: Date)
    ensures BookedRoomNights(rooms, lo, hi) <= TotalRoomNights(rooms, lo, hi)
    decreases hi - lo
  {
    if lo < hi {
      BookedWithinTotal(rooms, lo, hi - 1);
      BookedUnitsWithinUnits(rooms, hi - 1);
    }
  }

  /** Every date of the window offers every room of every type. */
  lemma {:induction false} TotalRoomNightsCount(rooms: seq<RoomType>, lo: Date, hi: Date)
    requires lo <= hi
    ensures TotalRoomNights(rooms, lo, hi) == (hi - lo) * UnitsOf(rooms)
    decreases hi - lo
  {
    if lo < hi {
      TotalRoomNightsCount(rooms, lo, hi - 1);
    }
  }

  datatype OccupancySummary = OccupancySummary(
    hotelId: int,
    startDate: Date,
    endDate: Date,
    totalRoomNights: nat,
    bookedRoomNights: nat,
    occupancyPercentage: real)

  /** `OccupancyCalculator.get_hotel_occupancy_summary` over the inclusive
      reporting window `[start, end]`. */
  function OccupancySummaryOf(hotelId: int, rooms: seq<RoomType>, start: Date, end: Date): (r: Result<OccupancySummary, PricingError>)
    ensures r.Err? <==> start > end
    ensures r.Ok? ==> r.value.hotelId == hotelId && r.value.startDate == start && r.value.endDate == end
    ensures r.Ok? ==>
      r.value.bookedRoomNights == BookedRoomNights(rooms, start, end + 1) <= r.value.totalRoomNights
    ensures r.Ok? && r.value.totalRoomNights > 0 ==>
      r.value.occupancyPercentage * r.value.totalRoomNights as real == 100.0 * r.value.bookedRoomNights as real
    ensures r.Ok? ==> 0.0 <= r.value.occupancyPercentage <= 100.0
    ensures r.Ok? && r.value.totalRoomNights == 0 ==> r.value.occupancyPercentage == 0.0
    ensures r.Ok? ==> r.value.totalRoomNights == (end - start + 1) * UnitsOf(rooms)
  {
    if start > end then Err(InvalidDateRange)
    else
      var total := TotalRoomNights(rooms, start, end + 1);
      var booked := BookedRoomNights(rooms, start, end + 1);
      BookedWithinTotal(rooms, start, end + 1);
      TotalRoomNightsCount(rooms, start, end + 1);
      PercentOfBounds(booked, total);
      var pct := PercentOf(booked, total);
      Ok(OccupancySummary(hotelId, start, end, total, booked, pct))
  }
}
