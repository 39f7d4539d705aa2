/** The concrete stays of the hotel test suite, over its fixture: a hotel with
    18% GST, a deluxe room type at 15000 a night (10 rooms; 8 free on weekdays,
    5 at weekends over the next 30 days), a presidential suite at 50000 a night
    (2 rooms, both free), and the codes SAVE20 (20% capped at 10000, minimum
    booking 50000) and OFF5K (5000 off, minimum booking 30000). Day 0 is today. */
module PricingScenarios {
  import opened Common
  import opened Pricing

  const Save20 := HotelDiscount("SAVE20", Percentage(20.0, Some(10000.0)), 50000.0)
  const Off5k := HotelDiscount("OFF5K", Fixed(5000.0), 30000.0)
  const Taj := HotelTerms(1, 18.0, [Save20, Off5k])

  const Deluxe := RoomType(1, "Deluxe Room", 15000.0, 10, map d | 0 <= d < 30 :: if d % 7 < 5 then 8 else 5)
  const Suite := RoomType(2, "Presidential Suite", 50000.0, 2, map d | 0 <= d < 30 :: 2)

  /** Three deluxe nights, one room, no code: 45000 + 8100 GST = 53100. */
  lemma BasicPrice()
    ensures var r := CalculateTotalPrice(Taj, Deluxe, 0, 3, 1, None);
      && r.Ok? && r.value.numNights == 3 && r.value.numRooms == 1 && r.value.basePrice == 15000.0
      && r.value.subtotal == 45000.0 && r.value.gstAmount == 8100.0 && r.value.totalAmount == 53100.0
      && r.value.currency == "INR"
  {
  }

  /** Two deluxe nights, three rooms: 15000 * 2 * 3. */
  lemma MultipleRooms()
    ensures var r := CalculateTotalPrice(Taj, Deluxe, 0, 2, 3, None);
      r.Ok? && r.value.numRooms == 3 && r.value.subtotal == 90000.0
  {
  }

  /** Five suite nights with SAVE20: 20% of 250000 would be 50000, the cap keeps it at 10000. */
  lemma PercentageDiscountCapped()
    ensures var r := CalculateTotalPrice(Taj, Suite, 0, 5, 1, Some("SAVE20"));
      && r.Ok? && r.value.subtotal == 250000.0 && r.value.discountAmount == 10000.0
      && r.value.subtotalAfterDiscount == 240000.0 && r.value.gstAmount == 43200.0
      && r.value.totalAmount == 283200.0
  {
  }

  /** Two suite nights with OFF5K: exactly 5000 off. */
  lemma FixedDiscount()
    ensures var r := CalculateTotalPrice(Taj, Suite, 0, 2, 1, Some("OFF5K"));
      r.Ok? && r.value.discountAmount == 5000.0
  {
  }

  /** An unknown code: no discount, and an error note in the discount details. */
  lemma InvalidCode()
    ensures var r := CalculateTotalPrice(Taj, Deluxe, 0, 2, 1, Some("INVALID"));
      r.Ok? && r.value.discountAmount == 0.0 && r.value.discountDetails.HasError()
  {
  }

  /** One deluxe night (15000) does not reach SAVE20's minimum of 50000. */
  lemma MinimumBookingAmount()
    ensures var r := CalculateTotalPrice(Taj, Deluxe, 0, 1, 1, Some("SAVE20"));
      r.Ok? && r.value.discountAmount == 0.0
  {
  }

  /** Four suite nights, two rooms, OFF5K: 400000 - 5000 = 395000, GST 71100, total 466100. */
  lemma AllParameters()
    ensures var r := CalculateTotalPrice(Taj, Suite, 0, 4, 2, Some("OFF5K"));
      && r.Ok? && r.value.subtotal == 400000.0 && r.value.discountAmount == 5000.0
      && r.value.subtotalAfterDiscount == 395000.0
      && r.value.gstAmount == 71100.0 && r.value.totalAmount == 466100.0
  {
  }

  /** Check-out on the check-in day, and a negative room count, are rejected. */
  lemma InvalidRequests()
    ensures CalculateTotalPrice(Taj, Deluxe, 0, 0, 1, None) == Err(InvalidDateRange)
    ensures CalculateTotalPrice(Taj, Deluxe, 0, 2, -1, None) == Err(InvalidRoomCount)
    ensures CheckAvailability(Deluxe, 0, 0, 1) == Err(InvalidDateRange)
  {
  }

  /** Two deluxe rooms for three weekday nights: available, at least 8 free each night. */
  lemma DeluxeAvailable()
    ensures var r := CheckAvailability(Deluxe, 0, 3, 2);
      r.Ok? && r.value.isAvailable && r.value.minAvailableRooms == 8
  {
    assert AvailableOn(Deluxe, 0) == 8 && AvailableOn(Deluxe, 1) == 8 && AvailableOn(Deluxe, 2) == 8;
  }

  /** Five suites when only two exist: unavailable, with 2 as the binding count. */
  lemma SuiteUnavailable()
    ensures var r := CheckAvailability(Suite, 0, 3, 5);
      r.Ok? && !r.value.isAvailable && r.value.minAvailableRooms == 2
  {
    assert AvailableOn(Suite, 0) == 2;
  }

  /** The six-day window of both room types: 72 room-nights offered, 15 taken
      (2 deluxe rooms on each weekday, 5 on day 5), an occupancy inside [0, 100]. */
  lemma FixtureOccupancy()
    ensures var r := OccupancySummaryOf(Taj.id, [Deluxe, Suite], 0, 5);
      && r.Ok? && r.value.hotelId == Taj.id && r.value.totalRoomNights == 72
      && r.value.bookedRoomNights == 15
      && 0.0 <= r.value.occupancyPercentage <= 100.0
  {
    var rooms := [Deluxe, Suite];
    assert rooms[..1] == [Deluxe] && [Deluxe][..0] == [];
    assert UnitsOf([Deluxe]) == 10;
    assert UnitsOf(rooms) == 12;
    forall d | 0 <= d < 6
      ensures BookedUnitsOn(rooms, d) == if d < 5 then 2 else 5
    {
      assert AvailableOn(Deluxe, d) == if d < 5 then 8 else 5;
      assert BookedOn(Suite, d) == 0;
      assert BookedUnitsOn([Deluxe], d) == BookedOn(Deluxe, d);
    }
    assert BookedRoomNights(rooms, 0, 6) == 15;
  }
}
