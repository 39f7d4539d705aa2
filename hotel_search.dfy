/** The hotel search and listing views: the filter-then-sort pipeline of the
    search API and of the listing page, over an in-memory list of hotel records
    instead of a database query, plus the booking total of the booking form and
    the room-count default of the pricing and availability endpoints. */
module HotelSearch {
  import opened Common
  import opened Text
  import Pricing

  datatype Amenity = Wifi | Parking | Pool | Gym | Restaurant | Spa

  datatype Hotel = Hotel(
    id: int,
    name: string,
    cityId: int,
    cityName: string,
    starRating: int,
    reviewRating: real,
    hasWifi: bool,
    hasParking: bool,
    hasPool: bool,
    hasGym: bool,
    hasRestaurant: bool,
    hasSpa: bool,
    isActive: bool,
    roomTypes: seq<Pricing.RoomType>)

  function HasAmenity(h: Hotel, a: Amenity): bool {
    match a
    case Wifi => h.hasWifi
    case Parking => h.hasParking
    case Pool => h.hasPool
    case Gym => h.hasGym
    case Restaurant => h.hasRestaurant
    case Spa => h.hasSpa
  }

  function LowestPrice(rooms: seq<Pricing.RoomType>): real
    requires |rooms| > 0
  {
    if |rooms| == 1 then rooms[0].basePrice
    else
      var rest := LowestPrice(rooms[1..]);
      if rooms[0].basePrice <= rest then rooms[0].basePrice else rest
  }

  lemma {:induction false} LowestPriceIsLowest(rooms: seq<Pricing.RoomType>)
    requires |rooms| > 0
    ensures forall i :: 0 <= i < |rooms| ==> LowestPrice(rooms) <= rooms[i].basePrice
    ensures exists i :: 0 <= i < |rooms| && LowestPrice(rooms) == rooms[i].basePrice
  {
    if |rooms| == 1 {
      assert LowestPrice(rooms) == rooms[0].basePrice;
    } else {
      LowestPriceIsLowest(rooms[1..]);
      var k :| 0 <= k < |rooms[1..]| && LowestPrice(rooms[1..]) == rooms[1..][k].basePrice;
      if rooms[0].basePrice > LowestPrice(rooms[1..]) {
        assert LowestPrice(rooms) == rooms[k + 1].basePrice;
      } else {
        assert LowestPrice(rooms) == rooms[0].basePrice;
      }
      forall i | 0 < i < |rooms|
        ensures LowestPrice(rooms) <= rooms[i].basePrice
      {
        assert rooms[i] == rooms[1..][i - 1];
      }
    }
  }

  /** The lowest base price over the hotel's room types, or 0 for a hotel
      without room types (the minimum coalesced with 0). */
  function MinRoomPrice(h: Hotel): real {
    if |h.roomTypes| == 0 then 0.0 else LowestPrice(h.roomTypes)
  }

  lemma MinRoomPriceIsLowest(h: Hotel)
    ensures |h.roomTypes| == 0 ==> MinRoomPrice(h) == 0.0
    ensures forall i :: 0 <= i < |h.roomTypes| ==> MinRoomPrice(h) <= h.roomTypes[i].basePrice
    ensures |h.roomTypes| > 0 ==> exists i :: 0 <= i < |h.roomTypes| && MinRoomPrice(h) == h.roomTypes[i].basePrice
  {
    if |h.roomTypes| > 0 {
      LowestPriceIsLowest(h.roomTypes);
    }
  }

  /** The query parameters the views read. A text parameter is `None` when
      absent; a price bound is `Some` exactly when given as a non-empty string;
      an amenity is listed with the text given for its `has_...` parameter;
      `sort` is `sort_by` for the search API and `sort` for the listing page. */
  datatype HotelQuery = HotelQuery(
    city: Option<string>,
    starRating: Option<string>,
    amenities: map<Amenity, string>,
    minPrice: Option<real>,
    maxPrice: Option<real>,
    sort: Option<string>)

  /** A parameter that is present and non-empty, as Python's truth test sees it. */
  predicate Supplied(p: Option<string>) {
    p.Some? && p.value != ""
  }

  /** The single-condition filters the views chain together. */
  datatype Criterion =
    | IsActive
    | InCity(id: int)
    | InCityNamed(name: string)
    | HasStars(stars: int)
    | Offers(amenity: Amenity)
    | PriceAtLeast(bound: real)
    | PriceAtMost(bound: real)

  predicate Holds(c: Criterion, h: Hotel) {
    match c
    case IsActive => h.isActive
    case InCity(id) => h.cityId == id
    case InCityNamed(name) => EqualsIgnoreCase(h.cityName, name)
    case HasStars(stars) => h.starRating == stars
    case Offers(a) => HasAmenity(h, a)
    case PriceAtLeast(bound) => bound <= MinRoomPrice(h)
    case PriceAtMost(bound) => MinRoomPrice(h) <= bound
  }

  /** One filter step: exactly the hotels meeting the condition remain, each as
      many times as before. */
  function Keep(s: seq<Hotel>, c: Criterion): (r: seq<Hotel>)
    ensures forall h {:trigger multiset(r)[h]} :: multiset(r)[h] == if Holds(c, h) then multiset(s)[h] else 0
    ensures |r| <= |s|
  {
    if |s| == 0 then []
    else
      assert s == [s[0]] + s[1..];
      (if Holds(c, s[0]) then [s[0]] else []) + Keep(s[1..], c)
  }

  /** The city parameter names a city by id when it reads as an integer, and
      by name, ignoring case, otherwise. */
  function CityCriterion(param: string): (c: Criterion)
    ensures forall h :: Holds(c, h) <==>
      if ParseInt(param).Some? then h.cityId == ParseInt(param).value else EqualsIgnoreCase(h.cityName, param)
  {
    match ParseInt(param)
    case Some(id) => InCity(id)
    case None => InCityNamed(param)
  }

  /** A city id written out in decimal selects the hotels of that city. */
  lemma CityIdParameter(id: int, h: Hotel)
    ensures Holds(CityCriterion(IntToDecimal(id)), h) <==> h.cityId == id
  {
    ParseIntOfDecimal(id);
  }

  /** A city parameter that does not read as an integer (a letter in it, a
      sign out of place, a bare sign) selects by case-insensitive city name. */
  lemma CityNameParameter(name: string, h: Hotel)
    requires ParseInt(name).None?
    ensures Holds(CityCriterion(name), h) <==> EqualsIgnoreCase(h.cityName, name)
  {
  }

  // ---------------------------------------------------------------------------
  // Ordering
  // ---------------------------------------------------------------------------

  datatype Order = ByName | ByPriceAsc | ByPriceDesc | ByRatingAsc | ByRatingDesc | Unsorted

  predicate InOrder(o: Order, a: Hotel, b: Hotel) {
    match o
    case ByName => LexLe(a.name, b.name)
    case ByPriceAsc => MinRoomPrice(a) <= MinRoomPrice(b)
    case ByPriceDesc => MinRoomPrice(a) >= MinRoomPrice(b)
    case ByRatingAsc => a.reviewRating <= b.reviewRating
    case ByRatingDesc => a.reviewRating >= b.reviewRating
    case Unsorted => true
  }

  predicate SortedBy(o: Order, s: seq<Hotel>) {
    forall i, j :: 0 <= i < j < |s| ==> InOrder(o, s[i], s[j])
  }

  lemma InOrderTotal(o: Order, a: Hotel, b: Hotel)
    ensures InOrder(o, a, b) || InOrder(o, b, a)
  {
    if o == ByName {
      LexLeTotal(a.name, b.name);
    }
  }

  lemma InOrderTransitive(o: Order, a: Hotel, b: Hotel, c: Hotel)
    requires InOrder(o, a, b) && InOrder(o, b, c)
    ensures InOrder(o, a, c)
  {
    if o == ByName {
      LexLeTransitive(a.name, b.name, c.name);
    }
  }

  function Insert(o: Order, h: Hotel, s: seq<Hotel>): (r: seq<Hotel>)
    ensures multiset(r) == multiset(s) + multiset{h}
  {
    if |s| == 0 || InOrder(o, h, s[0]) then [h] + s
    else
      assert s == [s[0]] + s[1..];
      [s[0]] + Insert(o, h, s[1..])
  }

  /** A hotel that precedes everything in a list precedes it in sorted position too. */
  lemma SortedCons(o: Order, x: Hotel, s: seq<Hotel>)
    requires SortedBy(o, s)
    requires forall y :: y in s ==> InOrder(o, x, y)
    ensures SortedBy(o, [x] + s)
  {
    var r := [x] + s;
    forall i, j | 0 <= i < j < |r|
      ensures InOrder(o, r[i], r[j])
    {
      assert r[j] == s[j - 1];
      if i > 0 {
        assert r[i] == s[i - 1];
      }
    }
  }

  lemma {:induction false} InsertSorted(o: Order, h: Hotel, s: seq<Hotel>)
    requires SortedBy(o, s)
    ensures SortedBy(o, Insert(o, h, s))
  {
    if |s| == 0 || InOrder(o, h, s[0]) {
      forall y | y in s
        ensures InOrder(o, h, y)
      {
        var k :| 0 <= k < |s| && s[k] == y;
        if k > 0 {
          assert InOrder(o, s[0], y);
          InOrderTransitive(o, h, s[0], y);
        }
      }
      SortedCons(o, h, s);
    } else {
      InOrderTotal(o, h, s[0]);
      var tail := Insert(o, h, s[1..]);
      assert SortedBy(o, s[1..]) by {
        forall i, j | 0 <= i < j < |s[1..]|
          ensures InOrder(o, s[1..][i], s[1..][j])
        {
          assert s[1..][i] == s[i + 1] && s[1..][j] == s[j + 1];
        }
      }
      InsertSorted(o, h, s[1..]);
      forall y | y in tail
        ensures InOrder(o, s[0], y)
      {
        assert y in multiset(tail);
        if y != h {
          assert y in multiset(s[1..]);
          var k :| 0 <= k < |s[1..]| && s[1..][k] == y;
          assert s[k + 1] == y;
        }
      }
      SortedCons(o, s[0], tail);
    }
  }

  /** `order_by` on a list: insertion sort by the order's key. */
  function SortHotels(o: Order, s: seq<Hotel>): (r: seq<Hotel>)
    ensures multiset(r) == multiset(s)
  {
    if o == Unsorted || |s| == 0 then s
    else
      assert s == [s[0]] + s[1..];
      Insert(o, s[0], SortHotels(o, s[1..]))
  }

  lemma {:induction false} SortHotelsSorted(o: Order, s: seq<Hotel>)
    ensures SortedBy(o, SortHotels(o, s))
  {
    if o != Unsorted && |s| > 0 {
      SortHotelsSorted(o, s[1..]);
      InsertSorted(o, s[0], SortHotels(o, s[1..]));
    }
  }

  /** The search API's order: `sort_by` defaults to `name`, and an unknown value
      also orders by name. `price_desc` orders by a per-room-type join (see the
      README); the model makes no ordering claim for it. */
  function SearchOrder(sortBy: Option<string>): (o: Order)
    ensures sortBy.None? ==> o == ByName
    ensures o == ByPriceAsc <==> sortBy == Some("price_asc")
    ensures o == Unsorted <==> sortBy == Some("price_desc")
    ensures o == ByRatingAsc <==> sortBy == Some("rating_asc")
    ensures o == ByRatingDesc <==> sortBy == Some("rating_desc")
    ensures o != ByPriceDesc
  {
    var key := if sortBy.Some? then sortBy.value else "name";
    if key == "price_asc" then ByPriceAsc
    else if key == "price_desc" then Unsorted
    else if key == "rating_asc" then ByRatingAsc
    else if key == "rating_desc" then ByRatingDesc
    else ByName
  }

  /** The listing page's order: no `sort`, or an unknown one, keeps the stored order. */
  function ListOrder(sort: Option<string>): (o: Order)
    ensures o == ByPriceAsc <==> sort == Some("price_asc")
    ensures o == ByPriceDesc <==> sort == Some("price_desc")
    ensures o == ByRatingAsc <==> sort == Some("rating_asc")
    ensures o == ByRatingDesc <==> sort == Some("rating_desc")
    ensures o != ByName
  {
    if sort == Some("price_asc") then ByPriceAsc
    else if sort == Some("price_desc") then ByPriceDesc
    else if sort == Some("rating_desc") then ByRatingDesc
    else if sort == Some("rating_asc") then ByRatingAsc
    else Unsorted
  }

  // ---------------------------------------------------------------------------
  // The two pipelines
  // ---------------------------------------------------------------------------

  datatype SearchError = InvalidStarRating(param: string)

  /** The star-rating parameter, when supplied, must read as an integer. */
  predicate StarParamValid(stars: Option<string>) {
    Supplied(stars) ==> ParseInt(stars.value).Some?
  }

  predicate CityOk(city: Option<string>, h: Hotel) {
    Supplied(city) ==> Holds(CityCriterion(city.value), h)
  }

  predicate StarsOk(stars: Option<string>, h: Hotel)
    requires StarParamValid(stars)
  {
    Supplied(stars) ==> h.starRating == ParseInt(stars.value).value
  }

  predicate AmenitiesOk(amenities: map<Amenity, string>, h: Hotel) {
    forall a :: a in amenities && amenities[a] == "true" ==> HasAmenity(h, a)
  }

  predicate PriceInRange(minPrice: Option<real>, maxPrice: Option<real>, h: Hotel) {
    && (minPrice.Some? ==> minPrice.value <= MinRoomPrice(h))
    && (maxPrice.Some? ==> MinRoomPrice(h) <= maxPrice.value)
  }

  /** The filters the listing page applies, stated per hotel. */
  predicate ListMatches(q: HotelQuery, h: Hotel)
    requires StarParamValid(q.starRating)
  {
    h.isActive && CityOk(q.city, h) && StarsOk(q.starRating, h) && PriceInRange(q.minPrice, q.maxPrice, h)
  }

  /** The search API additionally honours the amenity flags. */
  predicate SearchMatches(q: HotelQuery, h: Hotel)
    requires StarParamValid(q.starRating)
  {
    ListMatches(q, h) && AmenitiesOk(q.amenities, h)
  }

  /** Active hotels, narrowed to the city when one is supplied. */
  function ActiveInCity(hotels: seq<Hotel>, city: Option<string>): (r: seq<Hotel>)
    ensures forall h :: multiset(r)[h] == if h.isActive && CityOk(city, h) then multiset(hotels)[h] else 0
  {
    var active := Keep(hotels, IsActive);
    if Supplied(city) then Keep(active, CityCriterion(city.value)) else active
  }

  /** The star filter: a supplied rating that does not read as an integer is an
      error (the view's integer conversion raises), otherwise it narrows exactly. */
  function WithStars(s: seq<Hotel>, stars: Option<string>): (r: Result<seq<Hotel>, SearchError>)
    ensures r.Err? <==> !StarParamValid(stars)
    ensures r.Err? ==> r.error == InvalidStarRating(stars.value)
    ensures r.Ok? ==> forall h :: multiset(r.value)[h] == if StarsOk(stars, h) then multiset(s)[h] else 0
  {
    if !Supplied(stars) then Ok(s)
    else match ParseInt(stars.value)
      case None => Err(InvalidStarRating(stars.value))
      case Some(n) => Ok(Keep(s, HasStars(n)))
  }

  /** The amenities in the order the view checks their flags. */
  const AmenityOrder: seq<Amenity> := [Wifi, Parking, Pool, Gym, Restaurant, Spa]

  lemma AmenityOrderComplete(a: Amenity)
    ensures a in AmenityOrder
  {
    match a
    case Wifi => assert AmenityOrder[0] == a;
    case Parking => assert AmenityOrder[1] == a;
    case Pool => assert AmenityOrder[2] == a;
    case Gym => assert AmenityOrder[3] == a;
    case Restaurant => assert AmenityOrder[4] == a;
    case Spa => assert AmenityOrder[5] == a;
  }

  /** One filter per amenity in `checked` whose flag is exactly `true`. */
  function WithAmenities(s: seq<Hotel>, amenities: map<Amenity, string>, checked: seq<Amenity>): (r: seq<Hotel>)
    ensures forall h :: (multiset(r)[h] ==
      if forall a :: a in checked && a in amenities && amenities[a] == "true" ==> HasAmenity(h, a)
      then multiset(s)[h] else 0)
    decreases |checked|
  {
    if |checked| == 0 then s
    else
      var last := checked[|checked| - 1];
      var earlier := WithAmenities(s, amenities, checked[..|checked| - 1]);
      assert forall a :: a in checked <==> a in checked[..|checked| - 1] || a == last by {
        assert checked == checked[..|checked| - 1] + [last];
      }
      if last in amenities && amenities[last] == "true" then Keep(earlier, Offers(last)) else earlier
  }

  /** All six amenity filters together keep exactly the hotels offering every
      amenity whose flag is `true`. */
  function AllAmenities(s: seq<Hotel>, amenities: map<Amenity, string>): (r: seq<Hotel>)
    ensures forall h :: multiset(r)[h] == if AmenitiesOk(amenities, h) then multiset(s)[h] else 0
  {
    forall a: Amenity
      ensures a in AmenityOrder
    {
      AmenityOrderComplete(a);
    }
    WithAmenities(s, amenities, AmenityOrder)
  }

  /** The price bounds, each applied when given, against the lowest room price. */
  function WithinPrice(s: seq<Hotel>, minPrice: Option<real>, maxPrice: Option<real>): (r: seq<Hotel>)
    ensures forall h :: multiset(r)[h] == if PriceInRange(minPrice, maxPrice, h) then multiset(s)[h] else 0
  {
    var atLeast := if minPrice.Some? then Keep(s, PriceAtLeast(minPrice.value)) else s;
    assert forall h :: (multiset(atLeast)[h] ==
      if minPrice.Some? ==> minPrice.value <= MinRoomPrice(h) then multiset(s)[h] else 0);
    if maxPrice.Some? then Keep(atLeast, PriceAtMost(maxPrice.value)) else atLeast
  }

  /** `HotelSearchView.get_queryset`: active hotels, narrowed by city, star
      rating, amenities and the price range in turn, then sorted. */
  function SearchHotels(hotels: seq<Hotel>, q: HotelQuery): (r: Result<seq<Hotel>, SearchError>)
    ensures r.Err? <==> !StarParamValid(q.starRating)
    ensures r.Ok? ==> forall h :: h in r.value ==> h in hotels && SearchMatches(q, h)
    ensures r.Ok? && q.sort != Some("price_desc") ==>
      && (forall h :: multiset(r.value)[h] == if SearchMatches(q, h) then multiset(hotels)[h] else 0)
      && SortedBy(SearchOrder(q.sort), r.value)
  {
    match WithStars(ActiveInCity(hotels, q.city), q.starRating)
    case Err(e) => Err(e)
    case Ok(rated) =>
      var filtered := WithinPrice(AllAmenities(rated, q.amenities), q.minPrice, q.maxPrice);
      var order := SearchOrder(q.sort);
      var sorted := SortHotels(order, filtered);
      SortHotelsSorted(order, filtered);
      assert forall h :: multiset(sorted)[h] == if SearchMatches(q, h) then multiset(hotels)[h] else 0;
      assert forall h :: h in sorted ==> h in multiset(sorted);
      Ok(sorted)
  }

  /** `hotel_list`: active hotels narrowed by city, price range and star rating,
      then ordered when `sort` names an order. */
  function ListHotels(hotels: seq<Hotel>, q: HotelQuery): (r: Result<seq<Hotel>, SearchError>)
    ensures r.Err? <==> !StarParamValid(q.starRating)
    ensures r.Ok? ==> forall h :: multiset(r.value)[h] == if ListMatches(q, h) then multiset(hotels)[h] else 0
    ensures r.Ok? ==> SortedBy(ListOrder(q.sort), r.value)
  {
    var priced := WithinPrice(ActiveInCity(hotels, q.city), q.minPrice, q.maxPrice);
    match WithStars(priced, q.starRating)
    case Err(e) => Err(e)
    case Ok(listed) =>
      var order := ListOrder(q.sort);
      SortHotelsSorted(order, listed);
      Ok(SortHotels(order, listed))
  }

  // ---------------------------------------------------------------------------
  // Request defaults and the booking form
  // ---------------------------------------------------------------------------

  /** An omitted room count means one room. */
  function RoomsRequested(numRooms: Option<int>): (n: int)
    ensures numRooms.None? ==> n == 1
    ensures numRooms.Some? ==> n == numRooms.value
  {
    if numRooms.Some? then numRooms.value else 1
  }

  /** The validated body of a price or availability request. */
  datatype StayRequest = StayRequest(checkIn: Pricing.Date, checkOut: Pricing.Date, numRooms: Option<int>, discountCode: Option<string>)

  /** The `calculate_price` endpoint, once the room type is found. */
  function QuotePrice(hotel: Pricing.HotelTerms, room: Pricing.RoomType, req: StayRequest): (r: Result<Pricing.PriceBreakdown, Pricing.PricingError>)
    ensures r.Err? <==> req.checkOut <= req.checkIn || (req.numRooms.Some? && req.numRooms.value < 1)
    ensures r.Ok? ==>
      && r.value.numNights == req.checkOut - req.checkIn
      && r.value.numRooms == (if req.numRooms.Some? then req.numRooms.value else 1)
  {
    Pricing.CalculateTotalPrice(hotel, room, req.checkIn, req.checkOut, RoomsRequested(req.numRooms), req.discountCode)
  }

  /** The `check_availability` endpoint, once the room type is found. */
  function QuoteAvailability(room: Pricing.RoomType, req: StayRequest): (r: Result<Pricing.Availability, Pricing.PricingError>)
    ensures r.Err? <==> req.checkOut <= req.checkIn
    ensures r.Ok? ==> r.value.numRooms == (if req.numRooms.Some? then req.numRooms.value else 1)
    ensures r.Ok? ==> (r.value.isAvailable <==>
      forall d :: req.checkIn <= d < req.checkOut ==> r.value.numRooms <= Pricing.AvailableOn(room, d))
  {
    Pricing.CheckAvailability(room, req.checkIn, req.checkOut, RoomsRequested(req.numRooms))
  }

  /** Leaving the room count out of a request is the same as asking for one room. */
  lemma OmittedRoomCountIsOne(hotel: Pricing.HotelTerms, room: Pricing.RoomType, req: StayRequest)
    ensures QuotePrice(hotel, room, req.(numRooms := None)) == QuotePrice(hotel, room, req.(numRooms := Some(1)))
    ensures QuoteAvailability(room, req.(numRooms := None)) == QuoteAvailability(room, req.(numRooms := Some(1)))
    ensures QuotePrice(hotel, room, req.(numRooms := None)).Ok? ==>
      QuotePrice(hotel, room, req.(numRooms := None)).value.numRooms == 1
  {
  }

  /** `book_hotel`'s total as written: base price times nights times rooms, with
      no check that check-out follows check-in or that a room is booked. */
  function BookingTotal(room: Pricing.RoomType, checkIn: Pricing.Date, checkOut: Pricing.Date, numRooms: int): (total: real)
    ensures checkIn == checkOut || numRooms == 0 ==> total == 0.0
    ensures checkIn < checkOut && numRooms >= 1 && room.basePrice >= 0.0 ==> total >= room.basePrice
    ensures checkOut < checkIn && numRooms >= 1 && room.basePrice > 0.0 ==> total < 0.0
  {
    var nights, rooms := (checkOut - checkIn) as real, numRooms as real;
    var scale := nights * rooms;
    assert nights >= 1.0 && rooms >= 1.0 ==> scale >= 1.0;
    assert nights <= -1.0 && rooms >= 1.0 ==> scale <= -1.0;
    assert room.basePrice * nights * rooms == room.basePrice * scale;
    assert room.basePrice >= 0.0 && scale >= 1.0 ==> room.basePrice * scale >= room.basePrice;
    assert room.basePrice > 0.0 && scale <= -1.0 ==> room.basePrice * scale < 0.0;
    room.basePrice * nights * rooms
  }

  /** For a valid stay the booking form charges the pricing engine's subtotal:
      neither discount nor tax. */
  lemma BookingTotalIsSubtotal(hotel: Pricing.HotelTerms, room: Pricing.RoomType, checkIn: Pricing.Date, checkOut: Pricing.Date, numRooms: int)
    requires checkIn < checkOut && numRooms >= 1
    ensures Pricing.CalculateTotalPrice(hotel, room, checkIn, checkOut, numRooms, None).Ok?
    ensures BookingTotal(room, checkIn, checkOut, numRooms)
      == Pricing.CalculateTotalPrice(hotel, room, checkIn, checkOut, numRooms, None).value.subtotal
  {
  }

  /** A check-out two days before check-in books a stay with a negative total,
      where the pricing endpoint rejects the same dates. */
  lemma BookingTotalAcceptsReversedDates(hotel: Pricing.HotelTerms)
    ensures var room := Pricing.RoomType(1, "Deluxe Room", 15000.0, 10, map[]);
      && BookingTotal(room, 5, 3, 1) == -30000.0
      && Pricing.CalculateTotalPrice(hotel, room, 5, 3, 1, None) == Err(Pricing.InvalidDateRange)
  {
  }

  /** The booking total with the pricing engine's validation: a stay of at least
      one night and at least one room, or the same error the engine reports. */
  function CheckedBookingTotal(room: Pricing.RoomType, checkIn: Pricing.Date, checkOut: Pricing.Date, numRooms: int): (r: Result<real, Pricing.PricingError>)
    ensures r.Ok? <==> checkIn < checkOut && numRooms >= 1
    ensures checkOut <= checkIn ==> r == Err(Pricing.InvalidDateRange)
    ensures checkIn < checkOut && numRooms < 1 ==> r == Err(Pricing.InvalidRoomCount)
    ensures r.Ok? ==> r.value == BookingTotal(room, checkIn, checkOut, numRooms)
    ensures r.Ok? && room.basePrice >= 0.0 ==> r.value >= room.basePrice
  {
    if checkOut <= checkIn then Err(Pricing.InvalidDateRange)
    else if numRooms < 1 then Err(Pricing.InvalidRoomCount)
    else
      var nights, rooms := (checkOut - checkIn) as real, numRooms as real;
      assert nights * rooms >= 1.0;
      assert room.basePrice >= 0.0 ==> room.basePrice * (nights * rooms) >= room.basePrice;
      Ok(BookingTotal(room, checkIn, checkOut, numRooms))
  }
}
