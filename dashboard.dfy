/** The admin dashboard: who may see it, and the bus occupancy table with its
    overall figure, computed over the first ten running bus schedules. */
module Dashboard {
  import opened Common

  datatype User = User(isStaff: bool, isSuperuser: bool)

  /** The dashboard is open to staff and to superusers: only the user with
      neither flag is turned away. */
  predicate IsAdmin(u: User)
    ensures IsAdmin(u) <==> u != User(false, false)
  {
    u.isStaff || u.isSuperuser
  }

  /** Either flag alone opens the dashboard; a user with neither is refused. */
  lemma AdminAccess(u: User)
    ensures IsAdmin(u.(isStaff := true)) && IsAdmin(u.(isSuperuser := true))
    ensures !IsAdmin(u.(isStaff := false, isSuperuser := false))
  {
  }

  /** A scheduled departure: `availableSeats` are still free, `bookedSeats` taken. */
  datatype BusSchedule = BusSchedule(
    route: string,
    date: int,
    availableSeats: nat,
    bookedSeats: nat,
    isActive: bool,
    isCancelled: bool)

  datatype OccupancyRow = OccupancyRow(
    route: string,
    date: int,
    booked: nat,
    available: nat,
    occupancyPct: real)

  predicate Running(s: BusSchedule) {
    s.isActive && !s.isCancelled
  }

  /** The running schedules, in stored order. */
  function RunningSchedules(schedules: seq<BusSchedule>): (r: seq<BusSchedule>)
    ensures forall s {:trigger multiset(r)[s]} :: multiset(r)[s] == if Running(s) then multiset(schedules)[s] else 0
    ensures forall i :: 0 <= i < |r| ==> Running(r[i])
  {
    if |schedules| == 0 then []
    else
      assert schedules == [schedules[0]] + schedules[1..];
      (if Running(schedules[0]) then [schedules[0]] else []) + RunningSchedules(schedules[1..])
  }

  /** At most this many schedules are listed. */
  const MaxListed := 10

  /** The schedules the table shows: the first ten running ones. */
  function Listed(schedules: seq<BusSchedule>): (r: seq<BusSchedule>)
    ensures |r| == if |RunningSchedules(schedules)| < MaxListed then |RunningSchedules(schedules)| else MaxListed
    ensures r == RunningSchedules(schedules)[..|r|]
    ensures forall i :: 0 <= i < |r| ==> Running(r[i])
  {
    var running := RunningSchedules(schedules);
    if |running| < MaxListed then running else running[..MaxListed]
  }

  /** Filtering keeps the stored order: the running schedules of two lists one
      after the other are those of the first followed by those of the second. */
  lemma {:induction false} RunningConcat(a: seq<BusSchedule>, b: seq<BusSchedule>)
    ensures RunningSchedules(a + b) == RunningSchedules(a) + RunningSchedules(b)
  {
    if |a| > 0 {
      assert (a + b)[0] == a[0] && (a + b)[1..] == a[1..] + b;
      RunningConcat(a[1..], b);
    } else {
      assert a + b == b;
    }
  }

  /** Later schedules never displace earlier ones: once a prefix of the stored
      schedules holds ten running ones, the table lists exactly its first ten. */
  lemma ListedFromPrefix(schedules: seq<BusSchedule>, k: nat)
    requires k <= |schedules| && |RunningSchedules(schedules[..k])| >= MaxListed
    ensures Listed(schedules) == RunningSchedules(schedules[..k])[..MaxListed]
  {
    assert schedules == schedules[..k] + schedules[k..];
    RunningConcat(schedules[..k], schedules[k..]);
  }

  /** A schedule's seat total: free plus taken. */
  function Capacity(s: BusSchedule): nat {
    s.availableSeats + s.bookedSeats
  }

  /** One row of the table; its occupancy is the booked share of the seats, in
      percent, and 0 for a bus without seats. */
  function RowFor(s: BusSchedule): (row: OccupancyRow)
    ensures row.route == s.route && row.date == s.date
    ensures row.booked == s.bookedSeats && row.available == s.availableSeats
    ensures 0.0 <= row.occupancyPct <= 100.0
    ensures Capacity(s) == 0 ==> row.occupancyPct == 0.0
    ensures s.availableSeats == 0 && s.bookedSeats > 0 ==> row.occupancyPct == 100.0
    ensures s.bookedSeats == 0 ==> row.occupancyPct == 0.0
    ensures Capacity(s) > 0 ==> row.occupancyPct * Capacity(s) as real == 100.0 * s.bookedSeats as real
  {
    PercentOfBounds(s.bookedSeats, Capacity(s));
    OccupancyRow(s.route, s.date, s.bookedSeats, s.availableSeats, PercentOf(s.bookedSeats, Capacity(s)))
  }

  function SumCapacity(s: seq<BusSchedule>): nat {
    if |s| == 0 then 0 else SumCapacity(s[..|s| - 1]) + Capacity(s[|s| - 1])
  }

  function SumBooked(s: seq<BusSchedule>): nat {
    if |s| == 0 then 0 else SumBooked(s[..|s| - 1]) + s[|s| - 1].bookedSeats
  }

  /** Across any list of schedules the booked seats never exceed the seats. */
  lemma {:induction false} SumBookedWithinCapacity(s: seq<BusSchedule>)
    ensures SumBooked(s) <= SumCapacity(s)
    ensures SumCapacity(s) == 0 ==> SumBooked(s) == 0
  {
    if |s| > 0 {
      SumBookedWithinCapacity(s[..|s| - 1]);
    }
  }

  /** The overall occupancy is the booked share of all listed seats, in percent. */
  function OverallOccupancy(listed: seq<BusSchedule>): (pct: real)
    ensures 0.0 <= pct <= 100.0
    ensures SumCapacity(listed) == 0 ==> pct == 0.0
    ensures SumCapacity(listed) > 0 ==> pct * SumCapacity(listed) as real == 100.0 * SumBooked(listed) as real
  {
    SumBookedWithinCapacity(listed);
    PercentOfBounds(SumBooked(listed), SumCapacity(listed));
    PercentOf(SumBooked(listed), SumCapacity(listed))
  }

  /** The dashboard's occupancy loop over the listed schedules: one row per
      schedule, in order, with running totals of seats and booked seats, then
      the overall share. */
  method OccupancyTable(listed: seq<BusSchedule>)
    returns (rows: seq<OccupancyRow>, totalSeats: nat, bookedSeats: nat, overall: real)
    ensures |rows| == |listed|
    ensures forall i :: 0 <= i < |rows| ==> rows[i] == RowFor(listed[i])
    ensures totalSeats == SumCapacity(listed)
    ensures bookedSeats == SumBooked(listed)
    ensures bookedSeats <= totalSeats
    ensures overall == OverallOccupancy(listed)
    ensures 0.0 <= overall <= 100.0
  {
    rows, totalSeats, bookedSeats := [], 0, 0;
    for i := 0 to |listed|
      invariant |rows| == i
      invariant forall k :: 0 <= k < i ==> rows[k] == RowFor(listed[k])
      invariant totalSeats == SumCapacity(listed[..i])
      invariant bookedSeats == SumBooked(listed[..i])
    {
      var schedule := listed[i];
      var total := schedule.availableSeats + schedule.bookedSeats;
      var occupancy := if total > 0 then schedule.bookedSeats as real / total as real * 100.0 else 0.0;
      assert occupancy == RowFor(schedule).occupancyPct;
      rows := rows + [OccupancyRow(schedule.route, schedule.date, schedule.bookedSeats, schedule.availableSeats, occupancy)];
      totalSeats := totalSeats + total;
      bookedSeats := bookedSeats + schedule.bookedSeats;
      assert listed[..i + 1][..i] == listed[..i] && listed[..i + 1][i] == schedule;
    }
    assert listed[..|listed|] == listed;
    SumBookedWithinCapacity(listed);
    overall := if totalSeats > 0 then bookedSeats as real / totalSeats as real * 100.0 else 0.0;
  }

  /** The dashboard's bus occupancy figures: the table over the first ten
      running schedules. */
  method BusOccupancy(schedules: seq<BusSchedule>)
    returns (rows: seq<OccupancyRow>, totalSeats: nat, bookedSeats: nat, overall: real)
    ensures |rows| == |Listed(schedules)| <= MaxListed
    ensures forall i :: 0 <= i < |rows| ==> Running(Listed(schedules)[i]) && rows[i] == RowFor(Listed(schedules)[i])
    ensures totalSeats == SumCapacity(Listed(schedules))
    ensures bookedSeats == SumBooked(Listed(schedules))
    ensures bookedSeats <= totalSeats
    ensures overall == OverallOccupancy(Listed(schedules))
    ensures 0.0 <= overall <= 100.0
    ensures totalSeats > 0 ==> overall * totalSeats as real == 100.0 * bookedSeats as real
  {
    var listed := Listed(schedules);
    rows, totalSeats, bookedSeats, overall := OccupancyTable(listed);
  }
}
