/** The rule-based weekly roster (`_build_draft_shifts` in
    src/masova_agent/agents/shift_optimisation_agent.py) and the duplicate filter of
    src/masova_agent/core/ops_contract.py that every roster passes through. */
module Roster {
  import Dedupe

  const DAYS := 7
  const SLOTS_PER_DAY := 3
  const HIGH_DEMAND_THRESHOLD := 15.0

  datatype Slot = Slot(name: string, startHour: nat, endHour: nat)

  const SHIFT_SLOTS: seq<Slot> :=
    [Slot("Morning", 9, 16), Slot("Mid", 11, 19), Slot("Evening", 16, 23)]

  /** Predicted orders by day of week (0 = Monday) and hour; missing entries count as zero. */
  type Demand = map<int, map<int, real>>

  datatype Shift = Shift(staffId: string, day: nat, slot: nat)

  // ---- how many people a slot of the week needs ----

  function HourDemand(demand: Demand, dow: int, hour: int): real {
    if dow in demand && hour in demand[dow] then demand[dow][hour] else 0.0
  }

  function SlotDemand(demand: Demand, dow: int, lo: nat, hi: nat): real
    requires lo <= hi
    decreases hi - lo
  {
    if lo == hi then 0.0 else SlotDemand(demand, dow, lo, hi - 1) + HourDemand(demand, dow, hi - 1)
  }

  /** High-demand test for slot `p` of the week; `monday` is the weekday of the first day. */
  predicate High(demand: Demand, monday: nat, p: nat) {
    var slot := SHIFT_SLOTS[p % SLOTS_PER_DAY];
    SlotDemand(demand, (monday + p / SLOTS_PER_DAY) % DAYS, slot.startHour, slot.endHour) >= HIGH_DEMAND_THRESHOLD
  }

  /** The busy slots of a week, in roster order. */
  type Week = w: seq<bool> | |w| == DAYS * SLOTS_PER_DAY witness seq(21, i => false)

  ghost function Busy(demand: Demand, monday: nat): Week {
    seq(DAYS * SLOTS_PER_DAY, p requires 0 <= p => High(demand, monday, p))
  }

  /** Number of shifts before slot `p` of the week: two for a busy slot, one for any other. */
  ghost function Before(busy: Week, p: nat): nat
    requires p <= |busy|
  {
    if p == 0 then 0 else Before(busy, p - 1) + if busy[p - 1] then 2 else 1
  }

  ghost function HighCount(busy: Week, p: nat): nat
    requires p <= |busy|
  {
    if p == 0 then 0 else HighCount(busy, p - 1) + if busy[p - 1] then 1 else 0
  }

  /** Shift number `k` belongs to the slot whose block of numbers contains it. */
  ghost predicate InBlock(busy: Week, p: nat, k: int) {
    p < |busy| && Before(busy, p) <= k < Before(busy, p + 1)
  }

  function Position(s: Shift): nat {
    s.day * SLOTS_PER_DAY + s.slot
  }

  /** Whose turn it is at shift `k`. */
  function Turn(staff: seq<string>, k: nat): string
    requires staff != []
  {
    staff[k % |staff|]
  }

  /** Shift `k` goes to person k mod n. */
  ghost predicate RoundRobin(staff: seq<string>, shifts: seq<Shift>)
    requires staff != []
  {
    forall k :: 0 <= k < |shifts| ==> shifts[k].staffId == Turn(staff, k)
  }

  /** Shifts are numbered slot by slot. */
  ghost predicate Placed(busy: Week, shifts: seq<Shift>) {
    forall k :: 0 <= k < |shifts| ==> shifts[k].slot < SLOTS_PER_DAY && InBlock(busy, Position(shifts[k]), k)
  }

  ghost predicate RosterUpTo(staff: seq<string>, busy: Week, p: nat, shifts: seq<Shift>)
    requires staff != [] && p <= |busy|
  {
    |shifts| == Before(busy, p) && RoundRobin(staff, shifts) && Placed(busy, shifts)
  }

  ghost predicate IsRoster(staff: seq<string>, busy: Week, shifts: seq<Shift>) {
    if staff == [] then shifts == []
    else RosterUpTo(staff, busy, DAYS * SLOTS_PER_DAY, shifts)
  }

  lemma AppendShift(staff: seq<string>, busy: Week, shifts: seq<Shift>, s: Shift)
    requires staff != [] && RoundRobin(staff, shifts) && Placed(busy, shifts)
    requires s.staffId == Turn(staff, |shifts|)
    requires s.slot < SLOTS_PER_DAY && InBlock(busy, Position(s), |shifts|)
    ensures RoundRobin(staff, shifts + [s]) && Placed(busy, shifts + [s])
  {
  }

  method BuildDraftShifts(staff: seq<string>, demand: Demand, monday: nat) returns (shifts: seq<Shift>)
    ensures IsRoster(staff, Busy(demand, monday), shifts)
  {
    shifts := [];
    if staff == [] {
      return;
    }
    ghost var busy := Busy(demand, monday);
    for day := 0 to DAYS
      invariant RosterUpTo(staff, busy, day * SLOTS_PER_DAY, shifts)
    {
      for s := 0 to SLOTS_PER_DAY
        invariant RosterUpTo(staff, busy, day * SLOTS_PER_DAY + s, shifts)
      {
        var staffCount := StaffCount(demand, monday, day, s, busy);
        shifts := AssignSlot(staff, busy, day, s, staffCount, shifts);
      }
    }
  }

  /** Give `staffCount` people the slot, continuing the cycle where the list ends. */
  method AssignSlot(staff: seq<string>, ghost busy: Week, day: nat, s: nat, staffCount: nat, before: seq<Shift>)
    returns (shifts: seq<Shift>)
    requires staff != [] && day < DAYS && s < SLOTS_PER_DAY
    requires RosterUpTo(staff, busy, day * SLOTS_PER_DAY + s, before)
    requires staffCount == if busy[day * SLOTS_PER_DAY + s] then 2 else 1
    ensures RosterUpTo(staff, busy, day * SLOTS_PER_DAY + s + 1, shifts)
  {
    shifts := before;
    var staffIndex := |before|;
    for c := 0 to staffCount
      invariant staffIndex == |shifts| == |before| + c
      invariant RoundRobin(staff, shifts) && Placed(busy, shifts)
    {
      var shift := Shift(Turn(staff, staffIndex), day, s);
      AppendShift(staff, busy, shifts, shift);
      shifts := shifts + [shift];
      staffIndex := staffIndex + 1;
    }
  }

  /** The head count of one slot, from the summed predictions of its hours. */
  method StaffCount(demand: Demand, monday: nat, day: nat, s: nat, ghost busy: Week) returns (count: nat)
    requires day < DAYS && s < SLOTS_PER_DAY && busy == Busy(demand, monday)
    ensures count == if busy[day * SLOTS_PER_DAY + s] then 2 else 1
  {
    var dow, slot := (monday + day) % DAYS, SHIFT_SLOTS[s];
    var slotDemand := 0.0;
    for h := slot.startHour to slot.endHour
      invariant slotDemand == SlotDemand(demand, dow, slot.startHour, h)
    {
      slotDemand := slotDemand + HourDemand(demand, dow, h);
    }
    count := if slotDemand >= HIGH_DEMAND_THRESHOLD then 2 else 1;
  }

  // ---- size and coverage ----

  lemma {:induction false} BeforeCounts(busy: Week, p: nat)
    requires p <= |busy|
    ensures Before(busy, p) == p + HighCount(busy, p)
  {
    if p > 0 {
      BeforeCounts(busy, p - 1);
    }
  }

  /** Twenty-one shifts and one more for every high-demand slot. */
  lemma RosterSize(staff: seq<string>, busy: Week, shifts: seq<Shift>)
    requires staff != [] && IsRoster(staff, busy, shifts)
    ensures |shifts| == 21 + HighCount(busy, 21)
  {
    BeforeCounts(busy, 21);
  }

  lemma {:induction false} BeforeMonotone(busy: Week, p: nat, q: nat)
    requires p <= q <= |busy|
    ensures Before(busy, p) + (q - p) <= Before(busy, q)
    ensures Before(busy, q) <= Before(busy, p) + 2 * (q - p)
  {
    if p < q {
      BeforeMonotone(busy, p, q - 1);
    }
  }

  /** Blocks do not overlap, so a shift number determines its slot. */
  lemma BlockUnique(busy: Week, p: nat, q: nat, k: int)
    requires InBlock(busy, p, k) && InBlock(busy, q, k)
    ensures p == q
  {
    if p < q {
      BeforeMonotone(busy, p + 1, q);
    } else if q < p {
      BeforeMonotone(busy, q + 1, p);
    }
  }

  /** Every slot of the week is filled by exactly the shifts of its block: one person, or two. */
  lemma EverySlotCovered(staff: seq<string>, busy: Week, shifts: seq<Shift>, day: nat, slot: nat, k: nat)
    requires staff != [] && IsRoster(staff, busy, shifts)
    requires day < DAYS && slot < SLOTS_PER_DAY
    ensures var p := day * SLOTS_PER_DAY + slot;
            && Before(busy, p + 1) == Before(busy, p) + (if busy[p] then 2 else 1) <= |shifts|
            && (InBlock(busy, p, k) <==> k < |shifts| && shifts[k].day == day && shifts[k].slot == slot)
  {
    var p := day * SLOTS_PER_DAY + slot;
    BeforeMonotone(busy, p + 1, DAYS * SLOTS_PER_DAY);
    if InBlock(busy, p, k) {
      BlockUnique(busy, p, Position(shifts[k]), k);
      SamePosition(shifts[k], day, slot);
    }
  }

  lemma SamePosition(s: Shift, day: nat, slot: nat)
    requires s.slot < SLOTS_PER_DAY && slot < SLOTS_PER_DAY
    requires Position(s) == day * SLOTS_PER_DAY + slot
    ensures s.day == day && s.slot == slot
  {
  }

  // ---- which slots are busy ----

  /** The orders predicted for the hours of a slot: 9 to 16, 11 to 19, or 16 to 23 o'clock. */
  function PredictedFor(demand: Demand, weekday: int, slot: nat): real {
    if slot == 0 then
      HourDemand(demand, weekday, 9) + HourDemand(demand, weekday, 10) + HourDemand(demand, weekday, 11)
      + HourDemand(demand, weekday, 12) + HourDemand(demand, weekday, 13) + HourDemand(demand, weekday, 14)
      + HourDemand(demand, weekday, 15)
    else if slot == 1 then
      HourDemand(demand, weekday, 11) + HourDemand(demand, weekday, 12) + HourDemand(demand, weekday, 13)
      + HourDemand(demand, weekday, 14) + HourDemand(demand, weekday, 15) + HourDemand(demand, weekday, 16)
      + HourDemand(demand, weekday, 17) + HourDemand(demand, weekday, 18)
    else
      HourDemand(demand, weekday, 16) + HourDemand(demand, weekday, 17) + HourDemand(demand, weekday, 18)
      + HourDemand(demand, weekday, 19) + HourDemand(demand, weekday, 20) + HourDemand(demand, weekday, 21)
      + HourDemand(demand, weekday, 22)
  }

  /** An hour's prediction is read from the forecast; one that is missing counts as zero. */
  lemma PredictionIsRead(demand: Demand, weekday: int, hours: map<int, real>, hour: int, orders: real)
    ensures HourDemand(demand[weekday := hours[hour := orders]], weekday, hour) == orders
    ensures hour !in hours ==> HourDemand(demand[weekday := hours], weekday, hour) == 0.0
    ensures HourDemand(demand - {weekday}, weekday, hour) == 0.0
  {
  }

  lemma LastHour(demand: Demand, weekday: int, lo: nat, hi: nat)
    requires lo < hi
    ensures SlotDemand(demand, weekday, lo, hi) == SlotDemand(demand, weekday, lo, hi - 1) + HourDemand(demand, weekday, hi - 1)
  {
  }

  lemma SlotHours(demand: Demand, weekday: int)
    ensures SlotDemand(demand, weekday, 9, 16) == PredictedFor(demand, weekday, 0)
    ensures SlotDemand(demand, weekday, 11, 19) == PredictedFor(demand, weekday, 1)
    ensures SlotDemand(demand, weekday, 16, 23) == PredictedFor(demand, weekday, 2)
  {
    SevenHours(demand, weekday, 9);
    SevenHours(demand, weekday, 11);
    LastHour(demand, weekday, 11, 19);
    SevenHours(demand, weekday, 16);
  }

  lemma SevenHours(demand: Demand, weekday: int, lo: nat)
    ensures SlotDemand(demand, weekday, lo, lo + 7)
            == HourDemand(demand, weekday, lo) + HourDemand(demand, weekday, lo + 1) + HourDemand(demand, weekday, lo + 2)
               + HourDemand(demand, weekday, lo + 3) + HourDemand(demand, weekday, lo + 4) + HourDemand(demand, weekday, lo + 5)
               + HourDemand(demand, weekday, lo + 6)
  {
    LastHour(demand, weekday, lo, lo + 7);
    LastHour(demand, weekday, lo, lo + 6);
    LastHour(demand, weekday, lo, lo + 5);
    LastHour(demand, weekday, lo, lo + 4);
    LastHour(demand, weekday, lo, lo + 3);
    LastHour(demand, weekday, lo, lo + 2);
    LastHour(demand, weekday, lo, lo + 1);
  }

  /** A slot is busy exactly if fifteen orders or more are predicted for its hours on the
      weekday it falls on, and then, and only then, two people work it. */
  lemma BusyExactly(staff: seq<string>, demand: Demand, monday: nat, shifts: seq<Shift>, day: nat, slot: nat)
    requires staff != [] && IsRoster(staff, Busy(demand, monday), shifts) && day < DAYS && slot < SLOTS_PER_DAY
    ensures var weekday := (monday + day) % 7;
            SlotShifts(shifts, day, slot) == if PredictedFor(demand, weekday, slot) >= 15.0 then 2 else 1
  {
    BusySlot(demand, monday, day, slot);
    SlotIsCounted(staff, Busy(demand, monday), shifts, day, slot);
  }

  lemma SlotIsCounted(staff: seq<string>, busy: Week, shifts: seq<Shift>, day: nat, slot: nat)
    requires staff != [] && IsRoster(staff, busy, shifts) && day < DAYS && slot < SLOTS_PER_DAY
    ensures SlotShifts(shifts, day, slot) == if busy[day * SLOTS_PER_DAY + slot] then 2 else 1
  {
    var p := day * SLOTS_PER_DAY + slot;
    var lo, hi := Before(busy, p), Before(busy, p + 1);
    forall k | 0 <= k < |shifts| ensures shifts[k].day == day && shifts[k].slot == slot <==> lo <= k < hi {
      EverySlotCovered(staff, busy, shifts, day, slot, k);
    }
    EverySlotCovered(staff, busy, shifts, day, slot, 0);
    CountBlock(shifts, day, slot, lo, hi);
  }

  lemma BusySlot(demand: Demand, monday: nat, day: nat, slot: nat)
    requires day < DAYS && slot < SLOTS_PER_DAY
    ensures Busy(demand, monday)[day * SLOTS_PER_DAY + slot] <==> PredictedFor(demand, (monday + day) % 7, slot) >= 15.0
  {
    var p := day * SLOTS_PER_DAY + slot;
    SlotHours(demand, (monday + day) % 7);
    assert p / SLOTS_PER_DAY == day && p % SLOTS_PER_DAY == slot;
  }

  /** Number of shifts in a slot of the week. */
  ghost function SlotShifts(shifts: seq<Shift>, day: nat, slot: nat): nat {
    if shifts == [] then 0
    else
      var last := shifts[|shifts| - 1];
      SlotShifts(shifts[..|shifts| - 1], day, slot) + if last.day == day && last.slot == slot then 1 else 0
  }

  lemma {:induction false} CountBlock(shifts: seq<Shift>, day: nat, slot: nat, lo: nat, hi: nat)
    requires lo <= hi
    requires forall k :: 0 <= k < |shifts| ==> (shifts[k].day == day && shifts[k].slot == slot <==> lo <= k < hi)
    ensures SlotShifts(shifts, day, slot) == if |shifts| <= lo then 0 else if |shifts| <= hi then |shifts| - lo else hi - lo
  {
    if shifts != [] {
      CountBlock(shifts[..|shifts| - 1], day, slot, lo, hi);
    }
  }

  // ---- fairness ----

  /** Number of the first `m` shifts that go to person `i` of the staff list. */
  ghost function Load(n: nat, m: nat, i: nat): nat
    requires n > 0
  {
    if m == 0 then 0 else Load(n, m - 1, i) + if (m - 1) % n == i then 1 else 0
  }

  lemma {:induction false} LoadClosed(n: nat, m: nat, i: nat)
    requires i < n
    ensures Load(n, m, i) == m / n + if i < m % n then 1 else 0
  {
    if m > 0 {
      LoadClosed(n, m - 1, i);
      StepDiv(m - 1, n);
    } else {
      assert 0 / n == 0 && 0 % n == 0;
    }
  }

  lemma StepDiv(m: nat, n: nat)
    requires n > 0
    ensures if m % n + 1 == n then (m + 1) / n == m / n + 1 && (m + 1) % n == 0
            else (m + 1) / n == m / n && (m + 1) % n == m % n + 1
  {
    var q, r := m / n, m % n;
    assert m == n * q + r;
    if r + 1 == n {
      assert m + 1 == n * (q + 1);
      DivUnique(m + 1, n, q + 1, 0);
    } else {
      DivUnique(m + 1, n, q, r + 1);
    }
  }

  lemma LapBounds(n: nat, q: int, p: int)
    requires n > 0
    ensures q < p ==> n * q + n <= n * p
    ensures p < q ==> n * p + n <= n * q
  {
    if q < p {
      MulMono(n, q + 1, p);
    } else if p < q {
      MulMono(n, p + 1, q);
    }
  }

  lemma MulMono(n: nat, a: int, b: int)
    requires a <= b
    ensures n * a <= n * b
  {
  }

  lemma DivUnique(a: nat, n: nat, q: nat, r: nat)
    requires n > 0 && r < n && a == n * q + r
    ensures a / n == q && a % n == r
  {
    assert a == n * (a / n) + a % n;
    LapBounds(n, a / n, q);
  }

  /** Shifts of one person in a list. */
  ghost function ShiftsOf(shifts: seq<Shift>, id: string): nat {
    if shifts == [] then 0
    else ShiftsOf(shifts[..|shifts| - 1], id) + if shifts[|shifts| - 1].staffId == id then 1 else 0
  }

  ghost predicate Distinct(staff: seq<string>) {
    forall i, j :: 0 <= i < j < |staff| ==> staff[i] != staff[j]
  }

  lemma {:induction false} ShiftsOfIsLoad(staff: seq<string>, shifts: seq<Shift>, i: nat)
    requires Distinct(staff) && i < |staff|
    requires RoundRobin(staff, shifts)
    ensures ShiftsOf(shifts, staff[i]) == Load(|staff|, |shifts|, i)
  {
    if shifts != [] {
      ShiftsOfIsLoad(staff, shifts[..|shifts| - 1], i);
      var k := (|shifts| - 1) % |staff|;
      assert staff[k] == staff[i] <==> k == i;
    }
  }

  /** Any two people's totals differ by at most one. */
  lemma Fair(staff: seq<string>, busy: Week, shifts: seq<Shift>, i: nat, j: nat)
    requires Distinct(staff) && i < |staff| && j < |staff|
    requires IsRoster(staff, busy, shifts)
    ensures -1 <= ShiftsOf(shifts, staff[i]) - ShiftsOf(shifts, staff[j]) <= 1
  {
    ShiftsOfIsLoad(staff, shifts, i);
    ShiftsOfIsLoad(staff, shifts, j);
    LoadClosed(|staff|, |shifts|, i);
    LoadClosed(|staff|, |shifts|, j);
  }

  // ---- nobody twice ----

  /** Among `c` consecutive numbers two agree mod n exactly if c exceeds n. */
  lemma ConsecutiveDistinct(n: nat, a: nat, b: nat)
    requires n > 0 && a < b && a % n == b % n
    ensures b - a >= n
  {
    assert a == n * (a / n) + a % n && b == n * (b / n) + b % n;
    LapBounds(n, a / n, b / n);
  }

  lemma OneLapLater(n: nat, a: nat)
    requires n > 0
    ensures (a + n) % n == a % n
  {
    assert a == n * (a / n) + a % n;
    DivUnique(a + n, n, a / n + 1, a % n);
  }

  ghost predicate NobodyTwice(shifts: seq<Shift>, lo: nat, hi: nat)
    requires lo <= hi <= |shifts|
  {
    forall k, l :: lo <= k < l < hi ==> shifts[k].staffId != shifts[l].staffId
  }

  /** In a stretch of the roster nobody appears twice exactly if it is no longer than the staff. */
  lemma NobodyTwiceExactly(staff: seq<string>, shifts: seq<Shift>, lo: nat, hi: nat)
    requires staff != [] && Distinct(staff) && lo <= hi <= |shifts|
    requires RoundRobin(staff, shifts)
    ensures NobodyTwice(shifts, lo, hi) <==> hi - lo <= |staff|
  {
    var n := |staff|;
    if hi - lo <= n {
      forall k, l | lo <= k < l < hi ensures shifts[k].staffId != shifts[l].staffId {
        if k % n == l % n {
          ConsecutiveDistinct(n, k, l);
          assert false;
        }
      }
    } else {
      OneLapLater(n, lo);
      assert shifts[lo].staffId == shifts[lo + n].staffId;
    }
  }

  /** Day `d` is the stretch of the roster between these two shift numbers. */
  ghost function DayStart(busy: Week, d: nat): nat
    requires d <= DAYS
  {
    Before(busy, d * SLOTS_PER_DAY)
  }

  lemma DayIsStretch(staff: seq<string>, busy: Week, shifts: seq<Shift>, d: nat, k: nat)
    requires staff != [] && IsRoster(staff, busy, shifts)
    requires d < DAYS && k < |shifts|
    ensures shifts[k].day == d <==> DayStart(busy, d) <= k < DayStart(busy, d + 1)
  {
    var p := Position(shifts[k]);
    var lo, hi := d * SLOTS_PER_DAY, (d + 1) * SLOTS_PER_DAY;
    if p < lo {
      BeforeMonotone(busy, p + 1, lo);
    } else if p < hi {
      BeforeMonotone(busy, lo, p);
      BeforeMonotone(busy, p + 1, hi);
    } else {
      BeforeMonotone(busy, hi, p);
    }
  }

  /** On a given day nobody works twice exactly if the day has no more shifts than staff;
      six people are enough for every day. */
  lemma NobodyTwiceADay(staff: seq<string>, busy: Week, shifts: seq<Shift>, d: nat)
    requires staff != [] && Distinct(staff) && IsRoster(staff, busy, shifts)
    requires d < DAYS
    ensures (forall k, l :: 0 <= k < l < |shifts| && shifts[k].day == d && shifts[l].day == d
                            ==> shifts[k].staffId != shifts[l].staffId)
            <==> DayStart(busy, d + 1) - DayStart(busy, d) <= |staff|
    ensures DayStart(busy, d + 1) - DayStart(busy, d) <= 6
  {
    var lo, hi := DayStart(busy, d), DayStart(busy, d + 1);
    BeforeMonotone(busy, d * SLOTS_PER_DAY, (d + 1) * SLOTS_PER_DAY);
    BeforeMonotone(busy, (d + 1) * SLOTS_PER_DAY, DAYS * SLOTS_PER_DAY);
    NobodyTwiceExactly(staff, shifts, lo, hi);
    forall k | 0 <= k < |shifts| ensures shifts[k].day == d <==> lo <= k < hi {
      DayIsStretch(staff, busy, shifts, d, k);
    }
    if !NobodyTwice(shifts, lo, hi) {
      var k, l :| lo <= k < l < hi && shifts[k].staffId == shifts[l].staffId;
      assert shifts[k].day == d && shifts[l].day == d;
    }
  }

  // ---- the duplicate filter ----

  /** Date, person and start of a shift; the three slots start at different hours. */
  function ShiftKey(s: Shift): (k: (nat, string, nat)) {
    (s.day, s.staffId, if s.slot < SLOTS_PER_DAY then SHIFT_SLOTS[s.slot].startHour else 24)
  }

  lemma SameKeySameSlot(s: Shift, t: Shift)
    requires s.slot < SLOTS_PER_DAY && t.slot < SLOTS_PER_DAY
    requires ShiftKey(s) == ShiftKey(t)
    ensures s == t
  {
  }

  /** The filter leaves the roster alone exactly if there are two people or no busy slot. */
  lemma RosterSurvivesDedupe(staff: seq<string>, busy: Week, shifts: seq<Shift>)
    requires staff != [] && Distinct(staff) && IsRoster(staff, busy, shifts)
    ensures Dedupe.FirstOccurrences(shifts, ShiftKey) == shifts
            <==> |staff| >= 2 || HighCount(busy, 21) == 0
  {
    Dedupe.UnchangedExactly(shifts, ShiftKey);
    if |staff| >= 2 || HighCount(busy, 21) == 0 {
      forall k, l | 0 <= k < l < |shifts| ensures ShiftKey(shifts[k]) != ShiftKey(shifts[l]) {
        if ShiftKey(shifts[k]) == ShiftKey(shifts[l]) {
          SameKeySameSlot(shifts[k], shifts[l]);
          SameBlock(staff, busy, shifts, k, l);
        }
      }
    } else {
      var k := RepeatedShift(staff, busy, shifts);
      assert ShiftKey(shifts[k]) == ShiftKey(shifts[k + 1]);
    }
  }

  /** One person alone in a busy slot is entered twice. */
  lemma RepeatedShift(staff: seq<string>, busy: Week, shifts: seq<Shift>) returns (k: nat)
    requires |staff| == 1 && IsRoster(staff, busy, shifts) && HighCount(busy, 21) > 0
    ensures k + 1 < |shifts| && shifts[k] == shifts[k + 1]
  {
    var p := SomeHighSlot(busy, 21);
    k := Before(busy, p);
    BeforeMonotone(busy, p + 1, 21);
    BlockUnique(busy, p, Position(shifts[k]), k);
    BlockUnique(busy, p, Position(shifts[k + 1]), k + 1);
    SamePosition(shifts[k], shifts[k + 1].day, shifts[k + 1].slot);
    assert k % 1 == 0 && (k + 1) % 1 == 0;
  }

  lemma {:induction false} SomeHighSlot(busy: Week, p: nat) returns (q: nat)
    requires p <= |busy|
    requires HighCount(busy, p) > 0
    ensures q < p && busy[q]
  {
    if busy[p - 1] {
      q := p - 1;
    } else {
      q := SomeHighSlot(busy, p - 1);
    }
  }

  lemma {:induction false} NoHighSlot(busy: Week, p: nat, q: nat)
    requires p <= |busy|
    requires HighCount(busy, p) == 0 && q < p
    ensures !busy[q]
  {
    if q < p - 1 {
      NoHighSlot(busy, p - 1, q);
    }
  }

  /** Two shifts of one slot for one person need a one-person staff and a busy slot. */
  lemma SameBlock(staff: seq<string>, busy: Week, shifts: seq<Shift>, k: nat, l: nat)
    requires staff != [] && Distinct(staff) && IsRoster(staff, busy, shifts)
    requires k < l < |shifts|
    ensures shifts[k] == shifts[l] ==> |staff| == 1 && HighCount(busy, 21) > 0
  {
    if shifts[k] == shifts[l] {
      var p := Position(shifts[k]);
      assert InBlock(busy, p, k) && InBlock(busy, p, l);
      assert l == k + 1;
      if |staff| >= 2 {
        NobodyTwiceExactly(staff, shifts, k, l + 1);
      }
      if HighCount(busy, 21) == 0 {
        NoHighSlot(busy, 21, p);
      }
    }
  }
}
