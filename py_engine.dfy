/** The Python engine of scheduling.py: SchedulerApp.generate_schedule in
    its two phases (every employee's preferences, day by day, then a fill
    of every slot that still lacks staff), the import that builds the
    roster, and the warning lists of display_schedule. As for the C++
    engine, each loop is a tail-recursive function over the loop's
    variables, and the class SchedulerApp runs the loops themselves, proved
    equal to these functions. */
module PyEngine {
  import opened Text
  import opened Week
  import opened CppReport
  import opened PyPrefs

  /** Preferences hold shift numbers: the import keeps only names of SHIFTS. */
  type PyPlan = Plan<Shift>

  /** shift_counts, the per-day defaultdict(int): a missing shift counts 0. */
  type Counts = map<Shift, nat>

  function CountOf(counts: Counts, s: Shift): nat {
    if s in counts then counts[s] else 0
  }

  /** The preference phase's test for one listed shift: fewer than two
      placed in it today, the employee's name not already in it, and the
      day not already worked. */
  predicate Open(p: PyPlan, i: nat, d: Day, s: Shift, counts: Counts)
    requires i < |p.employees|
  {
    CountOf(counts, s) < STAFF_TARGET && Worker(p.employees[i].name) !in Slot(p.schedule, d, s) &&
    d !in p.employees[i].assignedDays
  }

  /** `for shift in prefs`, from position k: the first open shift takes the
      employee and the loop breaks. */
  function PlaceFrom(p: PyPlan, i: nat, d: Day, prefs: seq<Shift>, k: nat, counts: Counts): (r: (PyPlan, Counts))
    requires i < |p.employees| && k <= |prefs|
    ensures SameRoster(r.0.employees, p.employees)
    decreases |prefs| - k
  {
    if k == |prefs| then (p, counts)
    else if Open(p, i, d, prefs[k], counts) then
      (Hire(p, i, d, prefs[k]), counts[prefs[k] := CountOf(counts, prefs[k]) + 1])
    else PlaceFrom(p, i, d, prefs, k + 1, counts)
  }

  /** `for emp in self.employees` of one day, from position i: an employee
      with five days already is skipped, the others try their list. */
  function PrefRoster(p: PyPlan, d: Day, i: nat, counts: Counts): (r: (PyPlan, Counts))
    requires i <= |p.employees|
    ensures SameRoster(r.0.employees, p.employees)
    decreases |p.employees| - i
  {
    if i == |p.employees| then (p, counts)
    else if |p.employees[i].assignedDays| >= MAX_DAYS then PrefRoster(p, d, i + 1, counts)
    else
      var (q, c) := PlaceFrom(p, i, d, PrefsOn(p.employees[i], d), 0, counts);
      PrefRoster(q, d, i + 1, c)
  }

  /** The preference phase over the days from d on, each day with fresh
      counts. */
  function PrefDays(p: PyPlan, d: nat): (r: PyPlan)
    requires d <= 7
    ensures SameRoster(r.employees, p.employees)
    decreases 7 - d
  {
    if d == 7 then p else PrefDays(PrefRoster(p, d, 0, map[]).0, d + 1)
  }

  /** `while len(slot) < 2`, one iteration per call: a random available
      employee and loop again; else the manager while under the cap, or
      "Unassigned", and break. */
  function FillPy(p: PyPlan, d: Day, s: Shift, choose: Chooser): (r: PyPlan)
    ensures SameRoster(r.employees, p.employees)
    decreases STAFF_TARGET - |Slot(p.schedule, d, s)|
  {
    var n := |Slot(p.schedule, d, s)|;
    if n >= STAFF_TARGET then p
    else
      var available := Candidates(p.employees, d);
      if |available| > 0 then
        var q := Hire(p, available[choose(d, s, n) % |available|], d, s);
        assert |Slot(q.schedule, d, s)| == n + 1;
        var r := FillPy(q, d, s, choose);
        SameRosterTrans(r.employees, q.employees, p.employees);
        r
      else if |p.managerDays| < MAX_DAYS then UseManager(p, d, s)
      else GiveUp(p, d, s)
  }

  /** The fill phase's inner loop: the shifts of day d from s on. */
  function FillShifts(p: PyPlan, d: Day, s: nat, choose: Chooser): (r: PyPlan)
    requires s <= 3
    ensures SameRoster(r.employees, p.employees)
    decreases 3 - s
  {
    if s == 3 then p else FillShifts(FillPy(p, d, s, choose), d, s + 1, choose)
  }

  /** The fill phase's outer loop: the days from d on. */
  function FillDays(p: PyPlan, d: nat, choose: Chooser): (r: PyPlan)
    requires d <= 7
    ensures SameRoster(r.employees, p.employees)
    decreases 7 - d
  {
    if d == 7 then p else FillDays(FillShifts(p, d, 0, choose), d + 1, choose)
  }

  /** generate_schedule: fresh schedule, fresh manager and no assigned
      days, then the preference phase over all days, then the fill phase. */
  function Generate(p: PyPlan, choose: Chooser): PyPlan {
    FillDays(PrefDays(Cleared(p), 0), 0, choose)
  }

  // ---------------------------------------------------------------------
  // Which shift the preference phase gives an employee

  /** The first open shift of the list from k on takes the employee. */
  lemma {:induction false} PlacedFirstOpen(p: PyPlan, i: nat, d: Day, prefs: seq<Shift>, k: nat, counts: Counts, j: nat)
    requires i < |p.employees| && k <= j < |prefs|
    requires Open(p, i, d, prefs[j], counts)
    requires forall j' :: k <= j' < j ==> !Open(p, i, d, prefs[j'], counts)
    ensures PlaceFrom(p, i, d, prefs, k, counts) ==
      (Hire(p, i, d, prefs[j]), counts[prefs[j] := CountOf(counts, prefs[j]) + 1])
    decreases j - k
  {
    if k < j {
      PlacedFirstOpen(p, i, d, prefs, k + 1, counts, j);
    }
  }

  /** With no open shift in the list the employee stays unplaced today. */
  lemma {:induction false} PlacedNowhere(p: PyPlan, i: nat, d: Day, prefs: seq<Shift>, k: nat, counts: Counts)
    requires i < |p.employees| && k <= |prefs|
    requires forall j :: k <= j < |prefs| ==> !Open(p, i, d, prefs[j], counts)
    ensures PlaceFrom(p, i, d, prefs, k, counts) == (p, counts)
    decreases |prefs| - k
  {
    if k < |prefs| {
      PlacedNowhere(p, i, d, prefs, k + 1, counts);
    }
  }

  // ---------------------------------------------------------------------
  // The preference phase keeps the invariants

  /** A slot as the preference phase leaves it: at most two workers, no
      name twice. */
  predicate PreferenceSlot(l: seq<Entry>) {
    |l| <= STAFF_TARGET && (forall k :: 0 <= k < |l| ==> l[k].Worker?) &&
    (forall a, b :: 0 <= a < b < |l| ==> l[a] != l[b])
  }

  /** Before the preference pass of day d: the shared invariants, every
      slot a preference slot, the days from d on untouched. */
  ghost predicate Preferred(p: PyPlan, d: nat) {
    Sound(p) &&
    (forall d': Day, s: Shift :: PreferenceSlot(Slot(p.schedule, d', s))) &&
    (forall d': Day, s: Shift :: d' >= d ==> Slot(p.schedule, d', s) == [])
  }

  /** During the pass of day d: as Preferred for the days after d, with
      the counts equal to the lengths of day d's slots. */
  ghost predicate Placing(p: PyPlan, d: Day, counts: Counts) {
    Preferred(p, d + 1) && forall s: Shift :: |Slot(p.schedule, d, s)| == CountOf(counts, s)
  }

  lemma PreferenceSlotAppend(l: seq<Entry>, n: string)
    requires PreferenceSlot(l) && |l| < STAFF_TARGET && Worker(n) !in l
    ensures PreferenceSlot(l + [Worker(n)])
  {
    var r := l + [Worker(n)];
    forall a, b | 0 <= a < b < |r| ensures r[a] != r[b] {
      assert r[a] == l[a];
    }
  }

  /** Placing an employee in an open shift keeps the invariants and counts
      one more in that shift. */
  lemma HirePlacing(p: PyPlan, i: nat, d: Day, s: Shift, counts: Counts)
    requires i < |p.employees| && |p.employees[i].assignedDays| < MAX_DAYS
    requires Placing(p, d, counts) && Open(p, i, d, s, counts)
    ensures Placing(Hire(p, i, d, s), d, counts[s := CountOf(counts, s) + 1])
  {
    var q := Hire(p, i, d, s);
    HireSound(p, i, d, s);
    PreferenceSlotAppend(Slot(p.schedule, d, s), p.employees[i].name);
    forall d': Day, s': Shift ensures PreferenceSlot(Slot(q.schedule, d', s')) {
      if (d', s') != (d, s) {
        assert Slot(q.schedule, d', s') == Slot(p.schedule, d', s');
      }
    }
  }

  lemma {:induction false} PlaceFromPlacing(p: PyPlan, i: nat, d: Day, prefs: seq<Shift>, k: nat, counts: Counts)
    requires i < |p.employees| && k <= |prefs| && |p.employees[i].assignedDays| < MAX_DAYS
    requires Placing(p, d, counts)
    ensures var (q, c) := PlaceFrom(p, i, d, prefs, k, counts); Placing(q, d, c)
    decreases |prefs| - k
  {
    if k < |prefs| {
      if Open(p, i, d, prefs[k], counts) {
        HirePlacing(p, i, d, prefs[k], counts);
      } else {
        PlaceFromPlacing(p, i, d, prefs, k + 1, counts);
      }
    }
  }

  lemma {:induction false} PrefRosterPlacing(p: PyPlan, d: Day, i: nat, counts: Counts)
    requires i <= |p.employees| && Placing(p, d, counts)
    ensures var (q, c) := PrefRoster(p, d, i, counts); Placing(q, d, c)
    decreases |p.employees| - i, 1
  {
    if i < |p.employees| {
      if |p.employees[i].assignedDays| >= MAX_DAYS {
        PrefRosterPlacing(p, d, i + 1, counts);
      } else {
        PlaceThenRoster(p, d, i, counts);
      }
    }
  }

  lemma {:induction false} PlaceThenRoster(p: PyPlan, d: Day, i: nat, counts: Counts)
    requires i < |p.employees| && |p.employees[i].assignedDays| < MAX_DAYS
    requires Placing(p, d, counts)
    ensures var (q, c) := PrefRoster(p, d, i, counts); Placing(q, d, c)
    decreases |p.employees| - i, 0
  {
    var (q, c) := PlaceFrom(p, i, d, PrefsOn(p.employees[i], d), 0, counts);
    PlaceFromPlacing(p, i, d, PrefsOn(p.employees[i], d), 0, counts);
    assert PrefRoster(p, d, i, counts) == PrefRoster(q, d, i + 1, c);
    PrefRosterPlacing(q, d, i + 1, c);
  }

  /** A day starts with empty slots, so the empty counts match them. */
  lemma PreferredPlacing(p: PyPlan, d: Day)
    requires Preferred(p, d)
    ensures Placing(p, d, map[])
  {
  }

  lemma {:induction false} PrefDaysPreferred(p: PyPlan, d: nat)
    requires d <= 7 && Preferred(p, d)
    ensures Preferred(PrefDays(p, d), 7)
    decreases 7 - d
  {
    if d < 7 {
      PreferredPlacing(p, d);
      PrefRosterPlacing(p, d, 0, map[]);
      PrefDaysPreferred(PrefRoster(p, d, 0, map[]).0, d + 1);
    }
  }

  /** The preference phase from a fresh start: no slot gets more than two
      entries, no name twice, nothing but employees; nobody beyond five
      days; where names identify employees, each one in at most one shift
      a day. */
  lemma PreferencePhase(p: PyPlan)
    ensures var q := PrefDays(Cleared(p), 0);
      && Sound(q)
      && (forall d: Day, s: Shift :: PreferenceSlot(Slot(q.schedule, d, s)))
      && q.managerDays == {}
  {
    ClearedSound(p);
    PrefDaysPreferred(Cleared(p), 0);
    PrefDaysManager(Cleared(p), 0);
  }

  /** The preference phase never uses the manager. */
  lemma {:induction false} PrefDaysManager(p: PyPlan, d: nat)
    requires d <= 7
    ensures PrefDays(p, d).managerDays == p.managerDays
    decreases 7 - d
  {
    if d < 7 {
      PrefRosterManager(p, d, 0, map[]);
      PrefDaysManager(PrefRoster(p, d, 0, map[]).0, d + 1);
    }
  }

  lemma {:induction false} PrefRosterManager(p: PyPlan, d: Day, i: nat, counts: Counts)
    requires i <= |p.employees|
    ensures PrefRoster(p, d, i, counts).0.managerDays == p.managerDays
    decreases |p.employees| - i
  {
    if i < |p.employees| {
      if |p.employees[i].assignedDays| >= MAX_DAYS {
        PrefRosterManager(p, d, i + 1, counts);
      } else {
        var (q, c) := PlaceFrom(p, i, d, PrefsOn(p.employees[i], d), 0, counts);
        PlaceFromManager(p, i, d, PrefsOn(p.employees[i], d), 0, counts);
        PrefRosterManager(q, d, i + 1, c);
      }
    }
  }

  lemma {:induction false} PlaceFromManager(p: PyPlan, i: nat, d: Day, prefs: seq<Shift>, k: nat, counts: Counts)
    requires i < |p.employees| && k <= |prefs|
    ensures PlaceFrom(p, i, d, prefs, k, counts).0.managerDays == p.managerDays
    decreases |prefs| - k
  {
    if k < |prefs| && !Open(p, i, d, prefs[k], counts) {
      PlaceFromManager(p, i, d, prefs, k + 1, counts);
    }
  }

  // ---------------------------------------------------------------------
  // The fill phase keeps the invariants

  /** A slot the fill phase has still to visit: at most two workers. */
  predicate Unfilled(l: seq<Entry>) {
    |l| <= STAFF_TARGET && forall k :: 0 <= k < |l| ==> l[k].Worker?
  }

  /** How a slot ends in the Python engine: one or two entries, all but the
      last of them workers, and a last worker only in a full slot. So a slot
      holds at most one sentinel, and "Manager" never twice. */
  predicate PySettled(l: seq<Entry>) {
    1 <= |l| <= STAFF_TARGET && (forall k :: 0 <= k < |l| - 1 ==> l[k].Worker?) &&
    (l[|l| - 1].Worker? ==> |l| == STAFF_TARGET)
  }

  /** Slots before position k are settled, the others still unfilled. */
  ghost predicate Progress(sched: Schedule, k: nat) {
    forall d: Day, s: Shift ::
      (Index(d, s) < k ==> PySettled(Slot(sched, d, s))) &&
      (Index(d, s) >= k ==> Unfilled(Slot(sched, d, s)))
  }

  /** An entry appended to slot (d, s) that keeps it unfilled keeps the
      progress; one that settles it moves the progress past it. */
  lemma AppendProgress(sched: Schedule, d: Day, s: Shift, e: Entry)
    requires Progress(sched, Index(d, s))
    ensures Unfilled(Slot(sched, d, s) + [e]) ==> Progress(Append(sched, d, s, e), Index(d, s))
    ensures PySettled(Slot(sched, d, s) + [e]) ==> Progress(Append(sched, d, s, e), Index(d, s) + 1)
  {
    var r := Append(sched, d, s, e);
    forall d': Day, s': Shift | (d', s') != (d, s)
      ensures Slot(r, d', s') == Slot(sched, d', s')
    {
    }
    forall d': Day, s': Shift | Index(d', s') == Index(d, s)
      ensures (d', s') == (d, s)
    {
    }
  }

  /** A full slot of workers is settled, and the progress moves past it. */
  lemma FullProgress(sched: Schedule, d: Day, s: Shift)
    requires Progress(sched, Index(d, s)) && |Slot(sched, d, s)| >= STAFF_TARGET
    ensures Progress(sched, Index(d, s) + 1)
  {
    assert PySettled(Slot(sched, d, s));
    forall d': Day, s': Shift | Index(d', s') == Index(d, s)
      ensures (d', s') == (d, s)
    {
    }
  }

  lemma {:induction false} FillPySound(p: PyPlan, d: Day, s: Shift, choose: Chooser)
    requires Sound(p) && Progress(p.schedule, Index(d, s))
    ensures var q := FillPy(p, d, s, choose);
      Sound(q) && Progress(q.schedule, Index(d, s) + 1)
    decreases STAFF_TARGET - |Slot(p.schedule, d, s)|, 1
  {
    var l := Slot(p.schedule, d, s);
    if |l| >= STAFF_TARGET {
      FullProgress(p.schedule, d, s);
    } else if |Candidates(p.employees, d)| > 0 {
      PickThenFillPy(p, d, s, choose);
    } else if |p.managerDays| < MAX_DAYS {
      ManagerSettles(p, d, s);
    } else {
      GiveUpSettlesPy(p, d, s);
    }
  }

  lemma {:induction false} PickThenFillPy(p: PyPlan, d: Day, s: Shift, choose: Chooser)
    requires Sound(p) && Progress(p.schedule, Index(d, s))
    requires |Slot(p.schedule, d, s)| < STAFF_TARGET && |Candidates(p.employees, d)| > 0
    ensures var q := FillPy(p, d, s, choose);
      Sound(q) && Progress(q.schedule, Index(d, s) + 1)
    decreases STAFF_TARGET - |Slot(p.schedule, d, s)|, 0
  {
    var available := Candidates(p.employees, d);
    var i := available[choose(d, s, |Slot(p.schedule, d, s)|) % |available|];
    PickStep(p, d, s, choose);
    PickKeeps(p, i, d, s);
    FillPySound(Hire(p, i, d, s), d, s, choose);
  }

  /** One pick of the fill loop, then the loop goes on. */
  lemma PickStep(p: PyPlan, d: Day, s: Shift, choose: Chooser)
    requires |Slot(p.schedule, d, s)| < STAFF_TARGET && |Candidates(p.employees, d)| > 0
    ensures var available := Candidates(p.employees, d);
      var i := available[choose(d, s, |Slot(p.schedule, d, s)|) % |available|];
      FillPy(p, d, s, choose) == FillPy(Hire(p, i, d, s), d, s, choose)
  {
  }

  /** Hiring an eligible employee into an unfilled slot keeps the slot
      unfilled or settles it. */
  lemma PickKeeps(p: PyPlan, i: nat, d: Day, s: Shift)
    requires Sound(p) && Progress(p.schedule, Index(d, s))
    requires |Slot(p.schedule, d, s)| < STAFF_TARGET && i < |p.employees| && Eligible(p.employees[i], d)
    ensures Sound(Hire(p, i, d, s)) && Progress(Hire(p, i, d, s).schedule, Index(d, s))
  {
    HireSound(p, i, d, s);
    AppendProgress(p.schedule, d, s, Worker(p.employees[i].name));
  }

  /** The manager settles the slot: one sentinel, after the workers. */
  lemma ManagerSettles(p: PyPlan, d: Day, s: Shift)
    requires Sound(p) && Progress(p.schedule, Index(d, s))
    requires |Slot(p.schedule, d, s)| < STAFF_TARGET
    requires NoneEligible(p.employees, d) && |p.managerDays| < MAX_DAYS
    ensures var q := UseManager(p, d, s);
      Sound(q) && Progress(q.schedule, Index(d, s) + 1)
  {
    UseManagerSound(p, d, s);
    AppendProgress(p.schedule, d, s, Manager);
  }

  lemma GiveUpSettlesPy(p: PyPlan, d: Day, s: Shift)
    requires Sound(p) && Progress(p.schedule, Index(d, s))
    requires |Slot(p.schedule, d, s)| < STAFF_TARGET
    requires NoneEligible(p.employees, d) && |p.managerDays| >= MAX_DAYS
    ensures var q := GiveUp(p, d, s);
      Sound(q) && Progress(q.schedule, Index(d, s) + 1)
  {
    GiveUpSound(p, d, s);
    AppendProgress(p.schedule, d, s, Unassigned);
  }

  lemma {:induction false} FillShiftsSound(p: PyPlan, d: Day, s: nat, choose: Chooser)
    requires s <= 3 && Sound(p) && Progress(p.schedule, 3 * d + s)
    ensures var q := FillShifts(p, d, s, choose);
      Sound(q) && Progress(q.schedule, 3 * d + 3)
    decreases 3 - s
  {
    if s < 3 {
      FillPySound(p, d, s, choose);
      FillShiftsSound(FillPy(p, d, s, choose), d, s + 1, choose);
    }
  }

  lemma {:induction false} FillDaysSound(p: PyPlan, d: nat, choose: Chooser)
    requires d <= 7 && Sound(p) && Progress(p.schedule, 3 * d)
    ensures var q := FillDays(p, d, choose);
      Sound(q) && Progress(q.schedule, SLOT_COUNT)
    decreases 7 - d
  {
    if d < 7 {
      FillShiftsSound(p, d, 0, choose);
      FillDaysSound(FillShifts(p, d, 0, choose), d + 1, choose);
    }
  }

  /** What every run of generate_schedule guarantees, whatever the random
      picks: nobody beyond five days, the manager included; every slot
      settled (one or two entries, at most one sentinel and only last); a
      sentinel only where no employee was left; and, where names identify
      employees, each employee in exactly one slot on each of their days. */
  lemma GenerateSound(p: PyPlan, choose: Chooser)
    ensures var q := Generate(p, choose);
      && SameRoster(q.employees, p.employees)
      && (forall i :: 0 <= i < |q.employees| ==> |q.employees[i].assignedDays| <= MAX_DAYS)
      && |q.managerDays| <= MAX_DAYS
      && (forall d: Day, s: Shift :: PySettled(Slot(q.schedule, d, s)))
      && Justified(q)
      && (DistinctNames(p.employees) ==> OncePerDay(q))
  {
    var c := Cleared(p);
    var m := PrefDays(c, 0);
    PreferencePhase(p);
    StartProgress(m.schedule);
    FillDaysSound(m, 0, choose);
    var q := Generate(p, choose);
    EndProgress(q.schedule);
    SameRosterTrans(q.employees, m.employees, c.employees);
    SameRosterTrans(q.employees, c.employees, p.employees);
    SameRosterDistinct(q.employees, p.employees);
  }

  /** After the preference phase no slot is settled yet. */
  lemma StartProgress(sched: Schedule)
    requires forall d: Day, s: Shift :: PreferenceSlot(Slot(sched, d, s))
    ensures Progress(sched, 0)
  {
  }

  /** Past the last slot, every slot is settled. */
  lemma EndProgress(sched: Schedule)
    requires Progress(sched, SLOT_COUNT)
    ensures forall d: Day, s: Shift :: PySettled(Slot(sched, d, s))
  {
    assert forall d: Day, s: Shift :: Index(d, s) < SLOT_COUNT;
  }

  /** A run depends only on the roster and the random picks: nothing of an
      earlier run carries over. */
  lemma GenerateForgetsPriorRun(p: PyPlan, q: PyPlan, choose: Chooser)
    requires SameRoster(p.employees, q.employees)
    ensures Generate(p, choose) == Generate(q, choose)
  {
    ClearedForgetsPriorRun(p, q);
  }

  /** On settled slots whose employees are not called like a sentinel,
      the warnings mean: "Only Manager" for exactly the slots the manager
      staffed alone, "Unassigned" for exactly the slots the loop gave up on;
      a slot with a worker and the manager draws no warning. */
  lemma PyWarnings(sched: Schedule)
    requires forall d: Day, s: Shift :: PySettled(Slot(sched, d, s)) && PlainNames(Slot(sched, d, s))
    ensures forall d: Day, s: Shift :: (d, s) in ManagerOnlySlots(sched) <==> Slot(sched, d, s) == [Manager]
    ensures forall d: Day, s: Shift ::
      Slot(sched, d, s) != [] && ((d, s) in UnassignedSlots(sched) <==> Last(Slot(sched, d, s)) == Unassigned)
  {
    ManagerOnlyWarnings(sched);
    UnassignedWarnings(sched);
  }

  lemma ManagerOnlyWarnings(sched: Schedule)
    requires forall d: Day, s: Shift :: PySettled(Slot(sched, d, s)) && PlainNames(Slot(sched, d, s))
    ensures forall d: Day, s: Shift :: (d, s) in ManagerOnlySlots(sched) <==> Slot(sched, d, s) == [Manager]
  {
    ManagerOnlySlotsMeaning(sched);
    forall d: Day, s: Shift
      ensures ManagerOnly(Texts(Slot(sched, d, s))) <==> Slot(sched, d, s) == [Manager]
    {
      SettledWarnings(Slot(sched, d, s));
    }
  }

  lemma UnassignedWarnings(sched: Schedule)
    requires forall d: Day, s: Shift :: PySettled(Slot(sched, d, s)) && PlainNames(Slot(sched, d, s))
    ensures forall d: Day, s: Shift ::
      Slot(sched, d, s) != [] && ((d, s) in UnassignedSlots(sched) <==> Last(Slot(sched, d, s)) == Unassigned)
  {
    UnassignedSlotsMeaning(sched);
    forall d: Day, s: Shift
      ensures Slot(sched, d, s) != [] &&
        (ShowsUnassigned(Texts(Slot(sched, d, s))) <==> Last(Slot(sched, d, s)) == Unassigned)
    {
      SettledWarnings(Slot(sched, d, s));
    }
  }

  /** The same, for one settled slot. */
  lemma SettledWarnings(l: seq<Entry>)
    requires PySettled(l) && PlainNames(l)
    ensures ManagerOnly(Texts(l)) <==> l == [Manager]
    ensures ShowsUnassigned(Texts(l)) <==> Last(l) == Unassigned
  {
    ShownManagerOnly(l);
    ShownUnassigned(l);
    SettledUnassigned(l);
  }

  function Last(l: seq<Entry>): Entry
    requires l != []
  {
    l[|l| - 1]
  }

  /** In a settled slot "Unassigned" can only be the last entry. */
  lemma SettledUnassigned(l: seq<Entry>)
    requires PySettled(l)
    ensures Unassigned in l <==> Last(l) == Unassigned
  {
    if Unassigned in l {
      var k :| 0 <= k < |l| && l[k] == Unassigned;
      assert !(k < |l| - 1);
    }
  }

  /** With nobody on the roster and the manager free, the fill loop puts the
      manager in once and stops: the slot is reported manager-only. */
  lemma ManagerOnce(choose: Chooser)
    ensures Slot(FillPy(Plan([], map[], {}), 0, 0, choose).schedule, 0, 0) == [Manager]
    ensures (0, 0) in ManagerOnlySlots(FillPy(Plan([], map[], {}), 0, 0, choose).schedule)
  {
    var p: PyPlan := Plan([], map[], {});
    assert |Candidates(p.employees, 0)| == 0;
    var q := UseManager(p, 0, 0);
    assert FillPy(p, 0, 0, choose) == q;
    assert Slot(q.schedule, 0, 0) == [Manager];
    ManagerOnlySlotsMeaning(q.schedule);
    assert Texts([Manager]) == ["Manager"];
  }

  // ---------------------------------------------------------------------
  // The application with its state, as the source keeps it

  class SchedulerApp {
    var employees: seq<PyEmployee>
    var schedule: Schedule

    /** __init__: no employees, every slot empty. */
    constructor ()
      ensures employees == [] && schedule == map[]
    {
      employees := [];
      schedule := map[];
    }

    /** The engine state, with generate_schedule's local manager. */
    function State(managerDays: set<Day>): PyPlan
      reads this
    {
      Plan(employees, schedule, managerDays)
    }

    /** import_employees on the rows of the chosen file: the roster is
        replaced by the rows read before the first exception, if any, and
        the exception is reported. */
    method ImportEmployees(rows: seq<Row>) returns (error: Option<PyError>)
      modifies this
      ensures (employees, error) == ImportFrom(rows, 0, [])
      ensures schedule == old(schedule)
    {
      employees := [];
      var i := 0;
      while i < |rows|
        invariant i <= |rows|
        invariant ImportFrom(rows, i, employees) == ImportFrom(rows, 0, [])
        invariant schedule == old(schedule)
      {
        var row := rows[i];
        if "Name" !in row {
          return Some(KeyError);
        }
        if row["Name"].None? {
          return Some(AttributeError);
        }
        var name := Strip(row["Name"].value);
        if name != [] {
          var prefs := ReadPreferences(row);
          if prefs.Err? {
            return Some(prefs.error);
          }
          employees := employees + [Employee(name, prefs.value, {})];
        }
        i := i + 1;
      }
      return None;
    }

    /** generate_schedule, followed by the warning lists display_schedule
        collects. */
    method GenerateSchedule(choose: Chooser) returns (managerErrors: seq<(Day, Shift)>, unassignedErrors: seq<(Day, Shift)>)
      modifies this
      ensures var q := Generate(old(State({})), choose);
        employees == q.employees && schedule == q.schedule
      ensures managerErrors == ManagerOnlySlots(schedule)
      ensures unassignedErrors == UnassignedSlots(schedule)
    {
      Clear();
      var managerDays: set<Day> := {};
      PreferencePhase(managerDays);
      managerDays := FillPhase(managerDays, choose);
      managerErrors, unassignedErrors := DisplaySchedule();
    }

    /** The fresh start: every slot empty and every employee's days
        forgotten; the fresh manager is the caller's. */
    method Clear()
      modifies this
      ensures State({}) == Cleared(old(State({})))
    {
      schedule := map[];
      var j := 0;
      while j < |employees|
        invariant 0 <= j <= |employees| == |old(employees)|
        invariant forall x :: 0 <= x < j ==> employees[x] == old(employees[x]).(assignedDays := {})
        invariant forall x :: j <= x < |employees| ==> employees[x] == old(employees[x])
        invariant schedule == map[]
      {
        employees := employees[j := employees[j].(assignedDays := {})];
        j := j + 1;
      }
      assert employees == Cleared(old(State({}))).employees;
    }

    /** The preference phase: day by day. */
    method PreferencePhase(managerDays: set<Day>)
      modifies this
      ensures State(managerDays) == PrefDays(old(State(managerDays)), 0)
    {
      for d := 0 to 7
        invariant PrefDays(State(managerDays), d) == PrefDays(old(State(managerDays)), 0)
      {
        PreferDay(d, managerDays);
      }
    }

    /** The fill phase: day by day, shift by shift. */
    method FillPhase(managerDays0: set<Day>, choose: Chooser) returns (managerDays: set<Day>)
      modifies this
      ensures State(managerDays) == FillDays(old(State(managerDays0)), 0, choose)
    {
      managerDays := managerDays0;
      for d := 0 to 7
        invariant FillDays(State(managerDays), d, choose) == FillDays(old(State(managerDays0)), 0, choose)
      {
        for s := 0 to 3
          invariant FillDays(FillShifts(State(managerDays), d, s, choose), d + 1, choose) == FillDays(old(State(managerDays0)), 0, choose)
        {
          managerDays := FillShift(d, s, managerDays, choose);
        }
      }
    }

    /** The preference phase of one day: every employee in roster order,
        with fresh counts. */
    method PreferDay(d: Day, managerDays: set<Day>)
      modifies this
      ensures State(managerDays) == PrefRoster(old(State(managerDays)), d, 0, map[]).0
    {
      var counts: Counts := map[];
      var i := 0;
      while i < |employees|
        invariant 0 <= i <= |employees| == |old(employees)|
        invariant PrefRoster(State(managerDays), d, i, counts) == PrefRoster(old(State(managerDays)), d, 0, map[])
      {
        if |employees[i].assignedDays| < MAX_DAYS {
          counts := PlaceEmployee(i, d, managerDays, counts);
        }
        i := i + 1;
      }
    }

    /** `for shift in prefs` for one employee: the first open shift takes
        them, then break. */
    method PlaceEmployee(i: nat, d: Day, managerDays: set<Day>, counts0: Counts) returns (counts: Counts)
      requires i < |employees|
      modifies this
      ensures (State(managerDays), counts) == PlaceFrom(old(State(managerDays)), i, d, PrefsOn(old(employees[i]), d), 0, counts0)
      ensures |employees| == |old(employees)|
    {
      counts := counts0;
      var prefs := PrefsOn(employees[i], d);
      var k := 0;
      while k < |prefs|
        invariant k <= |prefs| && |employees| == |old(employees)|
        invariant PlaceFrom(State(managerDays), i, d, prefs, k, counts) == PlaceFrom(old(State(managerDays)), i, d, prefs, 0, counts0)
      {
        var s := prefs[k];
        var count := if s in counts then counts[s] else 0;
        if count < STAFF_TARGET && Worker(employees[i].name) !in Slot(schedule, d, s) {
          if d !in employees[i].assignedDays {
            ghost var before := State(managerDays);
            schedule := schedule[(d, s) := Slot(schedule, d, s) + [Worker(employees[i].name)]];
            employees := employees[i := employees[i].(assignedDays := employees[i].assignedDays + {d})];
            counts := counts[s := count + 1];
            assert State(managerDays) == Hire(before, i, d, s);
            return;
          }
        }
        k := k + 1;
      }
    }

    /** The employees available on day d, in roster order. */
    method Available(d: Day) returns (available: seq<nat>)
      ensures available == Candidates(employees, d)
    {
      available := [];
      var k := 0;
      while k < |employees|
        invariant 0 <= k <= |employees|
        invariant available == CandidatesBelow(employees, d, k)
      {
        if d !in employees[k].assignedDays && |employees[k].assignedDays| < MAX_DAYS {
          available := available + [k];
        }
        k := k + 1;
      }
    }

    /** The fill loop of one slot; returns the manager's days. */
    method FillShift(d: Day, s: Shift, managerDays0: set<Day>, choose: Chooser) returns (managerDays: set<Day>)
      modifies this
      ensures State(managerDays) == FillPy(old(State(managerDays0)), d, s, choose)
    {
      managerDays := managerDays0;
      while |Slot(schedule, d, s)| < STAFF_TARGET
        invariant FillPy(State(managerDays), d, s, choose) == FillPy(old(State(managerDays0)), d, s, choose)
        decreases STAFF_TARGET - |Slot(schedule, d, s)|
      {
        var done;
        managerDays, done := FillAttempt(d, s, managerDays, choose);
        if done {
          break;
        }
      }
    }

    /** One iteration of the fill loop: a random available employee, else
        the manager or "Unassigned" and the loop ends. */
    method FillAttempt(d: Day, s: Shift, managerDays0: set<Day>, choose: Chooser) returns (managerDays: set<Day>, done: bool)
      requires |Slot(schedule, d, s)| < STAFF_TARGET
      modifies this
      ensures done ==> State(managerDays) == FillPy(old(State(managerDays0)), d, s, choose)
      ensures !done ==> |Slot(schedule, d, s)| == old(|Slot(schedule, d, s)|) + 1
      ensures !done ==> FillPy(State(managerDays), d, s, choose) == FillPy(old(State(managerDays0)), d, s, choose)
    {
      managerDays, done := managerDays0, true;
      var available := Available(d);
      if |available| > 0 {
        var chosen := available[choose(d, s, |Slot(schedule, d, s)|) % |available|];
        schedule := schedule[(d, s) := Slot(schedule, d, s) + [Worker(employees[chosen].name)]];
        employees := employees[chosen := employees[chosen].(assignedDays := employees[chosen].assignedDays + {d})];
        done := false;
      } else if |managerDays| < MAX_DAYS {
        schedule := schedule[(d, s) := Slot(schedule, d, s) + [Manager]];
        managerDays := managerDays + {d};
      } else {
        schedule := schedule[(d, s) := Slot(schedule, d, s) + [Unassigned]];
      }
    }

    /** The two warning lists of display_schedule: a slot whose names are
        exactly ["Manager"] goes to the first, else one showing
        "Unassigned" to the second. */
    method DisplaySchedule() returns (managerErrors: seq<(Day, Shift)>, unassignedErrors: seq<(Day, Shift)>)
      ensures managerErrors == ManagerOnlySlots(schedule)
      ensures unassignedErrors == UnassignedSlots(schedule)
    {
      managerErrors, unassignedErrors := [], [];
      for d := 0 to 7
        invariant managerErrors == ManagerOnlyBefore(schedule, 3 * d)
        invariant unassignedErrors == UnassignedBefore(schedule, 3 * d)
      {
        for s := 0 to 3
          invariant managerErrors == ManagerOnlyBefore(schedule, 3 * d + s)
          invariant unassignedErrors == UnassignedBefore(schedule, 3 * d + s)
        {
          var names := Texts(Slot(schedule, d, s));
          VisitSlot(schedule, d, s);
          if names == ["Manager"] {
            ManagerOnlyShowsNoUnassigned(names);
            managerErrors := managerErrors + [(d, s)];
          } else if "Unassigned" in names {
            unassignedErrors := unassignedErrors + [(d, s)];
          }
        }
      }
      VisitDone(schedule);
    }
  }
}
