/** The C++ engine of scheduling.cpp: assign_employee and generate_schedule.
    The functions below follow the source's loops one step at a time (each
    loop becomes a tail-recursive function over the loop's variables); the
    class Scheduler holds the three globals and runs the loops themselves,
    proved equal to these functions. */
module CppEngine {
  import opened Text
  import opened Week
  import opened CppReport

  /** Preferences hold the raw shift names read from the file, so a name
      that is not one of SHIFTS is kept and simply never matches. */
  type CppEmployee = Employee<string>
  type CppPlan = Plan<string>

  /** The employee lists the shift for that day; its rank plays no part. */
  predicate Prefers(e: CppEmployee, d: Day, s: Shift) {
    SHIFTS[s] in PrefsOn(e, d)
  }

  /** assign_employee: refuse an employee at the day cap or already working
      that day, otherwise append the name and record the day. */
  function Assign(p: CppPlan, i: nat, d: Day, s: Shift): (bool, CppPlan)
    requires i < |p.employees|
  {
    if |p.employees[i].assignedDays| >= MAX_DAYS || d in p.employees[i].assignedDays then (false, p)
    else (true, Hire(p, i, d, s))
  }

  /** Step 1 of a slot: walk the roster from position i in input order,
      assigning everyone who lists the shift, until count reaches 2. */
  function PreferencePass(p: CppPlan, d: Day, s: Shift, i: nat, count: nat): (CppPlan, nat)
    requires i <= |p.employees|
    decreases |p.employees| - i
  {
    if i == |p.employees| then (p, count)
    else if Prefers(p.employees[i], d, s) then
      var (ok, q) := Assign(p, i, d, s);
      if ok && count + 1 == STAFF_TARGET then (q, count + 1)
      else PreferencePass(q, d, s, i + 1, if ok then count + 1 else count)
    else PreferencePass(p, d, s, i + 1, count)
  }

  /** Steps 2 to 4 of a slot, one iteration of `while (count < 2)` per call:
      a random eligible employee, else the manager while under the cap, else
      "Unassigned" and stop. */
  function FillLoop(p: CppPlan, d: Day, s: Shift, count: nat, choose: Chooser): CppPlan
    decreases STAFF_TARGET - count
  {
    if count >= STAFF_TARGET then p
    else
      var candidates := Candidates(p.employees, d);
      if |candidates| > 0 then
        FillLoop(Hire(p, candidates[choose(d, s, count) % |candidates|], d, s), d, s, count + 1, choose)
      else if |p.managerDays| < MAX_DAYS then
        FillLoop(UseManager(p, d, s), d, s, count + 1, choose)
      else
        GiveUp(p, d, s)
  }

  /** One slot: the preference pass, then the fill loop from its count. */
  function FillSlot(p: CppPlan, d: Day, s: Shift, choose: Chooser): CppPlan {
    var (q, count) := PreferencePass(p, d, s, 0, 0);
    FillLoop(q, d, s, count, choose)
  }

  /** The inner loop: the shifts of day d from shift s on, in order. */
  function RunShifts(p: CppPlan, d: Day, s: nat, choose: Chooser): CppPlan
    requires s <= 3
    decreases 3 - s
  {
    if s == 3 then p else RunShifts(FillSlot(p, d, s, choose), d, s + 1, choose)
  }

  /** The outer loop: the days from day d on, in order. */
  function RunDays(p: CppPlan, d: nat, choose: Chooser): CppPlan
    requires d <= 7
    decreases 7 - d
  {
    if d == 7 then p else RunDays(RunShifts(p, d, 0, choose), d + 1, choose)
  }

  /** generate_schedule: clear everything, then fill all 21 slots. */
  function Generate(p: CppPlan, choose: Chooser): CppPlan {
    RunDays(Cleared(p), 0, choose)
  }

  // ---------------------------------------------------------------------
  // assign_employee

  /** A refusal changes nothing; an acceptance appends exactly this name to
      exactly this slot and records exactly this day for exactly this
      employee. */
  lemma AssignEffect(p: CppPlan, i: nat, d: Day, s: Shift)
    requires i < |p.employees|
    ensures var (ok, q) := Assign(p, i, d, s);
      && (ok <==> |p.employees[i].assignedDays| < MAX_DAYS && d !in p.employees[i].assignedDays)
      && (!ok ==> q == p)
      && (ok ==>
           && Slot(q.schedule, d, s) == Slot(p.schedule, d, s) + [Worker(p.employees[i].name)]
           && (forall d': Day, s': Shift :: (d', s') != (d, s) ==> Slot(q.schedule, d', s') == Slot(p.schedule, d', s'))
           && |q.employees| == |p.employees|
           && q.employees[i] == p.employees[i].(assignedDays := p.employees[i].assignedDays + {d})
           && |q.employees[i].assignedDays| == |p.employees[i].assignedDays| + 1
           && (forall j :: 0 <= j < |p.employees| && j != i ==> q.employees[j] == p.employees[j])
           && q.managerDays == p.managerDays)
  {
    if Eligible(p.employees[i], d) {
      CardInsert(p.employees[i].assignedDays, d);
    }
  }

  // ---------------------------------------------------------------------
  // Shape of the slots during a run

  /** How a C++ slot ends: two entries without "Unassigned", or one or two
      entries whose last, and only last, is "Unassigned". A slot can end as
      [Manager, Manager]. */
  predicate Settled(l: seq<Entry>) {
    (|l| == STAFF_TARGET && Unassigned !in l) ||
    (1 <= |l| <= STAFF_TARGET && l[|l| - 1] == Unassigned && Unassigned !in l[..|l| - 1])
  }

  /** Slots before position k are settled, slots after it are untouched. */
  ghost predicate Around(sched: Schedule, k: nat) {
    forall d: Day, s: Shift ::
      (Index(d, s) < k ==> Settled(Slot(sched, d, s))) &&
      (Index(d, s) > k ==> Slot(sched, d, s) == [])
  }

  /** The slot being filled holds count entries, none of them "Unassigned". */
  ghost predicate Filling(p: CppPlan, d: Day, s: Shift, count: nat) {
    Sound(p) && Around(p.schedule, Index(d, s)) &&
    |Slot(p.schedule, d, s)| == count <= STAFF_TARGET && Unassigned !in Slot(p.schedule, d, s)
  }

  lemma AppendKeepsAround(sched: Schedule, d: Day, s: Shift, e: Entry)
    requires Around(sched, Index(d, s))
    ensures Around(Append(sched, d, s, e), Index(d, s))
  {
    var r := Append(sched, d, s, e);
    forall d': Day, s': Shift | (d', s') != (d, s)
      ensures Slot(r, d', s') == Slot(sched, d', s')
    {
    }
    forall d': Day, s': Shift | Index(d', s') == Index(d, s)
      ensures (d', s') == (d, s)
    {
    }
  }

  /** One assignment in the slot being filled keeps the invariants and
      counts one more entry. */
  lemma HireFilling(p: CppPlan, i: nat, d: Day, s: Shift, count: nat)
    requires i < |p.employees| && Eligible(p.employees[i], d) && count < STAFF_TARGET
    requires Filling(p, d, s, count)
    ensures Filling(Hire(p, i, d, s), d, s, count + 1)
  {
    HireSound(p, i, d, s);
    AppendKeepsAround(p.schedule, d, s, Worker(p.employees[i].name));
  }

  lemma {:induction false} PreferencePassSound(p: CppPlan, d: Day, s: Shift, i: nat, count: nat)
    requires i <= |p.employees| && count < STAFF_TARGET
    requires Filling(p, d, s, count)
    ensures var (q, c) := PreferencePass(p, d, s, i, count);
      Filling(q, d, s, c) && SameRoster(q.employees, p.employees)
    decreases |p.employees| - i, 1
  {
    if i < |p.employees| {
      if Prefers(p.employees[i], d, s) && Eligible(p.employees[i], d) {
        HireThenPassSound(p, d, s, i, count);
      } else {
        PassSkips(p, d, s, i, count);
        PreferencePassSound(p, d, s, i + 1, count);
      }
    }
  }

  lemma {:induction false} HireThenPassSound(p: CppPlan, d: Day, s: Shift, i: nat, count: nat)
    requires i < |p.employees| && count < STAFF_TARGET
    requires Prefers(p.employees[i], d, s) && Eligible(p.employees[i], d)
    requires Filling(p, d, s, count)
    ensures var (q, c) := PreferencePass(p, d, s, i, count);
      Filling(q, d, s, c) && SameRoster(q.employees, p.employees)
    decreases |p.employees| - i, 0
  {
    var q := Hire(p, i, d, s);
    HireFilling(p, i, d, s, count);
    PassHires(p, d, s, i, count);
    if count + 1 < STAFF_TARGET {
      PreferencePassSound(q, d, s, i + 1, count + 1);
      SameRosterTrans(PreferencePass(q, d, s, i + 1, count + 1).0.employees, q.employees, p.employees);
    }
  }

  /** The manager step keeps the invariants and counts one more entry. */
  lemma ManagerFilling(p: CppPlan, d: Day, s: Shift, count: nat)
    requires count < STAFF_TARGET && Filling(p, d, s, count)
    requires NoneEligible(p.employees, d) && |p.managerDays| < MAX_DAYS
    ensures Filling(UseManager(p, d, s), d, s, count + 1)
  {
    UseManagerSound(p, d, s);
    AppendKeepsAround(p.schedule, d, s, Manager);
  }

  /** The last resort settles the slot. */
  lemma GiveUpSettles(p: CppPlan, d: Day, s: Shift, count: nat)
    requires count < STAFF_TARGET && Filling(p, d, s, count)
    requires NoneEligible(p.employees, d) && |p.managerDays| >= MAX_DAYS
    ensures var q := GiveUp(p, d, s);
      Sound(q) && Around(q.schedule, Index(d, s)) && Settled(Slot(q.schedule, d, s))
  {
    GiveUpSound(p, d, s);
    AppendKeepsAround(p.schedule, d, s, Unassigned);
    var l := Slot(p.schedule, d, s);
    assert Slot(GiveUp(p, d, s).schedule, d, s) == l + [Unassigned];
    assert (l + [Unassigned])[..|l|] == l;
  }

  lemma {:induction false} FillLoopSound(p: CppPlan, d: Day, s: Shift, count: nat, choose: Chooser)
    requires Filling(p, d, s, count)
    ensures var q := FillLoop(p, d, s, count, choose);
      Sound(q) && Around(q.schedule, Index(d, s)) && Settled(Slot(q.schedule, d, s)) &&
      SameRoster(q.employees, p.employees) &&
      forall d': Day, s': Shift :: (d', s') != (d, s) ==> Slot(q.schedule, d', s') == Slot(p.schedule, d', s')
    decreases STAFF_TARGET - count, 1
  {
    forall d': Day, s': Shift | (d', s') != (d, s)
      ensures Slot(FillLoop(p, d, s, count, choose).schedule, d', s') == Slot(p.schedule, d', s')
    {
      FillLoopFrame(p, d, s, count, choose, d', s');
    }
    if count >= STAFF_TARGET {
      FullSettles(p, d, s, count);
    } else if |Candidates(p.employees, d)| > 0 {
      PickThenFillSound(p, d, s, count, choose);
    } else if |p.managerDays| < MAX_DAYS {
      ManagerThenFillSound(p, d, s, count, choose);
    } else {
      GiveUpSettles(p, d, s, count);
    }
  }

  /** The fill loop appends to slot (d, s) only: slot (d', s') is untouched. */
  lemma {:induction false} FillLoopFrame(p: CppPlan, d: Day, s: Shift, count: nat, choose: Chooser, d': Day, s': Shift)
    requires (d', s') != (d, s)
    ensures Slot(FillLoop(p, d, s, count, choose).schedule, d', s') == Slot(p.schedule, d', s')
    decreases STAFF_TARGET - count
  {
    var q, more := FillLoopNext(p, d, s, count, choose);
    if more {
      FillLoopFrame(q, d, s, count + 1, choose, d', s');
    }
  }

  /** One iteration of the fill loop: it either ends with q or goes on from
      q; either way q differs from p in slot (d, s) only. */
  lemma FillLoopNext(p: CppPlan, d: Day, s: Shift, count: nat, choose: Chooser) returns (q: CppPlan, more: bool)
    ensures more ==> count < STAFF_TARGET && FillLoop(p, d, s, count, choose) == FillLoop(q, d, s, count + 1, choose)
    ensures !more ==> FillLoop(p, d, s, count, choose) == q
    ensures forall d': Day, s': Shift :: (d', s') != (d, s) ==> Slot(q.schedule, d', s') == Slot(p.schedule, d', s')
  {
    if count >= STAFF_TARGET {
      q, more := p, false;
    } else {
      var candidates := Candidates(p.employees, d);
      if |candidates| > 0 {
        q, more := Hire(p, candidates[choose(d, s, count) % |candidates|], d, s), true;
      } else if |p.managerDays| < MAX_DAYS {
        q, more := UseManager(p, d, s), true;
      } else {
        q, more := GiveUp(p, d, s), false;
      }
    }
  }

  /** A slot holding two entries, neither "Unassigned", is settled. */
  lemma FullSettles(p: CppPlan, d: Day, s: Shift, count: nat)
    requires count >= STAFF_TARGET && Filling(p, d, s, count)
    ensures Settled(Slot(p.schedule, d, s))
  {
  }

  lemma {:induction false} ManagerThenFillSound(p: CppPlan, d: Day, s: Shift, count: nat, choose: Chooser)
    requires count < STAFF_TARGET && Filling(p, d, s, count)
    requires |Candidates(p.employees, d)| == 0 && |p.managerDays| < MAX_DAYS
    ensures var q := FillLoop(p, d, s, count, choose);
      Sound(q) && Around(q.schedule, Index(d, s)) && Settled(Slot(q.schedule, d, s)) &&
      SameRoster(q.employees, p.employees)
    decreases STAFF_TARGET - count, 0
  {
    ManagerFilling(p, d, s, count);
    FillLoopSound(UseManager(p, d, s), d, s, count + 1, choose);
  }

  lemma {:induction false} PickThenFillSound(p: CppPlan, d: Day, s: Shift, count: nat, choose: Chooser)
    requires count < STAFF_TARGET && Filling(p, d, s, count)
    requires |Candidates(p.employees, d)| > 0
    ensures var q := FillLoop(p, d, s, count, choose);
      Sound(q) && Around(q.schedule, Index(d, s)) && Settled(Slot(q.schedule, d, s)) &&
      SameRoster(q.employees, p.employees)
    decreases STAFF_TARGET - count, 0
  {
    var candidates := Candidates(p.employees, d);
    var i := candidates[choose(d, s, count) % |candidates|];
    var q := Hire(p, i, d, s);
    HireFilling(p, i, d, s, count);
    FillLoopSound(q, d, s, count + 1, choose);
    SameRosterTrans(FillLoop(q, d, s, count + 1, choose).employees, q.employees, p.employees);
  }

  /** Slots before position k are settled, the others untouched. */
  ghost predicate Layout(sched: Schedule, k: nat) {
    forall d: Day, s: Shift ::
      (Index(d, s) < k ==> Settled(Slot(sched, d, s))) &&
      (Index(d, s) >= k ==> Slot(sched, d, s) == [])
  }

  lemma LayoutAround(sched: Schedule, d: Day, s: Shift)
    requires Layout(sched, Index(d, s))
    ensures Around(sched, Index(d, s)) && Slot(sched, d, s) == []
  {
  }

  lemma AroundLayout(sched: Schedule, d: Day, s: Shift)
    requires Around(sched, Index(d, s)) && Settled(Slot(sched, d, s))
    ensures Layout(sched, Index(d, s) + 1)
  {
    forall d': Day, s': Shift | Index(d', s') == Index(d, s)
      ensures (d', s') == (d, s)
    {
    }
  }

  lemma {:induction false} FillSlotSound(p: CppPlan, d: Day, s: Shift, choose: Chooser)
    requires Sound(p) && Layout(p.schedule, Index(d, s))
    ensures var q := FillSlot(p, d, s, choose);
      Sound(q) && Layout(q.schedule, Index(d, s) + 1) && SameRoster(q.employees, p.employees)
  {
    LayoutAround(p.schedule, d, s);
    PreferencePassSound(p, d, s, 0, 0);
    var (q, c) := PreferencePass(p, d, s, 0, 0);
    FillLoopSound(q, d, s, c, choose);
    var r := FillLoop(q, d, s, c, choose);
    AroundLayout(r.schedule, d, s);
    SameRosterTrans(r.employees, q.employees, p.employees);
  }

  lemma {:induction false} RunShiftsSound(p: CppPlan, d: Day, s: nat, choose: Chooser)
    requires s <= 3 && Sound(p) && Layout(p.schedule, 3 * d + s)
    ensures var q := RunShifts(p, d, s, choose);
      Sound(q) && Layout(q.schedule, 3 * d + 3) && SameRoster(q.employees, p.employees)
    decreases 3 - s, 1
  {
    if s < 3 {
      FillThenShiftsSound(p, d, s, choose);
    }
  }

  lemma {:induction false} FillThenShiftsSound(p: CppPlan, d: Day, s: nat, choose: Chooser)
    requires s < 3 && Sound(p) && Layout(p.schedule, 3 * d + s)
    ensures var q := RunShifts(p, d, s, choose);
      Sound(q) && Layout(q.schedule, 3 * d + 3) && SameRoster(q.employees, p.employees)
    decreases 3 - s, 0
  {
    var q := FillSlot(p, d, s, choose);
    FillSlotSound(p, d, s, choose);
    RunShiftsSound(q, d, s + 1, choose);
    SameRosterTrans(RunShifts(q, d, s + 1, choose).employees, q.employees, p.employees);
  }

  lemma {:induction false} RunDaysSound(p: CppPlan, d: nat, choose: Chooser)
    requires d <= 7 && Sound(p) && Layout(p.schedule, 3 * d)
    ensures var q := RunDays(p, d, choose);
      Sound(q) && Layout(q.schedule, SLOT_COUNT) && SameRoster(q.employees, p.employees)
    decreases 7 - d, 1
  {
    if d < 7 {
      DayThenDaysSound(p, d, choose);
    }
  }

  lemma {:induction false} DayThenDaysSound(p: CppPlan, d: nat, choose: Chooser)
    requires d < 7 && Sound(p) && Layout(p.schedule, 3 * d)
    ensures var q := RunDays(p, d, choose);
      Sound(q) && Layout(q.schedule, SLOT_COUNT) && SameRoster(q.employees, p.employees)
    decreases 7 - d, 0
  {
    var q := RunShifts(p, d, 0, choose);
    RunShiftsSound(p, d, 0, choose);
    RunDaysSound(q, d + 1, choose);
    SameRosterTrans(RunDays(q, d + 1, choose).employees, q.employees, p.employees);
  }

  /** What every run of generate_schedule guarantees, whatever the random
      picks: nobody beyond 5 days (the manager included), every slot settled
      (at most 2 entries, "Unassigned" at most once and only last), a
      sentinel only where no employee was left, and, where names identify
      employees, each employee in exactly one slot on each of their days. */
  lemma GenerateSound(p: CppPlan, choose: Chooser)
    ensures var q := Generate(p, choose);
      && SameRoster(q.employees, p.employees)
      && (forall i :: 0 <= i < |q.employees| ==> |q.employees[i].assignedDays| <= MAX_DAYS)
      && |q.managerDays| <= MAX_DAYS
      && (forall d: Day, s: Shift :: Settled(Slot(q.schedule, d, s)))
      && Justified(q)
      && (DistinctNames(p.employees) ==> OncePerDay(q))
  {
    ClearedSound(p);
    RunDaysSound(Cleared(p), 0, choose);
    var q := Generate(p, choose);
    assert forall d: Day, s: Shift :: Index(d, s) < SLOT_COUNT;
    SameRosterTrans(q.employees, Cleared(p).employees, p.employees);
    SameRosterDistinct(q.employees, p.employees);
  }

  /** A run depends only on the roster and the random picks: nothing of an
      earlier run (schedule, assigned days, manager days) carries over. */
  lemma GenerateForgetsPriorRun(p: CppPlan, q: CppPlan, choose: Chooser)
    requires SameRoster(p.employees, q.employees)
    ensures Generate(p, choose) == Generate(q, choose)
  {
    ClearedForgetsPriorRun(p, q);
  }

  /** The manager's cap counts days, not uses: with nobody on the roster
      and the manager free, the fill loop puts the manager in twice on the
      same day. The manager-only warning wants a single name, so it does
      not list this slot. */
  lemma ManagerTwice(choose: Chooser)
    ensures Slot(FillSlot(Plan([], map[], {}), 0, 0, choose).schedule, 0, 0) == [Manager, Manager]
    ensures FillSlot(Plan([], map[], {}), 0, 0, choose).managerDays == {0}
    ensures (0, 0) !in ManagerOnlySlots(FillSlot(Plan([], map[], {}), 0, 0, choose).schedule)
  {
    var p: CppPlan := Plan([], map[], {});
    assert PreferencePass(p, 0, 0, 0, 0) == (p, 0);
    assert |Candidates(p.employees, 0)| == 0;
    var q1 := UseManager(p, 0, 0);
    assert q1.managerDays == {0};
    assert |Candidates(q1.employees, 0)| == 0;
    var q2 := UseManager(q1, 0, 0);
    assert FillLoop(q1, 0, 0, 1, choose) == q2;
    assert FillSlot(p, 0, 0, choose) == q2;
    assert Slot(q2.schedule, 0, 0) == [Manager, Manager];
    ManagerOnlySlotsMeaning(q2.schedule);
  }

  // ---------------------------------------------------------------------
  // Tier precedence

  /** Reference definition: positions from i on, in roster order, of the
      employees eligible on day d who list shift s for it. */
  function Preferring(emps: seq<CppEmployee>, d: Day, s: Shift, i: nat): (r: seq<nat>)
    requires i <= |emps|
    ensures forall k :: 0 <= k < |r| ==> i <= r[k] < |emps|
    decreases |emps| - i
  {
    if i == |emps| then []
    else (if Eligible(emps[i], d) && Prefers(emps[i], d, s) then [i] else []) + Preferring(emps, d, s, i + 1)
  }

  function Take(xs: seq<nat>, n: nat): (r: seq<nat>)
    ensures |r| <= n && |r| <= |xs| && r == xs[..|r|]
  {
    if |xs| <= n then xs else xs[..n]
  }

  /** The entries naming the employees at the given positions. */
  function Names(emps: seq<CppEmployee>, xs: seq<nat>): (r: seq<Entry>)
    requires forall k :: 0 <= k < |xs| ==> xs[k] < |emps|
    ensures |r| == |xs|
    ensures forall k :: 0 <= k < |xs| ==> r[k] == Worker(emps[xs[k]].name)
  {
    if xs == [] then [] else [Worker(emps[xs[0]].name)] + Names(emps, xs[1..])
  }

  /** What the preference pass adds from position i on when n places are
      left: the first n employees, in roster order, who are eligible and
      list the shift. */
  function FirstPreferring(emps: seq<CppEmployee>, d: Day, s: Shift, i: nat, n: nat): seq<Entry>
    requires i <= |emps|
    decreases |emps| - i
  {
    if n == 0 || i == |emps| then []
    else if Eligible(emps[i], d) && Prefers(emps[i], d, s) then
      [Worker(emps[i].name)] + FirstPreferring(emps, d, s, i + 1, n - 1)
    else FirstPreferring(emps, d, s, i + 1, n)
  }

  /** Changing employees before position i changes nothing from i on. */
  lemma {:induction false} FirstPreferringFrame(a: seq<CppEmployee>, b: seq<CppEmployee>, d: Day, s: Shift, i: nat, n: nat)
    requires i <= |a| == |b|
    requires forall j :: i <= j < |a| ==> a[j] == b[j]
    ensures FirstPreferring(a, d, s, i, n) == FirstPreferring(b, d, s, i, n)
    decreases |a| - i
  {
    if n > 0 && i < |a| {
      FirstPreferringFrame(a, b, d, s, i + 1, if Eligible(a[i], d) && Prefers(a[i], d, s) then n - 1 else n);
    }
  }

  lemma FirstPreferringTakes(emps: seq<CppEmployee>, d: Day, s: Shift, i: nat, n: nat)
    requires i < |emps| && n > 0 && Eligible(emps[i], d) && Prefers(emps[i], d, s)
    ensures FirstPreferring(emps, d, s, i, n) == [Worker(emps[i].name)] + FirstPreferring(emps, d, s, i + 1, n - 1)
  {
  }

  lemma FirstPreferringPasses(emps: seq<CppEmployee>, d: Day, s: Shift, i: nat, n: nat)
    requires i < |emps| && !(Eligible(emps[i], d) && Prefers(emps[i], d, s))
    ensures FirstPreferring(emps, d, s, i, n) == FirstPreferring(emps, d, s, i + 1, n)
  {
  }

  lemma TakeCons(i: nat, rest: seq<nat>, n: nat)
    requires n >= 1
    ensures Take([i] + rest, n) == [i] + Take(rest, n - 1)
  {
  }

  lemma NamesCons(emps: seq<CppEmployee>, i: nat, xs: seq<nat>)
    requires i < |emps| && forall k :: 0 <= k < |xs| ==> xs[k] < |emps|
    ensures Names(emps, [i] + xs) == [Worker(emps[i].name)] + Names(emps, xs)
  {
    assert ([i] + xs)[1..] == xs;
  }

  /** The employees the pass adds are the first n of the preferring list. */
  lemma {:induction false} FirstPreferringIsTake(emps: seq<CppEmployee>, d: Day, s: Shift, i: nat, n: nat)
    requires i <= |emps|
    ensures FirstPreferring(emps, d, s, i, n) == Names(emps, Take(Preferring(emps, d, s, i), n))
    decreases |emps| - i, 1
  {
    if i < |emps| && n > 0 {
      if Eligible(emps[i], d) && Prefers(emps[i], d, s) {
        TakeTaken(emps, d, s, i, n);
      } else {
        TakePassed(emps, d, s, i, n);
      }
    }
  }

  lemma {:induction false} TakeTaken(emps: seq<CppEmployee>, d: Day, s: Shift, i: nat, n: nat)
    requires i < |emps| && n > 0 && Eligible(emps[i], d) && Prefers(emps[i], d, s)
    ensures FirstPreferring(emps, d, s, i, n) == Names(emps, Take(Preferring(emps, d, s, i), n))
    decreases |emps| - i, 0
  {
    var rest := Preferring(emps, d, s, i + 1);
    FirstPreferringIsTake(emps, d, s, i + 1, n - 1);
    assert Preferring(emps, d, s, i) == [i] + rest;
    TakeCons(i, rest, n);
    NamesCons(emps, i, Take(rest, n - 1));
  }

  lemma {:induction false} TakePassed(emps: seq<CppEmployee>, d: Day, s: Shift, i: nat, n: nat)
    requires i < |emps| && n > 0 && !(Eligible(emps[i], d) && Prefers(emps[i], d, s))
    ensures FirstPreferring(emps, d, s, i, n) == Names(emps, Take(Preferring(emps, d, s, i), n))
    decreases |emps| - i, 0
  {
    FirstPreferringIsTake(emps, d, s, i + 1, n);
    assert Preferring(emps, d, s, i) == Preferring(emps, d, s, i + 1);
  }

  /** The preference pass appends, in roster order, the first 2 - count
      employees who are eligible and list the shift, and returns the new
      count; rank plays no part. */
  lemma {:induction false} PreferencePassPicks(p: CppPlan, d: Day, s: Shift, i: nat, count: nat)
    requires i <= |p.employees| && count < STAFF_TARGET
    ensures Slot(PreferencePass(p, d, s, i, count).0.schedule, d, s)
            == Slot(p.schedule, d, s) + FirstPreferring(p.employees, d, s, i, STAFF_TARGET - count)
    ensures PreferencePass(p, d, s, i, count).1
            == count + |FirstPreferring(p.employees, d, s, i, STAFF_TARGET - count)|
    decreases |p.employees| - i, 2
  {
    if i < |p.employees| {
      if Prefers(p.employees[i], d, s) && Eligible(p.employees[i], d) {
        PicksAfterHire(p, d, s, i, count);
      } else {
        PicksAfterSkip(p, d, s, i, count);
      }
    }
  }

  lemma {:induction false} PicksAfterSkip(p: CppPlan, d: Day, s: Shift, i: nat, count: nat)
    requires i < |p.employees| && count < STAFF_TARGET
    requires !(Prefers(p.employees[i], d, s) && Eligible(p.employees[i], d))
    ensures Slot(PreferencePass(p, d, s, i, count).0.schedule, d, s)
            == Slot(p.schedule, d, s) + FirstPreferring(p.employees, d, s, i, STAFF_TARGET - count)
    ensures PreferencePass(p, d, s, i, count).1
            == count + |FirstPreferring(p.employees, d, s, i, STAFF_TARGET - count)|
    decreases |p.employees| - i, 0
  {
    FirstPreferringPasses(p.employees, d, s, i, STAFF_TARGET - count);
    PassSkips(p, d, s, i, count);
    PreferencePassPicks(p, d, s, i + 1, count);
  }

  lemma {:induction false} PicksAfterHire(p: CppPlan, d: Day, s: Shift, i: nat, count: nat)
    requires i < |p.employees| && count < STAFF_TARGET
    requires Prefers(p.employees[i], d, s) && Eligible(p.employees[i], d)
    ensures Slot(PreferencePass(p, d, s, i, count).0.schedule, d, s)
            == Slot(p.schedule, d, s) + FirstPreferring(p.employees, d, s, i, STAFF_TARGET - count)
    ensures PreferencePass(p, d, s, i, count).1
            == count + |FirstPreferring(p.employees, d, s, i, STAFF_TARGET - count)|
    decreases |p.employees| - i, 1
  {
    var n := STAFF_TARGET - count;
    FirstPreferringTakes(p.employees, d, s, i, n);
    PassHires(p, d, s, i, count);
    if count + 1 < STAFF_TARGET {
      PicksAfterHireMore(p, d, s, i, count);
    } else {
      assert FirstPreferring(p.employees, d, s, i + 1, n - 1) == [];
    }
  }

  /** The hire left room for another: the rest of the pass picks the rest. */
  lemma {:induction false} PicksAfterHireMore(p: CppPlan, d: Day, s: Shift, i: nat, count: nat)
    requires i < |p.employees| && count + 1 < STAFF_TARGET
    requires Prefers(p.employees[i], d, s) && Eligible(p.employees[i], d)
    ensures Slot(PreferencePass(Hire(p, i, d, s), d, s, i + 1, count + 1).0.schedule, d, s)
            == Slot(p.schedule, d, s) + [Worker(p.employees[i].name)]
               + FirstPreferring(p.employees, d, s, i + 1, STAFF_TARGET - count - 1)
    ensures PreferencePass(Hire(p, i, d, s), d, s, i + 1, count + 1).1
            == count + 1 + |FirstPreferring(p.employees, d, s, i + 1, STAFF_TARGET - count - 1)|
    decreases |p.employees| - i, 0
  {
    var q := Hire(p, i, d, s);
    FirstPreferringFrame(q.employees, p.employees, d, s, i + 1, STAFF_TARGET - count - 1);
    PreferencePassPicks(q, d, s, i + 1, count + 1);
  }

  /** An accepted preference either completes the slot or moves on. */
  lemma PassHires(p: CppPlan, d: Day, s: Shift, i: nat, count: nat)
    requires i < |p.employees|
    requires Prefers(p.employees[i], d, s) && Eligible(p.employees[i], d)
    ensures PreferencePass(p, d, s, i, count) ==
      if count + 1 == STAFF_TARGET then (Hire(p, i, d, s), count + 1)
      else PreferencePass(Hire(p, i, d, s), d, s, i + 1, count + 1)
  {
  }

  /** A shift the employee does not list, or an employee who may not
      work, leaves the pass to the next position. */
  lemma PassSkips(p: CppPlan, d: Day, s: Shift, i: nat, count: nat)
    requires i < |p.employees|
    requires !(Prefers(p.employees[i], d, s) && Eligible(p.employees[i], d))
    ensures PreferencePass(p, d, s, i, count) == PreferencePass(p, d, s, i + 1, count)
  {
  }

  /** Tier precedence: when at least two eligible employees list the shift,
      the first two of them in roster order fill the slot, and the fill loop
      (random pick, manager, "Unassigned") leaves the slot as they left it. */
  lemma TierPrecedence(p: CppPlan, d: Day, s: Shift, choose: Chooser)
    requires Slot(p.schedule, d, s) == []
    requires |Preferring(p.employees, d, s, 0)| >= STAFF_TARGET
    ensures var first := Preferring(p.employees, d, s, 0);
            && Slot(FillSlot(p, d, s, choose).schedule, d, s)
               == [Worker(p.employees[first[0]].name), Worker(p.employees[first[1]].name)]
            && FillSlot(p, d, s, choose) == PreferencePass(p, d, s, 0, 0).0
  {
    PreferencePassPicks(p, d, s, 0, 0);
    FirstPreferringIsTake(p.employees, d, s, 0, STAFF_TARGET);
    var first := Preferring(p.employees, d, s, 0);
    assert Take(first, STAFF_TARGET) == [first[0], first[1]];
  }

  // ---------------------------------------------------------------------
  // The engine with its state, as the source keeps it

  class Scheduler {
    var employees: seq<CppEmployee>
    var schedule: Schedule
    var managerDays: set<Day>

    /** The state after read_csv has filled the roster. */
    constructor (roster: seq<CppEmployee>)
      ensures employees == roster && schedule == map[] && managerDays == {}
    {
      employees := roster;
      schedule := map[];
      managerDays := {};
    }

    function State(): CppPlan
      reads this
    {
      Plan(employees, schedule, managerDays)
    }

    method AssignEmployee(i: nat, d: Day, s: Shift) returns (ok: bool)
      requires i < |employees|
      modifies this
      ensures ok <==> Eligible(old(employees[i]), d)
      ensures (ok, State()) == Assign(old(State()), i, d, s)
    {
      if |employees[i].assignedDays| >= MAX_DAYS || d in employees[i].assignedDays {
        return false;
      }
      schedule := schedule[(d, s) := Slot(schedule, d, s) + [Worker(employees[i].name)]];
      employees := employees[i := employees[i].(assignedDays := employees[i].assignedDays + {d})];
      return true;
    }

    /** generate_schedule: clear the three globals, then fill the slots
        day by day, shift by shift. */
    method GenerateSchedule(choose: Chooser)
      modifies this
      ensures State() == Generate(old(State()), choose)
    {
      Clear();
      for d := 0 to 7
        invariant RunDays(State(), d, choose) == Generate(old(State()), choose)
      {
        FillDay(d, choose);
      }
    }

    /** The three shifts of one day, in order. */
    method FillDay(d: Day, choose: Chooser)
      modifies this
      ensures State() == RunShifts(old(State()), d, 0, choose)
    {
      for s := 0 to 3
        invariant RunShifts(State(), d, s, choose) == RunShifts(old(State()), d, 0, choose)
      {
        var count := PreferenceStep(d, s);
        FillStep(d, s, count, choose);
      }
    }

    /** The clearing that opens generate_schedule. */
    method Clear()
      modifies this
      ensures State() == Cleared(old(State()))
    {
      schedule := map[];
      managerDays := {};
      var j := 0;
      while j < |employees|
        invariant 0 <= j <= |employees| == |old(employees)|
        invariant forall x :: 0 <= x < j ==> employees[x] == old(employees[x]).(assignedDays := {})
        invariant forall x :: j <= x < |employees| ==> employees[x] == old(employees[x])
        invariant schedule == map[] && managerDays == {}
      {
        employees := employees[j := employees[j].(assignedDays := {})];
        j := j + 1;
      }
      assert employees == Cleared(old(State())).employees;
    }

    /** Step 1: everyone who lists the shift for the day, in roster order,
        until two are assigned. */
    method PreferenceStep(d: Day, s: Shift) returns (count: nat)
      modifies this
      ensures (State(), count) == PreferencePass(old(State()), d, s, 0, 0)
    {
      count := 0;
      var i := 0;
      while i < |employees|
        invariant 0 <= i <= |employees| == |old(employees)|
        invariant count < STAFF_TARGET
        invariant PreferencePass(State(), d, s, i, count) == PreferencePass(old(State()), d, s, 0, 0)
      {
        if SHIFTS[s] in PrefsOn(employees[i], d) {
          var ok := AssignEmployee(i, d, s);
          if ok {
            count := count + 1;
            if count == STAFF_TARGET {
              break;
            }
          }
        }
        i := i + 1;
      }
    }

    /** The eligible employees, collected in roster order before the shuffle. */
    method EligibleNow(d: Day) returns (candidates: seq<nat>)
      ensures candidates == Candidates(employees, d)
    {
      candidates := [];
      var k := 0;
      while k < |employees|
        invariant 0 <= k <= |employees|
        invariant candidates == CandidatesBelow(employees, d, k)
      {
        if |employees[k].assignedDays| < MAX_DAYS && d !in employees[k].assignedDays {
          candidates := candidates + [k];
        }
        k := k + 1;
      }
    }

    /** Steps 2 to 4: `while (count < 2)`, one attempt per iteration. */
    method FillStep(d: Day, s: Shift, count0: nat, choose: Chooser)
      modifies this
      ensures State() == FillLoop(old(State()), d, s, count0, choose)
    {
      var count := count0;
      while count < STAFF_TARGET
        invariant FillLoop(State(), d, s, count, choose) == FillLoop(old(State()), d, s, count0, choose)
        decreases STAFF_TARGET - count
      {
        var done;
        count, done := FillAttempt(d, s, count, choose);
        if done {
          break;
        }
      }
    }

    /** One attempt: a random eligible employee, else the manager under the
        cap, else "Unassigned", which ends the loop. */
    method FillAttempt(d: Day, s: Shift, count: nat, choose: Chooser) returns (next: nat, done: bool)
      requires count < STAFF_TARGET
      modifies this
      ensures done ==> State() == FillLoop(old(State()), d, s, count, choose)
      ensures !done ==> next == count + 1
      ensures !done ==> FillLoop(State(), d, s, next, choose) == FillLoop(old(State()), d, s, count, choose)
    {
      next, done := count, false;
      var candidates := EligibleNow(d);
      var placed := false;
      if |candidates| > 0 {
        var ok := AssignEmployee(candidates[choose(d, s, count) % |candidates|], d, s);
        if ok {
          next := count + 1;
          placed := true;
        }
      }
      if !placed && |managerDays| < MAX_DAYS {
        schedule := schedule[(d, s) := Slot(schedule, d, s) + [Manager]];
        managerDays := managerDays + {d};
        next := count + 1;
        placed := true;
      }
      if !placed {
        schedule := schedule[(d, s) := Slot(schedule, d, s) + [Unassigned]];
        done := true;
      }
    }

    /** The warning lists printed after the schedule, slot by slot. */
    method DisplaySchedule() returns (managerOnly: seq<(Day, Shift)>, unassigned: seq<(Day, Shift)>)
      ensures managerOnly == ManagerOnlySlots(schedule)
      ensures unassigned == UnassignedSlots(schedule)
    {
      managerOnly, unassigned := [], [];
      for d := 0 to 7
        invariant managerOnly == ManagerOnlyBefore(schedule, 3 * d)
        invariant unassigned == UnassignedBefore(schedule, 3 * d)
      {
        for s := 0 to 3
          invariant managerOnly == ManagerOnlyBefore(schedule, 3 * d + s)
          invariant unassigned == UnassignedBefore(schedule, 3 * d + s)
        {
          var names := Texts(Slot(schedule, d, s));
          VisitSlot(schedule, d, s);
          if |names| == 1 && names[0] == "Manager" {
            managerOnly := managerOnly + [(d, s)];
          }
          if "Unassigned" in names {
            unassigned := unassigned + [(d, s)];
          }
        }
      }
      VisitDone(schedule);
    }
  }
}
