/** Vocabulary shared by both shift-assignment engines: the fixed week grid,
    slot entries, employees, the engine state and the atomic updates that
    both engines perform on it. */
module Week {

  import opened Text

  /** Days are numbered 0 (Monday) to 6 (Sunday). */
  type Day = d: nat | d < 7

  /** Shifts are numbered 0 (Morning) to 2 (Evening). */
  type Shift = s: nat | s < 3

  const DAYS: seq<string> := ["Monday", "Tuesday", "Wednesday", "Thursday", "Friday", "Saturday", "Sunday"]
  const SHIFTS: seq<string> := ["Morning", "Afternoon", "Evening"]

  /** An employee (and the manager) works on at most this many distinct days. */
  const MAX_DAYS: nat := 5
  /** The number of staff each slot is filled up to. */
  const STAFF_TARGET: nat := 2
  /** The number of (day, shift) slots in a week. */
  const SLOT_COUNT: nat := 21

  /** One entry of a slot: an employee's name, or one of the two sentinels
      the source writes as the strings "Manager" and "Unassigned". */
  datatype Entry = Worker(name: string) | Manager | Unassigned

  predicate IsSentinel(e: Entry) {
    e.Manager? || e.Unassigned?
  }

  /** An entry as the source stores it: a name, or the sentinel string. */
  function Shown(e: Entry): string {
    match e
    case Worker(n) => n
    case Manager => "Manager"
    case Unassigned => "Unassigned"
  }

  function Texts(l: seq<Entry>): (r: seq<string>)
    ensures |r| == |l| && forall k :: 0 <= k < |l| ==> r[k] == Shown(l[k])
  {
    if l == [] then [] else [Shown(l[0])] + Texts(l[1..])
  }

  /** day -> shift -> list of entries, flattened to one map. */
  type Schedule = map<(Day, Shift), seq<Entry>>

  /** The list of a slot; a slot never written is empty, as indexing the
      source's map default-constructs an empty list. */
  function Slot(sched: Schedule, d: Day, s: Shift): seq<Entry> {
    if (d, s) in sched then sched[(d, s)] else []
  }

  /** Appends one entry to one slot and leaves every other slot alone. */
  function Append(sched: Schedule, d: Day, s: Shift, e: Entry): (r: Schedule)
    ensures Slot(r, d, s) == Slot(sched, d, s) + [e]
    ensures forall d': Day, s': Shift :: (d', s') != (d, s) ==> Slot(r, d', s') == Slot(sched, d', s')
  {
    sched[(d, s) := Slot(sched, d, s) + [e]]
  }

  /** Position of a slot in the day-major, shift-minor traversal. */
  function Index(d: Day, s: Shift): nat {
    3 * d + s
  }

  /** The 21 slots in the order the sources visit them: day by day, and
      within a day shift by shift. */
  function AllSlots(): (r: seq<(Day, Shift)>)
    ensures |r| == SLOT_COUNT
    ensures forall k :: 0 <= k < SLOT_COUNT ==> r[k] == (k / 3, k % 3)
  {
    seq(SLOT_COUNT, k requires 0 <= k < SLOT_COUNT => (k / 3, k % 3))
  }

  lemma AllSlotsAt(d: Day, s: Shift)
    ensures AllSlots()[Index(d, s)] == (d, s)
  {
  }

  /** Listed in visiting order, each slot once. */
  ghost predicate InVisitOrder(xs: seq<(Day, Shift)>) {
    forall a, b :: 0 <= a < b < |xs| ==> Index(xs[a].0, xs[a].1) < Index(xs[b].0, xs[b].1)
  }

  /** Filtering a list in visiting order keeps it in visiting order. */
  lemma {:induction false} FilterInVisitOrder(xs: seq<(Day, Shift)>, keep: ((Day, Shift)) -> bool)
    requires InVisitOrder(xs)
    ensures InVisitOrder(Filter(xs, keep))
  {
    if xs != [] {
      VisitOrderTail(xs);
      FilterInVisitOrder(xs[1..], keep);
      if keep(xs[0]) {
        VisitOrderCons(xs[0], xs[1..], Filter(xs[1..], keep));
      }
    }
  }

  lemma VisitOrderTail(xs: seq<(Day, Shift)>)
    requires xs != [] && InVisitOrder(xs)
    ensures InVisitOrder(xs[1..])
    ensures forall y :: y in xs[1..] ==> Index(xs[0].0, xs[0].1) < Index(y.0, y.1)
  {
    forall a, b | 0 <= a < b < |xs| - 1
      ensures Index(xs[1..][a].0, xs[1..][a].1) < Index(xs[1..][b].0, xs[1..][b].1)
    {
      assert xs[1..][a] == xs[a + 1] && xs[1..][b] == xs[b + 1];
    }
    forall y | y in xs[1..] ensures Index(xs[0].0, xs[0].1) < Index(y.0, y.1) {
      var j :| 0 <= j < |xs[1..]| && xs[1..][j] == y;
      assert xs[j + 1] == y;
    }
  }

  /** A slot before everything in a list in visiting order can go in front. */
  lemma VisitOrderCons(x: (Day, Shift), pool: seq<(Day, Shift)>, rest: seq<(Day, Shift)>)
    requires InVisitOrder(rest)
    requires forall y :: y in pool ==> Index(x.0, x.1) < Index(y.0, y.1)
    requires forall y :: y in rest ==> y in pool
    ensures InVisitOrder([x] + rest)
  {
    var r := [x] + rest;
    forall a, b | 0 <= a < b < |r| ensures Index(r[a].0, r[a].1) < Index(r[b].0, r[b].1) {
      assert r[b] == rest[b - 1];
      assert r[b] in rest;
      if a > 0 {
        assert r[a] == rest[a - 1];
      }
    }
  }

  lemma AllSlotsInVisitOrder()
    ensures InVisitOrder(AllSlots())
  {
  }

  /** An employee: name, per-day preferred shifts (P is the shift type the
      engine reads: raw names in the C++ engine, shift numbers in the Python
      one) and the days already assigned in the current run. */
  datatype Employee<P> = Employee(name: string, preferences: map<Day, seq<P>>, assignedDays: set<Day>)

  /** The preferences for a day; a day without an entry has none. */
  function PrefsOn<P>(e: Employee<P>, d: Day): seq<P> {
    if d in e.preferences then e.preferences[d] else []
  }

  /** The whole state an engine run reads and writes. */
  datatype Plan<P> = Plan(employees: seq<Employee<P>>, schedule: Schedule, managerDays: set<Day>)

  /** May still be given a shift on day d: under the day cap and not yet
      working that day. */
  predicate Eligible<P>(e: Employee<P>, d: Day) {
    |e.assignedDays| < MAX_DAYS && d !in e.assignedDays
  }

  ghost predicate NoneEligible<P>(emps: seq<Employee<P>>, d: Day) {
    forall i :: 0 <= i < |emps| ==> !Eligible(emps[i], d)
  }

  ghost predicate DistinctNames<P>(emps: seq<Employee<P>>) {
    forall i, j :: 0 <= i < j < |emps| ==> emps[i].name != emps[j].name
  }

  /** Same employees, names and preferences; only assigned days may differ. */
  ghost predicate SameRoster<P>(a: seq<Employee<P>>, b: seq<Employee<P>>) {
    |a| == |b| &&
    forall i :: 0 <= i < |a| ==> a[i].name == b[i].name && a[i].preferences == b[i].preferences
  }

  /** The state at the start of a run: empty schedule, no manager days and
      no employee days; names and preferences are kept. */
  function Cleared<P>(p: Plan<P>): (r: Plan<P>)
    ensures SameRoster(r.employees, p.employees)
    ensures forall i :: 0 <= i < |r.employees| ==> r.employees[i].assignedDays == {}
    ensures forall d: Day, s: Shift :: Slot(r.schedule, d, s) == []
    ensures r.managerDays == {}
  {
    Plan(seq(|p.employees|, i requires 0 <= i < |p.employees| => p.employees[i].(assignedDays := {})), map[], {})
  }

  /** Two states with the same roster clear to the same state, so nothing of
      an earlier run survives into the next one. */
  lemma ClearedForgetsPriorRun<P>(p: Plan<P>, q: Plan<P>)
    requires SameRoster(p.employees, q.employees)
    ensures Cleared(p) == Cleared(q)
  {
    var a, b := Cleared(p).employees, Cleared(q).employees;
    assert |a| == |b|;
    forall i | 0 <= i < |a| ensures a[i] == b[i] {
      assert a[i] == p.employees[i].(assignedDays := {});
      assert b[i] == q.employees[i].(assignedDays := {});
    }
  }

  /** The random source of a run: the pick made while filling slot (d, s)
      for the attempt-th time is candidates[choose(d, s, attempt) % |candidates|].
      Every sequence of picks a shuffle or random.choice can make is the
      sequence of some Chooser, and a fixed Chooser makes a run repeatable. */
  type Chooser = (Day, Shift, nat) -> nat

  /** Indices below n of the employees eligible on day d, in roster order. */
  function CandidatesBelow<P>(emps: seq<Employee<P>>, d: Day, n: nat): (r: seq<nat>)
    requires n <= |emps|
    ensures forall k :: 0 <= k < |r| ==> r[k] < n && Eligible(emps[r[k]], d)
    ensures forall x :: 0 <= x < n && Eligible(emps[x], d) ==> x in r
  {
    if n == 0 then []
    else CandidatesBelow(emps, d, n - 1) + (if Eligible(emps[n - 1], d) then [n - 1] else [])
  }

  ghost predicate Increasing(xs: seq<nat>) {
    forall a, b :: 0 <= a < b < |xs| ==> xs[a] < xs[b]
  }

  /** The candidates come in roster order, each once. */
  lemma {:induction false} CandidatesOrdered<P>(emps: seq<Employee<P>>, d: Day, n: nat)
    requires n <= |emps|
    ensures Increasing(CandidatesBelow(emps, d, n))
  {
    if n > 0 {
      var front := CandidatesBelow(emps, d, n - 1);
      var r := CandidatesBelow(emps, d, n);
      CandidatesOrdered(emps, d, n - 1);
      assert r == front + (if Eligible(emps[n - 1], d) then [n - 1] else []);
      forall a, b | 0 <= a < b < |r| ensures r[a] < r[b] {
        assert r[a] == front[a] < n - 1;
        if b < |front| {
          assert r[b] == front[b];
        } else {
          assert r[b] == n - 1;
        }
      }
    }
  }

  /** Every employee eligible on day d, in roster order. */
  function Candidates<P>(emps: seq<Employee<P>>, d: Day): (r: seq<nat>)
    ensures forall k :: 0 <= k < |r| ==> r[k] < |emps| && Eligible(emps[r[k]], d)
    ensures forall x :: 0 <= x < |emps| && Eligible(emps[x], d) ==> x in r
    ensures |r| == 0 <==> NoneEligible(emps, d)
  {
    CandidatesEmpty(emps, d);
    CandidatesBelow(emps, d, |emps|)
  }

  lemma CandidatesEmpty<P>(emps: seq<Employee<P>>, d: Day)
    ensures |CandidatesBelow(emps, d, |emps|)| == 0 <==> NoneEligible(emps, d)
  {
    var r := CandidatesBelow(emps, d, |emps|);
    if |r| > 0 {
      assert Eligible(emps[r[0]], d);
    }
    if !NoneEligible(emps, d) {
      var i :| 0 <= i < |emps| && Eligible(emps[i], d);
      assert i in r;
    }
  }

  /** Names are all the roster keeps between runs, so distinct names stay distinct. */
  lemma SameRosterDistinct<P>(a: seq<Employee<P>>, b: seq<Employee<P>>)
    requires SameRoster(a, b)
    ensures DistinctNames(a) <==> DistinctNames(b)
  {
    if DistinctNames(b) {
      forall i, j | 0 <= i < j < |a| ensures a[i].name != a[j].name {
        assert a[i].name == b[i].name && a[j].name == b[j].name;
      }
    }
    if DistinctNames(a) {
      forall i, j | 0 <= i < j < |b| ensures b[i].name != b[j].name {
        assert a[i].name == b[i].name && a[j].name == b[j].name;
      }
    }
  }

  lemma SameRosterTrans<P>(a: seq<Employee<P>>, b: seq<Employee<P>>, c: seq<Employee<P>>)
    requires SameRoster(a, b) && SameRoster(b, c)
    ensures SameRoster(a, c)
  {
  }

  /** The atomic assignment of both engines: append the employee's name to
      the slot and record the day. */
  function Hire<P>(p: Plan<P>, i: nat, d: Day, s: Shift): (r: Plan<P>)
    requires i < |p.employees|
    ensures SameRoster(r.employees, p.employees)
  {
    p.(employees := p.employees[i := p.employees[i].(assignedDays := p.employees[i].assignedDays + {d})],
       schedule := Append(p.schedule, d, s, Worker(p.employees[i].name)))
  }

  /** The manager fallback: append the sentinel and record the day. */
  function UseManager<P>(p: Plan<P>, d: Day, s: Shift): Plan<P> {
    p.(schedule := Append(p.schedule, d, s, Manager), managerDays := p.managerDays + {d})
  }

  /** The last resort: append the "Unassigned" sentinel. */
  function GiveUp<P>(p: Plan<P>, d: Day, s: Shift): Plan<P> {
    p.(schedule := Append(p.schedule, d, s, Unassigned))
  }

  // ---------------------------------------------------------------------
  // Invariants shared by both engines

  /** Nobody, the manager included, works more than MAX_DAYS days. */
  ghost predicate Capped<P>(p: Plan<P>) {
    (forall i :: 0 <= i < |p.employees| ==> |p.employees[i].assignedDays| <= MAX_DAYS) &&
    |p.managerDays| <= MAX_DAYS
  }

  /** A sentinel is only ever written when no employee could take the slot,
      and "Unassigned" only once the manager is at the cap as well. */
  ghost predicate Justified<P>(p: Plan<P>) {
    forall d: Day, s: Shift ::
      (Manager in Slot(p.schedule, d, s) ==> d in p.managerDays && NoneEligible(p.employees, d)) &&
      (Unassigned in Slot(p.schedule, d, s) ==> NoneEligible(p.employees, d) && |p.managerDays| >= MAX_DAYS)
  }

  /** How often a name occurs across the three slots of a day. */
  function DayCount(sched: Schedule, n: string, d: Day): nat {
    multiset(Slot(sched, d, 0))[Worker(n)] + multiset(Slot(sched, d, 1))[Worker(n)] + multiset(Slot(sched, d, 2))[Worker(n)]
  }

  /** An employee appears exactly once on each of their assigned days and
      nowhere on any other day. */
  ghost predicate OncePerDay<P>(p: Plan<P>) {
    forall i, d: Day :: 0 <= i < |p.employees| ==>
      DayCount(p.schedule, p.employees[i].name, d) == if d in p.employees[i].assignedDays then 1 else 0
  }

  /** The invariants common to both engines; the per-day count only holds
      where names identify employees. */
  ghost predicate Sound<P>(p: Plan<P>) {
    Capped(p) && Justified(p) && (DistinctNames(p.employees) ==> OncePerDay(p))
  }

  lemma ClearedSound<P>(p: Plan<P>)
    ensures Sound(Cleared(p))
  {
    var c := Cleared(p);
    assert Capped(c);
    forall d: Day, s: Shift ensures Slot(c.schedule, d, s) == [] {}
    assert OncePerDay(c) by {
      forall i, d: Day | 0 <= i < |c.employees|
        ensures DayCount(c.schedule, c.employees[i].name, d) == 0
      {
        assert Slot(c.schedule, d, 0) == [] && Slot(c.schedule, d, 1) == [] && Slot(c.schedule, d, 2) == [];
      }
    }
  }

  lemma CardInsert(a: set<Day>, x: Day)
    ensures |a| <= |a + {x}| <= |a| + 1
    ensures x !in a ==> |a + {x}| == |a| + 1
  {
    if x in a {
      assert a + {x} == a;
    }
  }

  /** Eligibility only ever shrinks when a day is recorded. */
  lemma HireKeepsIneligible<P>(p: Plan<P>, i: nat, d: Day, s: Shift, d': Day)
    requires i < |p.employees|
    requires NoneEligible(p.employees, d')
    ensures NoneEligible(Hire(p, i, d, s).employees, d')
  {
    CardInsert(p.employees[i].assignedDays, d);
  }

  lemma {:induction false} HireSound<P>(p: Plan<P>, i: nat, d: Day, s: Shift)
    requires i < |p.employees| && Eligible(p.employees[i], d)
    requires Sound(p)
    ensures Sound(Hire(p, i, d, s))
  {
    var q := Hire(p, i, d, s);
    var days := p.employees[i].assignedDays;
    CardInsert(days, d);
    assert Capped(q);
    forall d': Day, s': Shift
      ensures (Manager in Slot(q.schedule, d', s') ==> d' in q.managerDays && NoneEligible(q.employees, d'))
      ensures (Unassigned in Slot(q.schedule, d', s') ==> NoneEligible(q.employees, d') && |q.managerDays| >= MAX_DAYS)
    {
      if Manager in Slot(q.schedule, d', s') {
        assert Manager in Slot(p.schedule, d', s');
        HireKeepsIneligible(p, i, d, s, d');
      }
      if Unassigned in Slot(q.schedule, d', s') {
        assert Unassigned in Slot(p.schedule, d', s');
        HireKeepsIneligible(p, i, d, s, d');
      }
    }
    if DistinctNames(q.employees) {
      SameRosterDistinct(q.employees, p.employees);
      forall j, d': Day | 0 <= j < |q.employees|
        ensures DayCount(q.schedule, q.employees[j].name, d') == if d' in q.employees[j].assignedDays then 1 else 0
      {
        var n := q.employees[j].name;
        assert n == p.employees[j].name;
        HireCount(p.schedule, d, s, p.employees[i].name, n, d');
        assert DayCount(p.schedule, n, d') == if d' in p.employees[j].assignedDays then 1 else 0;
        if j != i {
          assert n != p.employees[i].name;
        }
      }
    }
  }

  /** Appending a name changes the day count of that name on that day only. */
  lemma HireCount(sched: Schedule, d: Day, s: Shift, hired: string, n: string, d': Day)
    ensures DayCount(Append(sched, d, s, Worker(hired)), n, d') ==
            DayCount(sched, n, d') + if d' == d && n == hired then 1 else 0
  {
    HireSlotCount(sched, d, s, hired, n, d', 0);
    HireSlotCount(sched, d, s, hired, n, d', 1);
    HireSlotCount(sched, d, s, hired, n, d', 2);
  }

  lemma HireSlotCount(sched: Schedule, d: Day, s: Shift, hired: string, n: string, d': Day, s': Shift)
    ensures multiset(Slot(Append(sched, d, s, Worker(hired)), d', s'))[Worker(n)] ==
            multiset(Slot(sched, d', s'))[Worker(n)] + if (d', s') == (d, s) && n == hired then 1 else 0
  {
    var r := Append(sched, d, s, Worker(hired));
    if (d', s') == (d, s) {
      assert multiset(Slot(r, d', s')) == multiset(Slot(sched, d', s')) + multiset{Worker(hired)};
    }
  }

  /** A sentinel never changes any name's day count. */
  lemma SentinelCount(sched: Schedule, d: Day, s: Shift, e: Entry, n: string, d': Day)
    requires IsSentinel(e)
    ensures DayCount(Append(sched, d, s, e), n, d') == DayCount(sched, n, d')
  {
    var r := Append(sched, d, s, e);
    forall s': Shift ensures multiset(Slot(r, d', s'))[Worker(n)] == multiset(Slot(sched, d', s'))[Worker(n)] {
      if (d', s') == (d, s) {
        assert multiset(Slot(r, d', s')) == multiset(Slot(sched, d', s')) + multiset{e};
      }
    }
  }

  lemma {:induction false} UseManagerSound<P>(p: Plan<P>, d: Day, s: Shift)
    requires Sound(p) && NoneEligible(p.employees, d) && |p.managerDays| < MAX_DAYS
    ensures Sound(UseManager(p, d, s))
  {
    var q := UseManager(p, d, s);
    CardInsert(p.managerDays, d);
    forall d': Day, s': Shift
      ensures (Manager in Slot(q.schedule, d', s') ==> d' in q.managerDays && NoneEligible(q.employees, d'))
      ensures (Unassigned in Slot(q.schedule, d', s') ==> NoneEligible(q.employees, d') && |q.managerDays| >= MAX_DAYS)
    {
      if (d', s') != (d, s) {
        assert Slot(q.schedule, d', s') == Slot(p.schedule, d', s');
      } else {
        assert Slot(q.schedule, d', s') == Slot(p.schedule, d', s') + [Manager];
        assert Unassigned in Slot(q.schedule, d', s') ==> Unassigned in Slot(p.schedule, d', s');
      }
    }
    if DistinctNames(p.employees) {
      forall j, d': Day | 0 <= j < |q.employees|
        ensures DayCount(q.schedule, q.employees[j].name, d') == if d' in q.employees[j].assignedDays then 1 else 0
      {
        SentinelCount(p.schedule, d, s, Manager, q.employees[j].name, d');
      }
    }
  }

  lemma {:induction false} GiveUpSound<P>(p: Plan<P>, d: Day, s: Shift)
    requires Sound(p) && NoneEligible(p.employees, d) && |p.managerDays| >= MAX_DAYS
    ensures Sound(GiveUp(p, d, s))
  {
    var q := GiveUp(p, d, s);
    forall d': Day, s': Shift
      ensures (Manager in Slot(q.schedule, d', s') ==> d' in q.managerDays && NoneEligible(q.employees, d'))
    {
      if (d', s') != (d, s) {
        assert Slot(q.schedule, d', s') == Slot(p.schedule, d', s');
      } else {
        assert Manager in Slot(q.schedule, d', s') ==> Manager in Slot(p.schedule, d', s');
      }
    }
    if DistinctNames(p.employees) {
      forall j, d': Day | 0 <= j < |q.employees|
        ensures DayCount(q.schedule, q.employees[j].name, d') == if d' in q.employees[j].assignedDays then 1 else 0
      {
        SentinelCount(p.schedule, d, s, Unassigned, q.employees[j].name, d');
      }
    }
  }
}
