/** The warning summary the C++ scheduler prints after the schedule: the
    slots staffed by the manager alone, and the slots nobody could staff.
    The test is made on the names as they are printed, so an employee who
    is called "Manager" or "Unassigned" is taken for the sentinel. */
module CppReport {
  import opened Text
  import opened Week

  /** The slot shows a single name, and that name is "Manager". */
  predicate ManagerOnly(names: seq<string>) {
    |names| == 1 && names[0] == "Manager"
  }

  /** One of the names the slot shows is "Unassigned". */
  predicate ShowsUnassigned(names: seq<string>) {
    "Unassigned" in names
  }

  function ManagerOnlyAt(sched: Schedule): ((Day, Shift)) -> bool {
    (k: (Day, Shift)) => ManagerOnly(Texts(Slot(sched, k.0, k.1)))
  }

  function UnassignedAt(sched: Schedule): ((Day, Shift)) -> bool {
    (k: (Day, Shift)) => ShowsUnassigned(Texts(Slot(sched, k.0, k.1)))
  }

  /** The slots the "Only Manager available" warning lists. */
  function ManagerOnlySlots(sched: Schedule): seq<(Day, Shift)> {
    Filter(AllSlots(), ManagerOnlyAt(sched))
  }

  /** The slots the "Unassigned" warning lists. */
  function UnassignedSlots(sched: Schedule): seq<(Day, Shift)> {
    Filter(AllSlots(), UnassignedAt(sched))
  }

  /** The warnings collected before the k-th slot in visiting order. */
  function ManagerOnlyBefore(sched: Schedule, k: nat): seq<(Day, Shift)>
    requires k <= SLOT_COUNT
  {
    Filter(AllSlots()[..k], ManagerOnlyAt(sched))
  }

  function UnassignedBefore(sched: Schedule, k: nat): seq<(Day, Shift)>
    requires k <= SLOT_COUNT
  {
    Filter(AllSlots()[..k], UnassignedAt(sched))
  }

  /** Visiting one more slot adds it to the lists whose test it passes. */
  lemma VisitSlot(sched: Schedule, d: Day, s: Shift)
    ensures ManagerOnlyBefore(sched, Index(d, s) + 1) == ManagerOnlyBefore(sched, Index(d, s))
      + (if ManagerOnly(Texts(Slot(sched, d, s))) then [(d, s)] else [])
    ensures UnassignedBefore(sched, Index(d, s) + 1) == UnassignedBefore(sched, Index(d, s))
      + (if ShowsUnassigned(Texts(Slot(sched, d, s))) then [(d, s)] else [])
  {
    var k := Index(d, s);
    AllSlotsAt(d, s);
    assert AllSlots()[..k + 1] == AllSlots()[..k] + [(d, s)];
    FilterAppend(AllSlots()[..k], (d, s), ManagerOnlyAt(sched));
    FilterAppend(AllSlots()[..k], (d, s), UnassignedAt(sched));
  }

  /** After the last slot the lists are complete. */
  lemma VisitDone(sched: Schedule)
    ensures ManagerOnlyBefore(sched, SLOT_COUNT) == ManagerOnlySlots(sched)
    ensures UnassignedBefore(sched, SLOT_COUNT) == UnassignedSlots(sched)
  {
    assert AllSlots()[..SLOT_COUNT] == AllSlots();
  }

  /** Every slot is visited. */
  lemma EverySlotVisited(d: Day, s: Shift)
    ensures (d, s) in AllSlots()
  {
    AllSlotsAt(d, s);
  }

  /** The manager-only list names exactly the slots that show "Manager"
      alone. */
  lemma ManagerOnlySlotsMeaning(sched: Schedule)
    ensures forall d: Day, s: Shift ::
      (d, s) in ManagerOnlySlots(sched) <==> ManagerOnly(Texts(Slot(sched, d, s)))
  {
    forall d: Day, s: Shift ensures (d, s) in AllSlots() {
      EverySlotVisited(d, s);
    }
  }

  /** The unassigned list names exactly the slots that show "Unassigned". */
  lemma UnassignedSlotsMeaning(sched: Schedule)
    ensures forall d: Day, s: Shift ::
      (d, s) in UnassignedSlots(sched) <==> ShowsUnassigned(Texts(Slot(sched, d, s)))
  {
    forall d: Day, s: Shift ensures (d, s) in AllSlots() {
      EverySlotVisited(d, s);
    }
  }

  /** Both lists run day by day and shift by shift, each slot once. */
  lemma WarningsInVisitOrder(sched: Schedule)
    ensures InVisitOrder(ManagerOnlySlots(sched)) && InVisitOrder(UnassignedSlots(sched))
  {
    AllSlotsInVisitOrder();
    FilterInVisitOrder(AllSlots(), ManagerOnlyAt(sched));
    FilterInVisitOrder(AllSlots(), UnassignedAt(sched));
  }

  /** No slot is in both lists: a slot that shows "Manager" alone does not
      show "Unassigned". */
  lemma WarningsDisjoint(sched: Schedule)
    ensures forall d: Day, s: Shift :: (d, s) in ManagerOnlySlots(sched) ==> (d, s) !in UnassignedSlots(sched)
  {
    ManagerOnlySlotsMeaning(sched);
    UnassignedSlotsMeaning(sched);
    forall d: Day, s: Shift | ManagerOnly(Texts(Slot(sched, d, s)))
      ensures !ShowsUnassigned(Texts(Slot(sched, d, s)))
    {
      ManagerOnlyShowsNoUnassigned(Texts(Slot(sched, d, s)));
    }
  }

  lemma ManagerOnlyShowsNoUnassigned(names: seq<string>)
    requires ManagerOnly(names)
    ensures !ShowsUnassigned(names)
  {
    assert names == ["Manager"];
  }

  /** Nobody in the list is called like a sentinel. */
  ghost predicate PlainNames(l: seq<Entry>) {
    forall n :: Worker(n) in l ==> n != "Manager" && n != "Unassigned"
  }

  /** When nobody in the list bears a sentinel's name, the manager-only
      test sees the lone Manager sentinel. */
  lemma ShownManagerOnly(l: seq<Entry>)
    requires PlainNames(l)
    ensures ManagerOnly(Texts(l)) <==> l == [Manager]
  {
    if ManagerOnly(Texts(l)) {
      assert l == [l[0]];
      assert l[0] in l;
    }
  }

  /** When nobody in the list bears a sentinel's name, the unassigned test
      sees the Unassigned sentinel. */
  lemma ShownUnassigned(l: seq<Entry>)
    requires PlainNames(l)
    ensures ShowsUnassigned(Texts(l)) <==> Unassigned in l
  {
    if ShowsUnassigned(Texts(l)) {
      UnassignedFromText(l);
    }
    if Unassigned in l {
      TextFromUnassigned(l);
    }
  }

  lemma UnassignedFromText(l: seq<Entry>)
    requires PlainNames(l) && ShowsUnassigned(Texts(l))
    ensures Unassigned in l
  {
    var t := Texts(l);
    var k :| 0 <= k < |t| && t[k] == "Unassigned";
    assert l[k] in l;
  }

  lemma TextFromUnassigned(l: seq<Entry>)
    requires Unassigned in l
    ensures ShowsUnassigned(Texts(l))
  {
    var k :| 0 <= k < |l| && l[k] == Unassigned;
    assert Texts(l)[k] == "Unassigned";
  }

  /** On a plan whose sentinels are justified and whose employees have plain
      names, a manager-only warning is deserved: the slot is on one of the
      manager's days, and nobody could work that day. */
  lemma ManagerOnlyJustified<P>(p: Plan<P>)
    requires Justified(p)
    requires forall d: Day, s: Shift :: PlainNames(Slot(p.schedule, d, s))
    ensures forall d: Day, s: Shift :: (d, s) in ManagerOnlySlots(p.schedule) ==>
      d in p.managerDays && NoneEligible(p.employees, d)
  {
    ManagerOnlySlotsMeaning(p.schedule);
    forall d: Day, s: Shift
      ensures ManagerOnly(Texts(Slot(p.schedule, d, s))) ==> Manager in Slot(p.schedule, d, s)
    {
      ShownManagerOnly(Slot(p.schedule, d, s));
    }
  }

  /** Likewise an unassigned warning: nobody could work that day and the
      manager's days were used up. */
  lemma UnassignedJustified<P>(p: Plan<P>)
    requires Justified(p)
    requires forall d: Day, s: Shift :: PlainNames(Slot(p.schedule, d, s))
    ensures forall d: Day, s: Shift :: (d, s) in UnassignedSlots(p.schedule) ==>
      NoneEligible(p.employees, d) && |p.managerDays| >= MAX_DAYS
  {
    UnassignedSlotsMeaning(p.schedule);
    forall d: Day, s: Shift
      ensures ShowsUnassigned(Texts(Slot(p.schedule, d, s))) ==> Unassigned in Slot(p.schedule, d, s)
    {
      ShownUnassigned(Slot(p.schedule, d, s));
    }
  }
}
