# Weekly shift scheduler — a verified model

The repository staffs a fixed week of 7 days × 3 shifts (Morning, Afternoon,
Evening) with up to two people per shift. It does this in two programs with
different rules:

- `scheduling.cpp` reads a preference file and fills each slot in day-major,
  shift-minor order through four tiers:
  1. employees who list the shift for that day, in roster order;
  2. random eligible employees;
  3. the "Manager" while the manager has fewer than 5 distinct days;
  4. "Unassigned", which ends the slot.

  It then reports the slots staffed by the manager alone and the slots that
  hold "Unassigned".
- `scheduling.py` imports the same kind of file through `csv.DictReader`. It
  runs a per-day preference phase: each employee takes the first shift, in
  rank order, that has fewer than two preference placements. A fill phase
  then adds random eligible employees, or one "Manager", or one
  "Unassigned". Its report classifies each slot with an `if`/`elif`.

An employee is eligible on a day when they hold fewer than 5 days and do not
work that day yet.

The model is split into modules:

- `Text` has digits, decimal spelling, splitting at a separator and a filter.
- `Week` holds what both engines share:
  - days, shifts and slot entries (`Worker(name) | Manager | Unassigned`);
  - the schedule, read through `Slot`;
  - employees and the whole run state `Plan`;
  - the three state updates `Hire`, `UseManager` and `GiveUp`, and the
    invariants they keep.
- `CppPrefs` models the cell parser of `read_csv`:
  - `std::stoi` with its two exceptions and its 32-bit range;
  - splitting a cell at `|`;
  - sorting the (rank, shift) pairs.
- `CppEngine` holds `assign_employee` and `generate_schedule`:
  - as tail-recursive functions, one per loop;
  - as a class `Scheduler` whose fields are the three globals, whose methods
    run the loops, and which is proved equal to those functions.
- `CppReport` holds the two warning lists of `display_schedule`.
- `PyPrefs` models the preference construction of `import_employees`:
  - `str.strip`;
  - `int()`;
  - Python's stable `sorted`;
  - the two list comprehensions;
  - the row loop with its exceptions.
- `PyEngine` holds `SchedulerApp`:
  - the preference and fill phases as functions;
  - a class with the `employees` and `schedule` fields, whose methods run the
    loops;
  - the proofs of what a run guarantees.

Randomness becomes a parameter `choose: (Day, Shift, nat) -> nat`. A pick
takes the candidate at position `choose(day, shift, attempt) % |candidates|`.
The attempt number is the C++ `count`, or the current slot length in Python.

Every sequence of picks can be written this way. The properties proved for
all `choose` therefore hold whatever the random engine does.

In C++, shuffling the candidates and taking the first one that
`assign_employee` accepts comes down to picking one candidate. Every
candidate is eligible, so the first one is always accepted.

Behaviours of the code worth noting, each modelled as written:

- **Manager capacity in C++.** The manager's cap counts distinct days. A
  second use on an already-counted day costs nothing, so C++ can fill a slot
  with `[Manager, Manager]`.
  - `CppEngine.ManagerTwice` exhibits this on an empty roster.
  - The C++ manager-only warning tests for a single name, so that slot is not
    reported.
  - Python stops after one manager, and `PyEngine.ManagerOnce` shows the same
    roster gives `[Manager]`, which is reported.
- **Tier 1 ignores rank.** It considers whether an employee lists the shift,
  never the rank. `CppEngine.TierPrecedence` states that the first two
  eligible employees in roster order win.
- **Unknown shift names are not rejected.**
  - C++ keeps whatever text follows the first `:`. An unknown name never
    matches a shift.
  - Python silently drops any name outside SHIFTS.
- **Ties in rank.**
  - C++ sorts (rank, shift) pairs, so equal ranks are ordered by shift text.
  - Python's sort is stable, so equal ranks keep their input order.
- **Malformed ranks.**
  - In C++, a rank `std::stoi` rejects throws. The model returns it as an
    error.
  - In Python, the exception stops the import. The rows read before it stay
    imported.
- **What each engine keeps after the `:`.**
  - C++ keeps everything after the first `:`.
  - Python keeps only the text between the first and second `:`.

## Model

| member | source | states |
|---|---|---|
| Text.IndexOf | scheduling.cpp:48 | `find(':')`: `None` exactly when the character is absent; otherwise the position of its first occurrence |
| Text.Pieces | scheduling.cpp:47 | defines what `getline` reads at a separator (no trailing empty piece); its meaning is stated by `Text.PiecesAreSplit` |
| Text.Split | scheduling.py:50 | `str.split`: no piece contains the separator; `Text.SplitJoin` adds that joining the pieces gives the text back |
| Text.SplitJoin | scheduling.py:50 | splitting at a separator loses nothing: joining the pieces back gives the original text |
| Text.PiecesAreSplit | scheduling.cpp:47 | `getline` on a cell yields the pieces of `str.split` with no trailing empty piece (an empty cell yields none) |
| Week.Cleared | scheduling.cpp:76-80 | after the reset every slot is empty, the manager has no day and no employee has a day; names and preferences are unchanged |
| Week.ClearedForgetsPriorRun | scheduling.cpp:76-80 | two states with the same roster clear to the same state |
| Week.ClearedSound | scheduling.py:60-65 | the cleared state satisfies the run invariants (caps, justified sentinels, one shift per day) |
| Week.Append | scheduling.cpp:70 | an append grows exactly the named slot by exactly one entry; every other slot is unchanged |
| Week.AllSlotsInVisitOrder | scheduling.cpp:85-86 | the 21 slots are visited day by day, shift by shift, in strictly increasing position |
| Week.Candidates | scheduling.cpp:103-107 | the candidates are exactly the employees eligible on the day (each eligible employee is one, every candidate is eligible), so there is none exactly when nobody is eligible |
| Week.CandidatesOrdered | scheduling.py:86 | the candidates appear in roster order |
| Week.Hire | scheduling.cpp:70-71 | hiring leaves the roster's names and preferences unchanged |
| Week.HireSound | scheduling.cpp:68-72 | hiring an eligible employee keeps every cap, keeps every sentinel justified, and keeps everyone to one shift per day |
| Week.HireCount | scheduling.cpp:70-71 | a hire raises the day count of exactly the hired name on exactly that day, by one |
| Week.SentinelCount | scheduling.cpp:120 | a sentinel changes no employee's day count |
| Week.UseManagerSound | scheduling.cpp:119-124 | the manager appended when nobody is eligible and the cap is not reached keeps the invariants |
| Week.GiveUpSound | scheduling.cpp:127-130 | "Unassigned" appended when nobody is eligible and the manager is at the cap keeps the invariants |
| CppPrefs.Stoi | scheduling.cpp:50 | any value `std::stoi` returns fits a 32-bit int |
| CppPrefs.StoiSigned | scheduling.cpp:50 | round trip: an int written in decimal, after any leading whitespace and before any non-digit, reads back as itself |
| CppPrefs.StoiSkipsSpaces | scheduling.cpp:50 | leading whitespace does not change what `std::stoi` reads |
| CppPrefs.StoiOutOfRange | scheduling.cpp:50 | a value outside the 32-bit range is `out_of_range` |
| CppPrefs.StoiNoDigits | scheduling.cpp:50 | text without a digit is `invalid_argument` |
| CppPrefs.ParseItemText | scheduling.cpp:48-52 | round trip: the item spelled from a rank and a shift text parses back to that rank and that text |
| CppPrefs.KeptDropsPlain | scheduling.cpp:49 | an item without ':' contributes no pair |
| CppPrefs.ParseItem | scheduling.cpp:48-52 | defines one item: dropped without a ':', else the `stoi` rank before the first ':' and the text after it; stated by `CppPrefs.ParseItemText` and `CppPrefs.KeptDropsPlain` |
| CppPrefs.RanksFrom | scheduling.cpp:47-54 | defines the item loop; stated by `CppPrefs.RanksFromKept` and run by `CppPrefs.CollectRanks` |
| CppPrefs.RanksFromKept | scheduling.cpp:47-54 | the item loop succeeds exactly when every item's rank parses, and then yields the pairs of the items with a ':', in order |
| CppPrefs.RankLeTotal | scheduling.cpp:55 | the pair order (rank, then shift text) is total |
| CppPrefs.RankLeAntisymmetric | scheduling.cpp:55 | the pair order is antisymmetric |
| CppPrefs.RankLeTransitive | scheduling.cpp:55 | the pair order is transitive |
| CppPrefs.Insert | scheduling.cpp:55 | inserting into a sorted sequence keeps it sorted and adds exactly the element |
| CppPrefs.SortRanks | scheduling.cpp:55 | the sort yields a sorted permutation of its input |
| CppPrefs.SortedUnique | scheduling.cpp:55 | two sorted permutations of the same pairs are equal, so any correct sort gives the result `std::sort` gives |
| Text.Seconds | scheduling.cpp:56-58 | the shift texts of the sorted pairs (and, in Python, the shifts of the kept picks at scheduling.py:52), one per pair, in order |
| CppPrefs.ParseCell | scheduling.cpp:43-59 | defines the parse of one non-empty cell; stated by `CppPrefs.ParseCellMeaning` and run by `CppPrefs.ReadCell` |
| CppPrefs.ParseCellMeaning | scheduling.cpp:43-59 | a cell parses exactly when all its ranks do; it then yields the shift texts of a sorted permutation of the pairs of the items with a ':' |
| CppPrefs.DaysFrom | scheduling.cpp:41-62 | defines the day loop of a line; stated by `CppPrefs.DaysFromMeaning` |
| CppPrefs.DaysFromMeaning | scheduling.cpp:41-62 | the day loop fails exactly when a cell it reads fails; day d gets the shifts of the d-th cell, or none for a missing or empty cell |
| CppPrefs.ParseLine | scheduling.cpp:36-63 | defines the parse of one line; stated by `CppPrefs.ParseLineMeaning` and run by `CppPrefs.ReadLine` |
| CppPrefs.ParseLineMeaning | scheduling.cpp:36-63 | the first field is the name, no day is worked, each day gets the shifts of its own cell, and the line fails exactly when one of the first seven cells fails to parse |
| CppPrefs.RecordDay | scheduling.cpp:58 | recording a day's shifts sets that day and no other |
| CppPrefs.ReadCell | scheduling.cpp:43-59 | the imperative cell loop (push_back, then sort) returns what `ParseCell` specifies |
| CppPrefs.CollectRanks | scheduling.cpp:44-54 | the imperative item loop (find, stoi, push_back) returns what `RanksFrom` specifies, including the first rank error |
| CppPrefs.ShiftTexts | scheduling.cpp:56-59 | the loop over the sorted pairs returns their shift texts in order |
| CppPrefs.ReadLine | scheduling.cpp:36-63 | the imperative line loop returns the employee `ParseLine` specifies |
| CppEngine.Assign | scheduling.cpp:68-73 | defines `assign_employee` on the state; stated by `CppEngine.AssignEffect` and run by `CppEngine.Scheduler.AssignEmployee` |
| CppEngine.PreferencePass | scheduling.cpp:90-98 | defines tier 1; stated by `CppEngine.PreferencePassPicks` and `CppEngine.TierPrecedence`, run by `CppEngine.Scheduler.PreferenceStep` |
| CppEngine.AssignEffect | scheduling.cpp:68-73 | a refusal happens exactly at the day cap or on a worked day and changes nothing; an acceptance appends exactly this name to exactly this slot and adds exactly this day to exactly this employee |
| CppEngine.PreferencePassPicks | scheduling.cpp:90-98 | the preference pass appends the first (2 − count) eligible employees, in roster order, who list the shift, and returns the new count |
| CppEngine.FirstPreferringIsTake | scheduling.cpp:90-98 | those employees are the first entries of the reference list `Preferring` |
| CppEngine.TierPrecedence | scheduling.cpp:90-101 | with at least two eligible employees who list the shift, the slot holds the first two in roster order, and the fill loop changes nothing |
| CppEngine.FillLoop | scheduling.cpp:101-131 | defines tiers 2 to 4; stated by `CppEngine.FillLoopSound` and run by `CppEngine.Scheduler.FillStep` |
| CppEngine.FillLoopSound | scheduling.cpp:101-131 | the fill loop ends with the slot settled (two entries without "Unassigned", or "Unassigned" last and only last), keeps the invariants and leaves the other slots alone |
| CppEngine.FillSlot | scheduling.cpp:87-131 | defines one slot (tier 1, then the fill loop); stated by `CppEngine.FillSlotSound` |
| CppEngine.RunShifts | scheduling.cpp:86-132 | defines the shift loop of one day; stated by `CppEngine.RunShiftsSound` and run by `CppEngine.Scheduler.FillDay` |
| CppEngine.RunDays | scheduling.cpp:85-133 | defines the day loop; stated by `CppEngine.RunDaysSound` |
| CppEngine.Generate | scheduling.cpp:75-134 | defines a whole run; stated by `CppEngine.GenerateSound` and `CppEngine.GenerateForgetsPriorRun`, run by `CppEngine.Scheduler.GenerateSchedule` |
| CppEngine.FillSlotSound | scheduling.cpp:87-131 | one slot keeps the invariants and moves the settled prefix one slot on |
| CppEngine.RunShiftsSound | scheduling.cpp:86-132 | one day's three slots end settled and keep the invariants |
| CppEngine.RunDaysSound | scheduling.cpp:85-133 | the remaining days end settled and keep the invariants |
| CppEngine.GenerateSound | scheduling.cpp:75-134 | after a run every employee has at most 5 days, the manager at most 5 days, every slot is settled, every "Manager" stands where nobody was eligible and every "Unassigned" also where the manager was at the cap, and with distinct names each employee works exactly one slot on each of their days |
| CppEngine.GenerateForgetsPriorRun | scheduling.cpp:76-80 | a run depends only on the roster and the picks, never on an earlier run |
| CppEngine.ManagerTwice | scheduling.cpp:119-124 | on an empty roster the first slot becomes [Manager, Manager] on a single manager day, and the manager-only warning does not list it |
| CppEngine.Scheduler.constructor | scheduling.cpp:21-23 | a scheduler starts with the given roster, an empty schedule and no manager day |
| CppEngine.Scheduler.AssignEmployee | scheduling.cpp:68-73 | returns true exactly when the employee was eligible, and the new state is the one `Assign` specifies |
| CppEngine.Scheduler.Clear | scheduling.cpp:76-80 | the new state is the cleared state |
| CppEngine.Scheduler.PreferenceStep | scheduling.cpp:87-98 | the roster loop leaves the state and count of the preference pass |
| CppEngine.Scheduler.EligibleNow | scheduling.cpp:102-107 | the candidate loop returns exactly the candidates |
| CppEngine.Scheduler.FillAttempt | scheduling.cpp:102-130 | one iteration of the while loop: either it stops with the loop's final state, or it adds one to the count and leaves the rest of the loop's work unchanged |
| CppEngine.Scheduler.FillStep | scheduling.cpp:101-131 | the while loop leaves the state the fill loop specifies |
| CppEngine.Scheduler.FillDay | scheduling.cpp:86-132 | the shift loop leaves the state of one day's run |
| CppEngine.Scheduler.GenerateSchedule | scheduling.cpp:75-134 | the new state is `Generate` of the old one, so everything `GenerateSound` states holds for it |
| CppEngine.Scheduler.DisplaySchedule | scheduling.cpp:140-155 | the visiting loop returns exactly the manager-only slots and the slots containing "Unassigned" |
| CppReport.ManagerOnlySlots | scheduling.cpp:140-152 | defines the manager-only list; stated by `CppReport.ManagerOnlySlotsMeaning` and `CppReport.WarningsInVisitOrder` |
| CppReport.UnassignedSlots | scheduling.cpp:140-155 | defines the unassigned list; stated by `CppReport.UnassignedSlotsMeaning` and `CppReport.WarningsInVisitOrder` |
| CppReport.ManagerOnlySlotsMeaning | scheduling.cpp:150-152 | a slot is listed as manager-only exactly when its names are the single name "Manager" |
| CppReport.UnassignedSlotsMeaning | scheduling.cpp:153-155 | a slot is listed as unassigned exactly when one of its names is "Unassigned" |
| CppReport.WarningsInVisitOrder | scheduling.cpp:140-155 | both lists are in visiting order without repeats |
| CppReport.VisitSlot | scheduling.cpp:150-155 | visiting a slot appends it to each list exactly when it qualifies |
| CppReport.VisitDone | scheduling.cpp:140-156 | after all 21 visits the lists are the full warning lists |
| CppReport.WarningsDisjoint | scheduling.py:111-114 | no slot is in both lists |
| CppReport.ManagerOnlyShowsNoUnassigned | scheduling.py:111-113 | a manager-only slot shows no "Unassigned", so the `elif` equals an independent second test |
| CppReport.ShownManagerOnly | scheduling.cpp:150 | when no employee bears a sentinel's name, the names are ["Manager"] exactly when the slot is the lone manager entry |
| CppReport.ShownUnassigned | scheduling.cpp:153 | under the same condition, the names show "Unassigned" exactly when the slot holds the sentinel |
| CppReport.ManagerOnlyJustified | scheduling.cpp:119-124 | in a state with justified sentinels, a manager-only slot lies on a manager day when nobody was eligible |
| CppReport.UnassignedJustified | scheduling.cpp:127-130 | an unassigned slot lies on a day when nobody was eligible and the manager was at the cap |
| PyPrefs.Strip | scheduling.py:44 | the stripped text neither starts nor ends with whitespace |
| PyPrefs.StripSpaced | scheduling.py:44 | stripping text padded with whitespace gives back the text |
| PyPrefs.StripKeeps | scheduling.py:52 | stripping keeps every non-space character that occurs, and adds none |
| PyPrefs.StripStripped | scheduling.py:44 | stripping is idempotent |
| PyPrefs.PyInt | scheduling.py:51 | defines base-10 `int()`; stated by `PyPrefs.PyIntSigned`, `PyPrefs.PyIntNoDigits` and `PyPrefs.PyIntSeparator` |
| PyPrefs.PyIntSigned | scheduling.py:51 | round trip: `int()` of any integer's decimal spelling, padded with whitespace that `int()` skips, gives the integer |
| PyPrefs.PyIntNoDigits | scheduling.py:51 | `int()` of text without a digit raises ValueError |
| PyPrefs.PyIntSeparator | scheduling.py:51 | a trailing U+001C, which `str.strip` removes, makes `int()` raise ValueError |
| PyPrefs.Key | scheduling.py:51 | defines the sort key; stated by `PyPrefs.KeyAll` and `PyPrefs.KeyAllErr` |
| PyPrefs.KeyAll | scheduling.py:51 | when every key computes, each entry is paired with its own key, in input order |
| PyPrefs.KeyAllErr | scheduling.py:51 | a failing key is a ValueError |
| PyPrefs.DayPrefsRejects | scheduling.py:51 | one entry whose key fails makes the whole cell raise ValueError |
| PyPrefs.StableSortSorted | scheduling.py:51 | the sort yields a permutation of its input, ordered by key |
| PyPrefs.StableSortFilter | scheduling.py:51 | the sort is stable: the entries of each key keep their input order |
| PyPrefs.StableUnique | scheduling.py:51 | two key-sorted sequences with the same entries per key, in the same order, are equal, so any stable sort, Python's included, gives this result |
| PyPrefs.ShiftIndex | scheduling.py:53 | a name in SHIFTS maps to its own shift |
| PyPrefs.PicksAscend | scheduling.py:51-53 | the kept (rank, shift) picks ascend by rank |
| PyPrefs.PicksMembers | scheduling.py:52-53 | a (rank, shift) is kept exactly when some entry has a ':', that rank, and that shift name as its text between the first and second ':' |
| PyPrefs.RankedShifts | scheduling.py:50-53 | defines the preferences of one cell; stated by `PyPrefs.RankedShiftsMeaning` and `PyPrefs.DayPrefsRejects` |
| PyPrefs.RankedShiftsMeaning | scheduling.py:50-53 | a cell whose keys compute yields the picks of the stably sorted entries: ascending ranks, per-rank input order, exactly the entries that spell a shift |
| PyPrefs.NoPrefs | scheduling.py:13 | a new employee has every day with no shift |
| PyPrefs.ReadDay | scheduling.py:48-53 | defines one day of a row (KeyError without the column, nothing for an empty or missing cell); stated through `PyPrefs.ReadDaysMeaning` |
| PyPrefs.ReadDays | scheduling.py:48-53 | defines the day loop of a row; stated by `PyPrefs.ReadDaysMeaning`, `PyPrefs.ReadDaysFailsAt` and `PyPrefs.ReadDaysSucceeds`, run by `PyPrefs.ReadPreferences` |
| PyPrefs.ReadDaysMeaning | scheduling.py:48-53 | when the day loop succeeds, each day read ends with its cell's preferences if the cell has text, and with what it had otherwise |
| PyPrefs.ReadDaysFailsAt | scheduling.py:48-51 | one day that raises makes the whole row raise |
| PyPrefs.ReadDaysSucceeds | scheduling.py:48-53 | when no day raises, the row's day loop succeeds |
| PyPrefs.ReadRow | scheduling.py:44-54 | defines one row; stated by `PyPrefs.ReadRowMeaning` |
| PyPrefs.ReadRowMeaning | scheduling.py:44-54 | a row is skipped without an exception exactly when its Name cell is present and strips to blank; otherwise it yields the employee named `row['Name'].strip()`, holding the preferences the row's seven day cells give and no assigned day |
| PyPrefs.ImportFrom | scheduling.py:39-57 | defines the row loop; stated by `PyPrefs.ImportFromMeaning`, `PyPrefs.ImportedMembers`, `PyPrefs.ImportedNames` and `PyPrefs.ImportFails`, run by `PyEngine.SchedulerApp.ImportEmployees` |
| PyPrefs.FirstRaise | scheduling.py:43-57 | the row the loop stops at lies at or after the current row, and raises unless it is the end of the file |
| PyPrefs.FirstRaiseMeaning | scheduling.py:43-57 | every row before the one `FirstRaise` gives reads without an exception |
| PyPrefs.ImportFromMeaning | scheduling.py:39-57 | the roster is the employees already imported followed by the employee of each row, in row order, from the current row up to the first row that raises; the exception reported is that row's, and none when no row raises |
| PyPrefs.ImportedMembers | scheduling.py:42-54 | an employee is in the imported roster exactly when some row before the first raising one yields it |
| Text.GatherMembers | scheduling.py:43-54 | an item is in the concatenation of the parts a row range yields exactly when one row's part holds it |
| PyPrefs.ImportedNames | scheduling.py:44-47 | every imported employee has a non-blank, stripped name and no assigned day |
| PyPrefs.ImportFails | scheduling.py:39-57 | the import reports an exception exactly when some row from the current one on raises |
| PyPrefs.ReadPreferences | scheduling.py:48-53 | the imperative day loop returns what `ReadDays` specifies |
| PyEngine.PlaceFrom | scheduling.py:73-80 | the shift loop of one employee keeps every name and preference list; which shift it picks is stated by `PyEngine.PlacedFirstOpen` and `PyEngine.PlacedNowhere` |
| PyEngine.PrefRoster | scheduling.py:70-80 | the roster loop of one day keeps every name and preference list; the rest is stated by `PyEngine.PreferencePhase` |
| PyEngine.PrefDays | scheduling.py:67-80 | the preference phase keeps every name and preference list; the rest is stated by `PyEngine.PreferencePhase` and `PyEngine.PrefDaysManager` |
| PyEngine.PlacedFirstOpen | scheduling.py:73-80 | an employee is placed in the first shift of their list that is open (fewer than 2 placements, not already holding them, day not yet worked), and the count of that shift rises by one |
| PyEngine.PlacedNowhere | scheduling.py:74-80 | when no listed shift is open, nothing changes |
| PyEngine.PreferencePhase | scheduling.py:60-80 | after the reset and the preference phase the state keeps the invariants, every slot holds at most 2 distinct workers, and the manager has no day |
| PyEngine.PrefDaysManager | scheduling.py:67-80 | the preference phase never touches the manager's days |
| PyEngine.FillPy | scheduling.py:85-97 | the while loop of one slot keeps every name and preference list; the rest is stated by `PyEngine.FillPySound` |
| PyEngine.FillShifts | scheduling.py:84-97 | the shift loop of one day keeps every name and preference list; the rest is stated by `PyEngine.FillShiftsSound` |
| PyEngine.FillDays | scheduling.py:83-97 | the day loop keeps every name and preference list; the rest is stated by `PyEngine.FillDaysSound` |
| PyEngine.FillPySound | scheduling.py:85-97 | the fill loop ends with the slot settled (one or two entries, a sentinel only last, a last worker only in a full slot) and keeps the invariants |
| PyEngine.FillShiftsSound | scheduling.py:84-97 | one day's shifts end settled |
| PyEngine.FillDaysSound | scheduling.py:83-97 | all remaining days end settled |
| PyEngine.Generate | scheduling.py:59-97 | defines a whole run; stated by `PyEngine.GenerateSound` and `PyEngine.GenerateForgetsPriorRun`, run by `PyEngine.SchedulerApp.GenerateSchedule` |
| PyEngine.GenerateSound | scheduling.py:59-97 | after a run every employee and the manager have at most 5 days, every slot is settled, sentinels are justified, and with distinct names each employee works exactly one slot on each of their days |
| PyEngine.GenerateForgetsPriorRun | scheduling.py:60-65 | a run depends only on the roster and the picks |
| PyEngine.ManagerOnce | scheduling.py:91-94 | on an empty roster the slot gets one "Manager" and the loop stops; the slot is reported as manager-only |
| PyEngine.SettledUnassigned | scheduling.py:95-97 | in a settled slot "Unassigned" can only be the last entry |
| PyEngine.SettledWarnings | scheduling.py:111-114 | for a settled slot with plain names, manager-only means exactly [Manager] and unassigned means a last "Unassigned" |
| PyEngine.PyWarnings | scheduling.py:111-114 | the same, over a whole schedule of settled slots |
| PyEngine.SchedulerApp.constructor | scheduling.py:21-22 | no employee and an empty schedule |
| PyEngine.SchedulerApp.ImportEmployees | scheduling.py:42-54 | the row loop leaves the roster and error that `ImportFrom` specifies and does not touch the schedule |
| PyEngine.SchedulerApp.Clear | scheduling.py:60-65 | the new state is the cleared state |
| PyEngine.SchedulerApp.PreferencePhase | scheduling.py:67-80 | the day loop leaves the state of the preference phase |
| PyEngine.SchedulerApp.PreferDay | scheduling.py:69-80 | the roster loop of one day, with fresh counts, leaves the state `PrefRoster` specifies |
| PyEngine.SchedulerApp.PlaceEmployee | scheduling.py:73-80 | the shift loop of one employee leaves the state and counts `PlaceFrom` specifies |
| PyEngine.SchedulerApp.Available | scheduling.py:86 | returns exactly the available employees |
| PyEngine.SchedulerApp.FillAttempt | scheduling.py:86-97 | one iteration of the while loop: either it stops with the loop's final state, or it grows the slot by one and leaves the rest of the loop's work unchanged |
| PyEngine.SchedulerApp.FillShift | scheduling.py:85-97 | the while loop leaves the state `FillPy` specifies |
| PyEngine.SchedulerApp.FillPhase | scheduling.py:82-97 | the nested loops leave the state of the fill phase |
| PyEngine.SchedulerApp.GenerateSchedule | scheduling.py:59-99 | the new roster and schedule are `Generate` of the old roster, so `GenerateSound` applies; the reported lists are the manager-only and unassigned slots |
| PyEngine.SchedulerApp.DisplaySchedule | scheduling.py:106-114 | the `if`/`elif` loop returns exactly the manager-only slots and the slots containing "Unassigned": the `elif` loses no slot |

## Left out

- File and stream I/O, `main`, console output, the tkinter window, the file dialog and the message boxes. A cancelled dialog or a file that fails to open leaves the Python roster unchanged; this is not modelled.
- The random engines (`random_device`, `mt19937`, `shuffle`, `random.choice`). They are replaced by the `choose` parameter, and the properties hold for every `choose`.
- C++ `std::map::operator[]` creating empty entries on reads. A schedule is a map whose missing slot reads as the empty list, which is what the source observes. The same holds for Python's 21 empty lists.
- The warning labels `"day - shift"` are modelled as (day, shift) pairs. The order and the choice of slots are kept; the string formatting is not.
- The C++ read loop modelled in `CppPrefs.ReadLine` takes the line as text. Reading it from the file and the header line are not part of this model.
- C++ uncaught `std::stoi` exceptions, which end the program, are modelled as an error result.
- Python's `csv.DictReader` is modelled by its rows as maps from column name to cell; quoting and dialects are not modelled. A missing trailing cell is `None`, which makes `.strip()` on the name an AttributeError.
- Python `int()` accepts non-ASCII digits and has a limit on the number of digits. The model accepts ASCII digits, optional sign, surrounding whitespace other than U+001C to U+001F (which `int()` rejects although `str.strip` removes them) and single underscores between digits, with no limit.
- Employees whose names are "Manager" or "Unassigned" are indistinguishable from the sentinels in the printed schedule. The report lemmas that relate warnings to sentinels assume plain names.
- CppEngine.GenerateSound: "one shift per day per employee" is stated through names, so it is proved for rosters with distinct names. With duplicate names the slots cannot tell two employees apart.
- PyEngine.GenerateSound: the same restriction to distinct names for "one shift per day per employee".
- Insertion sorts stand for `std::sort` and Python's Timsort. `CppPrefs.SortedUnique` and `PyPrefs.StableUnique` show that any sort with the same guarantees gives the same result.
