/** The preference import of scheduling.py (import_employees): each row of
    the file maps column names to cells; the name is stripped and a blank
    name skips the row; each non-empty day cell is cut at ',' into
    `rank:shift` entries, the entries are sorted by rank with Python's
    stable sort, and the shift names of the entries that have a ':' are
    kept when they are one of SHIFTS. */
module PyPrefs {
  import opened Text
  import opened Week

  /** The exceptions a row can raise; the source catches them all and
      stops the import. */
  datatype PyError = ValueError | KeyError | AttributeError

  type PyEmployee = Employee<Shift>

  // ---------------------------------------------------------------------
  // str.strip

  /** str.isspace: the characters str.strip removes. */
  predicate IsPySpace(c: char) {
    c == ' ' || ('\t' <= c <= '\r') || ('\U{001C}' <= c <= '\U{001F}') ||
    c == '\U{0085}' || c == '\U{00A0}' || c == '\U{1680}' ||
    ('\U{2000}' <= c <= '\U{200A}') || c == '\U{2028}' || c == '\U{2029}' ||
    c == '\U{202F}' || c == '\U{205F}' || c == '\U{3000}'
  }

  ghost predicate AllSpaces(s: string) {
    forall k :: 0 <= k < |s| ==> IsPySpace(s[k])
  }

  function StripStart(s: string): (r: string)
    ensures r != [] ==> !IsPySpace(r[0])
  {
    if s != [] && IsPySpace(s[0]) then StripStart(s[1..]) else s
  }

  function StripEnd(s: string): (r: string)
    ensures r != [] ==> !IsPySpace(r[|r| - 1])
  {
    if s != [] && IsPySpace(s[|s| - 1]) then StripEnd(s[..|s| - 1]) else s
  }

  /** str.strip() without arguments. */
  function Strip(s: string): (r: string)
    ensures r != [] ==> !IsPySpace(r[0]) && !IsPySpace(r[|r| - 1])
  {
    var r := StripEnd(StripStart(s));
    if r != [] then
      StripEndKeepsHead(StripStart(s));
      r
    else r
  }

  lemma {:induction false} StripEndKeepsHead(s: string)
    requires s != [] && !IsPySpace(s[0])
    ensures StripEnd(s) != [] && StripEnd(s)[0] == s[0]
    decreases |s|
  {
    if IsPySpace(s[|s| - 1]) {
      StripEndKeepsHead(s[..|s| - 1]);
    }
  }

  lemma {:induction false} StripStartSpaced(ws: string, u: string)
    requires AllSpaces(ws) && (u == [] || !IsPySpace(u[0]))
    ensures StripStart(ws + u) == u
    decreases |ws|
  {
    if ws != [] {
      assert (ws + u)[1..] == ws[1..] + u;
      StripStartSpaced(ws[1..], u);
    } else {
      assert ws + u == u;
    }
  }

  lemma {:induction false} StripEndSpaced(u: string, ws: string)
    requires AllSpaces(ws) && (u == [] || !IsPySpace(u[|u| - 1]))
    ensures StripEnd(u + ws) == u
    decreases |ws|
  {
    if ws != [] {
      var ws' := ws[..|ws| - 1];
      assert (u + ws)[..|u + ws| - 1] == u + ws';
      StripEndSpaced(u, ws');
    } else {
      assert u + ws == u;
    }
  }

  /** Whitespace around a text without whitespace at its ends is exactly
      what str.strip removes. */
  lemma StripSpaced(ws: string, u: string, ws': string)
    requires AllSpaces(ws) && AllSpaces(ws')
    requires u != [] && !IsPySpace(u[0]) && !IsPySpace(u[|u| - 1])
    ensures Strip(ws + u + ws') == u
  {
    assert ws + u + ws' == ws + (u + ws');
    StripStartSpaced(ws, u + ws');
    StripEndSpaced(u, ws');
  }

  /** Stripping keeps every character that is not whitespace. */
  lemma {:induction false} StripStartKeeps(s: string, c: char)
    requires !IsPySpace(c)
    ensures c in s <==> c in StripStart(s)
    decreases |s|
  {
    if s != [] && IsPySpace(s[0]) {
      assert s == [s[0]] + s[1..];
      StripStartKeeps(s[1..], c);
    }
  }

  lemma {:induction false} StripEndKeeps(s: string, c: char)
    requires !IsPySpace(c)
    ensures c in s <==> c in StripEnd(s)
    decreases |s|
  {
    if s != [] && IsPySpace(s[|s| - 1]) {
      assert s == s[..|s| - 1] + [s[|s| - 1]];
      StripEndKeeps(s[..|s| - 1], c);
    }
  }

  lemma StripKeeps(s: string, c: char)
    requires !IsPySpace(c)
    ensures c in s <==> c in Strip(s)
  {
    StripStartKeeps(s, c);
    StripEndKeeps(StripStart(s), c);
  }

  // ---------------------------------------------------------------------
  // int()

  /** What int() accepts after the sign: digits, with single underscores
      allowed between two digits. */
  predicate DigitGroups(s: string)
    decreases |s|
  {
    s != [] && IsDigit(s[0]) &&
    (|s| == 1 || (if s[1] == '_' then DigitGroups(s[2..]) else DigitGroups(s[1..])))
  }

  /** The value of the digits of s read from the left onto acc; the
      underscores carry no value. */
  function Numeral(s: string, acc: nat): nat
    decreases |s|
  {
    if s == [] then acc
    else if IsDigit(s[0]) then Numeral(s[1..], acc * 10 + DigitValue(s[0]))
    else Numeral(s[1..], acc)
  }

  /** The four information separators: str.isspace counts them, but int()
      skips only the ASCII whitespace \t \n \v \f \r and space (and the
      spaces beyond ASCII), so a separator anywhere makes int() fail. */
  predicate IsSeparator(c: char) {
    '\U{001C}' <= c <= '\U{001F}'
  }

  predicate NoSeparator(s: string) {
    forall k :: 0 <= k < |s| ==> !IsSeparator(s[k])
  }

  /** Whitespace int() skips around a number. */
  ghost predicate AllIntSpaces(s: string) {
    AllSpaces(s) && NoSeparator(s)
  }

  lemma NoSeparatorConcat(a: string, b: string, c: string)
    requires NoSeparator(a) && NoSeparator(b) && NoSeparator(c)
    ensures NoSeparator(a + b + c)
  {
    var t := a + b + c;
    forall k | 0 <= k < |t| ensures !IsSeparator(t[k]) {
      if k < |a| {
        assert t[k] == a[k];
      } else if k < |a| + |b| {
        assert t[k] == b[k - |a|];
      } else {
        assert t[k] == c[k - |a| - |b|];
      }
    }
  }

  /** int(t) in base 10: whitespace around the text is ignored, then an
      optional sign and the digit groups; anything else, a separator
      included, is a ValueError. Python's int is unbounded, so there is no
      range error. */
  function PyInt(t: string): Result<int, PyError> {
    if !NoSeparator(t) then Err(ValueError)
    else
    var u := Strip(t);
    var signed := u != [] && (u[0] == '+' || u[0] == '-');
    var body := if signed then u[1..] else u;
    if !DigitGroups(body) then Err(ValueError)
    else
      var m := Numeral(body, 0);
      Ok(if signed && u[0] == '-' then -(m as int) else m)
  }

  lemma {:induction false} NumeralSnoc(s: string, c: char, acc: nat)
    requires IsDigit(c)
    ensures Numeral(s + [c], acc) == Numeral(s, acc) * 10 + DigitValue(c)
    decreases |s|
  {
    if s == [] {
      assert s + [c] == [c];
    } else {
      assert (s + [c])[1..] == s[1..] + [c];
      NumeralSnoc(s[1..], c, if IsDigit(s[0]) then acc * 10 + DigitValue(s[0]) else acc);
    }
  }

  /** int() reads the decimal spelling of n back as n. */
  lemma {:induction false} NumeralDecimal(n: nat)
    ensures Numeral(Decimal(n), 0) == n
  {
    if n < 10 {
      assert Decimal(n)[1..] == [];
    } else {
      NumeralDecimal(n / 10);
      NumeralSnoc(Decimal(n / 10), DigitChar(n % 10), 0);
    }
  }

  lemma {:induction false} DigitsAreGroups(s: string)
    requires s != [] && AllDigits(s)
    ensures DigitGroups(s)
    decreases |s|
  {
    if |s| > 1 {
      DigitsAreGroups(s[1..]);
    }
  }

  lemma SignedEnds(v: int)
    ensures var t := Signed(v);
      && t != [] && !IsPySpace(t[0]) && !IsPySpace(t[|t| - 1])
      && (v < 0 ==> t == "-" + Decimal(-v))
      && (v >= 0 ==> t == Decimal(v))
  {
    var m: nat := if v < 0 then -v else v;
    var ds := Decimal(m);
    assert IsDigit(ds[0]) && IsDigit(ds[|ds| - 1]);
    if v < 0 {
      assert Signed(v)[|Signed(v)| - 1] == ds[|ds| - 1];
    }
  }

  /** A decimal spelling holds digits and a sign only, no separator. */
  lemma SignedNoSeparator(v: int)
    ensures NoSeparator(Signed(v))
  {
    SignedEnds(v);
    if v < 0 {
      assert forall k :: 1 <= k < |Signed(v)| ==> Signed(v)[k] == Decimal(-v)[k - 1];
    }
  }

  /** Round trip: int() reads back the decimal spelling of every integer,
      whatever whitespace int() skips surrounds it. */
  lemma PyIntSigned(ws: string, v: int, ws': string)
    requires AllIntSpaces(ws) && AllIntSpaces(ws')
    ensures PyInt(ws + Signed(v) + ws') == Ok(v)
  {
    SignedEnds(v);
    SignedNoSeparator(v);
    NoSeparatorConcat(ws, Signed(v), ws');
    StripSpaced(ws, Signed(v), ws');
    var m: nat := if v < 0 then -v else v;
    DigitsAreGroups(Decimal(m));
    NumeralDecimal(m);
    if v < 0 {
      assert ("-" + Decimal(m))[1..] == Decimal(m);
    } else {
      assert Decimal(m)[0] != '+' && Decimal(m)[0] != '-' by {
        assert IsDigit(Decimal(m)[0]);
      }
    }
  }

  /** Text without a single digit, the empty text included, is a
      ValueError (a missing rank, a shift name where a rank should be). */
  lemma PyIntNoDigits(t: string)
    requires forall k :: 0 <= k < |t| ==> !IsDigit(t[k])
    ensures PyInt(t) == Err(ValueError)
  {
    var u := Strip(t);
    var body := if u != [] && (u[0] == '+' || u[0] == '-') then u[1..] else u;
    if body != [] && IsDigit(body[0]) {
      assert body[0] in u;
      StripKeeps(t, body[0]);
    }
  }

  /** str.strip removes a trailing separator, but int() rejects it. */
  lemma PyIntSeparator()
    ensures Strip("1\U{001C}") == "1"
    ensures PyInt("1\U{001C}") == Err(ValueError)
  {
    assert IsSeparator("1\U{001C}"[1]);
    assert StripStart("1\U{001C}") == "1\U{001C}";
    assert StripEnd("1\U{001C}") == "1" by {
      assert "1\U{001C}"[..1] == "1";
    }
  }

  // ---------------------------------------------------------------------
  // sorted(entries, key=...)

  /** An entry with its sort key. */
  type Keyed = (int, string)

  /** The key of an entry: int() of the text before the first ':' of the
      stripped entry (the whole entry when it has no ':'). */
  function Key(x: string): Result<int, PyError> {
    PyInt(Split(Strip(x), ':')[0])
  }

  /** sorted() computes every key before it sorts; the first key that
      raises aborts the sort. */
  function KeyAll(entries: seq<string>): (r: Result<seq<Keyed>, PyError>)
    ensures r.Ok? ==> |r.value| == |entries|
    ensures r.Ok? ==> forall k :: 0 <= k < |entries| ==> Key(entries[k]).Ok? && r.value[k] == (Key(entries[k]).value, entries[k])
  {
    if entries == [] then Ok([])
    else
      match Key(entries[0])
      case Err(e) => Err(e)
      case Ok(key) =>
        match KeyAll(entries[1..])
        case Err(e) => Err(e)
        case Ok(rest) => Ok([(key, entries[0])] + rest)
  }

  /** Keys ascend. */
  ghost predicate KeySorted(xs: seq<Keyed>) {
    forall a, b :: 0 <= a < b < |xs| ==> xs[a].0 <= xs[b].0
  }

  function KeyIs(k: int): Keyed -> bool {
    (x: Keyed) => x.0 == k
  }

  /** Puts x in front of the first element whose key is not smaller, so
      that x comes before the entries of equal key. */
  function InsertStable(x: Keyed, xs: seq<Keyed>): seq<Keyed> {
    if xs == [] || x.0 <= xs[0].0 then [x] + xs
    else [xs[0]] + InsertStable(x, xs[1..])
  }

  /** Insertion sort from the back: a stable sort. StableUnique shows that
      any stable sort, Python's included, gives this result. */
  function StableSort(xs: seq<Keyed>): seq<Keyed> {
    if xs == [] then [] else InsertStable(xs[0], StableSort(xs[1..]))
  }

  lemma FilterCons<T(!new)>(x: T, xs: seq<T>, keep: T -> bool)
    ensures Filter([x] + xs, keep) == (if keep(x) then [x] else []) + Filter(xs, keep)
  {
    assert ([x] + xs)[1..] == xs;
  }

  lemma {:induction false} InsertMultiset(x: Keyed, xs: seq<Keyed>)
    ensures multiset(InsertStable(x, xs)) == multiset(xs) + multiset{x}
  {
    if !(xs == [] || x.0 <= xs[0].0) {
      InsertMultiset(x, xs[1..]);
      assert xs == [xs[0]] + xs[1..];
    }
  }

  /** A key no larger than every key of a sorted list can go in front. */
  lemma ConsSorted(y: Keyed, ys: seq<Keyed>)
    requires KeySorted(ys)
    requires forall e :: e in ys ==> y.0 <= e.0
    ensures KeySorted([y] + ys)
  {
    var r := [y] + ys;
    forall a, b | 0 <= a < b < |r| ensures r[a].0 <= r[b].0 {
      assert r[b] == ys[b - 1];
      if a > 0 {
        assert r[a] == ys[a - 1];
      }
    }
  }

  lemma {:induction false} InsertSorted(x: Keyed, xs: seq<Keyed>)
    requires KeySorted(xs)
    ensures KeySorted(InsertStable(x, xs))
  {
    if xs == [] || x.0 <= xs[0].0 {
      forall e | e in xs ensures x.0 <= e.0 {
        var j :| 0 <= j < |xs| && xs[j] == e;
      }
      ConsSorted(x, xs);
    } else {
      var rest := InsertStable(x, xs[1..]);
      KeySortedTail(xs);
      InsertSorted(x, xs[1..]);
      InsertMultiset(x, xs[1..]);
      forall e | e in rest ensures xs[0].0 <= e.0 {
        assert e in multiset(rest);
        if e != x {
          var j :| 0 <= j < |xs[1..]| && xs[1..][j] == e;
          assert xs[j + 1] == e;
        }
      }
      ConsSorted(xs[0], rest);
    }
  }

  lemma KeySortedTail(xs: seq<Keyed>)
    requires xs != [] && KeySorted(xs)
    ensures KeySorted(xs[1..])
  {
    forall a, b | 0 <= a < b < |xs| - 1 ensures xs[1..][a].0 <= xs[1..][b].0 {
      assert xs[1..][a] == xs[a + 1] && xs[1..][b] == xs[b + 1];
    }
  }

  /** Inserting x changes no subsequence of equal keys except x's own,
      where x comes first. */
  lemma {:induction false} InsertFilter(x: Keyed, xs: seq<Keyed>, k: int)
    ensures Filter(InsertStable(x, xs), KeyIs(k)) == Filter([x] + xs, KeyIs(k))
  {
    if !(xs == [] || x.0 <= xs[0].0) {
      var rest := InsertStable(x, xs[1..]);
      InsertFilter(x, xs[1..], k);
      assert ([xs[0]] + rest)[1..] == rest;
      KeyFilterCons([xs[0]] + rest, k);
      assert ([x] + xs[1..])[1..] == xs[1..];
      KeyFilterCons([x] + xs[1..], k);
      assert ([x] + xs)[1..] == xs;
      KeyFilterCons([x] + xs, k);
      KeyFilterCons(xs, k);
    }
  }

  /** The sort is stable: the entries of each key keep their input order. */
  lemma {:induction false} StableSortFilter(xs: seq<Keyed>, k: int)
    ensures Filter(StableSort(xs), KeyIs(k)) == Filter(xs, KeyIs(k))
  {
    if xs != [] {
      StableSortFilter(xs[1..], k);
      InsertFilter(xs[0], StableSort(xs[1..]), k);
      FilterCons(xs[0], StableSort(xs[1..]), KeyIs(k));
      FilterCons(xs[0], xs[1..], KeyIs(k));
      assert xs == [xs[0]] + xs[1..];
    }
  }

  /** The sort orders by key and loses or adds nothing. */
  lemma {:induction false} StableSortSorted(xs: seq<Keyed>)
    ensures KeySorted(StableSort(xs))
    ensures multiset(StableSort(xs)) == multiset(xs)
  {
    if xs != [] {
      StableSortSorted(xs[1..]);
      InsertSorted(xs[0], StableSort(xs[1..]));
      InsertMultiset(xs[0], StableSort(xs[1..]));
      assert xs == [xs[0]] + xs[1..];
    }
  }

  /** Sorted by key with the same entries of each key in the same order:
      a stable sort has only one possible result. */
  lemma {:induction false} StableUnique(a: seq<Keyed>, b: seq<Keyed>)
    requires KeySorted(a) && KeySorted(b)
    requires forall k :: Filter(a, KeyIs(k)) == Filter(b, KeyIs(k))
    ensures a == b
    decreases |a|
  {
    if a == [] || b == [] {
      var c := if a == [] then b else a;
      if c != [] {
        KeyFilterCons(c, c[0].0);
      }
    } else {
      SameFirstKey(a, b);
      SameFirstKey(b, a);
      forall k' ensures Filter(a[1..], KeyIs(k')) == Filter(b[1..], KeyIs(k')) {
        TailFilters(a, b, k');
      }
      TailFilters(a, b, a[0].0);
      KeySortedTail(a);
      KeySortedTail(b);
      StableUnique(a[1..], b[1..]);
    }
  }

  /** Two lists starting with the same key that agree on one key's
      entries agree on them after their first elements too. */
  lemma TailFilters(a: seq<Keyed>, b: seq<Keyed>, k: int)
    requires a != [] && b != [] && a[0].0 == b[0].0
    requires Filter(a, KeyIs(k)) == Filter(b, KeyIs(k))
    ensures Filter(a[1..], KeyIs(k)) == Filter(b[1..], KeyIs(k))
    ensures k == a[0].0 ==> a[0] == b[0]
  {
    KeyFilterCons(a, k);
    KeyFilterCons(b, k);
    var fa := Filter(a, KeyIs(k));
    if k == a[0].0 {
      assert Filter(a[1..], KeyIs(k)) == fa[1..];
      assert fa[0] == a[0] && fa[0] == b[0];
    }
  }

  lemma KeyFilterCons(xs: seq<Keyed>, k: int)
    requires xs != []
    ensures xs[0].0 == k ==> Filter(xs, KeyIs(k)) == [xs[0]] + Filter(xs[1..], KeyIs(k))
    ensures xs[0].0 != k ==> Filter(xs, KeyIs(k)) == Filter(xs[1..], KeyIs(k))
  {
  }

  /** The first key of a sorted list is its smallest, so two sorted lists
      with the same entries per key start with the same key. */
  lemma SameFirstKey(a: seq<Keyed>, b: seq<Keyed>)
    requires a != [] && b != [] && KeySorted(b)
    requires Filter(a, KeyIs(a[0].0)) == Filter(b, KeyIs(a[0].0))
    ensures b[0].0 <= a[0].0
  {
    FilterCons(a[0], a[1..], KeyIs(a[0].0));
    assert a == [a[0]] + a[1..];
    var f := Filter(b, KeyIs(a[0].0));
    assert f[0] in f;
    var j :| 0 <= j < |b| && b[j] == f[0];
    assert j == 0 || b[0].0 <= b[j].0;
  }

  // ---------------------------------------------------------------------
  // The two list comprehensions

  /** The text between the first and the second ':' of the stripped entry. */
  function ShiftText(x: string): string
    requires ':' in x
  {
    StripKeeps(x, ':');
    SplitCut(Strip(x), ':');
    Split(Strip(x), ':')[1]
  }

  lemma SplitCut(s: string, sep: char)
    requires sep in s
    ensures |Split(s, sep)| >= 2
  {
  }

  /** The position in SHIFTS of a shift name. */
  function ShiftIndex(name: string): (s: Shift)
    requires name in SHIFTS
    ensures SHIFTS[s] == name
  {
    if name == SHIFTS[0] then 0 else if name == SHIFTS[1] then 1 else 2
  }

  /** Lines 52-53 in one pass: of the sorted entries, those with a ':'
      whose shift text is one of SHIFTS, as (rank, shift). */
  function Picks(ranked: seq<Keyed>): seq<(int, Shift)> {
    if ranked == [] then []
    else
      var x := ranked[0].1;
      (if ':' in x && ShiftText(x) in SHIFTS then [(ranked[0].0, ShiftIndex(ShiftText(x)))] else [])
      + Picks(ranked[1..])
  }

  /** One non-empty day cell, ranks kept. */
  function RankedShifts(cell: string): Result<seq<(int, Shift)>, PyError> {
    match KeyAll(Split(cell, ','))
    case Err(e) => Err(e)
    case Ok(keyed) => Ok(Picks(StableSort(keyed)))
  }

  /** preferences[day] for a non-empty cell. */
  function DayPrefs(cell: string): Result<seq<Shift>, PyError> {
    match RankedShifts(cell)
    case Err(e) => Err(e)
    case Ok(rs) => Ok(Seconds(rs))
  }

  ghost predicate RanksAscend(rs: seq<(int, Shift)>) {
    forall a, b :: 0 <= a < b < |rs| ==> rs[a].0 <= rs[b].0
  }

  /** The picks of a list sorted by key come in ascending rank. */
  lemma {:induction false} PicksAscend(ranked: seq<Keyed>)
    requires KeySorted(ranked)
    ensures RanksAscend(Picks(ranked))
    ensures forall k :: 0 <= k < |Picks(ranked)| ==> ranked != [] && Picks(ranked)[k].0 >= ranked[0].0
  {
    if ranked != [] {
      KeySortedTail(ranked);
      PicksAscend(ranked[1..]);
      var rest := Picks(ranked[1..]);
      var r := Picks(ranked);
      forall k | 0 <= k < |rest| ensures rest[k].0 >= ranked[0].0 {
        assert ranked[1..] != [] && ranked[0].0 <= ranked[1].0;
      }
      var x := ranked[0].1;
      if ':' in x && ShiftText(x) in SHIFTS {
        assert r == [(ranked[0].0, ShiftIndex(ShiftText(x)))] + rest;
        forall a, b | 0 <= a < b < |r| ensures r[a].0 <= r[b].0 {
          assert r[b] == rest[b - 1];
          if a > 0 {
            assert r[a] == rest[a - 1];
          }
        }
      }
    }
  }

  /** The entry e, of rank `rank`, names shift s after its ':'. */
  ghost predicate Spells(e: Keyed, rank: int, s: Shift) {
    e.0 == rank && ':' in e.1 && ShiftText(e.1) == SHIFTS[s]
  }

  lemma PicksCons(ranked: seq<Keyed>)
    requires ranked != []
    ensures var x := ranked[0].1;
      Picks(ranked) ==
        (if ':' in x && ShiftText(x) in SHIFTS then [(ranked[0].0, ShiftIndex(ShiftText(x)))] else [])
        + Picks(ranked[1..])
  {
  }

  /** A (rank, shift) is picked exactly when some entry spells it. */
  lemma {:induction false} PicksMembers(ranked: seq<Keyed>, rank: int, s: Shift)
    ensures (rank, s) in Picks(ranked) <==> exists e :: e in ranked && Spells(e, rank, s)
  {
    if ranked != [] {
      var tail := ranked[1..];
      PicksMembers(tail, rank, s);
      PicksCons(ranked);
      assert ranked == [ranked[0]] + tail;
      HeadPick(ranked[0], rank, s);
    }
  }

  /** The head's own contribution to the picks. */
  lemma HeadPick(e: Keyed, rank: int, s: Shift)
    ensures var x := e.1;
      (rank, s) in (if ':' in x && ShiftText(x) in SHIFTS then [(e.0, ShiftIndex(ShiftText(x)))] else [])
      <==> Spells(e, rank, s)
  {
  }

  /** After import a day's preferences are shift names of SHIFTS, in
      ascending rank, entries of equal rank in their order in the cell; a
      (rank, shift) is listed exactly when an entry of the cell spells it. */
  lemma RankedShiftsMeaning(cell: string, keyed: seq<Keyed>, rank: int, s: Shift)
    requires KeyAll(Split(cell, ',')) == Ok(keyed)
    ensures RankedShifts(cell) == Ok(Picks(StableSort(keyed)))
    ensures RanksAscend(Picks(StableSort(keyed)))
    ensures forall k :: Filter(StableSort(keyed), KeyIs(k)) == Filter(keyed, KeyIs(k))
    ensures (rank, s) in Picks(StableSort(keyed)) <==> exists e :: e in keyed && Spells(e, rank, s)
  {
    var sorted := StableSort(keyed);
    StableSortSorted(keyed);
    PicksAscend(sorted);
    forall k ensures Filter(sorted, KeyIs(k)) == Filter(keyed, KeyIs(k)) {
      StableSortFilter(keyed, k);
    }
    PicksMembers(sorted, rank, s);
    forall e | e in keyed ensures e in sorted {
      assert e in multiset(keyed);
    }
    forall e | e in sorted ensures e in keyed {
      assert e in multiset(sorted);
    }
  }

  /** A rank that int() rejects, anywhere in the cell, rejects the cell. */
  lemma DayPrefsRejects(cell: string, j: nat)
    requires j < |Split(cell, ',')| && Key(Split(cell, ',')[j]).Err?
    ensures DayPrefs(cell) == Err(ValueError)
  {
    var entries := Split(cell, ',');
    KeyAllErr(entries);
  }

  lemma {:induction false} KeyAllErr(entries: seq<string>)
    ensures KeyAll(entries).Err? ==> KeyAll(entries).error == ValueError
  {
    if entries != [] {
      KeyAllErr(entries[1..]);
    }
  }

  // ---------------------------------------------------------------------
  // Rows

  /** A csv.DictReader row: column name to cell; the cells a short line
      lacks are None. */
  type Row = map<string, Option<string>>

  /** A new Employee's preferences: every day, no shift. */
  function NoPrefs(): (r: map<Day, seq<Shift>>)
    ensures forall d: Day :: d in r && r[d] == []
  {
    map[0 := [], 1 := [], 2 := [], 3 := [], 4 := [], 5 := [], 6 := []]
  }

  /** One day of a row: a KeyError when the file has no such column,
      nothing to set when the cell is empty or missing, else the cell's
      preferences or the exception they raise. */
  function ReadDay(row: Row, d: Day): Result<Option<seq<Shift>>, PyError> {
    if DAYS[d] !in row then Err(KeyError)
    else
      match row[DAYS[d]]
      case None => Ok(None)
      case Some(cell) =>
        if cell == [] then Ok(None)
        else
          match DayPrefs(cell)
          case Err(e) => Err(e)
          case Ok(ps) => Ok(Some(ps))
  }

  /** The loop over the days of one row, with the preferences so far. */
  function ReadDays(row: Row, d: nat, prefs: map<Day, seq<Shift>>): Result<map<Day, seq<Shift>>, PyError>
    requires d <= 7
    decreases 7 - d
  {
    if d == 7 then Ok(prefs)
    else
      match ReadDay(row, d)
      case Err(e) => Err(e)
      case Ok(None) => ReadDays(row, d + 1, prefs)
      case Ok(Some(ps)) => ReadDays(row, d + 1, prefs[d := ps])
  }

  /** One row: an employee, nothing for a blank name, or the exception. */
  function ReadRow(row: Row): Result<Option<PyEmployee>, PyError> {
    if "Name" !in row then Err(KeyError)
    else
      match row["Name"]
      case None => Err(AttributeError)
      case Some(raw) =>
        var name := Strip(raw);
        if name == [] then Ok(None)
        else
          match ReadDays(row, 0, NoPrefs())
          case Err(e) => Err(e)
          case Ok(prefs) => Ok(Some(Employee(name, prefs, {})))
  }

  /** The loop over the rows: the employees so far, and the exception
      that stopped the import, if any. The employees read before the
      failing row stay imported. */
  function ImportFrom(rows: seq<Row>, i: nat, acc: seq<PyEmployee>): (seq<PyEmployee>, Option<PyError>)
    requires i <= |rows|
    decreases |rows| - i
  {
    if i == |rows| then (acc, None)
    else
      match ReadRow(rows[i])
      case Err(e) => (acc, Some(e))
      case Ok(None) => ImportFrom(rows, i + 1, acc)
      case Ok(Some(emp)) => ImportFrom(rows, i + 1, acc + [emp])
  }

  /** The preferences a day ends with: its cell's, or what it had. */
  function Outcome(row: Row, day: Day, prefs: map<Day, seq<Shift>>): seq<Shift>
    requires day in prefs && ReadDay(row, day).Ok?
  {
    match ReadDay(row, day).value
    case None => prefs[day]
    case Some(ps) => ps
  }

  /** Every day from d on is read, and ends with its cell's preferences
      when the cell has text and with what it had otherwise; the days
      before d are untouched. */
  lemma {:induction false} ReadDaysMeaning(row: Row, d: nat, prefs: map<Day, seq<Shift>>, day: Day)
    requires d <= 7
    requires forall x: Day :: x in prefs
    requires ReadDays(row, d, prefs).Ok?
    ensures day in ReadDays(row, d, prefs).value
    ensures day >= d ==> ReadDay(row, day).Ok? && ReadDays(row, d, prefs).value[day] == Outcome(row, day, prefs)
    ensures day < d ==> ReadDays(row, d, prefs).value[day] == prefs[day]
    decreases 7 - d
  {
    if d < 7 {
      var next := ReadDaysStep(row, d, prefs);
      ReadDaysMeaning(row, d + 1, next, day);
    }
  }

  /** One successful day of the loop: the day reads, and the loop goes on
      with that day set to its outcome and the other days as they were. */
  lemma ReadDaysStep(row: Row, d: Day, prefs: map<Day, seq<Shift>>) returns (next: map<Day, seq<Shift>>)
    requires forall x: Day :: x in prefs
    requires ReadDays(row, d, prefs).Ok?
    ensures ReadDay(row, d).Ok? && ReadDays(row, d, prefs) == ReadDays(row, d + 1, next)
    ensures forall x: Day :: x in next && next[x] == if x == d then Outcome(row, d, prefs) else prefs[x]
  {
    next := match ReadDay(row, d).value case None => prefs case Some(ps) => prefs[d := ps];
  }

  /** A day that fails, from d on, fails the day loop. */
  lemma {:induction false} ReadDaysFailsAt(row: Row, d: nat, prefs: map<Day, seq<Shift>>, day: Day)
    requires d <= day && ReadDay(row, day).Err?
    ensures ReadDays(row, d, prefs).Err?
    decreases 7 - d
  {
    var next := ReadDaysNext(row, d, prefs);
    if d < day && ReadDay(row, d).Ok? {
      ReadDaysFailsAt(row, d + 1, next, day);
    }
  }

  /** One day of the loop: a failing day fails the loop, any other goes on
      with the preferences next. */
  lemma ReadDaysNext(row: Row, d: Day, prefs: map<Day, seq<Shift>>) returns (next: map<Day, seq<Shift>>)
    ensures ReadDay(row, d).Err? ==> ReadDays(row, d, prefs) == Err(ReadDay(row, d).error)
    ensures ReadDay(row, d).Ok? ==> ReadDays(row, d, prefs) == ReadDays(row, d + 1, next)
  {
    next := if ReadDay(row, d).Err? then prefs
      else match ReadDay(row, d).value case None => prefs case Some(ps) => prefs[d := ps];
  }

  /** When every day from d on reads, so does the day loop. */
  lemma {:induction false} ReadDaysSucceeds(row: Row, d: nat, prefs: map<Day, seq<Shift>>)
    requires d <= 7
    requires forall day: Day :: d <= day ==> ReadDay(row, day).Ok?
    ensures ReadDays(row, d, prefs).Ok?
    decreases 7 - d
  {
    if d < 7 {
      var next := ReadDaysNext(row, d, prefs);
      ReadDaysSucceeds(row, d + 1, next);
    }
  }

  /** What import_employees gives every employee: a stripped, non-blank
      name and no assigned day. */
  ghost predicate FreshImport(e: PyEmployee) {
    e.name != [] && Strip(e.name) == e.name && e.assignedDays == {}
  }

  /** Every employee an import yields is a fresh import. */
  lemma {:induction false} ImportedNames(rows: seq<Row>, i: nat, acc: seq<PyEmployee>)
    requires i <= |rows|
    requires forall k :: 0 <= k < |acc| ==> FreshImport(acc[k])
    ensures forall k :: 0 <= k < |ImportFrom(rows, i, acc).0| ==> FreshImport(ImportFrom(rows, i, acc).0[k])
    decreases |rows| - i
  {
    if i < |rows| {
      match ReadRow(rows[i])
      case Err(e) =>
      case Ok(None) =>
        ImportedNames(rows, i + 1, acc);
      case Ok(Some(emp)) =>
        StripStripped(rows[i]["Name"].value);
        ImportedNames(rows, i + 1, acc + [emp]);
    }
  }

  /** str.strip is idempotent. */
  lemma StripStripped(s: string)
    ensures Strip(Strip(s)) == Strip(s)
  {
    var r := Strip(s);
    if r != [] {
      StripSpaced([], r, []);
      assert [] + r + [] == r;
    }
  }

  /** The import stops with an exception exactly when some row from i on
      raises one. */
  lemma {:induction false} ImportFails(rows: seq<Row>, i: nat, acc: seq<PyEmployee>)
    requires i <= |rows|
    ensures ImportFrom(rows, i, acc).1.Some? <==> exists j :: i <= j < |rows| && ReadRow(rows[j]).Err?
    decreases |rows| - i
  {
    if i < |rows| {
      match ReadRow(rows[i])
      case Err(e) =>
      case Ok(None) =>
        ImportFails(rows, i + 1, acc);
      case Ok(Some(emp)) =>
        ImportFails(rows, i + 1, acc + [emp]);
    }
  }

  /** One row yields nothing exactly when its stripped name is blank, and
      otherwise the employee with that stripped name, the row's day
      preferences and no assigned day. */
  lemma ReadRowMeaning(row: Row)
    ensures ReadRow(row) == Ok(None) <==>
      "Name" in row && row["Name"].Some? && Strip(row["Name"].value) == []
    ensures ReadRow(row).Ok? && ReadRow(row).value.Some? ==>
      && "Name" in row && row["Name"].Some?
      && ReadDays(row, 0, NoPrefs()).Ok?
      && ReadRow(row).value.value == Employee(Strip(row["Name"].value), ReadDays(row, 0, NoPrefs()).value, {})
  {
  }

  /** The employee a row yields: none when its name is blank or it raises. */
  function RowEmployee(row: Row): (r: seq<PyEmployee>)
    ensures |r| <= 1
  {
    match ReadRow(row)
    case Ok(Some(e)) => [e]
    case _ => []
  }

  /** The first row from i on that raises; |rows| when none does. */
  function FirstRaise(rows: seq<Row>, i: nat): (r: nat)
    requires i <= |rows|
    ensures i <= r <= |rows| && (r < |rows| ==> ReadRow(rows[r]).Err?)
    decreases |rows| - i
  {
    if i == |rows| || ReadRow(rows[i]).Err? then i else FirstRaise(rows, i + 1)
  }

  /** Every row before FirstRaise reads. */
  lemma {:induction false} FirstRaiseMeaning(rows: seq<Row>, i: nat)
    requires i <= |rows|
    ensures forall j :: i <= j < FirstRaise(rows, i) ==> ReadRow(rows[j]).Ok?
    decreases |rows| - i
  {
    if i < |rows| && ReadRow(rows[i]).Ok? {
      FirstRaiseMeaning(rows, i + 1);
    }
  }

  /** What the import builds: the employees already imported, then those
      the rows from i up to the first raising row yield, in row order; the
      exception reported is that row's, none when no row raises. */
  lemma {:induction false} ImportFromMeaning(rows: seq<Row>, i: nat, acc: seq<PyEmployee>)
    requires i <= |rows|
    ensures ImportFrom(rows, i, acc).0 == acc + Gather(rows, RowEmployee, i, FirstRaise(rows, i))
    ensures ImportFrom(rows, i, acc).1 ==
      if FirstRaise(rows, i) == |rows| then None else Some(ReadRow(rows[FirstRaise(rows, i)]).error)
    decreases |rows| - i
  {
    if i < |rows| {
      var stop := FirstRaise(rows, i);
      match ReadRow(rows[i])
      case Err(_) =>
      case Ok(None) =>
        assert stop == FirstRaise(rows, i + 1);
        assert RowEmployee(rows[i]) == [];
        assert Gather(rows, RowEmployee, i, stop) == [] + Gather(rows, RowEmployee, i + 1, stop);
        ImportFromMeaning(rows, i + 1, acc);
      case Ok(Some(emp)) =>
        assert stop == FirstRaise(rows, i + 1);
        assert RowEmployee(rows[i]) == [emp];
        assert Gather(rows, RowEmployee, i, stop) == [emp] + Gather(rows, RowEmployee, i + 1, stop);
        ImportFromMeaning(rows, i + 1, acc + [emp]);
        Regroup(acc, [emp], Gather(rows, RowEmployee, i + 1, stop));
    }
  }

  /** Who gets imported: an employee is in the roster exactly when a row
      before the first raising one yields it. */
  lemma ImportedMembers(rows: seq<Row>, e: PyEmployee)
    ensures e in ImportFrom(rows, 0, []).0 <==>
      exists j :: 0 <= j < FirstRaise(rows, 0) && e in RowEmployee(rows[j])
  {
    ImportFromMeaning(rows, 0, []);
    assert [] + Gather(rows, RowEmployee, 0, FirstRaise(rows, 0)) == Gather(rows, RowEmployee, 0, FirstRaise(rows, 0));
    GatherMembers(rows, RowEmployee, 0, FirstRaise(rows, 0), e);
  }

  /** The day loop of one row, as the source runs it. */
  method ReadPreferences(row: Row) returns (r: Result<map<Day, seq<Shift>>, PyError>)
    ensures r == ReadDays(row, 0, NoPrefs())
  {
    var prefs := NoPrefs();
    for d := 0 to 7
      invariant ReadDays(row, d, prefs) == ReadDays(row, 0, NoPrefs())
    {
      if DAYS[d] !in row {
        return Err(KeyError);
      }
      var cell := row[DAYS[d]];
      if cell.Some? && cell.value != [] {
        var ps := DayPrefs(cell.value);
        if ps.Err? {
          return Err(ps.error);
        }
        prefs := prefs[d := ps.value];
      }
    }
    return Ok(prefs);
  }
}
