/** The preference reader of scheduling.cpp (read_csv): each line is cut at
    ',' into the name and up to seven day cells; a non-empty cell is cut at
    '|' into `rank:shift` items, the items with a ':' become (rank, shift)
    pairs, the pairs are sorted, and the shifts are kept in that order. */
module CppPrefs {
  import opened Text
  import opened Week

  /** The two exceptions std::stoi throws. */
  datatype StoiError = InvalidArgument | OutOfRange

  /** The range of a 32-bit int, which std::stoi enforces. */
  const INT_MIN: int := -0x8000_0000
  const INT_MAX: int := 0x7fff_ffff

  type Rank = (int, string)

  // ---------------------------------------------------------------------
  // std::stoi

  /** isspace in the C locale. */
  predicate IsCSpace(c: char) {
    c == ' ' || c == '\t' || c == '\n' || c == '\U{000B}' || c == '\U{000C}' || c == '\r'
  }

  /** Length of the leading run of C whitespace. */
  function LeadingSpaces(s: string): (n: nat)
    ensures n <= |s|
  {
    if s == [] || !IsCSpace(s[0]) then 0 else 1 + LeadingSpaces(s[1..])
  }

  /** Length of the leading run of decimal digits. */
  function LeadingDigits(s: string): (n: nat)
    ensures n <= |s| && AllDigits(s[..n])
    ensures n < |s| ==> !IsDigit(s[n])
  {
    if s == [] || !IsDigit(s[0]) then 0
    else
      var n := 1 + LeadingDigits(s[1..]);
      assert s[..n] == [s[0]] + s[1..][..n - 1];
      n
  }

  /** std::stoi(t): strtol in base 10 skips leading whitespace and reads
      the rest; stoi then checks that the value fits an int. */
  function Stoi(t: string): (r: Result<int, StoiError>)
    ensures r.Ok? ==> INT_MIN <= r.value <= INT_MAX
  {
    ReadSigned(t[LeadingSpaces(t)..])
  }

  /** An optional sign and the longest run of digits; anything after it is
      ignored, and no digit at all is std::invalid_argument. */
  function ReadSigned(rest: string): (r: Result<int, StoiError>)
    ensures r.Ok? ==> INT_MIN <= r.value <= INT_MAX
  {
    var signed := |rest| > 0 && (rest[0] == '+' || rest[0] == '-');
    var body := if signed then rest[1..] else rest;
    var n := LeadingDigits(body);
    if n == 0 then Err(InvalidArgument)
    else
      var magnitude := DigitsValue(body[..n]);
      var v: int := if signed && rest[0] == '-' then -(magnitude as int) else magnitude;
      if v < INT_MIN || v > INT_MAX then Err(OutOfRange) else Ok(v)
  }

  lemma {:induction false} LeadingSpacesOf(ws: string, u: string)
    requires forall k :: 0 <= k < |ws| ==> IsCSpace(ws[k])
    ensures LeadingSpaces(ws + u) == |ws| + LeadingSpaces(u)
  {
    if ws != [] {
      assert (ws + u)[1..] == ws[1..] + u;
      LeadingSpacesOf(ws[1..], u);
    } else {
      assert ws + u == u;
    }
  }

  /** Whitespace in front of a number changes nothing. */
  lemma StoiSkipsSpaces(ws: string, u: string)
    requires forall k :: 0 <= k < |ws| ==> IsCSpace(ws[k])
    ensures Stoi(ws + u) == Stoi(u)
  {
    var k := LeadingSpaces(u);
    assert LeadingSpaces(ws + u) == |ws| + k by {
      LeadingSpacesOf(ws, u);
    }
    DropJoined(ws, u, k);
  }

  lemma DropJoined(ws: string, u: string, k: nat)
    requires k <= |u|
    ensures (ws + u)[|ws| + k..] == u[k..]
  {
  }

  lemma {:induction false} LeadingDigitsOf(ds: string, u: string)
    requires AllDigits(ds)
    requires u == [] || !IsDigit(u[0])
    ensures LeadingDigits(ds + u) == |ds|
  {
    if ds != [] {
      assert (ds + u)[1..] == ds[1..] + u;
      LeadingDigitsOf(ds[1..], u);
    }
  }

  /** Round trip: std::stoi reads back the decimal spelling of every int,
      whatever whitespace comes before it and whatever non-digit text after. */
  lemma StoiSigned(ws: string, v: int, tail: string)
    requires INT_MIN <= v <= INT_MAX
    requires forall k :: 0 <= k < |ws| ==> IsCSpace(ws[k])
    requires tail == [] || !IsDigit(tail[0])
    ensures Stoi(ws + Signed(v) + tail) == Ok(v)
  {
    assert ws + Signed(v) + tail == ws + (Signed(v) + tail);
    StoiSkipsSpaces(ws, Signed(v) + tail);
    if v < 0 {
      StoiNegative(-v, tail);
    } else {
      StoiNonNegative(v, tail);
    }
  }

  /** Text that does not start with whitespace is read as it is. */
  lemma StoiNoSpace(u: string)
    requires u != [] && !IsCSpace(u[0])
    ensures Stoi(u) == ReadSigned(u)
  {
    assert LeadingSpaces(u) == 0;
    assert u[0..] == u;
  }

  /** Digits followed by a non-digit are read as their value. */
  lemma ReadUnsigned(ds: string, tail: string)
    requires ds != [] && AllDigits(ds)
    requires tail == [] || !IsDigit(tail[0])
    ensures ReadSigned(ds + tail) ==
      if DigitsValue(ds) <= INT_MAX then Ok(DigitsValue(ds)) else Err(OutOfRange)
  {
    var u := ds + tail;
    assert u[0] == ds[0];
    LeadingDigitsOf(ds, tail);
    assert u[..|ds|] == ds;
  }

  /** A minus sign, digits and a non-digit are read as the negated value. */
  lemma ReadMinus(ds: string, tail: string)
    requires ds != [] && AllDigits(ds)
    requires tail == [] || !IsDigit(tail[0])
    ensures ReadSigned("-" + (ds + tail)) ==
      if -(DigitsValue(ds) as int) >= INT_MIN then Ok(-(DigitsValue(ds) as int)) else Err(OutOfRange)
  {
    var u := "-" + (ds + tail);
    assert u[1..] == ds + tail;
    LeadingDigitsOf(ds, tail);
    assert (ds + tail)[..|ds|] == ds;
  }

  lemma StoiNonNegative(m: nat, tail: string)
    requires tail == [] || !IsDigit(tail[0])
    ensures Stoi(Decimal(m) + tail) == if m <= INT_MAX then Ok(m) else Err(OutOfRange)
  {
    StoiDigits(Decimal(m), tail);
    DecimalValue(m);
  }

  lemma StoiDigits(ds: string, tail: string)
    requires ds != [] && AllDigits(ds)
    requires tail == [] || !IsDigit(tail[0])
    ensures Stoi(ds + tail) ==
      if DigitsValue(ds) <= INT_MAX then Ok(DigitsValue(ds)) else Err(OutOfRange)
  {
    assert (ds + tail)[0] == ds[0];
    StoiNoSpace(ds + tail);
    ReadUnsigned(ds, tail);
  }

  lemma StoiNegative(m: nat, tail: string)
    requires m > 0
    requires tail == [] || !IsDigit(tail[0])
    ensures Stoi(Signed(-(m as int)) + tail) == if -(m as int) >= INT_MIN then Ok(-(m as int)) else Err(OutOfRange)
  {
    var ds := Decimal(m);
    SignedNegative(m, tail);
    StoiMinus(ds, tail);
    DecimalValue(m);
  }

  lemma SignedNegative(m: nat, tail: string)
    requires m > 0
    ensures Signed(-(m as int)) + tail == "-" + (Decimal(m) + tail)
  {
    assert Signed(-(m as int)) == "-" + Decimal(m);
  }

  lemma StoiMinus(ds: string, tail: string)
    requires ds != [] && AllDigits(ds)
    requires tail == [] || !IsDigit(tail[0])
    ensures Stoi("-" + (ds + tail)) ==
      if -(DigitsValue(ds) as int) >= INT_MIN then Ok(-(DigitsValue(ds) as int)) else Err(OutOfRange)
  {
    StoiNoSpace("-" + (ds + tail));
    ReadMinus(ds, tail);
  }

  /** Spellings of numbers outside the int range make std::stoi throw
      std::out_of_range. */
  lemma StoiOutOfRange(v: int)
    requires v < INT_MIN || v > INT_MAX
    ensures Stoi(Signed(v)) == Err(OutOfRange)
  {
    if v < 0 {
      StoiNegative(-v, []);
    } else {
      StoiNonNegative(v, []);
    }
    assert Signed(v) + [] == Signed(v);
  }

  /** Text without a single digit makes std::stoi throw
      std::invalid_argument (a shift name where a rank should be, say). */
  lemma StoiNoDigits(t: string)
    requires forall k :: 0 <= k < |t| ==> !IsDigit(t[k])
    ensures Stoi(t) == Err(InvalidArgument)
  {
    var rest := t[LeadingSpaces(t)..];
    var body := if |rest| > 0 && (rest[0] == '+' || rest[0] == '-') then rest[1..] else rest;
    if body != [] {
      assert body[0] in t;
    }
  }

  // ---------------------------------------------------------------------
  // Items

  /** One item of a cell: dropped (None) without a ':'; otherwise the rank
      std::stoi reads before the first ':' and the raw shift text after it. */
  function ParseItem(item: string): Result<Option<Rank>, StoiError> {
    match IndexOf(item, ':')
    case None => Ok(None)
    case Some(pos) =>
      match Stoi(item[..pos])
      case Err(e) => Err(e)
      case Ok(rank) => Ok(Some((rank, item[pos + 1..])))
  }

  /** An item as a file spells it. */
  function ItemText(rank: int, shift: string): string {
    Signed(rank) + [':'] + shift
  }

  /** Round trip: the item spelled for an int rank and any shift text parses
      back to that rank and that text (a ':' inside the shift text is kept). */
  lemma ParseItemText(rank: int, shift: string)
    requires INT_MIN <= rank <= INT_MAX
    ensures ParseItem(ItemText(rank, shift)) == Ok(Some((rank, shift)))
  {
    var sp := Signed(rank);
    var item := ItemText(rank, shift);
    var ds := Decimal(if rank < 0 then -rank else rank);
    assert ':' !in sp by {
      if rank < 0 {
        assert sp == ['-'] + ds;
      }
      forall k | 0 <= k < |sp| ensures sp[k] != ':' {
        if rank < 0 && k > 0 {
          assert sp[k] == ds[k - 1];
        }
      }
    }
    assert item[|sp|] == ':' && item[..|sp|] == sp;
    assert IndexOf(item, ':') == Some(|sp|);
    StoiSigned([], rank, []);
    assert [] + sp + [] == sp;
    assert item[|sp| + 1..] == shift;
  }

  /** The loop over the items of a cell, with the pairs collected so far;
      the first item whose rank std::stoi rejects ends the parse. */
  function RanksFrom(items: seq<string>, i: nat, acc: seq<Rank>): Result<seq<Rank>, StoiError>
    requires i <= |items|
    decreases |items| - i
  {
    if i == |items| then Ok(acc)
    else
      match ParseItem(items[i])
      case Err(e) => Err(e)
      case Ok(None) => RanksFrom(items, i + 1, acc)
      case Ok(Some(pair)) => RanksFrom(items, i + 1, acc + [pair])
  }

  /** Reference definition: the pairs of the items that have a ':', in order. */
  function Kept(items: seq<string>): seq<Rank> {
    if items == [] then []
    else
      (match ParseItem(items[0]) case Ok(Some(pair)) => [pair] case _ => []) + Kept(items[1..])
  }

  /** Every item parses (has no ':', or a rank std::stoi accepts). */
  ghost predicate AllParse(items: seq<string>) {
    forall k :: 0 <= k < |items| ==> ParseItem(items[k]).Ok?
  }

  /** The item loop succeeds exactly when every item parses, and then
      yields the pairs of the items with a ':' in their order. */
  lemma {:induction false} RanksFromKept(items: seq<string>, i: nat, acc: seq<Rank>)
    requires i <= |items|
    ensures RanksFrom(items, i, acc).Ok? <==> AllParse(items[i..])
    ensures RanksFrom(items, i, acc).Ok? ==> RanksFrom(items, i, acc).value == acc + Kept(items[i..])
    decreases |items| - i
  {
    if i < |items| {
      RanksFromStep(items, i, acc);
      KeptStep(items, i);
      AllParseStep(items, i);
      match ParseItem(items[i])
      case Err(e) =>
      case Ok(None) =>
        RanksFromKept(items, i + 1, acc);
      case Ok(Some(pair)) =>
        RanksFromKept(items, i + 1, acc + [pair]);
        assert acc + [pair] + Kept(items[i + 1..]) == acc + ([pair] + Kept(items[i + 1..]));
    } else {
      assert items[i..] == [];
    }
  }

  lemma RanksFromStep(items: seq<string>, i: nat, acc: seq<Rank>)
    requires i < |items|
    ensures RanksFrom(items, i, acc) ==
      match ParseItem(items[i])
      case Err(e) => Err(e)
      case Ok(None) => RanksFrom(items, i + 1, acc)
      case Ok(Some(pair)) => RanksFrom(items, i + 1, acc + [pair])
  {
  }

  lemma KeptStep(items: seq<string>, i: nat)
    requires i < |items|
    ensures Kept(items[i..]) ==
      (match ParseItem(items[i]) case Ok(Some(pair)) => [pair] case _ => []) + Kept(items[i + 1..])
  {
    assert items[i..][0] == items[i] && items[i..][1..] == items[i + 1..];
  }

  lemma AllParseStep(items: seq<string>, i: nat)
    requires i < |items|
    ensures AllParse(items[i..]) <==> ParseItem(items[i]).Ok? && AllParse(items[i + 1..])
  {
    var tail := items[i..];
    assert tail[0] == items[i] && tail[1..] == items[i + 1..];
    if ParseItem(items[i]).Ok? {
      AllParseCons(tail);
    }
  }

  lemma AllParseCons(items: seq<string>)
    requires items != [] && ParseItem(items[0]).Ok?
    ensures AllParse(items) <==> AllParse(items[1..])
  {
    if AllParse(items[1..]) {
      forall k | 0 <= k < |items| ensures ParseItem(items[k]).Ok? {
        if k > 0 {
          assert items[k] == items[1..][k - 1];
        }
      }
    }
  }

  /** An item without ':' contributes nothing. */
  lemma KeptDropsPlain(items: seq<string>, plain: string)
    requires ':' !in plain
    ensures Kept([plain] + items) == Kept(items)
  {
    assert ([plain] + items)[1..] == items;
  }

  // ---------------------------------------------------------------------
  // The order of std::pair<int, std::string>

  /** std::string's order: character by character, a proper prefix first. */
  predicate StrLe(a: string, b: string)
    decreases |a|
  {
    a == [] || (b != [] && (a[0] < b[0] || (a[0] == b[0] && StrLe(a[1..], b[1..]))))
  }

  /** std::pair's order: by rank, then by shift text. */
  predicate RankLe(x: Rank, y: Rank) {
    x.0 < y.0 || (x.0 == y.0 && StrLe(x.1, y.1))
  }

  lemma {:induction false} StrLeTotal(a: string, b: string)
    ensures StrLe(a, b) || StrLe(b, a)
    decreases |a|
  {
    if a != [] && b != [] && a[0] == b[0] {
      StrLeTotal(a[1..], b[1..]);
    }
  }

  lemma {:induction false} StrLeAntisymmetric(a: string, b: string)
    requires StrLe(a, b) && StrLe(b, a)
    ensures a == b
    decreases |a|
  {
    if a != [] {
      StrLeAntisymmetric(a[1..], b[1..]);
      assert a == [a[0]] + a[1..] && b == [b[0]] + b[1..];
    }
  }

  lemma {:induction false} StrLeTransitive(a: string, b: string, c: string)
    requires StrLe(a, b) && StrLe(b, c)
    ensures StrLe(a, c)
    decreases |a|
  {
    if a != [] && a[0] == b[0] && b[0] == c[0] {
      StrLeTransitive(a[1..], b[1..], c[1..]);
    }
  }

  lemma {:induction false} StrLeReflexive(a: string)
    ensures StrLe(a, a)
    decreases |a|
  {
    if a != [] {
      StrLeReflexive(a[1..]);
    }
  }

  lemma RankLeTotal(x: Rank, y: Rank)
    ensures RankLe(x, y) || RankLe(y, x)
  {
    StrLeTotal(x.1, y.1);
  }

  lemma RankLeAntisymmetric(x: Rank, y: Rank)
    requires RankLe(x, y) && RankLe(y, x)
    ensures x == y
  {
    StrLeAntisymmetric(x.1, y.1);
  }

  lemma RankLeTransitive(x: Rank, y: Rank, z: Rank)
    requires RankLe(x, y) && RankLe(y, z)
    ensures RankLe(x, z)
  {
    if x.0 == y.0 == z.0 {
      StrLeTransitive(x.1, y.1, z.1);
    }
  }

  ghost predicate SortedRanks(xs: seq<Rank>) {
    forall a, b :: 0 <= a < b < |xs| ==> RankLe(xs[a], xs[b])
  }

  // ---------------------------------------------------------------------
  // std::sort

  /** Every element of xs is at least x. */
  ghost predicate Above(x: Rank, xs: seq<Rank>) {
    forall k :: 0 <= k < |xs| ==> RankLe(x, xs[k])
  }

  lemma SortedCons(x: Rank, xs: seq<Rank>)
    requires SortedRanks(xs) && Above(x, xs)
    ensures SortedRanks([x] + xs)
  {
    var r := [x] + xs;
    forall a, b | 0 <= a < b < |r| ensures RankLe(r[a], r[b]) {
      assert r[b] == xs[b - 1];
      if a > 0 {
        assert r[a] == xs[a - 1];
      }
    }
  }

  lemma AboveByMultiset(x: Rank, xs: seq<Rank>, ys: seq<Rank>)
    requires Above(x, xs) && multiset(ys) <= multiset(xs)
    ensures Above(x, ys)
  {
    forall k | 0 <= k < |ys| ensures RankLe(x, ys[k]) {
      assert ys[k] in multiset(xs);
      var j :| 0 <= j < |xs| && xs[j] == ys[k];
    }
  }

  /** Puts x in front of the first element it is not above. */
  function Insert(x: Rank, xs: seq<Rank>): (r: seq<Rank>)
    requires SortedRanks(xs)
    ensures SortedRanks(r) && multiset(r) == multiset(xs) + multiset{x}
  {
    if xs == [] then [x]
    else if RankLe(x, xs[0]) then
      assert Above(x, xs) by {
        forall k | 0 <= k < |xs| ensures RankLe(x, xs[k]) {
          if k > 0 {
            RankLeTransitive(x, xs[0], xs[k]);
          }
        }
      }
      SortedCons(x, xs);
      [x] + xs
    else
      assert xs == [xs[0]] + xs[1..];
      var rest := Insert(x, xs[1..]);
      RankLeTotal(x, xs[0]);
      assert Above(xs[0], xs[1..] + [x]) by {
        forall k | 0 <= k < |xs| ensures RankLe(xs[0], (xs[1..] + [x])[k]) {
          if k < |xs| - 1 {
            assert (xs[1..] + [x])[k] == xs[k + 1];
          }
        }
      }
      AboveByMultiset(xs[0], xs[1..] + [x], rest);
      SortedCons(xs[0], rest);
      [xs[0]] + rest
  }

  /** The pairs in ascending order; insertion sort stands for std::sort,
      which SortedUnique shows is sound. */
  function SortRanks(xs: seq<Rank>): (r: seq<Rank>)
    ensures SortedRanks(r) && multiset(r) == multiset(xs)
  {
    if xs == [] then []
    else
      assert xs == [xs[0]] + xs[1..];
      Insert(xs[0], SortRanks(xs[1..]))
  }

  /** The order on pairs is total, so a sorted arrangement of the same pairs
      is unique: whatever std::sort does inside, its result is SortRanks. */
  lemma {:induction false} SortedUnique(xs: seq<Rank>, ys: seq<Rank>)
    requires SortedRanks(xs) && SortedRanks(ys) && multiset(xs) == multiset(ys)
    ensures xs == ys
    decreases |xs|
  {
    if xs != [] {
      SortedHeads(xs, ys);
      MultisetTail(xs, ys);
      SortedTail(xs);
      SortedTail(ys);
      SortedUnique(xs[1..], ys[1..]);
      assert xs == [xs[0]] + xs[1..] && ys == [ys[0]] + ys[1..];
    } else {
      assert |ys| == |multiset(ys)| == 0;
    }
  }

  /** Two sorted arrangements of the same pairs start with the same pair. */
  lemma SortedHeads(xs: seq<Rank>, ys: seq<Rank>)
    requires SortedRanks(xs) && SortedRanks(ys) && multiset(xs) == multiset(ys) && xs != []
    ensures ys != [] && xs[0] == ys[0]
  {
    assert xs[0] in multiset(ys);
    assert ys[0] in multiset(xs);
    var j :| 0 <= j < |ys| && ys[j] == xs[0];
    var i :| 0 <= i < |xs| && xs[i] == ys[0];
    StrLeReflexive(xs[0].1);
    StrLeReflexive(ys[0].1);
    assert RankLe(ys[0], xs[0]) by {
      if j > 0 {
        assert RankLe(ys[0], ys[j]);
      }
    }
    assert RankLe(xs[0], ys[0]) by {
      if i > 0 {
        assert RankLe(xs[0], xs[i]);
      }
    }
    RankLeAntisymmetric(xs[0], ys[0]);
  }

  lemma MultisetTail<T>(xs: seq<T>, ys: seq<T>)
    requires multiset(xs) == multiset(ys) && xs != [] && ys != [] && xs[0] == ys[0]
    ensures multiset(xs[1..]) == multiset(ys[1..])
  {
    assert xs == [xs[0]] + xs[1..] && ys == [ys[0]] + ys[1..];
    assert multiset(xs) == multiset{xs[0]} + multiset(xs[1..]);
    assert multiset(ys) == multiset{ys[0]} + multiset(ys[1..]);
    assert multiset(xs[1..]) == multiset(xs) - multiset{xs[0]};
    assert multiset(ys[1..]) == multiset(ys) - multiset{ys[0]};
  }

  lemma SortedTail(xs: seq<Rank>)
    requires SortedRanks(xs) && xs != []
    ensures SortedRanks(xs[1..])
  {
    forall a, b | 0 <= a < b < |xs| - 1 ensures RankLe(xs[1..][a], xs[1..][b]) {
      assert xs[1..][a] == xs[a + 1] && xs[1..][b] == xs[b + 1];
    }
  }

  // ---------------------------------------------------------------------
  // Cells and lines

  /** A non-empty day cell: its items, the pairs of those with a ':', sorted,
      and their shift texts. */
  function ParseCell(cell: string): Result<seq<string>, StoiError> {
    match RanksFrom(Pieces(cell, '|'), 0, [])
    case Err(e) => Err(e)
    case Ok(ranks) => Ok(Seconds(SortRanks(ranks)))
  }

  /** What a cell yields: the shift texts of exactly the items with a ':',
      ordered by rank and, for equal ranks, by shift text; an item whose rank
      std::stoi rejects makes the whole read fail. */
  lemma ParseCellMeaning(cell: string)
    ensures var items := Pieces(cell, '|');
      && (ParseCell(cell).Ok? <==> AllParse(items))
      && (ParseCell(cell).Ok? ==>
            exists sorted ::
              && SortedRanks(sorted)
              && multiset(sorted) == multiset(Kept(items))
              && ParseCell(cell).value == Seconds(sorted))
  {
    var items := Pieces(cell, '|');
    RanksFromKept(items, 0, []);
    assert items[0..] == items;
    if ParseCell(cell).Ok? {
      var sorted := SortRanks(RanksFrom(items, 0, []).value);
      assert [] + Kept(items) == Kept(items);
      assert SortedRanks(sorted) && multiset(sorted) == multiset(Kept(items));
    }
  }

  /** Records the shifts of day d; std::map::operator[] creates the entry
      only when a shift is pushed. */
  function Record(prefs: map<Day, seq<string>>, d: Day, shifts: seq<string>): map<Day, seq<string>> {
    if shifts == [] then prefs else prefs[d := shifts]
  }

  /** The day cells of a line, from the i-th on, while i < 7: an empty cell
      adds nothing, and the first cell that fails to parse ends the read. */
  function DaysFrom(cells: seq<string>, i: nat, prefs: map<Day, seq<string>>): Result<map<Day, seq<string>>, StoiError>
    requires i <= |cells|
    decreases |cells| - i
  {
    if i == |cells| || i >= 7 then Ok(prefs)
    else if cells[i] == [] then DaysFrom(cells, i + 1, prefs)
    else
      match ParseCell(cells[i])
      case Err(e) => Err(e)
      case Ok(shifts) => DaysFrom(cells, i + 1, Record(prefs, i, shifts))
  }

  /** One line of the file: the name before the first ',' and the day cells
      after it, Monday first. */
  function ParseLine(line: string): Result<Employee<string>, StoiError> {
    var fields := Pieces(line, ',');
    var name := if fields == [] then [] else fields[0];
    var cells := if fields == [] then [] else fields[1..];
    match DaysFrom(cells, 0, map[])
    case Err(e) => Err(e)
    case Ok(prefs) => Ok(Employee(name, prefs, {}))
  }

  /** The shifts the d-th cell gives its day: none when the cell is missing
      or empty. */
  function CellShifts(cells: seq<string>, d: Day): seq<string> {
    if d < |cells| && cells[d] != [] then
      match ParseCell(cells[d]) case Ok(shifts) => shifts case Err(_) => []
    else []
  }

  /** Every cell the day loop reads parses. */
  ghost predicate CellsParse(cells: seq<string>, i: nat) {
    forall d: Day :: i <= d < |cells| && cells[d] != [] ==> ParseCell(cells[d]).Ok?
  }

  /** What the day loop records: day d gets the shifts of the d-th cell (none
      for a missing or empty cell); cells past the seventh are never read, and
      the loop fails exactly when a cell it reads fails. */
  lemma {:induction false} DaysFromMeaning(cells: seq<string>, i: nat, prefs: map<Day, seq<string>>)
    requires i <= |cells|
    requires forall d: Day :: d >= i ==> d !in prefs
    ensures DaysFrom(cells, i, prefs).Ok? <==> CellsParse(cells, i)
    ensures DaysFrom(cells, i, prefs).Ok? ==> forall d: Day ::
      DayOf(DaysFrom(cells, i, prefs).value, d) == if d < i then DayOf(prefs, d) else CellShifts(cells, d)
    decreases |cells| - i, 1
  {
    if i < |cells| && i < 7 {
      DayThenDaysMeaning(cells, i, prefs);
    }
  }

  lemma {:induction false} DayThenDaysMeaning(cells: seq<string>, i: nat, prefs: map<Day, seq<string>>)
    requires i < |cells| && i < 7
    requires forall d: Day :: d >= i ==> d !in prefs
    ensures DaysFrom(cells, i, prefs).Ok? <==> CellsParse(cells, i)
    ensures DaysFrom(cells, i, prefs).Ok? ==> forall d: Day ::
      DayOf(DaysFrom(cells, i, prefs).value, d) == if d < i then DayOf(prefs, d) else CellShifts(cells, d)
    decreases |cells| - i, 0
  {
    var next := Record(prefs, i, CellShifts(cells, i));
    CellsParseStep(cells, i);
    RecordDay(prefs, i, CellShifts(cells, i));
    DaysFromStep(cells, i, prefs);
    DaysFromMeaning(cells, i + 1, next);
  }

  lemma DaysFromStep(cells: seq<string>, i: nat, prefs: map<Day, seq<string>>)
    requires i < |cells| && i < 7
    ensures cells[i] == [] || ParseCell(cells[i]).Ok? ==>
      DaysFrom(cells, i, prefs) == DaysFrom(cells, i + 1, Record(prefs, i, CellShifts(cells, i)))
    ensures cells[i] != [] && ParseCell(cells[i]).Err? ==> DaysFrom(cells, i, prefs) == Err(ParseCell(cells[i]).error)
  {
  }

  lemma CellsParseStep(cells: seq<string>, i: nat)
    requires i < |cells| && i < 7
    ensures CellsParse(cells, i) <==> CellsParse(cells, i + 1) && (cells[i] != [] ==> ParseCell(cells[i]).Ok?)
  {
    var d: Day := i;
    assert i <= d < |cells|;
  }

  lemma RecordDay(prefs: map<Day, seq<string>>, i: Day, shifts: seq<string>)
    requires forall d: Day :: d >= i ==> d !in prefs
    ensures forall d: Day :: d > i ==> d !in Record(prefs, i, shifts)
    ensures forall d: Day :: DayOf(Record(prefs, i, shifts), d) == if d == i then shifts else DayOf(prefs, d)
  {
  }

  /** A line yields the employee named by its first field, with no day
      worked and, for each day, the shifts of the cell after the name in that
      day's column; it fails exactly when one of the first seven cells fails. */
  lemma ParseLineMeaning(line: string)
    ensures var fields := Pieces(line, ',');
      var cells := if fields == [] then [] else fields[1..];
      && (ParseLine(line).Ok? <==> CellsParse(cells, 0))
      && (ParseLine(line).Ok? ==>
            && ParseLine(line).value.name == (if fields == [] then [] else fields[0])
            && ParseLine(line).value.assignedDays == {}
            && forall d: Day :: DayOf(ParseLine(line).value.preferences, d) == CellShifts(cells, d))
  {
    var fields := Pieces(line, ',');
    DaysFromMeaning(if fields == [] then [] else fields[1..], 0, map[]);
  }

  /** The preferences of a day, none when the day has no entry. */
  function DayOf(prefs: map<Day, seq<string>>, d: Day): seq<string> {
    if d in prefs then prefs[d] else []
  }

  // ---------------------------------------------------------------------
  // The loops as read_csv runs them

  /** The cell branch of read_csv: collect the pairs item by item, sort them,
      append their shifts. */
  method ReadCell(cell: string) returns (r: Result<seq<string>, StoiError>)
    ensures r == ParseCell(cell)
  {
    var ranks := CollectRanks(Pieces(cell, '|'));
    if ranks.Err? {
      return Err(ranks.error);
    }
    var shifts := ShiftTexts(SortRanks(ranks.value));
    return Ok(shifts);
  }

  /** The item loop: push_back the pair of every item with a ':'; a rank
      std::stoi rejects ends the loop. */
  method CollectRanks(items: seq<string>) returns (r: Result<seq<Rank>, StoiError>)
    ensures r == RanksFrom(items, 0, [])
  {
    var ranks: seq<Rank> := [];
    var i := 0;
    while i < |items|
      invariant 0 <= i <= |items|
      invariant RanksFrom(items, i, ranks) == RanksFrom(items, 0, [])
    {
      RanksFromStep(items, i, ranks);
      var item := items[i];
      var pos := IndexOf(item, ':');
      if pos.Some? {
        var rank := Stoi(item[..pos.value]);
        if rank.Err? {
          return Err(rank.error);
        }
        ranks := ranks + [(rank.value, item[pos.value + 1..])];
      }
      i := i + 1;
    }
    return Ok(ranks);
  }

  /** The loop that appends the shift of each sorted pair. */
  method ShiftTexts(sorted: seq<Rank>) returns (shifts: seq<string>)
    ensures shifts == Seconds(sorted)
  {
    shifts := [];
    var k := 0;
    while k < |sorted|
      invariant 0 <= k <= |sorted|
      invariant shifts == Seconds(sorted[..k])
    {
      assert sorted[..k + 1] == sorted[..k] + [sorted[k]];
      SecondsAppend(sorted[..k], sorted[k]);
      shifts := shifts + [sorted[k].1];
      k := k + 1;
    }
    assert sorted[..|sorted|] == sorted;
  }

  /** The body of read_csv's line loop. */
  method ReadLine(line: string) returns (r: Result<Employee<string>, StoiError>)
    ensures r == ParseLine(line)
  {
    var fields := Pieces(line, ',');
    var name := if fields == [] then [] else fields[0];
    var cells := if fields == [] then [] else fields[1..];
    var prefs: map<Day, seq<string>> := map[];
    var i := 0;
    while i < |cells| && i < 7
      invariant 0 <= i <= |cells|
      invariant DaysFrom(cells, i, prefs) == DaysFrom(cells, 0, map[])
    {
      DaysFromStep(cells, i, prefs);
      if cells[i] != [] {
        var shifts := ReadCell(cells[i]);
        if shifts.Err? {
          return Err(shifts.error);
        }
        prefs := Record(prefs, i, shifts.value);
      }
      i := i + 1;
    }
    return Ok(Employee(name, prefs, {}));
  }
}
