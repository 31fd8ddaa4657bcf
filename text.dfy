/** Text utilities shared by the two preference parsers: results, decimal
    digits, and the two ways the sources cut a string at a separator
    (C++ std::getline with a delimiter, Python str.split). */
module Text {

  datatype Option<T> = None | Some(value: T)

  datatype Result<T, E> = Ok(value: T) | Err(error: E)

  // ---------------------------------------------------------------------
  // Decimal digits

  predicate IsDigit(c: char) {
    '0' <= c <= '9'
  }

  ghost predicate AllDigits(s: string) {
    forall k :: 0 <= k < |s| ==> IsDigit(s[k])
  }

  function DigitValue(c: char): (v: nat)
    requires IsDigit(c)
    ensures v < 10
  {
    c as int - '0' as int
  }

  function DigitChar(v: nat): (c: char)
    requires v < 10
    ensures IsDigit(c) && DigitValue(c) == v
  {
    ['0', '1', '2', '3', '4', '5', '6', '7', '8', '9'][v]
  }

  /** The number a run of decimal digits denotes, most significant first. */
  function DigitsValue(ds: string): nat
    requires AllDigits(ds)
  {
    if ds == [] then 0 else DigitsValue(ds[..|ds| - 1]) * 10 + DigitValue(ds[|ds| - 1])
  }

  /** The shortest decimal spelling of n. */
  function Decimal(n: nat): (r: string)
    ensures |r| > 0 && AllDigits(r)
  {
    if n < 10 then [DigitChar(n)] else Decimal(n / 10) + [DigitChar(n % 10)]
  }

  /** Reading back the spelling of n gives n. */
  lemma {:induction false} DecimalValue(n: nat)
    ensures DigitsValue(Decimal(n)) == n
  {
    if n >= 10 {
      var r := Decimal(n);
      assert r[..|r| - 1] == Decimal(n / 10);
      DecimalValue(n / 10);
    }
  }

  /** A signed decimal spelling: "-" before the digits of a negative number. */
  function Signed(v: int): string {
    if v < 0 then "-" + Decimal(-v) else Decimal(v)
  }

  // ---------------------------------------------------------------------
  // Searching and cutting

  /** Position of the first occurrence of c, if any. */
  function IndexOf(s: string, c: char): (r: Option<nat>)
    ensures r.None? ==> c !in s
    ensures r.Some? ==> r.value < |s| && s[r.value] == c && c !in s[..r.value]
  {
    if s == [] then None
    else if s[0] == c then Some(0)
    else
      var r := IndexOf(s[1..], c);
      if r.None? then None
      else
        assert s[..r.value + 1] == [s[0]] + s[1..][..r.value];
        Some(r.value + 1)
  }

  /** The pieces successive calls of std::getline(stream, piece, sep)
      deliver: every separator ends a piece, and the text after the last
      separator is a piece only if it is not empty. */
  function Pieces(s: string, sep: char): seq<string>
    decreases |s|
  {
    if s == [] then []
    else
      match IndexOf(s, sep)
      case None => [s]
      case Some(k) => [s[..k]] + Pieces(s[k + 1..], sep)
  }

  /** Python's str.split(sep): every separator ends a piece, and the text
      after the last separator is always a piece, empty or not. */
  function Split(s: string, sep: char): (r: seq<string>)
    ensures |r| >= 1
    decreases |s|
  {
    match IndexOf(s, sep)
    case None => [s]
    case Some(k) => [s[..k]] + Split(s[k + 1..], sep)
  }

  /** No piece contains the separator. */
  lemma {:induction false} PiecesFree(s: string, sep: char)
    ensures forall k :: 0 <= k < |Pieces(s, sep)| ==> sep !in Pieces(s, sep)[k]
    decreases |s|
  {
    if s != [] {
      match IndexOf(s, sep)
      case None =>
      case Some(k) =>
        PiecesFree(s[k + 1..], sep);
        assert forall j :: 1 <= j < |Pieces(s, sep)| ==> Pieces(s, sep)[j] == Pieces(s[k + 1..], sep)[j - 1];
    }
  }

  lemma {:induction false} SplitFree(s: string, sep: char)
    ensures forall k :: 0 <= k < |Split(s, sep)| ==> sep !in Split(s, sep)[k]
    decreases |s|
  {
    match IndexOf(s, sep)
    case None =>
    case Some(k) =>
      SplitFree(s[k + 1..], sep);
      assert forall j :: 1 <= j < |Split(s, sep)| ==> Split(s, sep)[j] == Split(s[k + 1..], sep)[j - 1];
  }

  /** The pieces glued back together with the separator between them. */
  function Join(pieces: seq<string>, sep: char): string {
    if pieces == [] then []
    else if |pieces| == 1 then pieces[0]
    else pieces[0] + [sep] + Join(pieces[1..], sep)
  }

  lemma JoinCons(x: string, rest: seq<string>, sep: char)
    requires rest != []
    ensures Join([x] + rest, sep) == x + [sep] + Join(rest, sep)
  {
    assert ([x] + rest)[1..] == rest;
  }

  /** A text is the part before position k, the character there, and the
      part after it. */
  lemma CutAt(s: string, k: nat)
    requires k < |s|
    ensures s == s[..k] + [s[k]] + s[k + 1..]
  {
  }

  /** Python's split loses nothing: joining the pieces gives the text back. */
  lemma {:induction false} SplitJoin(s: string, sep: char)
    ensures Join(Split(s, sep), sep) == s
    decreases |s|
  {
    var i := IndexOf(s, sep);
    if i.Some? {
      var k := i.value;
      var rest := s[k + 1..];
      var pieces := Split(rest, sep);
      assert Split(s, sep) == [s[..k]] + pieces;
      SplitJoin(rest, sep);
      JoinCons(s[..k], pieces, sep);
      CutAt(s, k);
    }
  }

  /** std::getline loses only a separator that ends the text. */
  lemma {:induction false} PiecesJoin(s: string, sep: char)
    ensures Join(Pieces(s, sep), sep) + (if s != [] && s[|s| - 1] == sep then [sep] else []) == s
    decreases |s|
  {
    var i := IndexOf(s, sep);
    if s != [] && i.Some? {
      var k := i.value;
      var rest := s[k + 1..];
      var pieces := Pieces(rest, sep);
      assert Pieces(s, sep) == [s[..k]] + pieces;
      PiecesJoin(rest, sep);
      CutAt(s, k);
      if rest != [] {
        PiecesJoinMore(s, sep, k);
      } else {
        assert Join(Pieces(s, sep), sep) == s[..k];
      }
    }
  }

  lemma PiecesJoinMore(s: string, sep: char, k: nat)
    requires k < |s| - 1 && IndexOf(s, sep) == Some(k)
    requires Join(Pieces(s[k + 1..], sep), sep) + (if s[|s| - 1] == sep then [sep] else []) == s[k + 1..]
    ensures Join(Pieces(s, sep), sep) + (if s[|s| - 1] == sep then [sep] else []) == s
  {
    var rest := s[k + 1..];
    var pieces := Pieces(rest, sep);
    var t: string := if s[|s| - 1] == sep then [sep] else [];
    assert Pieces(s, sep) == [s[..k]] + pieces;
    assert pieces != [];
    JoinCons(s[..k], pieces, sep);
    Regroup(s[..k] + [sep], Join(pieces, sep), t);
    CutAt(s, k);
  }

  lemma Regroup<T>(a: seq<T>, b: seq<T>, c: seq<T>)
    ensures a + b + c == a + (b + c)
  {
  }

  /** The two cuts differ exactly in the final piece: getline never delivers
      a final empty piece, split always delivers a final piece. */
  lemma {:induction false} PiecesAreSplit(s: string, sep: char)
    ensures s == [] ==> Pieces(s, sep) == [] && Split(s, sep) == [[]]
    ensures s != [] && s[|s| - 1] == sep ==> Split(s, sep) == Pieces(s, sep) + [[]]
    ensures s != [] && s[|s| - 1] != sep ==> Split(s, sep) == Pieces(s, sep)
    decreases |s|
  {
    if s != [] {
      match IndexOf(s, sep)
      case None =>
      case Some(k) =>
        var rest := s[k + 1..];
        PiecesAreSplit(rest, sep);
        if rest != [] {
          assert s[|s| - 1] == rest[|rest| - 1];
        }
    }
  }

  // ---------------------------------------------------------------------
  // Gathering

  /** The concatenation of f(xs[lo]), ..., f(xs[hi - 1]). */
  function Gather<A, B>(xs: seq<A>, f: A -> seq<B>, lo: nat, hi: nat): seq<B>
    requires lo <= hi <= |xs|
    decreases hi - lo
  {
    if lo == hi then [] else f(xs[lo]) + Gather(xs, f, lo + 1, hi)
  }

  /** y is gathered exactly when one of the parts holds it. */
  lemma {:induction false} GatherMembers<A, B>(xs: seq<A>, f: A -> seq<B>, lo: nat, hi: nat, y: B)
    requires lo <= hi <= |xs|
    ensures y in Gather(xs, f, lo, hi) <==> exists j :: lo <= j < hi && y in f(xs[j])
    decreases hi - lo
  {
    if lo < hi {
      GatherMembers(xs, f, lo + 1, hi, y);
      var head, tail := f(xs[lo]), Gather(xs, f, lo + 1, hi);
      assert Gather(xs, f, lo, hi) == head + tail;
      assert y in head + tail <==> y in head || y in tail;
      if y in head {
        assert lo <= lo < hi && y in f(xs[lo]);
      }
      if exists j :: lo <= j < hi && y in f(xs[j]) {
        var j :| lo <= j < hi && y in f(xs[j]);
        if j > lo {
          assert y in tail;
        }
      }
    }
  }

  // Pairs

  /** The second components of the pairs, in order. */
  function Seconds<A, B>(xs: seq<(A, B)>): (r: seq<B>)
    ensures |r| == |xs| && forall k :: 0 <= k < |xs| ==> r[k] == xs[k].1
  {
    if xs == [] then [] else [xs[0].1] + Seconds(xs[1..])
  }

  lemma SecondsAppend<A, B>(xs: seq<(A, B)>, x: (A, B))
    ensures Seconds(xs + [x]) == Seconds(xs) + [x.1]
  {
    assert forall k :: 0 <= k < |xs| ==> (xs + [x])[k] == xs[k];
  }

  // ---------------------------------------------------------------------
  // Filtering

  /** The elements of xs that keep accepts, in their order. */
  function Filter<T(!new)>(xs: seq<T>, keep: T -> bool): (r: seq<T>)
    ensures |r| <= |xs|
    ensures forall x :: x in r <==> x in xs && keep(x)
  {
    if xs == [] then []
    else (if keep(xs[0]) then [xs[0]] else []) + Filter(xs[1..], keep)
  }

  lemma {:induction false} FilterAppend<T(!new)>(xs: seq<T>, x: T, keep: T -> bool)
    ensures Filter(xs + [x], keep) == Filter(xs, keep) + (if keep(x) then [x] else [])
  {
    if xs != [] {
      assert (xs + [x])[1..] == xs[1..] + [x];
      FilterAppend(xs[1..], x, keep);
    } else {
      assert [] + [x] == [x];
    }
  }
}
