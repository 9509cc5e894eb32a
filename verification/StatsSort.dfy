/**
 The two-pass sort of the statistics table: a stable sort by the default key followed by a stable
 sort by the chosen key, ascending or reversed, is one sort by (chosen key, default key).
 */
module StatsSort {
  import opened Options

  // ---- rows and keys ----

  datatype YearValue = YearValue(year: int, value: int)

  /** `name` is the lower-cased organization name; dates are proleptic ordinals. */
  datatype Row = Row(
    name: string, signingDate: Option<nat>, number: Option<string>, contractId: Option<int>,
    years: seq<YearValue>, total: int)

  datatype SortBy = Unset | OrganizationName | SigningDate | TotalForPeriod | Year(year: int) | Unknown
  datatype Direction = Ascending | Descending

  const DATE_MIN: nat := 1

  /** Sort keys are compared component by component. */
  datatype Component = Text(text: string) | Number(number: int)

  function DefaultKey(r: Row): seq<Component> {
    [Text(r.name), Number(r.signingDate.GetOr(DATE_MIN)), Text(r.number.GetOr("")), Number(r.contractId.GetOr(0))]
  }

  function YearCount(years: seq<YearValue>, year: int): int {
    if years == [] then 0 else if years[0].year == year then years[0].value else YearCount(years[1..], year)
  }

  function CustomKey(r: Row, sortBy: SortBy): seq<Component> {
    match sortBy
    case SigningDate => [Number(r.signingDate.GetOr(DATE_MIN))]
    case OrganizationName => [Text(r.name)]
    case TotalForPeriod => [Number(r.total)]
    case Year(year) => [Number(YearCount(r.years, year))]
    case _ => DefaultKey(r)
  }

  /** `_is_supported_sort_key`: what is not supported is dropped. */
  function Normalized(sortBy: SortBy, selectedYears: seq<int>): SortBy {
    match sortBy
    case Year(year) => if year in selectedYears then sortBy else Unset
    case Unknown => Unset
    case _ => sortBy
  }

  // ---- orders ----

  predicate TextLe(a: string, b: string) {
    a == "" || (b != "" && (a[0] < b[0] || (a[0] == b[0] && TextLe(a[1..], b[1..]))))
  }

  predicate ComponentLe(a: Component, b: Component) {
    match (a, b)
    case (Text(s), Text(t)) => TextLe(s, t)
    case (Number(m), Number(n)) => m <= n
    case (Text(_), Number(_)) => true
    case (Number(_), Text(_)) => false
  }

  predicate KeyLe(a: seq<Component>, b: seq<Component>) {
    a == [] || (b != [] && (if a[0] == b[0] then KeyLe(a[1..], b[1..]) else ComponentLe(a[0], b[0])))
  }

  lemma {:induction false} TextLeTotal(a: string, b: string)
    ensures TextLe(a, b) || TextLe(b, a)
    ensures TextLe(a, b) && TextLe(b, a) ==> a == b
  {
    if a != "" && b != "" && a[0] == b[0] {
      TextLeTotal(a[1..], b[1..]);
      assert a == [a[0]] + a[1..] && b == [b[0]] + b[1..];
    }
  }

  lemma {:induction false} TextLeTransitive(a: string, b: string, c: string)
    requires TextLe(a, b) && TextLe(b, c)
    ensures TextLe(a, c)
  {
    if a != "" && a[0] == b[0] == c[0] {
      TextLeTransitive(a[1..], b[1..], c[1..]);
    }
  }

  lemma ComponentLeOrder(a: Component, b: Component, c: Component)
    ensures ComponentLe(a, b) || ComponentLe(b, a)
    ensures ComponentLe(a, b) && ComponentLe(b, a) ==> a == b
    ensures ComponentLe(a, b) && ComponentLe(b, c) ==> ComponentLe(a, c)
  {
    if a.Text? && b.Text? {
      TextLeTotal(a.text, b.text);
      if c.Text? && TextLe(a.text, b.text) && TextLe(b.text, c.text) {
        TextLeTransitive(a.text, b.text, c.text);
      }
    }
  }

  lemma {:induction false} KeyLeTotal(a: seq<Component>, b: seq<Component>)
    ensures KeyLe(a, b) || KeyLe(b, a)
    ensures KeyLe(a, b) && KeyLe(b, a) ==> a == b
  {
    if a != [] && b != [] {
      ComponentLeOrder(a[0], b[0], b[0]);
      KeyLeTotal(a[1..], b[1..]);
      assert a == [a[0]] + a[1..] && b == [b[0]] + b[1..];
    }
  }

  lemma {:induction false} KeyLeTransitive(a: seq<Component>, b: seq<Component>, c: seq<Component>)
    requires KeyLe(a, b) && KeyLe(b, c)
    ensures KeyLe(a, c)
  {
    if a != [] {
      ComponentLeOrder(a[0], b[0], c[0]);
      ComponentLeOrder(c[0], b[0], a[0]);
      if a[0] == b[0] == c[0] {
        KeyLeTransitive(a[1..], b[1..], c[1..]);
      }
    }
  }

  /** Which key a pass sorts by. */
  datatype Pass =
    | ByDefault
    | ByCustom(sortBy: SortBy, direction: Direction)
    | ByBoth(sortBy: SortBy, direction: Direction)

  predicate Le(p: Pass, a: Row, b: Row)
    decreases p.ByBoth?
  {
    match p
    case ByDefault => KeyLe(DefaultKey(a), DefaultKey(b))
    case ByCustom(sortBy, Ascending) => KeyLe(CustomKey(a, sortBy), CustomKey(b, sortBy))
    case ByCustom(sortBy, Descending) => KeyLe(CustomKey(b, sortBy), CustomKey(a, sortBy))
    case ByBoth(sortBy, direction) =>
      if CustomKey(a, sortBy) == CustomKey(b, sortBy) then Le(ByDefault, a, b)
      else Le(ByCustom(sortBy, direction), a, b)
  }

  /** Rows a pass cannot tell apart. */
  predicate Ties(p: Pass, a: Row, b: Row) {
    Le(p, a, b) && Le(p, b, a)
  }

  lemma LeOrder(p: Pass, a: Row, b: Row, c: Row)
    ensures Le(p, a, b) || Le(p, b, a)
    ensures Le(p, a, b) && Le(p, b, c) ==> Le(p, a, c)
    decreases p.ByBoth?
  {
    match p
    case ByDefault => KeyOrder(DefaultKey(a), DefaultKey(b), DefaultKey(c));
    case ByCustom(sortBy, _) =>
      KeyOrder(CustomKey(a, sortBy), CustomKey(b, sortBy), CustomKey(c, sortBy));
      KeyOrder(CustomKey(c, sortBy), CustomKey(b, sortBy), CustomKey(a, sortBy));
    case ByBoth(sortBy, direction) =>
      LeOrder(ByDefault, a, b, c);
      LeOrder(ByCustom(sortBy, direction), a, b, c);
      KeyLeTotal(CustomKey(a, sortBy), CustomKey(b, sortBy));
      KeyLeTotal(CustomKey(b, sortBy), CustomKey(c, sortBy));
  }

  lemma KeyOrder(a: seq<Component>, b: seq<Component>, c: seq<Component>)
    ensures KeyLe(a, b) || KeyLe(b, a)
    ensures KeyLe(a, b) && KeyLe(b, c) ==> KeyLe(a, c)
  {
    KeyLeTotal(a, b);
    if KeyLe(a, b) && KeyLe(b, c) {
      KeyLeTransitive(a, b, c);
    }
  }

  // ---- stable sorting ----

  ghost predicate Sorted(p: Pass, s: seq<Row>) {
    s == [] || ((forall x | x in s[1..] :: Le(p, s[0], x)) && Sorted(p, s[1..]))
  }

  /** The rows that tie with `x`, in their order. */
  function Class(p: Pass, x: Row, s: seq<Row>): seq<Row> {
    if s == [] then [] else (if Ties(p, x, s[0]) then [s[0]] else []) + Class(p, x, s[1..])
  }

  lemma ClassTail(p: Pass, x: Row, s: seq<Row>)
    requires s != []
    ensures Ties(p, x, s[0]) ==>
              Class(p, x, s) == [s[0]] + Class(p, x, s[1..]) && Class(p, x, s)[1..] == Class(p, x, s[1..])
    ensures !Ties(p, x, s[0]) ==> Class(p, x, s) == Class(p, x, s[1..])
  {
  }

  /** A sort is stable when every class of ties keeps its order; this also makes it a permutation. */
  ghost predicate StablySorted(p: Pass, before: seq<Row>, after: seq<Row>) {
    Sorted(p, after) && forall x :: Class(p, x, after) == Class(p, x, before)
  }

  function Insert(p: Pass, x: Row, s: seq<Row>): seq<Row> {
    if s == [] then [x]
    else if Le(p, x, s[0]) then [x] + s
    else [s[0]] + Insert(p, x, s[1..])
  }

  /** `list.sort`, with insertion as its representative: by `AnyStableSortAgrees` every stable sort is this one. */
  function StableSort(p: Pass, s: seq<Row>): seq<Row> {
    if s == [] then [] else Insert(p, s[0], StableSort(p, s[1..]))
  }

  lemma {:induction false} InsertHolds(p: Pass, x: Row, s: seq<Row>)
    ensures forall y :: y in Insert(p, x, s) <==> y == x || y in s
  {
    if s != [] && !Le(p, x, s[0]) {
      InsertHolds(p, x, s[1..]);
      assert s == [s[0]] + s[1..];
    }
  }

  lemma {:induction false} InsertSorted(p: Pass, x: Row, s: seq<Row>)
    requires Sorted(p, s)
    ensures Sorted(p, Insert(p, x, s))
  {
    if s != [] {
      if Le(p, x, s[0]) {
        forall y | y in s
          ensures Le(p, x, y)
        {
          if y != s[0] {
            LeOrder(p, x, s[0], y);
          }
        }
      } else {
        LeOrder(p, x, s[0], s[0]);
        InsertSorted(p, x, s[1..]);
        InsertHolds(p, x, s[1..]);
      }
    }
  }

  lemma {:induction false} InsertKeepsClass(p: Pass, x: Row, s: seq<Row>, y: Row)
    requires Sorted(p, s)
    ensures Class(p, y, Insert(p, x, s)) == Class(p, y, [x] + s)
  {
    if s != [] && !Le(p, x, s[0]) {
      InsertKeepsClass(p, x, s[1..], y);
      assert ([x] + s)[1..] == s && ([x] + s[1..])[1..] == s[1..];
      assert !(Ties(p, y, x) && Ties(p, y, s[0])) by {
        LeOrder(p, x, y, s[0]);
      }
    }
  }

  lemma {:induction false} StableSortIsStable(p: Pass, s: seq<Row>)
    ensures StablySorted(p, s, StableSort(p, s))
  {
    if s != [] {
      StableSortIsStable(p, s[1..]);
      InsertSorted(p, s[0], StableSort(p, s[1..]));
      forall x
        ensures Class(p, x, StableSort(p, s)) == Class(p, x, s)
      {
        InsertKeepsClass(p, s[0], StableSort(p, s[1..]), x);
        assert ([s[0]] + StableSort(p, s[1..]))[1..] == StableSort(p, s[1..]);
      }
    }
  }

  lemma {:induction false} ClassMembers(p: Pass, x: Row, s: seq<Row>, y: Row)
    ensures y in Class(p, x, s) <==> y in s && Ties(p, x, y)
  {
    if s != [] {
      ClassMembers(p, x, s[1..], y);
      assert s == [s[0]] + s[1..];
    }
  }

  lemma HeadInItsClass(p: Pass, s: seq<Row>)
    requires s != []
    ensures Class(p, s[0], s) != []
  {
    LeOrder(p, s[0], s[0], s[0]);
  }

  /** Two stably sorted arrangements of the same rows are equal. */
  lemma {:induction false} StableSortIsUnique(p: Pass, a: seq<Row>, b: seq<Row>)
    requires Sorted(p, a) && Sorted(p, b) && forall x :: Class(p, x, a) == Class(p, x, b)
    ensures a == b
  {
    if a == [] {
      if b != [] {
        HeadInItsClass(p, b);
      }
    } else {
      var x := a[0];
      LeOrder(p, x, x, x);
      ClassMembers(p, x, a, x);
      ClassMembers(p, x, b, x);
      assert Class(p, x, a) == Class(p, x, b);
      SameHead(p, a, b);
      forall y
        ensures Class(p, y, a[1..]) == Class(p, y, b[1..])
      {
        assert Class(p, y, a) == Class(p, y, b);
        ClassTail(p, y, a);
        ClassTail(p, y, b);
      }
      StableSortIsUnique(p, a[1..], b[1..]);
    }
  }

  /** `list.sort` is stable, and that alone determines its result. */
  lemma AnyStableSortAgrees(p: Pass, before: seq<Row>, after: seq<Row>)
    requires StablySorted(p, before, after)
    ensures after == StableSort(p, before)
  {
    StableSortIsStable(p, before);
    StableSortIsUnique(p, after, StableSort(p, before));
  }

  lemma SameHead(p: Pass, a: seq<Row>, b: seq<Row>)
    requires a != [] && Sorted(p, a) && Sorted(p, b) && forall x :: Class(p, x, a) == Class(p, x, b)
    ensures b != [] && a[0] == b[0]
  {
    LeOrder(p, a[0], a[0], a[0]);
    assert Class(p, a[0], a) == Class(p, a[0], b);
    ClassMembers(p, a[0], b, a[0]);
    LeOrder(p, b[0], b[0], b[0]);
    assert Class(p, b[0], a) == Class(p, b[0], b);
    ClassMembers(p, b[0], a, b[0]);
    assert Le(p, a[0], b[0]) && Le(p, b[0], a[0]);
    assert Class(p, a[0], a)[0] == a[0] && Class(p, a[0], b)[0] == b[0];
  }

  // ---- the two passes ----

  function TwoPasses(rows: seq<Row>, sortBy: SortBy, direction: Direction): seq<Row> {
    var byDefault := StableSort(ByDefault, rows);
    if sortBy == Unset then byDefault else StableSort(ByCustom(sortBy, direction), byDefault)
  }

  lemma CustomTies(sortBy: SortBy, direction: Direction, a: Row, b: Row)
    ensures Ties(ByCustom(sortBy, direction), a, b) <==> CustomKey(a, sortBy) == CustomKey(b, sortBy)
    ensures Ties(ByBoth(sortBy, direction), a, b) <==> Ties(ByCustom(sortBy, direction), a, b) && Ties(ByDefault, a, b)
  {
    KeyLeTotal(CustomKey(a, sortBy), CustomKey(b, sortBy));
  }

  /** The class of both keys is the class of one key within the class of the other, in either order. */
  lemma {:induction false} ClassOfBoth(sortBy: SortBy, direction: Direction, x: Row, s: seq<Row>)
    ensures Class(ByBoth(sortBy, direction), x, s) == Class(ByDefault, x, Class(ByCustom(sortBy, direction), x, s))
    ensures Class(ByBoth(sortBy, direction), x, s) == Class(ByCustom(sortBy, direction), x, Class(ByDefault, x, s))
  {
    if s != [] {
      ClassOfBoth(sortBy, direction, x, s[1..]);
      CustomTies(sortBy, direction, x, s[0]);
      ClassOfHead(ByDefault, x, s[0], Class(ByCustom(sortBy, direction), x, s[1..]));
      ClassOfHead(ByCustom(sortBy, direction), x, s[0], Class(ByDefault, x, s[1..]));
    }
  }

  lemma ClassOfHead(p: Pass, x: Row, y: Row, s: seq<Row>)
    ensures Class(p, x, [y] + s) == (if Ties(p, x, y) then [y] else []) + Class(p, x, s)
    ensures Class(p, x, [] + s) == Class(p, x, s)
  {
    assert ([y] + s)[1..] == s && [] + s == s;
  }

  /** A class of a sorted list is sorted. */
  lemma {:induction false} ClassOfSortedIsSorted(p: Pass, q: Pass, x: Row, s: seq<Row>)
    requires Sorted(p, s)
    ensures Sorted(p, Class(q, x, s))
  {
    if s != [] {
      ClassOfSortedIsSorted(p, q, x, s[1..]);
      forall y | y in Class(q, x, s[1..])
        ensures Le(p, s[0], y)
      {
        ClassMembers(q, x, s[1..], y);
      }
      ClassTail(q, x, s);
    }
  }

  /** Sorted by the chosen key, with every class in default order, is sorted by both. */
  lemma {:induction false} SortedByBoth(sortBy: SortBy, direction: Direction, s: seq<Row>)
    requires Sorted(ByCustom(sortBy, direction), s)
    requires forall x :: Sorted(ByDefault, Class(ByCustom(sortBy, direction), x, s))
    ensures Sorted(ByBoth(sortBy, direction), s)
  {
    if s != [] {
      var p := ByCustom(sortBy, direction);
      forall y | y in s[1..]
        ensures Le(ByBoth(sortBy, direction), s[0], y)
      {
        CustomTies(sortBy, direction, s[0], y);
        CustomTies(sortBy, direction, s[0], s[0]);
        assert Sorted(ByDefault, Class(p, s[0], s));
        ClassMembers(p, s[0], s[1..], y);
        ClassTail(p, s[0], s);
      }
      forall x
        ensures Sorted(ByDefault, Class(p, x, s[1..]))
      {
        assert Sorted(ByDefault, Class(p, x, s));
        ClassTail(p, x, s);
      }
      SortedByBoth(sortBy, direction, s[1..]);
    }
  }

  /**
   The two passes are one stable sort by (chosen key in the chosen direction, default key ascending):
   rows that agree on both keep the order of the input.
   */
  lemma TwoPassesAreOneSort(rows: seq<Row>, sortBy: SortBy, direction: Direction)
    requires sortBy != Unset
    ensures TwoPasses(rows, sortBy, direction) == StableSort(ByBoth(sortBy, direction), rows)
    ensures StablySorted(ByBoth(sortBy, direction), rows, TwoPasses(rows, sortBy, direction))
  {
    var p, both := ByCustom(sortBy, direction), ByBoth(sortBy, direction);
    var first := StableSort(ByDefault, rows);
    var second := StableSort(p, first);
    StableSortIsStable(ByDefault, rows);
    StableSortIsStable(p, first);
    forall x
      ensures Sorted(ByDefault, Class(p, x, second))
    {
      ClassOfSortedIsSorted(ByDefault, p, x, first);
    }
    SortedByBoth(sortBy, direction, second);
    forall x
      ensures Class(both, x, second) == Class(both, x, rows)
    {
      ClassOfBoth(sortBy, direction, x, second);
      ClassOfBoth(sortBy, direction, x, first);
      ClassOfBoth(sortBy, direction, x, rows);
    }
    StableSortIsStable(both, rows);
    StableSortIsUnique(both, second, StableSort(both, rows));
  }

  lemma {:induction false} SortIsPermutation(p: Pass, rows: seq<Row>)
    ensures multiset(StableSort(p, rows)) == multiset(rows)
  {
    if rows != [] {
      SortIsPermutation(p, rows[1..]);
      InsertIsPermutation(p, rows[0], StableSort(p, rows[1..]));
      assert rows == [rows[0]] + rows[1..];
    }
  }

  lemma {:induction false} InsertIsPermutation(p: Pass, x: Row, s: seq<Row>)
    ensures multiset(Insert(p, x, s)) == multiset{x} + multiset(s)
  {
    if s != [] && !Le(p, x, s[0]) {
      InsertIsPermutation(p, x, s[1..]);
      assert s == [s[0]] + s[1..];
    }
  }

  // ---- the list that is sorted in place ----

  class PreparedRows {
    var rows: seq<Row>

    constructor (rows: seq<Row>)
      ensures this.rows == rows
    {
      this.rows := rows;
    }

    /** `_sort_prepared_rows` */
    method SortPreparedRows(sortBy: SortBy, direction: Direction, selectedYears: seq<int>) returns (normalized: SortBy)
      modifies this
      ensures normalized == Normalized(sortBy, selectedYears)
      ensures rows == if normalized == Unset then StableSort(ByDefault, old(rows))
                      else StableSort(ByBoth(normalized, direction), old(rows))
      ensures multiset(rows) == multiset(old(rows))
    {
      rows := StableSort(ByDefault, rows);
      normalized := Normalized(sortBy, selectedYears);
      if normalized != Unset {
        rows := StableSort(ByCustom(normalized, direction), rows);
        TwoPassesAreOneSort(old(rows), normalized, direction);
      }
      SortIsPermutation(ByDefault, old(rows));
      SortIsPermutation(ByBoth(normalized, direction), old(rows));
    }
  }

  // ---- which years are shown ----

  /** `_resolve_years` on the sorted list of available years. */
  function ResolveYears(yearFrom: Option<int>, yearTo: Option<int>, available: seq<int>)
    : (Option<int>, Option<int>, seq<int>)
  {
    if available == [] then (None, None, [])
    else
      var from := if yearFrom.Some? && yearFrom.value in available then yearFrom.value else available[0];
      var to := if yearTo.Some? && yearTo.value in available then yearTo.value else available[|available| - 1];
      var low, high := if from <= to then from else to, if from <= to then to else from;
      var selected := Between(available, low, high);
      if selected == [] then (Some(available[0]), Some(available[|available| - 1]), available)
      else (Some(low), Some(high), selected)
  }

  function Between(years: seq<int>, low: int, high: int): seq<int> {
    if years == [] then [] else (if low <= years[0] <= high then [years[0]] else []) + Between(years[1..], low, high)
  }

  lemma {:induction false} BetweenHolds(years: seq<int>, low: int, high: int)
    ensures forall y :: y in Between(years, low, high) <==> y in years && low <= y <= high
  {
    if years != [] {
      BetweenHolds(years[1..], low, high);
      assert years == [years[0]] + years[1..];
    }
  }

  /** Both ends are shown whatever the filter asks for, so the fallback for an empty selection is never taken. */
  lemma ResolvedYearsAreShown(yearFrom: Option<int>, yearTo: Option<int>, available: seq<int>)
    requires available != []
    ensures var (low, high, selected) := ResolveYears(yearFrom, yearTo, available);
            && low.Some? && high.Some? && low.value <= high.value
            && low.value in selected && high.value in selected
            && (forall y :: y in selected <==> y in available && low.value <= y <= high.value)
            && (yearFrom.Some? && yearTo.Some? && yearFrom.value in available && yearTo.value in available ==>
                  {low.value, high.value} == {yearFrom.value, yearTo.value})
  {
    var from := if yearFrom.Some? && yearFrom.value in available then yearFrom.value else available[0];
    var to := if yearTo.Some? && yearTo.value in available then yearTo.value else available[|available| - 1];
    var low, high := if from <= to then from else to, if from <= to then to else from;
    BetweenHolds(available, low, high);
    assert low in Between(available, low, high) && high in Between(available, low, high);
  }
}
