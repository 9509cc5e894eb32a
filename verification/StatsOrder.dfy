/** The order in which a reader of the statistics table sees its rows, column by column. */
module StatsOrder {
  import opened Options
  import opened StatsSort

  // ---- the values that are compared ----

  /** A row without a date counts as the first of January of the year 1. */
  function DateOf(r: Row): nat {
    match r.signingDate
    case None => 1
    case Some(d) => d
  }

  function NumberOf(r: Row): string {
    match r.number
    case None => ""
    case Some(number) => number
  }

  function IdOf(r: Row): int {
    match r.contractId
    case None => 0
    case Some(id) => id
  }

  /** The row shows `value` for the year: the first one listed, or zero. */
  ghost predicate Shows(r: Row, year: int, value: int) {
    || (exists k :: FirstOfYear(r.years, k, year) && r.years[k].value == value)
    || (value == 0 && forall k | 0 <= k < |r.years| :: r.years[k].year != year)
  }

  predicate FirstOfYear(years: seq<YearValue>, k: int, year: int) {
    0 <= k < |years| && years[k].year == year && forall i | 0 <= i < k :: years[i].year != year
  }

  /** Dictionary order: the texts agree up to some place, and there `s` ends or has the smaller character. */
  predicate Precedes(s: string, t: string) {
    exists k | 0 <= k < |t| :: DiffersAt(s, t, k)
  }

  predicate DiffersAt(s: string, t: string, k: nat)
    requires k < |t|
  {
    k <= |s| && s[..k] == t[..k] && (k == |s| || s[k] < t[k])
  }

  // ---- the order ----

  /** By name, then by date, by contract number, and by contract id. */
  predicate DefaultOrder(a: Row, b: Row) {
    || Precedes(a.name, b.name)
    || (a.name == b.name && DateOf(a) < DateOf(b))
    || (a.name == b.name && DateOf(a) == DateOf(b) && Precedes(NumberOf(a), NumberOf(b)))
    || (a.name == b.name && DateOf(a) == DateOf(b) && NumberOf(a) == NumberOf(b) && IdOf(a) <= IdOf(b))
  }

  /** A column of the table that may be sorted by; a year has to be among those shown. */
  predicate Sortable(sortBy: SortBy, selectedYears: seq<int>) {
    || sortBy == OrganizationName || sortBy == SigningDate || sortBy == TotalForPeriod
    || (sortBy.Year? && sortBy.year in selectedYears)
  }

  ghost predicate Below(a: Row, b: Row, sortBy: SortBy) {
    match sortBy
    case OrganizationName => Precedes(a.name, b.name)
    case SigningDate => DateOf(a) < DateOf(b)
    case TotalForPeriod => a.total < b.total
    case Year(year) => exists m, n :: Shows(a, year, m) && Shows(b, year, n) && m < n
    case _ => false
  }

  ghost predicate Level(a: Row, b: Row, sortBy: SortBy) {
    match sortBy
    case OrganizationName => a.name == b.name
    case SigningDate => DateOf(a) == DateOf(b)
    case TotalForPeriod => a.total == b.total
    case Year(year) => exists n :: Shows(a, year, n) && Shows(b, year, n)
    case _ => true
  }

  /** Ascending or descending in the column; rows that are level there, and all rows without one, in default order. */
  ghost predicate InOrder(a: Row, b: Row, sortBy: SortBy, direction: Direction, selectedYears: seq<int>) {
    if Sortable(sortBy, selectedYears) then
      || (direction == Ascending && Below(a, b, sortBy))
      || (direction == Descending && Below(b, a, sortBy))
      || (Level(a, b, sortBy) && DefaultOrder(a, b))
    else DefaultOrder(a, b)
  }

  // ---- keys say the same ----

  lemma {:induction false} TextOrder(s: string, t: string)
    requires TextLe(s, t)
    ensures s == t || Precedes(s, t)
  {
    if s == "" {
      assert t == "" || DiffersAt(s, t, 0);
    } else if s[0] != t[0] {
      assert DiffersAt(s, t, 0);
    } else {
      TextOrder(s[1..], t[1..]);
      assert s == [s[0]] + s[1..] && t == [t[0]] + t[1..];
      if s[1..] != t[1..] {
        var k: nat :| k < |t[1..]| && DiffersAt(s[1..], t[1..], k);
        assert s[..k + 1] == [s[0]] + s[1..][..k] && t[..k + 1] == [t[0]] + t[1..][..k];
        assert DiffersAt(s, t, k + 1);
      }
    }
  }

  lemma KeyLeFirst(a: Component, rest: seq<Component>, b: Component, rest': seq<Component>)
    requires KeyLe([a] + rest, [b] + rest')
    ensures if a == b then KeyLe(rest, rest') else ComponentLe(a, b)
  {
    assert ([a] + rest)[1..] == rest && ([b] + rest')[1..] == rest';
  }

  lemma DefaultKeyOrder(a: Row, b: Row)
    requires KeyLe(DefaultKey(a), DefaultKey(b))
    ensures DefaultOrder(a, b)
  {
    var m, n := Number(IdOf(a)), Number(IdOf(b));
    var p, q := Text(NumberOf(a)), Text(NumberOf(b));
    var d, e := Number(DateOf(a)), Number(DateOf(b));
    assert DefaultKey(a) == [Text(a.name)] + ([d] + ([p] + [m]));
    assert DefaultKey(b) == [Text(b.name)] + ([e] + ([q] + [n]));
    KeyLeFirst(Text(a.name), [d] + ([p] + [m]), Text(b.name), [e] + ([q] + [n]));
    if a.name != b.name {
      TextOrder(a.name, b.name);
    } else {
      KeyLeFirst(d, [p] + [m], e, [q] + [n]);
      if d == e {
        KeyLeFirst(p, [m], q, [n]);
        if p != q {
          TextOrder(NumberOf(a), NumberOf(b));
        } else {
          assert [m] == [m] + [] && [n] == [n] + [];
          KeyLeFirst(m, [], n, []);
        }
      }
    }
  }

  lemma {:induction false} YearIsShown(r: Row, years: seq<YearValue>, from: nat, year: int)
    requires from <= |r.years| && years == r.years[from..]
    requires forall k | 0 <= k < from :: r.years[k].year != year
    ensures Shows(r, year, YearCount(years, year))
    decreases |years|
  {
    if years != [] {
      if years[0].year == year {
        assert FirstOfYear(r.years, from, year);
      } else {
        YearIsShown(r, years[1..], from + 1, year);
      }
    }
  }

  lemma CustomKeyOrder(a: Row, b: Row, sortBy: SortBy, selectedYears: seq<int>)
    requires Sortable(sortBy, selectedYears)
    ensures CustomKey(a, sortBy) == CustomKey(b, sortBy) ==> Level(a, b, sortBy)
    ensures CustomKey(a, sortBy) != CustomKey(b, sortBy) && KeyLe(CustomKey(a, sortBy), CustomKey(b, sortBy)) ==>
              Below(a, b, sortBy)
  {
    if sortBy.Year? {
      assert a.years[0..] == a.years && b.years[0..] == b.years;
      YearIsShown(a, a.years, 0, sortBy.year);
      YearIsShown(b, b.years, 0, sortBy.year);
    } else if sortBy == OrganizationName && TextLe(a.name, b.name) {
      TextOrder(a.name, b.name);
    }
  }

  lemma {:induction false} SortedAt(p: Pass, s: seq<Row>, i: nat, j: nat)
    requires Sorted(p, s) && i < j < |s|
    ensures Le(p, s[i], s[j])
    decreases i
  {
    if i == 0 {
      assert s[j] == s[1..][j - 1];
    } else {
      SortedAt(p, s[1..], i - 1, j - 1);
    }
  }

  lemma LeIsInOrder(a: Row, b: Row, sortBy: SortBy, direction: Direction, selectedYears: seq<int>)
    requires var column := Normalized(sortBy, selectedYears);
             Le(if column == Unset then ByDefault else ByBoth(column, direction), a, b)
    ensures InOrder(a, b, sortBy, direction, selectedYears)
  {
    if Sortable(sortBy, selectedYears) {
      CustomKeyOrder(a, b, sortBy, selectedYears);
      CustomKeyOrder(b, a, sortBy, selectedYears);
      if CustomKey(a, sortBy) == CustomKey(b, sortBy) {
        DefaultKeyOrder(a, b);
      }
    } else {
      DefaultKeyOrder(a, b);
    }
  }

  /** Whatever the filter asks for, any two rows of the sorted table are in the order of the column it names. */
  lemma TableIsInOrder(rows: seq<Row>, sortBy: SortBy, direction: Direction, selectedYears: seq<int>, i: nat, j: nat)
    requires i < j < |rows|
    ensures var column := Normalized(sortBy, selectedYears);
            var table := StableSort(if column == Unset then ByDefault else ByBoth(column, direction), rows);
            && column == (if Sortable(sortBy, selectedYears) then sortBy else Unset)
            && |table| == |rows| && multiset(table) == multiset(rows)
            && InOrder(table[i], table[j], sortBy, direction, selectedYears)
  {
    var column := Normalized(sortBy, selectedYears);
    var pass := if column == Unset then ByDefault else ByBoth(column, direction);
    var table := StableSort(pass, rows);
    SortIsPermutation(pass, rows);
    assert |table| == |multiset(table)| == |multiset(rows)| == |rows|;
    StableSortIsStable(pass, rows);
    SortedAt(pass, table, i, j);
    LeIsInOrder(table[i], table[j], sortBy, direction, selectedYears);
  }
}
